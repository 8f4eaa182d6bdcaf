/** Equality as src/love/arr.c steps it, against equality by plain unfolding: there a thread's reference into itself
    is a word like any other, compared by what it leads to. */
module EqvPlain {
  import opened Options
  import opened EqvSpec
  import opened EqvTree

  /** Two words of two threads, neither read as a place in its own. */
  function PlainWords(h: Heap, x: Word, y: Word): (r: Verdict) {
    if x == y then (if Yield(x) then Differ else Same)
    else if x.Charm? || y.Charm? then Differ
    else if h.In(x) && h.In(y) then Ask else Differ
  }

  /** Two words hold, where R does. */
  ghost predicate PlainHolds(h: Heap, R: iset<Pair>, x: Word, y: Word) {
    PlainWords(h, x, y) != Differ && (PlainWords(h, x, y) == Ask ==> Pair(x, y) in R)
  }

  ghost predicate PlainStep(h: Heap, R: iset<Pair>, p: Pair)
    requires h.Ok()
  {
    if Deep(h, p) then
      var xs, ys := From(h, Met(h, p).a), From(h, Met(h, p).b);
      |xs| == |ys| && forall i :: 0 <= i < |xs| ==> PlainHolds(h, R, xs[i], ys[i])
    else DataStep(h, R, p.a, p.b)
  }

  ghost predicate PlainBisimulation(h: Heap, R: iset<Pair>)
    requires h.Ok()
  { forall p :: p in R ==> PlainStep(h, R, p) }

  ghost predicate PlainSame(h: Heap, p: Pair)
    requires h.Ok()
  { exists R: iset<Pair> :: PlainBisimulation(h, R) && p in R }

  // ----- pairs the code comes to

  predicate Kid(h: Heap, q: Pair, p: Pair)
    requires h.Ok()
  { Kids(h, q.a, q.b).Some? && p in Kids(h, q.a, q.b).value }

  /** The code's steps stay in S. */
  ghost predicate Closed(h: Heap, S: iset<Pair>)
    requires h.Ok()
  { forall q, p :: q in S && Kid(h, q, p) ==> p in S }

  /** p is in all that holds p0 and that the code's steps stay in: it comes to p. */
  ghost predicate Reached(h: Heap, p0: Pair, p: Pair)
    requires h.Ok()
  { forall S: iset<Pair> :: p0 in S && Closed(h, S) ==> p in S }

  lemma ReachedNext(h: Heap, p0: Pair, p: Pair, q: Pair)
    requires h.Ok() && Reached(h, p0, p) && Kid(h, p, q)
    ensures Reached(h, p0, q)
  {
  }

  lemma KidBisimilar(h: Heap, q: Pair, p: Pair)
    requires h.Ok() && h.Sound(q.a) && h.Sound(q.b) && Bisimilar(h, q.a, q.b) && Kid(h, q, p)
    ensures Bisimilar(h, p.a, p.b) && h.Sound(p.a) && h.Sound(p.b)
  {
    KidsBisimilar(h, q.a, q.b);
    KidsLess(h, q);
  }

  lemma ReachedBisimilar(h: Heap, p0: Pair, p: Pair)
    requires h.Ok() && Bisimilar(h, p0.a, p0.b) && h.Sound(p0.a) && h.Sound(p0.b) && Reached(h, p0, p)
    ensures Bisimilar(h, p.a, p.b) && h.Sound(p.a) && h.Sound(p.b) && Kids(h, p.a, p.b).Some?
  {
    var S := iset q: Pair | Bisimilar(h, q.a, q.b) && h.Sound(q.a) && h.Sound(q.b);
    forall q, r | q in S && Kid(h, q, r) ensures r in S { KidBisimilar(h, q, r); }
    assert Closed(h, S) && p0 in S;
    KidsBisimilar(h, p.a, p.b);
  }

  lemma PlainMono(h: Heap, R: iset<Pair>, S: iset<Pair>, p: Pair)
    requires h.Ok() && PlainStep(h, R, p) && R <= S
    ensures PlainStep(h, S, p)
  {
  }

  /** What the code compares next, plain unfolding compares. */
  lemma PlainKids(h: Heap, p: Pair, q: Pair)
    requires h.Ok() && PlainSame(h, p) && Kid(h, p, q)
    ensures PlainSame(h, q)
  {
    var R: iset<Pair> :| PlainBisimulation(h, R) && p in R;
    assert PlainStep(h, R, p);
    if Deep(h, p) {
      DeepKids(h, p);
      var xs, ys := From(h, Met(h, p).a), From(h, Met(h, p).b);
      var i :| 0 <= i < |xs| == |ys| && xs[i] == q.a && ys[i] == q.b;
      assert PlainHolds(h, R, xs[i], ys[i]) && PlainWords(h, q.a, q.b) == Ask;
      assert q == Pair(q.a, q.b);
    }
  }

  lemma ReachedPlain(h: Heap, p0: Pair, p: Pair)
    requires h.Ok() && PlainSame(h, p0) && Reached(h, p0, p)
    ensures PlainSame(h, p)
  {
    var S := iset q | PlainSame(h, q);
    forall q, r | q in S && Kid(h, q, r) ensures r in S { PlainKids(h, q, r); }
    assert Closed(h, S) && p0 in S;
  }

  /** Words that are places of their own threads, as far from the threads' entries. */
  predicate Twins(h: Heap, p: Pair, x: Word, y: Word)
    requires h.Ok() && Deep(h, p)
  {
    var m := Met(h, p);
    var s, t := Self(h, x, m.a), Self(h, y, m.b);
    s.Some? && t.Some? && s.value.off - m.a.off == t.value.off - m.b.off
  }

  /** A word that is a place of its own thread against one that is not, or is another. */
  predicate Unmatched(h: Heap, p: Pair, x: Word, y: Word)
    requires h.Ok() && Deep(h, p)
  {
    var m := Met(h, p);
    x != y && !x.Charm? && !y.Charm? && (Self(h, x, m.a).Some? || Self(h, y, m.b).Some?) && !Twins(h, p, x, y)
  }

  ghost predicate NoneUnmatched(h: Heap, p: Pair)
    requires h.Ok()
  { Deep(h, p) ==> forall x, y :: WordAt(h, p, x, y) ==> !Unmatched(h, p, x, y) }

  /** Two words plainly equal are so for the code just where no two threads it comes to hold an unmatched
      reference. */
  lemma PlainIsBisimilar(h: Heap, p0: Pair)
    requires h.Ok() && h.Sound(p0.a) && h.Sound(p0.b) && PlainSame(h, p0)
    ensures Bisimilar(h, p0.a, p0.b) <==> forall p :: Reached(h, p0, p) ==> NoneUnmatched(h, p)
  {
    if Bisimilar(h, p0.a, p0.b) {
      forall p | Reached(h, p0, p) ensures NoneUnmatched(h, p) {
        ReachedBisimilar(h, p0, p);
        if Deep(h, p) { DeepKids(h, p); }
      }
    }
    if forall p :: Reached(h, p0, p) ==> NoneUnmatched(h, p) {
      var R := iset p | Reached(h, p0, p);
      forall p | p in R ensures var k := Kids(h, p.a, p.b); k.Some? && forall i :: 0 <= i < |k.value| ==> k.value[i] in R {
        ReachedPlain(h, p0, p);
        PlainGoesOn(h, p);
        var k := Kids(h, p.a, p.b);
        forall i | 0 <= i < |k.value| ensures k.value[i] in R { ReachedNext(h, p0, p, k.value[i]); }
      }
      assert Reached(h, p0, p0);
      assert Bisimulation(h, R) && Pair(p0.a, p0.b) in R;
    }
  }

  lemma PlainGoesOn(h: Heap, p: Pair)
    requires h.Ok() && PlainSame(h, p) && NoneUnmatched(h, p)
    ensures Kids(h, p.a, p.b).Some?
  {
    var R: iset<Pair> :| PlainBisimulation(h, R) && p in R;
    assert PlainStep(h, R, p);
    if Deep(h, p) {
      DeepKids(h, p);
      var xs, ys := From(h, Met(h, p).a), From(h, Met(h, p).b);
      forall i | 0 <= i < |xs| ensures Verdict1(h, p, xs[i], ys[i]) != Differ {
        assert PlainHolds(h, R, xs[i], ys[i]) && WordAt(h, p, xs[i], ys[i]);
      }
    }
  }

  // ----- references back

  /** Twins behind their threads' entries, which the code takes as equal without a look. */
  predicate Behind(h: Heap, p: Pair, x: Word, y: Word)
    requires h.Ok() && Deep(h, p)
  { x != y && !x.Charm? && !y.Charm? && Twins(h, p, x, y) && Self(h, x, Met(h, p).a).value.off < Met(h, p).a.off }

  ghost predicate BehindSame(h: Heap, p: Pair)
    requires h.Ok()
  { Deep(h, p) ==> forall x, y :: WordAt(h, p, x, y) && Behind(h, p, x, y) ==> PlainSame(h, Pair(x, y)) }

  /** q is p's two threads from d words on. */
  ghost predicate Later(h: Heap, p: Pair, q: Pair, d: nat)
    requires h.Ok() && Deep(h, p)
  {
    var m := Met(h, p);
    && h.Fun(q.a) && h.Fun(q.b) && !h.IsCoin(q.a) && !h.IsCoin(q.b) && d <= |From(h, m.a)|
    && Met(h, q) == Pair(Ptr(m.a.o, m.a.off + d), Ptr(m.b.o, m.b.off + d))
  }

  ghost predicate LaterThan(h: Heap, p0: Pair, q: Pair)
    requires h.Ok()
  { exists p, d: nat :: Reached(h, p0, p) && Deep(h, p) && Later(h, p, q, d) }

  ghost function Related(h: Heap, p0: Pair): (R: iset<Pair>)
    requires h.Ok()
  { iset q | Reached(h, p0, q) || PlainSame(h, q) || LaterThan(h, p0, q) }

  /** A place of a thread in the heap, or what stands for one, is in the heap. */
  lemma SelfIn(h: Heap, x: Word, a: Word)
    requires h.Ok() && h.In(a) && h.IsThread(a) && h.Sound(x) && Self(h, x, a).Some?
    ensures h.In(x) && h.Fun(x) && !h.IsCoin(x) && Meaning(h, x) == Self(h, x, a).value
    ensures Self(h, x, a).value.Ptr? && Self(h, x, a).value.o == a.o && Self(h, x, a).value.off <= |h.objs[a.o].ws|
  {
  }

  lemma WordsSound(h: Heap, a: Word, i: nat)
    requires h.Ok() && h.IsThread(a) && i < |From(h, a)|
    ensures h.Sound(From(h, a)[i])
  {
    assert h.Built(a.o);
  }

  /** A word of two threads the code found equal holds plainly, what it skipped behind being so. */
  lemma WordHolds(h: Heap, p0: Pair, p: Pair, i: nat)
    requires h.Ok() && Reached(h, p0, p) && Deep(h, p) && h.Sound(p.a) && h.Sound(p.b) && Kids(h, p.a, p.b).Some? && BehindSame(h, p)
    requires i < |From(h, Met(h, p).a)|
    ensures |From(h, Met(h, p).b)| == |From(h, Met(h, p).a)|
    ensures PlainHolds(h, Related(h, p0), From(h, Met(h, p).a)[i], From(h, Met(h, p).b)[i])
  {
    DeepKids(h, p);
    var m := Met(h, p);
    var x, y := From(h, m.a)[i], From(h, m.b)[i];
    assert WordAt(h, p, x, y) && Verdict1(h, p, x, y) != Differ;
    if x != y && Twins(h, p, x, y) {
      WordsSound(h, m.a, i);
      WordsSound(h, m.b, i);
      SelfIn(h, x, m.a);
      SelfIn(h, y, m.b);
      if !Behind(h, p, x, y) {
        assert Later(h, p, Pair(x, y), Self(h, x, m.a).value.off - m.a.off);
        assert LaterThan(h, p0, Pair(x, y));
      }
    } else if x != y {
      ReachedNext(h, p0, p, Pair(x, y));
    }
  }

  lemma LaterWords(h: Heap, p: Pair, q: Pair, d: nat)
    requires h.Ok() && Deep(h, p) && Later(h, p, q, d)
    ensures Deep(h, q)
    ensures From(h, Met(h, q).a) == From(h, Met(h, p).a)[d..]
    ensures d <= |From(h, Met(h, p).b)| ==> From(h, Met(h, q).b) == From(h, Met(h, p).b)[d..]
  {
  }

  lemma LaterStep(h: Heap, p0: Pair, p: Pair, q: Pair, d: nat)
    requires h.Ok() && Reached(h, p0, p) && Deep(h, p) && h.Sound(p.a) && h.Sound(p.b) && Kids(h, p.a, p.b).Some? && BehindSame(h, p)
    requires Later(h, p, q, d)
    ensures PlainStep(h, Related(h, p0), q)
  {
    assert |From(h, Met(h, p).a)| == |From(h, Met(h, p).b)| by { DeepKids(h, p); }
    LaterWords(h, p, q, d);
    var xs, ys := From(h, Met(h, q).a), From(h, Met(h, q).b);
    forall i | 0 <= i < |xs| ensures PlainHolds(h, Related(h, p0), xs[i], ys[i]) { WordHolds(h, p0, p, d + i); }
  }

  lemma ReachedStep(h: Heap, p0: Pair, p: Pair)
    requires h.Ok() && Reached(h, p0, p) && h.Sound(p.a) && h.Sound(p.b) && Kids(h, p.a, p.b).Some? && BehindSame(h, p)
    ensures PlainStep(h, Related(h, p0), p)
  {
    if Deep(h, p) {
      DeepKids(h, p);
      var xs, ys := From(h, Met(h, p).a), From(h, Met(h, p).b);
      forall i | 0 <= i < |xs| ensures PlainHolds(h, Related(h, p0), xs[i], ys[i]) { WordHolds(h, p0, p, i); }
    } else {
      forall q | q in Kids(h, p.a, p.b).value ensures q in Related(h, p0) { ReachedNext(h, p0, p, q); }
    }
  }

  lemma SameStep(h: Heap, p0: Pair, q: Pair)
    requires h.Ok() && PlainSame(h, q)
    ensures PlainStep(h, Related(h, p0), q)
  {
    var R: iset<Pair> :| PlainBisimulation(h, R) && q in R;
    forall r | r in R ensures r in Related(h, p0) {}
    PlainMono(h, R, Related(h, p0), q);
  }

  lemma RelatedIs(h: Heap, p0: Pair)
    requires h.Ok() && h.Sound(p0.a) && h.Sound(p0.b) && Bisimilar(h, p0.a, p0.b)
    requires forall p :: Reached(h, p0, p) ==> BehindSame(h, p)
    ensures PlainSame(h, p0)
  {
    var S := Related(h, p0);
    forall q | q in S ensures PlainStep(h, S, q) {
      if PlainSame(h, q) {
        SameStep(h, p0, q);
      } else if Reached(h, p0, q) {
        ReachedBisimilar(h, p0, q);
        ReachedStep(h, p0, q);
      } else {
        var p, d: nat :| Reached(h, p0, p) && Deep(h, p) && Later(h, p, q, d);
        ReachedBisimilar(h, p0, p);
        LaterStep(h, p0, p, q, d);
      }
    }
    assert Reached(h, p0, p0);
    assert PlainBisimulation(h, S) && p0 in S;
  }

  /** Two words equal for the code are plainly so just where, in all two threads it comes to, the twins behind the
      entries are. */
  lemma BisimilarIsPlain(h: Heap, p0: Pair)
    requires h.Ok() && h.Sound(p0.a) && h.Sound(p0.b) && Bisimilar(h, p0.a, p0.b)
    ensures PlainSame(h, p0) <==> forall p :: Reached(h, p0, p) ==> BehindSame(h, p)
  {
    if PlainSame(h, p0) {
      forall p | Reached(h, p0, p) ensures BehindSame(h, p) {
        ReachedPlain(h, p0, p);
        BehindPlain(h, p);
      }
    }
    if forall p :: Reached(h, p0, p) ==> BehindSame(h, p) { RelatedIs(h, p0); }
  }

  lemma BehindPlain(h: Heap, p: Pair)
    requires h.Ok() && PlainSame(h, p)
    ensures BehindSame(h, p)
  {
    var R: iset<Pair> :| PlainBisimulation(h, R) && p in R;
    assert PlainStep(h, R, p);
    if Deep(h, p) {
      forall x, y | WordAt(h, p, x, y) && Behind(h, p, x, y) ensures PlainSame(h, Pair(x, y)) {
        var xs, ys := From(h, Met(h, p).a), From(h, Met(h, p).b);
        var i :| 0 <= i < |xs| == |ys| && xs[i] == x && ys[i] == y;
        assert PlainHolds(h, R, xs[i], ys[i]);
      }
    }
  }

  // ----- both happen

  function Two(a: seq<Word>, b: seq<Word>, c: seq<Word>): (h: Heap) {
    Heap(map[0 := Thread(a), 1 := Thread(b), 2 := Thread(c)], {0, 1, 2}, (t: nat, x: seq<int>, y: seq<int>) => x == y, (o: nat) => 0)
  }

  lemma TwoDeep(h: Heap, p: Pair)
    requires h.Ok() && h.In(p.a) && h.In(p.b) && h.IsThread(p.a) && h.IsThread(p.b) && p.a != p.b
    ensures Deep(h, p) && Met(h, p) == p
  {
  }

  /** Entered past their first words, which differ, two threads that refer to those are equal for the code and not
      plainly. */
  lemma BehindDiffers()
    ensures var h, p := Two([Charm(1), Ptr(0, 0)], [Charm(2), Ptr(1, 0)], []), Pair(Ptr(0, 1), Ptr(1, 1));
            h.Ok() && h.Sound(p.a) && h.Sound(p.b) && Bisimilar(h, p.a, p.b) && !PlainSame(h, p)
  {
    var h, p, q := Two([Charm(1), Ptr(0, 0)], [Charm(2), Ptr(1, 0)], []), Pair(Ptr(0, 1), Ptr(1, 1)), Pair(Ptr(0, 0), Ptr(1, 0));
    forall o | o in h.objs ensures h.Built(o) {}
    TwoDeep(h, p);
    TwoDeep(h, q);
    assert From(h, p.a) == [Ptr(0, 0)] && From(h, p.b) == [Ptr(1, 0)];
    DeepKids(h, p);
    assert Verdict1(h, p, Ptr(0, 0), Ptr(1, 0)) == Same;
    assert From(h, p.a)[..0] == [] && From(h, p.b)[..0] == [];
    assert ThreadKids(h, p.a, p.b, From(h, p.a), From(h, p.b)) == Some([]);
    assert Bisimulation(h, iset{p});
    assert From(h, q.a)[0] == Charm(1) && From(h, q.b)[0] == Charm(2);
    forall R: iset<Pair> ensures !(PlainBisimulation(h, R) && p in R) {
      assert PlainStep(h, R, q) ==> PlainHolds(h, R, From(h, q.a)[0], From(h, q.b)[0]);
      assert PlainStep(h, R, p) ==> PlainHolds(h, R, From(h, p.a)[0], From(h, p.b)[0]);
      assert PlainStep(h, R, p) ==> q in R;
    }
  }

  /** A thread that refers to itself, and one that refers to another that does, are plainly equal and not for the
      code. */
  lemma UnmatchedDiffers()
    ensures var h, p := Two([Ptr(0, 0)], [Ptr(2, 0)], [Ptr(2, 0)]), Pair(Ptr(0, 0), Ptr(1, 0));
            h.Ok() && h.Sound(p.a) && h.Sound(p.b) && !Bisimilar(h, p.a, p.b) && PlainSame(h, p)
  {
    var h, p, q := Two([Ptr(0, 0)], [Ptr(2, 0)], [Ptr(2, 0)]), Pair(Ptr(0, 0), Ptr(1, 0)), Pair(Ptr(0, 0), Ptr(2, 0));
    forall o | o in h.objs ensures h.Built(o) {}
    TwoDeep(h, p);
    TwoDeep(h, q);
    assert From(h, p.a) == [Ptr(0, 0)] && From(h, p.b) == [Ptr(2, 0)] && From(h, q.b) == [Ptr(2, 0)];
    DeepKids(h, p);
    assert Verdict1(h, p, Ptr(0, 0), Ptr(2, 0)) == Differ;
    if Bisimilar(h, p.a, p.b) { KidsBisimilar(h, p.a, p.b); }
    var R := iset{p, q};
    assert PlainStep(h, R, p) && PlainStep(h, R, q);
    assert PlainBisimulation(h, R);
  }
}
