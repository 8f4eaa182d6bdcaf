/** What `sortby` is for, as pure functions: a bottom-up merge sort over a comparator, and the
    proof that under a total preorder it is the stable sort. */
module MergeSpec {

  ghost predicate TotalPreorder<T(!new)>(le: (T, T) -> bool) {
    && (forall p, q :: le(p, q) || le(q, p))
    && (forall p, q, r :: le(p, q) && le(q, r) ==> le(p, r))
  }

  /** The left run's head goes out on a yes, ties included. */
  function Merge<T>(le: (T, T) -> bool, s: seq<T>, t: seq<T>): (r: seq<T>)
    ensures |r| == |s| + |t|
    decreases |s| + |t|
  {
    if s == [] then t
    else if t == [] then s
    else if le(s[0], t[0]) then [s[0]] + Merge(le, s[1..], t)
    else [t[0]] + Merge(le, s, t[1..])
  }

  function Cut<T>(s: seq<T>, k: nat): (r: seq<T>) { if k <= |s| then s[..k] else s }

  function Rest<T>(s: seq<T>, k: nat): (r: seq<T>) { if k <= |s| then s[k..] else [] }

  /** One pass: every two neighbouring runs of w merge. */
  function MergePass<T>(le: (T, T) -> bool, s: seq<T>, w: nat): (r: seq<T>)
    requires w >= 1
    ensures |r| == |s|
    decreases |s|
  {
    if s == [] then []
    else Merge(le, Cut(s, w), Cut(Rest(s, w), w)) + MergePass(le, Rest(Rest(s, w), w), w)
  }

  /** Passes until one run covers the whole. */
  function MergeAll<T>(le: (T, T) -> bool, s: seq<T>, w: nat): (r: seq<T>)
    requires w >= 1
    ensures |r| == |s|
    decreases if w < |s| then |s| - w else 0
  {
    if w >= |s| then s else MergeAll(le, MergePass(le, s, w), 2 * w)
  }

  // ----- sorted, a permutation, stable

  ghost predicate Sorted<T>(le: (T, T) -> bool, s: seq<T>) {
    forall i, j :: 0 <= i < j < |s| ==> le(s[i], s[j])
  }

  /** The elements of s that tie with t, in their order. */
  ghost function Ties<T>(le: (T, T) -> bool, t: T, s: seq<T>): (r: seq<T>) {
    if s == [] then []
    else if le(s[0], t) && le(t, s[0]) then [s[0]] + Ties(le, t, s[1..])
    else Ties(le, t, s[1..])
  }

  ghost predicate StableSortOf<T(!new)>(le: (T, T) -> bool, s: seq<T>, r: seq<T>) {
    && Sorted(le, r)
    && multiset(r) == multiset(s)
    && forall t :: Ties(le, t, r) == Ties(le, t, s)
  }

  lemma {:induction false} TiesConcat<T>(le: (T, T) -> bool, t: T, s: seq<T>, u: seq<T>)
    ensures Ties(le, t, s + u) == Ties(le, t, s) + Ties(le, t, u)
  {
    if s == [] {
      assert s + u == u;
    } else {
      assert (s + u)[1..] == s[1..] + u;
      TiesConcat(le, t, s[1..], u);
    }
  }

  lemma {:induction false} NoTies<T>(le: (T, T) -> bool, t: T, s: seq<T>)
    requires forall i :: 0 <= i < |s| ==> !(le(s[i], t) && le(t, s[i]))
    ensures Ties(le, t, s) == []
  {
    if s != [] {
      NoTies(le, t, s[1..]);
    }
  }

  lemma ConsPerm<T>(h: T, s: seq<T>, t: seq<T>, m: seq<T>)
    requires multiset(m) == multiset(s) + multiset(t)
    ensures multiset([h] + m) == multiset([h] + s) + multiset(t)
  {}

  lemma BlockPerm<T>(a: seq<T>, b: seq<T>, c: seq<T>, m: seq<T>, p: seq<T>)
    requires multiset(m) == multiset(a) + multiset(b) && multiset(p) == multiset(c)
    ensures multiset(m + p) == multiset(a + (b + c))
  {}

  lemma {:induction false} MergePerm<T>(le: (T, T) -> bool, s: seq<T>, t: seq<T>)
    ensures multiset(Merge(le, s, t)) == multiset(s) + multiset(t)
    decreases |s| + |t|
  {
    if s != [] && t != [] {
      if le(s[0], t[0]) {
        MergePerm(le, s[1..], t);
        ConsPerm(s[0], s[1..], t, Merge(le, s[1..], t));
        assert s == [s[0]] + s[1..];
      } else {
        MergePerm(le, s, t[1..]);
        ConsPerm(t[0], t[1..], s, Merge(le, s, t[1..]));
        assert t == [t[0]] + t[1..];
      }
    }
  }

  lemma MultisetHas<T>(s: seq<T>, t: seq<T>, u: seq<T>, i: nat)
    requires multiset(s) == multiset(t) + multiset(u)
    requires i < |s|
    ensures s[i] in t || s[i] in u
  {
    assert s[i] in multiset(s);
  }

  lemma {:induction false} MergeSorted<T(!new)>(le: (T, T) -> bool, s: seq<T>, t: seq<T>)
    requires TotalPreorder(le) && Sorted(le, s) && Sorted(le, t)
    ensures Sorted(le, Merge(le, s, t))
    decreases |s| + |t|
  {
    if s != [] && t != [] {
      var left := le(s[0], t[0]);
      var h := if left then s[0] else t[0];
      var s', t' := if left then s[1..] else s, if left then t else t[1..];
      MergeSorted(le, s', t');
      MergePerm(le, s', t');
      var m := Merge(le, s', t');
      forall i | 0 <= i < |m| ensures le(h, m[i]) {
        MultisetHas(m, s', t', i);
        if m[i] in s' {
          var k :| 0 <= k < |s'| && s'[k] == m[i];
          if left { assert s[k + 1] == m[i]; } else { assert k == 0 || le(s[0], s[k]); }
        } else {
          var k :| 0 <= k < |t'| && t'[k] == m[i];
          if left { assert k == 0 || le(t[0], t[k]); } else { assert t[k + 1] == m[i]; }
        }
      }
    }
  }

  lemma TiesCons<T>(le: (T, T) -> bool, t: T, h: T, s: seq<T>)
    ensures Ties(le, t, [h] + s) == (if le(h, t) && le(t, h) then [h] else []) + Ties(le, t, s)
  {
    assert ([h] + s)[1..] == s;
  }

  /** On a no, the right head goes out first; nothing left of it may tie with what it ties with. */
  lemma NoTiesPassed<T(!new)>(le: (T, T) -> bool, s: seq<T>, h: T, g: T)
    requires TotalPreorder(le) && Sorted(le, s) && s != [] && !le(s[0], h)
    requires le(h, g) && le(g, h)
    ensures Ties(le, g, s) == []
  {
    forall i | 0 <= i < |s| ensures !(le(s[i], g) && le(g, s[i])) {
      assert i == 0 || le(s[0], s[i]);
      assert !le(s[i], h);
    }
    NoTies(le, g, s);
  }

  lemma Reassoc<T>(a: seq<T>, b: seq<T>, c: seq<T>)
    ensures a + (b + c) == a + b + c
  {}

  lemma LeftTies<T>(le: (T, T) -> bool, h: T, s: seq<T>, t: seq<T>, m: seq<T>, g: T)
    requires Ties(le, g, m) == Ties(le, g, s) + Ties(le, g, t)
    ensures Ties(le, g, [h] + m) == Ties(le, g, [h] + s) + Ties(le, g, t)
  {
    TiesCons(le, g, h, m);
    TiesCons(le, g, h, s);
    Reassoc(if le(h, g) && le(g, h) then [h] else [], Ties(le, g, s), Ties(le, g, t));
  }

  lemma RightTies<T>(le: (T, T) -> bool, h: T, s: seq<T>, t: seq<T>, m: seq<T>, g: T)
    requires Ties(le, g, m) == Ties(le, g, s) + Ties(le, g, t)
    requires le(h, g) && le(g, h) ==> Ties(le, g, s) == []
    ensures Ties(le, g, [h] + m) == Ties(le, g, s) + Ties(le, g, [h] + t)
  {
    TiesCons(le, g, h, m);
    TiesCons(le, g, h, t);
  }

  lemma {:induction false} MergeStable<T(!new)>(le: (T, T) -> bool, s: seq<T>, t: seq<T>, g: T)
    requires TotalPreorder(le) && Sorted(le, s)
    ensures Ties(le, g, Merge(le, s, t)) == Ties(le, g, s) + Ties(le, g, t)
    decreases |s| + |t|
  {
    if s == [] || t == [] {
    } else if le(s[0], t[0]) {
      MergeStable(le, s[1..], t, g);
      LeftTies(le, s[0], s[1..], t, Merge(le, s[1..], t), g);
      assert s == [s[0]] + s[1..];
    } else {
      MergeStable(le, s, t[1..], g);
      if le(t[0], g) && le(g, t[0]) {
        NoTiesPassed(le, s, t[0], g);
      }
      RightTies(le, t[0], s, t[1..], Merge(le, s, t[1..]), g);
      assert t == [t[0]] + t[1..];
    }
  }

  /** Every aligned run of w is sorted. */
  ghost predicate RunsSorted<T>(le: (T, T) -> bool, s: seq<T>, w: nat)
    requires w >= 1
    decreases |s|
  {
    s == [] || (Sorted(le, Cut(s, w)) && RunsSorted(le, Rest(s, w), w))
  }

  lemma {:induction false} UnitRuns<T(!new)>(le: (T, T) -> bool, s: seq<T>)
    ensures RunsSorted(le, s, 1)
  {
    if s != [] {
      UnitRuns(le, Rest(s, 1));
    }
  }

  lemma Parts<T>(s: seq<T>, w: nat)
    ensures s == Cut(s, w) + (Cut(Rest(s, w), w) + Rest(Rest(s, w), w))
  {}

  lemma {:induction false} PassPerm<T>(le: (T, T) -> bool, s: seq<T>, w: nat)
    requires w >= 1
    ensures multiset(MergePass(le, s, w)) == multiset(s)
    decreases |s|
  {
    if s != [] {
      var a, b, c := Cut(s, w), Cut(Rest(s, w), w), Rest(Rest(s, w), w);
      MergePerm(le, a, b);
      PassPerm(le, c, w);
      Parts(s, w);
      BlockPerm(a, b, c, Merge(le, a, b), MergePass(le, c, w));
    }
  }

  lemma {:induction false} PassRuns<T(!new)>(le: (T, T) -> bool, s: seq<T>, w: nat)
    requires w >= 1 && TotalPreorder(le) && RunsSorted(le, s, w)
    ensures RunsSorted(le, MergePass(le, s, w), 2 * w)
    decreases |s|
  {
    if s != [] {
      var a, b, c := Cut(s, w), Cut(Rest(s, w), w), Rest(Rest(s, w), w);
      var p := MergePass(le, s, w);
      assert Sorted(le, b);
      MergeSorted(le, a, b);
      assert RunsSorted(le, c, w);
      PassRuns(le, c, w);
      if c == [] {
        assert p == Merge(le, a, b);
        assert Cut(p, 2 * w) == p;
      } else {
        assert |a| + |b| == 2 * w;
        assert Cut(p, 2 * w) == Merge(le, a, b);
        assert Rest(p, 2 * w) == MergePass(le, c, w);
      }
    }
  }

  lemma BlockStable<T(!new)>(le: (T, T) -> bool, a: seq<T>, b: seq<T>, c: seq<T>, p: seq<T>, g: T)
    requires TotalPreorder(le) && Sorted(le, a)
    requires Ties(le, g, p) == Ties(le, g, c)
    ensures Ties(le, g, Merge(le, a, b) + p) == Ties(le, g, a + (b + c))
  {
    MergeStable(le, a, b, g);
    TiesConcat(le, g, Merge(le, a, b), p);
    TiesConcat(le, g, b, c);
    TiesConcat(le, g, a, b + c);
  }

  lemma {:induction false} PassStable<T(!new)>(le: (T, T) -> bool, s: seq<T>, w: nat, g: T)
    requires w >= 1 && TotalPreorder(le) && RunsSorted(le, s, w)
    ensures Ties(le, g, MergePass(le, s, w)) == Ties(le, g, s)
    decreases |s|
  {
    if s != [] {
      var a, b, c := Cut(s, w), Cut(Rest(s, w), w), Rest(Rest(s, w), w);
      PassStable(le, c, w, g);
      BlockStable(le, a, b, c, MergePass(le, c, w), g);
      Parts(s, w);
    }
  }

  lemma {:induction false} MergeAllStable<T(!new)>(le: (T, T) -> bool, s: seq<T>, w: nat)
    requires w >= 1 && TotalPreorder(le) && RunsSorted(le, s, w)
    ensures StableSortOf(le, s, MergeAll(le, s, w))
    decreases if w < |s| then |s| - w else 0
  {
    if w >= |s| {
      assert Cut(s, w) == s;
    } else {
      var p := MergePass(le, s, w);
      PassPerm(le, s, w);
      PassRuns(le, s, w);
      MergeAllStable(le, p, 2 * w);
      forall t ensures Ties(le, t, MergeAll(le, s, w)) == Ties(le, t, s) {
        PassStable(le, s, w, t);
      }
    }
  }

  /** Two sorted arrangements of the same elements lead with elements that tie. */
  lemma HeadsTie<T(!new)>(le: (T, T) -> bool, r: seq<T>, q: seq<T>)
    requires TotalPreorder(le) && Sorted(le, r) && Sorted(le, q)
    requires multiset(r) == multiset(q) && r != [] && q != []
    ensures le(r[0], q[0]) && le(q[0], r[0])
  {
    assert q[0] in multiset(r) && r[0] in multiset(q);
    var i :| 0 <= i < |r| && r[i] == q[0];
    var j :| 0 <= j < |q| && q[j] == r[0];
    assert le(q[0], q[0]) && le(r[0], r[0]);
  }

  lemma TailTies<T(!new)>(le: (T, T) -> bool, h: T, r: seq<T>, q: seq<T>)
    requires forall t :: Ties(le, t, [h] + r) == Ties(le, t, [h] + q)
    ensures forall t :: Ties(le, t, r) == Ties(le, t, q)
  {
    forall t ensures Ties(le, t, r) == Ties(le, t, q) {
      TiesCons(le, t, h, r);
      TiesCons(le, t, h, q);
      assert Ties(le, t, [h] + r) == Ties(le, t, [h] + q);
      var k := if le(h, t) && le(t, h) then [h] else [];
      assert (k + Ties(le, t, r))[|k|..] == Ties(le, t, r);
      assert (k + Ties(le, t, q))[|k|..] == Ties(le, t, q);
    }
  }

  /** The stable sort is one sequence: sortedness and the order of ties leave no choice. */
  lemma {:induction false} StableUnique<T(!new)>(le: (T, T) -> bool, r: seq<T>, q: seq<T>)
    requires TotalPreorder(le) && Sorted(le, r) && Sorted(le, q)
    requires multiset(r) == multiset(q)
    requires forall t :: Ties(le, t, r) == Ties(le, t, q)
    ensures r == q
  {
    assert |multiset(r)| == |r| && |multiset(q)| == |q|;
    if r != [] {
      HeadsTie(le, r, q);
      var h := r[0];
      assert Ties(le, h, r)[0] == h && Ties(le, h, q)[0] == q[0];
      assert r == [h] + r[1..] && q == [h] + q[1..];
      TailTies(le, h, r[1..], q[1..]);
      assert multiset(r[1..]) == multiset(r) - multiset{h};
      assert multiset(q[1..]) == multiset(q) - multiset{h};
      StableUnique(le, r[1..], q[1..]);
    }
  }

  /** So a sequence has one stable sort. */
  lemma StableSortUnique<T(!new)>(le: (T, T) -> bool, s: seq<T>, r: seq<T>, q: seq<T>)
    requires TotalPreorder(le) && StableSortOf(le, s, r) && StableSortOf(le, s, q)
    ensures r == q
  {
    StableUnique(le, r, q);
  }

  // ----- how many passes

  function Pow2(p: nat): (r: nat)
    ensures r >= 1
  { if p == 0 then 1 else 2 * Pow2(p - 1) }

  /** The least p with 2^p >= n. */
  function CeilLog2(n: nat): (p: nat)
    ensures Pow2(p) >= n
    ensures p > 0 ==> Pow2(p - 1) < n
    decreases n
  {
    if n <= 1 then 0 else
      var h := (n + 1) / 2;
      var p := CeilLog2(h);
      assert p > 0 ==> Pow2(p) == 2 * Pow2(p - 1);
      1 + p
  }

  lemma {:induction false} Pow2Below(p: nat, n: nat)
    requires Pow2(p) < n
    ensures p < CeilLog2(n)
  {
    if p >= CeilLog2(n) {
      Pow2Mono(CeilLog2(n), p);
    }
  }

  lemma {:induction false} Pow2Mono(p: nat, q: nat)
    requires p <= q
    ensures Pow2(p) <= Pow2(q)
    decreases q
  {
    if p < q {
      Pow2Mono(p, q - 1);
    }
  }
}
