/** What equality in src/love/arr.c is of: the finite trees words unfold to, down to the threads; and threads word by
    word. */
module EqvTree {
  import opened Options
  import opened EqvSpec

  /** Numbers, leaves, pairs, arrays of a shape, coins, partials, places of threads in the heap; and what is equal to
      itself alone. A leaf keeps the word it was. */
  datatype Tree =
    | Number(n: int) | Content(w: Word, typ: nat, key: seq<int>) | Both(car: Tree, cdr: Tree)
    | Array(shape: seq<nat>, xs: seq<Tree>) | Stamped(kind: Word, load: Tree)
    | Holding(base: Tree, args: seq<Tree>) | Code(w: Word) | Itself(w: Word)

  lemma PartsLess(h: Heap, w: Word)
    requires h.Ok() && h.Is(w)
    ensures match h.objs[w.o]
            case Chain(a, b) => Rank(h, a) < Rank(h, w) && Rank(h, b) < Rank(h, w)
            case Cells(_, xs) => forall i :: 0 <= i < |xs| ==> Rank(h, xs[i]) < Rank(h, w)
            case Coin(_, l) => Rank(h, l) < Rank(h, w)
            case Partial(b, xs) => Rank(h, b) < Rank(h, w) && forall i :: 0 <= i < |xs| ==> Rank(h, xs[i]) < Rank(h, w)
            case Native(t) => Rank(h, t) < Rank(h, w)
            case _ => true
  {
    assert h.Built(w.o);
  }

  /** The tree of a word. Native code is its twin, where that is a function. */
  function Unfold(h: Heap, w: Word): (t: Tree)
    requires h.Ok()
    decreases Rank(h, w), 1
  {
    if w.Charm? then Number(w.n)
    else if !h.Is(w) then Itself(w)
    else
      PartsLess(h, w);
      match h.objs[w.o]
      case Leaf(typ, key) => Content(w, typ, key)
      case Chain(a, b) => Both(Unfold(h, a), Unfold(h, b))
      case Cells(shape, xs) => Array(shape, Unfolds(h, xs, Rank(h, w)))
      case Coin(kind, load) => Stamped(kind, Unfold(h, load))
      case Thread(_) => if h.In(w) then Code(w) else Itself(w)
      case Partial(base, args) => if h.In(w) then Holding(Unfold(h, base), Unfolds(h, args, Rank(h, w))) else Itself(w)
      case Native(t) => if !h.In(w) then Itself(w) else if h.Fun(t) && !h.IsCoin(t) then Unfold(h, t) else Itself(t)
      case Carrier => Itself(w)
  }

  function Unfolds(h: Heap, xs: seq<Word>, r: nat): (ts: seq<Tree>)
    requires h.Ok() && forall i :: 0 <= i < |xs| ==> Rank(h, xs[i]) < r
    ensures |ts| == |xs| && forall i :: 0 <= i < |xs| ==> ts[i] == Unfold(h, xs[i])
    decreases r, 0, |xs|
  { if xs == [] then [] else Unfolds(h, xs[..|xs| - 1], r) + [Unfold(h, xs[|xs| - 1])] }

  /** Trees equal, leaves of a type by their content, threads where R says. */
  ghost predicate TreeEq(h: Heap, R: iset<Pair>, s: Tree, t: Tree) {
    match (s, t)
    case (Number(m), Number(n)) => m == n
    case (Content(v, typ, k), Content(w, typ', l)) => v == w || (typ == typ' && h.same(typ, k, l))
    case (Both(a, b), Both(c, d)) => TreeEq(h, R, a, c) && TreeEq(h, R, b, d)
    case (Array(sh, xs), Array(sh', ys)) => sh == sh' && |xs| == |ys| && forall i :: 0 <= i < |xs| ==> TreeEq(h, R, xs[i], ys[i])
    case (Stamped(k, a), Stamped(l, b)) => k == l && TreeEq(h, R, a, b)
    case (Holding(a, xs), Holding(b, ys)) => TreeEq(h, R, a, b) && |xs| == |ys| && forall i :: 0 <= i < |xs| ==> TreeEq(h, R, xs[i], ys[i])
    case (Code(v), Code(w)) => v == w || Pair(v, w) in R
    case (Itself(v), Itself(w)) => v == w
    case _ => false
  }

  /** Two places of threads: as many words from there on, none unequal, and those to be compared equal as trees. */
  ghost predicate CodeEq(h: Heap, R: iset<Pair>, v: Word, w: Word)
    requires h.Ok()
  {
    && h.In(v) && h.In(w) && h.IsThread(v) && h.IsThread(w)
    && var xs, ys := From(h, v), From(h, w);
       |xs| == |ys| && forall i :: 0 <= i < |xs| ==> WordEq(h, R, v, w, xs[i], ys[i])
  }

  ghost predicate WordEq(h: Heap, R: iset<Pair>, v: Word, w: Word, x: Word, y: Word)
    requires h.Ok() && v.Ptr? && w.Ptr?
  { Words1(h, v, w, x, y) != Differ && (Words1(h, v, w, x, y) == Ask ==> TreeEq(h, R, Unfold(h, x), Unfold(h, y))) }

  ghost predicate CodesEq(h: Heap, R: iset<Pair>)
    requires h.Ok()
  { forall p :: p in R ==> CodeEq(h, R, p.a, p.b) }

  /** Equal: trees equal, and the threads they end in, and so on. */
  ghost predicate TreesEqual(h: Heap, a: Word, b: Word)
    requires h.Ok()
  { exists R: iset<Pair> :: CodesEq(h, R) && TreeEq(h, R, Unfold(h, a), Unfold(h, b)) }

  lemma {:induction false} TreeSame(h: Heap, R: iset<Pair>, t: Tree)
    ensures TreeEq(h, R, t, t)
    decreases t
  {
    match t
    case Both(a, b) =>
      TreeSame(h, R, a);
      TreeSame(h, R, b);
    case Array(_, xs) => forall i | 0 <= i < |xs| ensures TreeEq(h, R, xs[i], xs[i]) { TreeSame(h, R, xs[i]); }
    case Stamped(_, a) => TreeSame(h, R, a);
    case Holding(a, xs) =>
      TreeSame(h, R, a);
      forall i | 0 <= i < |xs| ensures TreeEq(h, R, xs[i], xs[i]) { TreeSame(h, R, xs[i]); }
    case _ =>
  }

  /** A function's tree is its meaning's. */
  lemma {:induction false} FunTree(h: Heap, w: Word)
    requires h.Ok() && h.Fun(w) && !h.IsCoin(w)
    ensures var m := Meaning(h, w);
            Unfold(h, w) == if h.In(m) && h.objs[m.o].Thread? then Code(m)
                            else if h.In(m) && h.objs[m.o].Partial? then Unfold(h, m)
                            else Itself(m)
    decreases Rank(h, w)
  {
    if h.In(w) && h.objs[w.o].Native? {
      PartsLess(h, w);
      var t := h.objs[w.o].twin;
      if h.Fun(t) && !h.IsCoin(t) { FunTree(h, t); }
    }
  }

  // ----- one step, by kind

  /** What two words that are not two threads to be walked come to: the same; coins of a kind with loads in R; chains
      with both parts in R; cells of one shape, pair by pair; leaves of one type and content; or functions that mean
      the same, or are partials with bases and arguments in R. */
  ghost predicate DataStep(h: Heap, R: iset<Pair>, a: Word, b: Word)
    requires h.Ok()
  {
    a == b
    || (h.IsCoin(a) && h.IsCoin(b) && h.objs[a.o].kind == h.objs[b.o].kind && Pair(h.objs[a.o].load, h.objs[b.o].load) in R)
    || (h.Data(a) && h.Data(b) &&
        match (h.objs[a.o], h.objs[b.o])
        case (Chain(x, y), Chain(u, v)) => Pair(x, u) in R && Pair(y, v) in R
        case (Cells(s, xs), Cells(t, ys)) => s == t && |xs| == |ys| && forall i :: 0 <= i < |xs| ==> Pair(xs[i], ys[i]) in R
        case (Leaf(s, x), Leaf(t, y)) => s == t && h.same(s, x, y)
        case _ => false)
    || (h.Fun(a) && h.Fun(b) && !h.IsCoin(a) && !h.IsCoin(b) &&
        var m, n := Meaning(h, a), Meaning(h, b);
        m == n || (h.In(m) && h.In(n) && h.objs[m.o].Partial? && h.objs[n.o].Partial?
                   && |h.objs[m.o].args| == |h.objs[n.o].args| && Pair(h.objs[m.o].base, h.objs[n.o].base) in R
                   && forall i :: 0 <= i < |h.objs[m.o].args| ==> Pair(h.objs[m.o].args[i], h.objs[n.o].args[i]) in R))
  }

  /** The pairs the code compares next are just those. */
  lemma DataKids(h: Heap, R: iset<Pair>, p: Pair)
    requires h.Ok() && !Deep(h, p)
    ensures DataStep(h, R, p.a, p.b) <==> Kids(h, p.a, p.b).Some? && forall q :: q in Kids(h, p.a, p.b).value ==> q in R
  {
    if p.a == p.b {
    } else if h.IsCoin(p.a) || h.IsCoin(p.b) {
      CoinKids(h, R, p);
    } else if h.Fun(p.a) && h.Fun(p.b) {
      FunKidsIs(h, R, p);
    } else if h.Data(p.a) && h.Data(p.b) {
      LoadKids(h, R, p);
    }
  }

  lemma CoinKids(h: Heap, R: iset<Pair>, p: Pair)
    requires h.Ok() && p.a != p.b && (h.IsCoin(p.a) || h.IsCoin(p.b))
    ensures DataStep(h, R, p.a, p.b) <==> Kids(h, p.a, p.b).Some? && forall q :: q in Kids(h, p.a, p.b).value ==> q in R
  {
    if Kids(h, p.a, p.b).Some? { assert Kids(h, p.a, p.b).value[0] == Pair(h.objs[p.a.o].load, h.objs[p.b.o].load); }
  }

  lemma LoadKids(h: Heap, R: iset<Pair>, p: Pair)
    requires h.Ok() && p.a != p.b && h.Data(p.a) && h.Data(p.b)
    ensures DataStep(h, R, p.a, p.b) <==> Kids(h, p.a, p.b).Some? && forall q :: q in Kids(h, p.a, p.b).value ==> q in R
  {
    match (h.objs[p.a.o], h.objs[p.b.o])
    case (Chain(x, y), Chain(u, v)) => assert Kids(h, p.a, p.b).value[0] == Pair(y, v) && Kids(h, p.a, p.b).value[1] == Pair(x, u);
    case (Cells(s, xs), Cells(t, ys)) =>
      if s == t && |xs| == |ys| { ZipIn(xs, ys, R); }
    case _ =>
  }

  lemma ZipIn(xs: seq<Word>, ys: seq<Word>, R: iset<Pair>)
    requires |xs| == |ys|
    ensures (forall q :: q in Zip(xs, ys) ==> q in R) <==> forall i :: 0 <= i < |xs| ==> Pair(xs[i], ys[i]) in R
  {
    var z := Zip(xs, ys);
    if forall q :: q in z ==> q in R {
      forall i | 0 <= i < |xs| ensures Pair(xs[i], ys[i]) in R { assert z[i] in z; }
    }
  }

  lemma FunKidsIs(h: Heap, R: iset<Pair>, p: Pair)
    requires h.Ok() && p.a != p.b && h.Fun(p.a) && h.Fun(p.b) && !h.IsCoin(p.a) && !h.IsCoin(p.b) && !Deep(h, p)
    ensures DataStep(h, R, p.a, p.b) <==> Kids(h, p.a, p.b).Some? && forall q :: q in Kids(h, p.a, p.b).value ==> q in R
  {
    var m, n := Meaning(h, p.a), Meaning(h, p.b);
    if m != n && h.In(m) && h.In(n) && h.objs[m.o].Partial? && h.objs[n.o].Partial? && |h.objs[m.o].args| == |h.objs[n.o].args| {
      var z, c := Zip(h.objs[m.o].args, h.objs[n.o].args), Pair(h.objs[m.o].base, h.objs[n.o].base);
      assert Kids(h, p.a, p.b) == Some(z + [c]);
      ZipIn(h.objs[m.o].args, h.objs[n.o].args, R);
      assert c in z + [c] && forall q :: q in z + [c] <==> q in z || q == c;
    }
  }

  // ----- words of two threads

  /** A word of each, and what the code says of them. */
  ghost predicate WordAt(h: Heap, p: Pair, x: Word, y: Word)
    requires h.Ok() && Deep(h, p)
  {
    var xs, ys := From(h, Met(h, p).a), From(h, Met(h, p).b);
    exists i :: 0 <= i < |xs| == |ys| && xs[i] == x && ys[i] == y
  }

  function Verdict1(h: Heap, p: Pair, x: Word, y: Word): (v: Verdict)
    requires h.Ok() && Deep(h, p)
  { Words1(h, Met(h, p).a, Met(h, p).b, x, y) }

  lemma {:induction false} ThreadKidsIs(h: Heap, a: Word, b: Word, xs: seq<Word>, ys: seq<Word>)
    requires h.Ok() && a.Ptr? && b.Ptr? && |xs| == |ys|
    ensures var k := ThreadKids(h, a, b, xs, ys);
            && (k.Some? <==> forall i :: 0 <= i < |xs| ==> Words1(h, a, b, xs[i], ys[i]) != Differ)
            && (k.Some? ==> forall i :: 0 <= i < |xs| && Words1(h, a, b, xs[i], ys[i]) == Ask ==> Pair(xs[i], ys[i]) in k.value)
            && (k.Some? ==> forall q :: q in k.value ==> exists i :: 0 <= i < |xs| && xs[i] == q.a && ys[i] == q.b && Words1(h, a, b, q.a, q.b) == Ask)
    decreases |xs|
  {
    if xs != [] {
      var n := |xs| - 1;
      var k, k1 := ThreadKids(h, a, b, xs, ys), ThreadKids(h, a, b, xs[..n], ys[..n]);
      ThreadKidsIs(h, a, b, xs[..n], ys[..n]);
      forall i | 0 <= i < n ensures xs[..n][i] == xs[i] && ys[..n][i] == ys[i] {}
      if k.Some? {
        forall q | q in k.value ensures exists i :: 0 <= i < |xs| && xs[i] == q.a && ys[i] == q.b && Words1(h, a, b, q.a, q.b) == Ask {
          if q in k1.value {
            var i :| 0 <= i < n && xs[..n][i] == q.a && ys[..n][i] == q.b && Words1(h, a, b, q.a, q.b) == Ask;
            assert xs[i] == q.a;
          } else {
            assert q == Pair(xs[n], ys[n]);
          }
        }
      }
    }
  }

  /** The code's step of two threads, by words. */
  lemma DeepKids(h: Heap, p: Pair)
    requires h.Ok() && Deep(h, p)
    ensures var k := Kids(h, p.a, p.b); var xs, ys := From(h, Met(h, p).a), From(h, Met(h, p).b);
            && (k.Some? <==> |xs| == |ys| && forall i :: 0 <= i < |xs| ==> Verdict1(h, p, xs[i], ys[i]) != Differ)
            && (k.Some? ==> forall x, y :: WordAt(h, p, x, y) && Verdict1(h, p, x, y) == Ask ==> Pair(x, y) in k.value)
            && (k.Some? ==> forall q :: q in k.value ==> WordAt(h, p, q.a, q.b) && Verdict1(h, p, q.a, q.b) == Ask)
  {
    var m := Met(h, p);
    var xs, ys := From(h, m.a), From(h, m.b);
    if |xs| == |ys| {
      ThreadKidsIs(h, m.a, m.b, xs, ys);
      var k := Kids(h, p.a, p.b);
      assert k == ThreadKids(h, m.a, m.b, xs, ys);
    }
  }

  // ----- bisimilar is equal

  /** What kind of tree a word has says what kind it is. */
  lemma TreeKind(h: Heap, w: Word)
    requires h.Ok()
    ensures var t := Unfold(h, w);
            && (t.Number? <==> w.Charm?) && (t.Stamped? <==> h.IsCoin(w))
            && (t.Content? <==> h.Is(w) && h.objs[w.o].Leaf?) && (t.Both? <==> h.Is(w) && h.objs[w.o].Chain?)
            && (t.Array? <==> h.Is(w) && h.objs[w.o].Cells?)
            && (t.Code? || t.Holding? || t.Itself? <==> h.Fun(w) && !h.IsCoin(w))
  {
    if h.Fun(w) && !h.IsCoin(w) {
      FunTree(h, w);
      var m := Meaning(h, w);
      if h.In(m) && h.objs[m.o].Partial? { assert Unfold(h, m).Holding?; }
    }
  }

  /** Pairs of words there are, equal for the code. */
  ghost function Alikes(h: Heap): (R: iset<Pair>)
    requires h.Ok()
  { iset p: Pair | Bisimilar(h, p.a, p.b) && h.Sound(p.a) && h.Sound(p.b) }

  /** Those of them that are places of threads. */
  ghost function AlikeCodes(h: Heap): (R: iset<Pair>)
    requires h.Ok()
  { iset p | p in Alikes(h) && Deep(h, p) && Met(h, p) == p }

  lemma MetAlike(h: Heap, p: Pair)
    requires h.Ok() && p in Alikes(h) && Deep(h, p)
    ensures Met(h, p) in AlikeCodes(h)
  {
    var m := Met(h, p);
    var R: iset<Pair> :| Bisimulation(h, R) && Pair(p.a, p.b) in R;
    assert Kids(h, m.a, m.b) == Kids(h, p.a, p.b);
    assert Bisimulation(h, R + iset{m}) && Pair(m.a, m.b) in R + iset{m};
  }

  lemma AlikeStep(h: Heap, p: Pair)
    requires h.Ok() && p in Alikes(h)
    ensures Kids(h, p.a, p.b).Some? && forall q :: q in Kids(h, p.a, p.b).value ==> q in Alikes(h)
    ensures !Deep(h, p) ==> DataStep(h, Alikes(h), p.a, p.b)
  {
    KidsBisimilar(h, p.a, p.b);
    KidsLess(h, p);
    if !Deep(h, p) { DataKids(h, Alikes(h), p); }
  }

  lemma {:induction false} AlikeTrees(h: Heap, a: Word, b: Word)
    requires h.Ok() && Pair(a, b) in Alikes(h)
    ensures TreeEq(h, AlikeCodes(h), Unfold(h, a), Unfold(h, b))
    decreases Rank(h, a)
  {
    var p := Pair(a, b);
    AlikeStep(h, p);
    if a == b {
      TreeSame(h, AlikeCodes(h), Unfold(h, a));
    } else if h.IsCoin(a) || h.IsCoin(b) {
      PartsLess(h, a);
      AlikeTrees(h, h.objs[a.o].load, h.objs[b.o].load);
    } else if h.Data(a) {
      AlikeLoads(h, a, b);
    } else {
      AlikeFuns(h, a, b);
    }
  }

  lemma {:induction false} AlikeLoads(h: Heap, a: Word, b: Word)
    requires h.Ok() && Pair(a, b) in Alikes(h) && a != b && h.Data(a) && !h.IsCoin(b)
    ensures TreeEq(h, AlikeCodes(h), Unfold(h, a), Unfold(h, b))
    decreases Rank(h, a), 0
  {
    AlikeStep(h, Pair(a, b));
    PartsLess(h, a);
    match (h.objs[a.o], h.objs[b.o])
    case (Chain(x, y), Chain(u, v)) =>
      AlikeTrees(h, x, u);
      AlikeTrees(h, y, v);
    case (Cells(s, xs), Cells(t, ys)) =>
      forall i | 0 <= i < |xs| ensures TreeEq(h, AlikeCodes(h), Unfold(h, xs[i]), Unfold(h, ys[i])) { AlikeTrees(h, xs[i], ys[i]); }
    case (Leaf(s, x), Leaf(t, y)) =>
  }

  lemma {:induction false} AlikeFuns(h: Heap, a: Word, b: Word)
    requires h.Ok() && Pair(a, b) in Alikes(h) && a != b && !h.Data(a) && !h.IsCoin(a) && !h.IsCoin(b)
    ensures TreeEq(h, AlikeCodes(h), Unfold(h, a), Unfold(h, b))
    decreases Rank(h, a), 0
  {
    var p := Pair(a, b);
    AlikeStep(h, p);
    FunTree(h, a);
    FunTree(h, b);
    var m, n := Meaning(h, a), Meaning(h, b);
    if Deep(h, p) {
      MetAlike(h, p);
    } else if m == n {
      TreeSame(h, AlikeCodes(h), Unfold(h, a));
    } else {
      PartsLess(h, m);
      AlikeTrees(h, h.objs[m.o].base, h.objs[n.o].base);
      var xs, ys := h.objs[m.o].args, h.objs[n.o].args;
      forall i | 0 <= i < |xs| ensures TreeEq(h, AlikeCodes(h), Unfold(h, xs[i]), Unfold(h, ys[i])) { AlikeTrees(h, xs[i], ys[i]); }
    }
  }

  lemma AlikeCodesEq(h: Heap)
    requires h.Ok()
    ensures CodesEq(h, AlikeCodes(h))
  {
    forall p | p in AlikeCodes(h) ensures CodeEq(h, AlikeCodes(h), p.a, p.b) {
      AlikeStep(h, p);
      DeepKids(h, p);
      var xs, ys := From(h, p.a), From(h, p.b);
      forall i | 0 <= i < |xs| ensures WordEq(h, AlikeCodes(h), p.a, p.b, xs[i], ys[i]) {
        assert WordAt(h, p, xs[i], ys[i]);
        if Verdict1(h, p, xs[i], ys[i]) == Ask { AlikeTrees(h, xs[i], ys[i]); }
      }
    }
  }

  /** Pairs of words there are, with equal trees. */
  ghost function Equals(h: Heap, R: iset<Pair>): (S: iset<Pair>)
    requires h.Ok()
  { iset p: Pair | TreeEq(h, R, Unfold(h, p.a), Unfold(h, p.b)) && h.Sound(p.a) && h.Sound(p.b) }

  lemma PartsSound(h: Heap, w: Word)
    requires h.Ok() && h.Is(w)
    ensures match h.objs[w.o]
            case Chain(a, b) => h.Sound(a) && h.Sound(b)
            case Cells(_, xs) => forall i :: 0 <= i < |xs| ==> h.Sound(xs[i])
            case Coin(_, l) => h.Sound(l)
            case Partial(b, xs) => h.Sound(b) && forall i :: 0 <= i < |xs| ==> h.Sound(xs[i])
            case Thread(ws) => forall i :: 0 <= i < |ws| ==> h.Sound(ws[i])
            case _ => true
  {
    assert h.Built(w.o);
  }

  lemma EqualData(h: Heap, R: iset<Pair>, p: Pair)
    requires h.Ok() && p in Equals(h, R) && !Deep(h, p)
    ensures DataStep(h, Equals(h, R), p.a, p.b)
  {
    TreeKind(h, p.a);
    TreeKind(h, p.b);
    if h.Is(p.a) { PartsSound(h, p.a); }
    if h.Is(p.b) { PartsSound(h, p.b); }
    if h.Fun(p.a) && !h.IsCoin(p.a) { EqualFuns(h, R, p); }
  }

  lemma EqualFuns(h: Heap, R: iset<Pair>, p: Pair)
    requires h.Ok() && p in Equals(h, R) && !Deep(h, p) && h.Fun(p.a) && !h.IsCoin(p.a)
    ensures DataStep(h, Equals(h, R), p.a, p.b)
  {
    TreeKind(h, p.a);
    TreeKind(h, p.b);
    FunTree(h, p.a);
    FunTree(h, p.b);
    var m, n := Meaning(h, p.a), Meaning(h, p.b);
    if h.In(m) && h.objs[m.o].Partial? && h.In(n) && h.objs[n.o].Partial? {
      PartsSound(h, m);
      PartsSound(h, n);
    }
  }

  lemma EqualDeep(h: Heap, R: iset<Pair>, p: Pair)
    requires h.Ok() && CodesEq(h, R) && p in Equals(h, R) && Deep(h, p)
    ensures Kids(h, p.a, p.b).Some? && forall q :: q in Kids(h, p.a, p.b).value ==> q in Equals(h, R)
  {
    FunTree(h, p.a);
    FunTree(h, p.b);
    var m := Met(h, p);
    assert CodeEq(h, R, m.a, m.b);
    DeepKids(h, p);
    var xs, ys := From(h, m.a), From(h, m.b);
    forall i | 0 <= i < |xs| ensures Verdict1(h, p, xs[i], ys[i]) != Differ { assert WordEq(h, R, m.a, m.b, xs[i], ys[i]); }
    KidsLess(h, p);
    forall q | q in Kids(h, p.a, p.b).value ensures q in Equals(h, R) {
      assert WordAt(h, p, q.a, q.b);
      var i :| 0 <= i < |xs| == |ys| && xs[i] == q.a && ys[i] == q.b;
      assert WordEq(h, R, m.a, m.b, xs[i], ys[i]);
    }
  }

  /** Two words are equal for the code just where their trees are. */
  lemma BisimilarIsEqual(h: Heap, a: Word, b: Word)
    requires h.Ok() && h.Sound(a) && h.Sound(b)
    ensures Bisimilar(h, a, b) <==> TreesEqual(h, a, b)
  {
    if Bisimilar(h, a, b) {
      AlikeCodesEq(h);
      AlikeTrees(h, a, b);
    }
    if TreesEqual(h, a, b) {
      var R: iset<Pair> :| CodesEq(h, R) && TreeEq(h, R, Unfold(h, a), Unfold(h, b));
      var S := Equals(h, R);
      forall p | p in S ensures var k := Kids(h, p.a, p.b); k.Some? && forall i :: 0 <= i < |k.value| ==> k.value[i] in S {
        if Deep(h, p) {
          EqualDeep(h, R, p);
        } else {
          EqualData(h, R, p);
          DataKids(h, S, p);
        }
      }
      assert Bisimulation(h, S) && Pair(a, b) in S;
    }
  }
}
