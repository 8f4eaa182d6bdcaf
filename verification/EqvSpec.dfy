/** What src/love/arr.c's equality is for: one step of comparing two words, and bisimilarity, which is
    every step going on holding. */
module EqvSpec {
  import opened Options

  /** A fixnum; an op or another even word outside every object; a word of an object. */
  datatype Word = Charm(n: int) | Op(id: nat) | Ptr(o: nat, off: nat)

  /** A leaf has its type and content. A thread holds the words from its head to its terminator. A native
      stands for its bytecode twin; a carrier (a tablet, a cask, a port) is itself alone. */
  datatype Obj =
    | Leaf(typ: nat, key: seq<int>) | Chain(a: Word, b: Word) | Cells(shape: seq<nat>, xs: seq<Word>)
    | Coin(kind: Word, load: Word)
    | Thread(ws: seq<Word>) | Partial(base: Word, args: seq<Word>) | Native(twin: Word) | Carrier

  /** The objects; which lie in the heap; how leaves of a type compare; and a rank, which everything but a
      thread is built above its parts by. */
  datatype Heap = Heap(objs: map<nat, Obj>, live: set<nat>, same: (nat, seq<int>, seq<int>) -> bool, rank: nat -> nat) {
    predicate In(w: Word) { w.Ptr? && w.o in objs && w.o in live }
    predicate Is(w: Word) { w.Ptr? && w.o in objs }
    predicate Data(w: Word) { Is(w) && (objs[w.o].Leaf? || objs[w.o].Chain? || objs[w.o].Cells?) }
    predicate IsCoin(w: Word) { Is(w) && objs[w.o].Coin? }
    predicate IsThread(w: Word) { Is(w) && objs[w.o].Thread? }
    /** Even and no datum. */
    predicate Fun(w: Word) { !w.Charm? && !Data(w) }

    /** It leads to an object, and to a thread within it. */
    ghost predicate Sound(w: Word) { w.Ptr? ==> w.o in objs && (objs[w.o].Thread? ==> w.off <= |objs[w.o].ws|) }

    ghost predicate Below(w: Word, o: nat) { Sound(w) && (w.Ptr? ==> objs[w.o].Thread? || rank(w.o) < rank(o)) }

    /** No cycle but through a thread's words. */
    ghost predicate Built(o: nat)
      requires o in objs
    {
      match objs[o]
      case Leaf(_, _) => true
      case Chain(a, b) => Below(a, o) && Below(b, o)
      case Cells(_, xs) => forall i :: 0 <= i < |xs| ==> Below(xs[i], o)
      case Coin(_, l) => Below(l, o)
      case Thread(ws) => forall i :: 0 <= i < |ws| ==> Sound(ws[i])
      case Partial(b, xs) => Below(b, o) && forall i :: 0 <= i < |xs| ==> Below(xs[i], o)
      case Native(t) => Below(t, o)
      case Carrier => true
    }

    ghost predicate Ok() { forall o :: o in objs ==> Built(o) }
  }

  function Rank(h: Heap, w: Word): (n: nat) {
    if h.Is(w) && !h.objs[w.o].Thread? then 1 + h.rank(w.o) else 0
  }

  /** fn_meaning: what equality reads a function as. */
  function Meaning(h: Heap, w: Word): (r: Word)
    requires h.Ok()
    ensures Rank(h, r) <= Rank(h, w)
    ensures !(h.In(r) && h.objs[r.o].Native?)
    ensures h.Sound(w) ==> h.Sound(r)
    ensures h.Fun(w) && !h.IsCoin(w) && !(h.In(w) && h.objs[w.o].Native?) ==> r == w
    decreases Rank(h, w)
  {
    if h.In(w) && h.objs[w.o].Native? then
      assert h.Built(w.o);
      Meaning(h, h.objs[w.o].twin)
    else w
  }

  datatype Pair = Pair(a: Word, b: Word)

  function Zip(xs: seq<Word>, ys: seq<Word>): (r: seq<Pair>)
    requires |xs| == |ys|
    ensures |r| == |xs| && forall i :: 0 <= i < |xs| ==> r[i] == Pair(xs[i], ys[i])
  { seq(|xs|, (i: nat) requires i < |xs| => Pair(xs[i], ys[i])) }

  /** The ops that park a task: a thread holding one is unequal to any but itself. */
  const YIELD_SW: Word := Op(0)
  const YIELD_NIF: Word := Op(1)
  const TASK_EXIT: Word := Op(2)
  const YIELD_K: Word := Op(3)

  predicate Yield(x: Word) { x == YIELD_SW || x == YIELD_NIF || x == TASK_EXIT || x == YIELD_K }

  /** x as a word of the thread that a is in: itself, or the twin it is native code of. */
  function Self(h: Heap, x: Word, a: Word): (r: Option<Word>)
    requires h.Ok() && a.Ptr?
  {
    if x.Ptr? && x.o == a.o then Some(x) else
      var m := Meaning(h, x);
      if m.Ptr? && m.o == a.o then Some(m) else None
  }

  /** One word of two threads: settled, or unequal, or to be compared in its turn. */
  datatype Verdict = Same | Differ | Ask

  function Words1(h: Heap, a: Word, b: Word, x: Word, y: Word): (r: Verdict)
    requires h.Ok() && a.Ptr? && b.Ptr?
  {
    if x == y then (if Yield(x) then Differ else Same)
    else if x.Charm? || y.Charm? then Differ
    else
      var s, t := Self(h, x, a), Self(h, y, b);
      if s.Some? || t.Some? then
        if s.Some? && t.Some? && s.value.off - a.off == t.value.off - b.off then Same else Differ
      else if h.In(x) && h.In(y) then Ask else Differ
  }

  /** The pairs two threads leave to compare, from word i on, or none where they differ. */
  function ThreadKids(h: Heap, a: Word, b: Word, xs: seq<Word>, ys: seq<Word>): (r: Option<seq<Pair>>)
    requires h.Ok() && a.Ptr? && b.Ptr? && |xs| == |ys|
    decreases |xs|
  {
    if xs == [] then Some([]) else
      var n := |xs| - 1;
      var k := ThreadKids(h, a, b, xs[..n], ys[..n]);
      match Words1(h, a, b, xs[n], ys[n])
      case Same => k
      case Differ => None
      case Ask => if k.Some? then Some(k.value + [Pair(xs[n], ys[n])]) else None
  }

  /** The words of a thread from a on. */
  function From(h: Heap, a: Word): (r: seq<Word>)
    requires h.IsThread(a)
  { var ws := h.objs[a.o].ws; if a.off <= |ws| then ws[a.off..] else [] }

  /** Two functions, native ones read as their twins: equal at once; unequal; partials of as many
      arguments; or threads. */
  function FunKids(h: Heap, a: Word, b: Word): (r: Option<seq<Pair>>)
    requires h.Ok()
  {
    if a == b then Some([])
    else if !h.In(a) || !h.In(b) then None
    else if h.objs[a.o].Partial? && h.objs[b.o].Partial? then
      var p, q := h.objs[a.o], h.objs[b.o];
      if |p.args| != |q.args| then None else Some(Zip(p.args, q.args) + [Pair(p.base, q.base)])
    else if h.objs[a.o].Thread? && h.objs[b.o].Thread? then
      if |From(h, a)| != |From(h, b)| then None else ThreadKids(h, a, b, From(h, a), From(h, b))
    else None
  }

  /** One step of equality: none where the words differ, else the pairs it comes to. */
  function Kids(h: Heap, a: Word, b: Word): (r: Option<seq<Pair>>)
    requires h.Ok()
  {
    if a == b then Some([])
    else if h.IsCoin(a) || h.IsCoin(b) then
      if h.IsCoin(a) && h.IsCoin(b) && h.objs[a.o].kind == h.objs[b.o].kind
      then Some([Pair(h.objs[a.o].load, h.objs[b.o].load)]) else None
    else if h.Fun(a) && h.Fun(b) then FunKids(h, Meaning(h, a), Meaning(h, b))
    else if !h.Data(a) || !h.Data(b) then None
    else
      match (h.objs[a.o], h.objs[b.o])
      case (Chain(x, y), Chain(u, v)) => Some([Pair(y, v), Pair(x, u)])
      case (Cells(s, xs), Cells(t, ys)) => if s == t && |xs| == |ys| then Some(Zip(xs, ys)) else None
      case (Leaf(s, x), Leaf(t, y)) => if s == t && h.same(s, x, y) then Some([]) else None
      case _ => None
  }

  // ----- bisimilarity

  ghost predicate Bisimulation(h: Heap, R: iset<Pair>)
    requires h.Ok()
  {
    forall p :: p in R ==> var k := Kids(h, p.a, p.b); k.Some? && forall i :: 0 <= i < |k.value| ==> k.value[i] in R
  }

  /** No path of comparisons from a and b comes to a difference. */
  ghost predicate Bisimilar(h: Heap, a: Word, b: Word)
    requires h.Ok()
  {
    exists R: iset<Pair> :: Bisimulation(h, R) && Pair(a, b) in R
  }

  lemma KidsBisimilar(h: Heap, a: Word, b: Word)
    requires h.Ok() && Bisimilar(h, a, b)
    ensures var k := Kids(h, a, b); k.Some? && forall i :: 0 <= i < |k.value| ==> Bisimilar(h, k.value[i].a, k.value[i].b)
  {
    var R: iset<Pair> :| Bisimulation(h, R) && Pair(a, b) in R;
    var k := Kids(h, a, b);
    forall i | 0 <= i < |k.value| ensures Bisimilar(h, k.value[i].a, k.value[i].b) {
      assert k.value[i] in R && k.value[i] == Pair(k.value[i].a, k.value[i].b);
    }
  }

  // ----- how much there is to compare

  /** Two threads to be compared word by word. */
  predicate Deep(h: Heap, p: Pair)
    requires h.Ok()
  {
    && p.a != p.b && !h.IsCoin(p.a) && !h.IsCoin(p.b) && h.Fun(p.a) && h.Fun(p.b)
    && var a, b := Meaning(h, p.a), Meaning(h, p.b);
       a != b && h.In(a) && h.In(b) && h.IsThread(a) && h.IsThread(b)
  }

  /** The two as equality reads them. */
  function Met(h: Heap, p: Pair): (m: Pair)
    requires h.Ok()
  { Pair(Meaning(h, p.a), Meaning(h, p.b)) }

  ghost predicate SoundAll(h: Heap, ps: seq<Pair>) { forall i :: 0 <= i < |ps| ==> h.Sound(ps[i].a) && h.Sound(ps[i].b) }

  lemma {:induction false} ThreadKidsSound(h: Heap, a: Word, b: Word, xs: seq<Word>, ys: seq<Word>)
    requires h.Ok() && a.Ptr? && b.Ptr? && |xs| == |ys| && ThreadKids(h, a, b, xs, ys).Some?
    requires forall i :: 0 <= i < |xs| ==> h.Sound(xs[i]) && h.Sound(ys[i])
    ensures SoundAll(h, ThreadKids(h, a, b, xs, ys).value)
    ensures |ThreadKids(h, a, b, xs, ys).value| <= |xs|
    decreases |xs|
  {
    if xs != [] {
      var n := |xs| - 1;
      ThreadKidsSound(h, a, b, xs[..n], ys[..n]);
    }
  }

  /** The parts of a pair that is not two threads are built below it. */
  lemma KidsLess(h: Heap, p: Pair)
    requires h.Ok() && h.Sound(p.a) && h.Sound(p.b) && Kids(h, p.a, p.b).Some?
    ensures SoundAll(h, Kids(h, p.a, p.b).value)
    ensures !Deep(h, p) ==> forall q :: q in Kids(h, p.a, p.b).value ==> Rank(h, q.a) < Rank(h, p.a)
  {
    if p.a == p.b {
    } else if h.IsCoin(p.a) || h.IsCoin(p.b) {
      assert h.Built(p.a.o) && h.Built(p.b.o);
    } else if h.Fun(p.a) && h.Fun(p.b) {
      FunKidsLess(h, p);
    } else {
      assert h.Built(p.a.o) && h.Built(p.b.o);
    }
  }

  lemma FunKidsLess(h: Heap, p: Pair)
    requires h.Ok() && h.Sound(p.a) && h.Sound(p.b)
    requires FunKids(h, Meaning(h, p.a), Meaning(h, p.b)).Some?
    requires p.a != p.b && !h.IsCoin(p.a) && !h.IsCoin(p.b) && h.Fun(p.a) && h.Fun(p.b)
    ensures var ks := FunKids(h, Meaning(h, p.a), Meaning(h, p.b)).value;
            && SoundAll(h, ks)
            && (!Deep(h, p) ==> forall q :: q in ks ==> Rank(h, q.a) < Rank(h, p.a))
  {
    var a, b := Meaning(h, p.a), Meaning(h, p.b);
    if a != b {
      assert h.Built(a.o) && h.Built(b.o);
      if h.objs[a.o].Thread? { ThreadKidsSound(h, a, b, From(h, a), From(h, b)); }
    }
  }

  /** The pairs met under ps down to threads, each of those one. */
  ghost function Size(h: Heap, p: Pair): (n: nat)
    requires h.Ok() && h.Sound(p.a) && h.Sound(p.b)
    ensures n >= 1
    decreases Rank(h, p.a), 2, 0
  {
    if Deep(h, p) || Kids(h, p.a, p.b).None? then 1 else
      KidsLess(h, p);
      1 + Sizes(h, Kids(h, p.a, p.b).value, Rank(h, p.a))
  }

  ghost function Sizes(h: Heap, ps: seq<Pair>, r: nat): (n: nat)
    requires h.Ok() && SoundAll(h, ps) && forall q :: q in ps ==> Rank(h, q.a) < r
    ensures n >= |ps|
    decreases r, 1, |ps|
  {
    if ps == [] then 0 else Sizes(h, ps[..|ps| - 1], r) + Size(h, ps[|ps| - 1])
  }

  ghost function Total(h: Heap, ps: seq<Pair>): (n: nat)
    requires h.Ok() && SoundAll(h, ps)
    ensures n >= |ps|
    decreases |ps|
  { if ps == [] then 0 else Total(h, ps[..|ps| - 1]) + Size(h, ps[|ps| - 1]) }

  lemma {:induction false} SizesTotal(h: Heap, ps: seq<Pair>, r: nat)
    requires h.Ok() && SoundAll(h, ps) && forall q :: q in ps ==> Rank(h, q.a) < r
    ensures Sizes(h, ps, r) == Total(h, ps)
    decreases |ps|
  {
    if ps != [] { SizesTotal(h, ps[..|ps| - 1], r); }
  }

  lemma SizeIs(h: Heap, p: Pair)
    requires h.Ok() && h.Sound(p.a) && h.Sound(p.b) && !Deep(h, p) && Kids(h, p.a, p.b).Some?
    ensures SoundAll(h, Kids(h, p.a, p.b).value) && Size(h, p) == 1 + Total(h, Kids(h, p.a, p.b).value)
  {
    KidsLess(h, p);
    SizesTotal(h, Kids(h, p.a, p.b).value, Rank(h, p.a));
  }

  lemma {:induction false} TotalConcat(h: Heap, ps: seq<Pair>, qs: seq<Pair>)
    requires h.Ok() && SoundAll(h, ps) && SoundAll(h, qs)
    ensures SoundAll(h, ps + qs) && Total(h, ps + qs) == Total(h, ps) + Total(h, qs)
    decreases |qs|
  {
    assert forall i :: |ps| <= i < |ps + qs| ==> (ps + qs)[i] == qs[i - |ps|];
    if qs == [] {
      assert ps + qs == ps;
    } else {
      var n := |qs| - 1;
      assert (ps + qs)[..|ps + qs| - 1] == ps + qs[..n];
      TotalConcat(h, ps, qs[..n]);
    }
  }

  // ----- the room two threads need

  /** The entries of threads, and the pairs of them. */
  ghost function Entries(h: Heap): (r: set<Word>) {
    set o, off | o in h.objs && h.objs[o].Thread? && 0 <= off <= |h.objs[o].ws| :: Ptr(o, off)
  }

  ghost function Pairs(h: Heap): (r: set<Pair>) { set a, b | a in Entries(h) && b in Entries(h) :: Pair(a, b) }

  lemma DeepIn(h: Heap, p: Pair)
    requires h.Ok() && h.Sound(p.a) && h.Sound(p.b) && Deep(h, p)
    ensures Pair(Meaning(h, p.a), Meaning(h, p.b)) in Pairs(h)
  {
    var a, b := Meaning(h, p.a), Meaning(h, p.b);
    assert a == Ptr(a.o, a.off) && b == Ptr(b.o, b.off);
    assert a in Entries(h) && b in Entries(h);
  }

  /** What a pair of threads adds to the work, with the words walked. */
  ghost function Cost(h: Heap, p: Pair): (n: nat)
    requires h.Ok()
  {
    if !h.IsThread(p.a) then 0 else
      var k := FunKids(h, p.a, p.b);
      |From(h, p.a)| + if k.Some? && SoundAll(h, k.value) then Total(h, k.value) else 0
  }

  ghost function Most(h: Heap, ps: set<Pair>): (n: nat)
    requires h.Ok()
    ensures forall p :: p in ps ==> Cost(h, p) <= n
  {
    if ps == {} then 0 else
      var p :| p in ps;
      var m := Most(h, ps - {p});
      if Cost(h, p) > m then Cost(h, p) else m
  }

  /** Pairs of threads a table must have room for, and pairs a worklist must. */
  ghost function Table(h: Heap): (n: nat) { |Pairs(h)| }

  ghost function Room(h: Heap, p: Pair): (n: nat)
    requires h.Ok() && h.Sound(p.a) && h.Sound(p.b)
  { Times(Table(h), Most(h, Pairs(h))) + Size(h, p) }

  function Times(a: nat, b: nat): (n: nat) { if a == 0 then 0 else b + Times(a - 1, b) }
}
