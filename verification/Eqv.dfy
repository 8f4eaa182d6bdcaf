/** The equality walk of src/love/arr.c in its lent region: the pairs of threads taken as equal at the
    region's base, the worklist over them. */
module Eqv {
  import opened Options
  import opened EqvSpec
  import opened EqvTree

  /** What the walk has settled so far: each step of it is settled or still to come. */
  ghost predicate Settling(h: Heap, done: set<Pair>, todo: seq<Pair>)
    requires h.Ok()
  {
    forall p :: p in done ==> Settled(h, p, done, todo)
  }

  ghost predicate Settled(h: Heap, p: Pair, done: set<Pair>, todo: seq<Pair>)
    requires h.Ok()
  {
    var k := Kids(h, p.a, p.b);
    k.Some? && forall i :: 0 <= i < |k.value| ==> k.value[i] in done || k.value[i] in todo
  }

  /** Pairs of threads taken as equal are settled, and differ from one another. */
  ghost predicate Seen(h: Heap, seen: seq<Pair>, done: set<Pair>)
    requires h.Ok()
  {
    && (forall i :: 0 <= i < |seen| ==> seen[i] in done && seen[i] in Pairs(h))
    && (forall i, j :: 0 <= i < j < |seen| ==> seen[i] != seen[j])
  }

  ghost predicate AllBisimilar(h: Heap, ps: seq<Pair>)
    requires h.Ok()
  {
    forall i :: 0 <= i < |ps| ==> Bisimilar(h, ps[i].a, ps[i].b)
  }

  /** A pair taken from the work, its parts put there: the walk goes on. */
  lemma SettleOne(h: Heap, done: set<Pair>, todo: seq<Pair>, p: Pair, ks: seq<Pair>)
    requires h.Ok() && Settling(h, done, todo + [p]) && Kids(h, p.a, p.b) == Some(ks)
    ensures Settling(h, done + {p}, todo + ks)
  {
    forall q | q in done + {p} ensures Settled(h, q, done + {p}, todo + ks) {
      var k := Kids(h, q.a, q.b);
      if q in done { assert Settled(h, q, done, todo + [p]); }
      forall i | 0 <= i < |k.value| ensures k.value[i] in done + {p} || k.value[i] in todo + ks {
        if q == p { assert k.value[i] == ks[i] && ks[i] in ks; }
      }
    }
  }

  /** A pair whose threads are taken as equal already. */
  lemma SettleHeld(h: Heap, done: set<Pair>, todo: seq<Pair>, p: Pair, m: Pair)
    requires h.Ok() && Settling(h, done, todo + [p]) && m in done && Kids(h, p.a, p.b) == Kids(h, m.a, m.b)
    ensures Settling(h, done + {p}, todo)
  {
    forall q | q in done + {p} ensures Settled(h, q, done + {p}, todo) {
      var q0 := if q == p then m else q;
      assert Settled(h, q0, done, todo + [p]);
    }
  }

  /** Nothing left: what is settled is a bisimulation. */
  lemma Drained(h: Heap, done: set<Pair>, p: Pair)
    requires h.Ok() && Settling(h, done, []) && p in done
    ensures Bisimilar(h, p.a, p.b)
  {
    var R := iset q | q in done;
    forall q | q in R ensures Kids(h, q.a, q.b).Some? && forall i :: 0 <= i < |Kids(h, q.a, q.b).value| ==> Kids(h, q.a, q.b).value[i] in R {
      assert Settled(h, q, done, []);
    }
    assert Bisimulation(h, R) && Pair(p.a, p.b) in R;
  }

  /** Read as their meanings, two functions step alike. */
  lemma MeaningKids(h: Heap, p: Pair)
    requires h.Ok() && Deep(h, p)
    ensures var m := Pair(Meaning(h, p.a), Meaning(h, p.b));
            Kids(h, m.a, m.b) == Kids(h, p.a, p.b) == ThreadStep(h, m)
    ensures Deep(h, Pair(Meaning(h, p.a), Meaning(h, p.b)))
  {
  }

  function ThreadStep(h: Heap, m: Pair): (r: Option<seq<Pair>>)
    requires h.Ok() && h.IsThread(m.a) && h.IsThread(m.b)
  {
    if |From(h, m.a)| != |From(h, m.b)| then None else ThreadKids(h, m.a, m.b, From(h, m.a), From(h, m.b))
  }

  /** The work left: threads not met yet, and what lies before them. */
  ghost function Left(h: Heap, ns: nat, todo: seq<Pair>): (n: nat)
    requires h.Ok() && SoundAll(h, todo)
  {
    (if ns <= Table(h) then Times(Table(h) - ns, Most(h, Pairs(h))) else 0) + Total(h, todo)
  }

  lemma {:induction false} SeenFits(h: Heap, seen: seq<Pair>, ps: set<Pair>)
    requires (forall i :: 0 <= i < |seen| ==> seen[i] in ps) && forall i, j :: 0 <= i < j < |seen| ==> seen[i] != seen[j]
    ensures |seen| <= |ps|
    decreases |seen|
  {
    if seen != [] {
      var n := |seen| - 1;
      SeenFits(h, seen[..n], ps - {seen[n]});
    }
  }

  // ----- the walk on values

  /** The walk between two turns: the pairs of threads taken as equal, the pairs waiting, and the pair in hand; or
      its end. */
  datatype Walk = Going(seen: seq<Pair>, work: seq<Pair>, p: Pair) | Equal | Unequal

  function Onward(seen: seq<Pair>, todo: seq<Pair>): (w: Walk) {
    if todo == [] then Equal else Going(seen, todo[..|todo| - 1], todo[|todo| - 1])
  }

  /** A turn, with room enough. */
  function TurnOf(h: Heap, w: Walk): (w': Walk)
    requires h.Ok()
  {
    match w
    case Going(seen, work, p) =>
      if Deep(h, p) && Met(h, p) in seen then Onward(seen, work)
      else if Kids(h, p.a, p.b).None? then Unequal
      else Onward(if Deep(h, p) then seen + [Met(h, p)] else seen, work + Kids(h, p.a, p.b).value)
    case _ => w
  }

  /** The walk over p0 after n turns: no region has a say in it. */
  function Walked(h: Heap, p0: Pair, n: nat): (w: Walk)
    requires h.Ok()
  { if n == 0 then Going([], [], p0) else TurnOf(h, Walked(h, p0, n - 1)) }

  /** Two threads word by word, with room for so many words: the pairs to ask, or a difference, or a pair without
      room, whichever comes first. */
  datatype Trod = Fits(ks: seq<Pair>) | Odd | Cramped

  function Tread(h: Heap, a: Word, b: Word, xs: seq<Word>, ys: seq<Word>, room: int): (r: Trod)
    requires h.Ok() && a.Ptr? && b.Ptr? && |xs| == |ys|
    decreases |xs|
  {
    if xs == [] then Fits([]) else
      var n := |xs| - 1;
      var k := Tread(h, a, b, xs[..n], ys[..n], room);
      if !k.Fits? then k else
        match Words1(h, a, b, xs[n], ys[n])
        case Same => k
        case Differ => Odd
        case Ask => if room < 2 * (|k.ks| + 1) then Cramped else Fits(k.ks + [Pair(xs[n], ys[n])])
  }

  lemma {:induction false} TreadIs(h: Heap, a: Word, b: Word, xs: seq<Word>, ys: seq<Word>, room: int)
    requires h.Ok() && a.Ptr? && b.Ptr? && |xs| == |ys|
    ensures match Tread(h, a, b, xs, ys, room)
            case Fits(ks) => ThreadKids(h, a, b, xs, ys) == Some(ks) && |ks| <= |xs|
            case Odd => ThreadKids(h, a, b, xs, ys).None?
            case Cramped => room < 2 * |xs|
    decreases |xs|
  {
    if xs != [] {
      var n := |xs| - 1;
      TreadIs(h, a, b, xs[..n], ys[..n], room);
    }
  }

  /** The pairs a turn over other than two threads asks room for, if p does not differ. */
  function Needs(h: Heap, p: Pair): (n: nat)
    requires h.Ok()
  {
    if p.a == p.b || h.IsCoin(p.a) || h.IsCoin(p.b) then 0
    else if h.Fun(p.a) && h.Fun(p.b) then
      var a, b := Meaning(h, p.a), Meaning(h, p.b);
      if a != b && h.In(a) && h.objs[a.o].Partial? then |h.objs[a.o].args| + 1 else 0
    else if !h.Data(p.a) then 0
    else
      match h.objs[p.a.o]
      case Chain(_, _) => 1
      case Cells(_, xs) => |xs|
      case _ => 0
  }

  /** A region of len words, nseen pairs of them the table, has not the room for the pair in hand: of two threads
      not met before, the table is full or a word's pair does not fit; of other pairs, its parts do not. */
  predicate Lacks(h: Heap, w: Walk, nseen: nat, len: nat)
    requires h.Ok()
  {
    w.Going? &&
    var room := len - 2 * nseen - 2 * |w.work|;
    if Deep(h, w.p) then
      var m := Met(h, w.p);
      m !in w.seen && (|w.seen| == nseen || (|From(h, m.a)| == |From(h, m.b)| && Tread(h, m.a, m.b, From(h, m.a), From(h, m.b), room).Cramped?))
    else Kids(h, w.p.a, w.p.b).Some? && room < 2 * Needs(h, w.p)
  }

  lemma LacksFew(h: Heap, w: Walk, nseen: nat, len: nat)
    requires h.Ok() && Lacks(h, w, nseen, len)
    ensures var room := len - 2 * nseen;
            if Deep(h, w.p) then Met(h, w.p) !in w.seen && (|w.seen| == nseen || room < 2 * (|w.work| + |From(h, Met(h, w.p).a)|))
            else Kids(h, w.p.a, w.p.b).Some? && room < 2 * (|w.work| + |Kids(h, w.p.a, w.p.b).value|)
  {
    if Deep(h, w.p) {
      var m := Met(h, w.p);
      if |From(h, m.a)| == |From(h, m.b)| {
        TreadIs(h, m.a, m.b, From(h, m.a), From(h, m.b), len - 2 * nseen - 2 * |w.work|);
      }
    }
  }

  /** It is the n-th turn that lacks, and none before it lacks or ends the walk. */
  ghost predicate LacksAt(h: Heap, p0: Pair, nseen: nat, len: nat, n: nat)
    requires h.Ok()
  { Lacks(h, Walked(h, p0, n), nseen, len) && Fine(h, p0, nseen, len, n) }

  /** The first n turns neither lack nor end the walk. */
  ghost predicate Fine(h: Heap, p0: Pair, nseen: nat, len: nat, n: nat)
    requires h.Ok()
  { forall m :: 0 <= m < n ==> Walked(h, p0, m).Going? && !Lacks(h, Walked(h, p0, m), nseen, len) }

  ghost predicate LacksFirst(h: Heap, p0: Pair, nseen: nat, len: nat)
    requires h.Ok()
  { exists n: nat :: LacksAt(h, p0, nseen, len, n) }

  lemma {:induction false} WalkedOn(h: Heap, p0: Pair, n: nat, m: nat)
    requires h.Ok() && n <= m && !Walked(h, p0, n).Going?
    ensures Walked(h, p0, m) == Walked(h, p0, n)
    decreases m
  {
    if n < m { WalkedOn(h, p0, n, m - 1); }
  }

  /** A walk that ended, no turn of it lacking, never lacks. */
  lemma EndsFirst(h: Heap, p0: Pair, nseen: nat, len: nat, n: nat)
    requires h.Ok() && Fine(h, p0, nseen, len, n) && !Walked(h, p0, n).Going?
    ensures !LacksFirst(h, p0, nseen, len)
  {
    forall m: nat ensures !LacksAt(h, p0, nseen, len, m) {
      if m >= n { WalkedOn(h, p0, n, m); }
    }
  }

  // ----- the region

  /** The lent region: nseen slots for pairs of threads at its base, ns of them taken; the worklist past
      them, up to w. */
  class Region {
    const mem: array<Word>
    const nseen: nat
    var ns: nat
    var w: nat
    ghost var seen: seq<Pair>
    ghost var work: seq<Pair>

    /** The pairs ps lie in the region from at on, word after word. */
    ghost predicate Lies(at: nat, ps: seq<Pair>)
      reads mem
    {
      && at + 2 * |ps| <= mem.Length
      && forall i :: 0 <= i < |ps| ==> mem[at + 2 * i] == ps[i].a && mem[at + 2 * i + 1] == ps[i].b
    }

    ghost predicate Valid()
      reads this, mem
    {
      && 2 * nseen <= mem.Length && ns == |seen| <= nseen && Lies(0, seen)
      && w == 2 * nseen + 2 * |work| && Lies(2 * nseen, work)
    }

    /** An eighth of the region is the table's pairs, so a quarter of its words. */
    constructor (mem: array<Word>)
      ensures Valid() && this.mem == mem && nseen == mem.Length / 8 && seen == [] && work == []
    {
      this.mem, nseen, ns, w, seen, work := mem, mem.Length / 8, 0, 2 * (mem.Length / 8), [], [];
    }

    method Push(p: Pair)
      requires Valid() && mem.Length - w >= 2
      modifies this`w, this`work, mem
      ensures Valid() && work == old(work) + [p]
    {
      mem[w], mem[w + 1] := p.a, p.b;
      work := work + [p];
      w := w + 2;
    }

    method PushAll(ps: seq<Pair>)
      requires Valid() && mem.Length - w >= 2 * |ps|
      modifies this`w, this`work, mem
      ensures Valid() && work == old(work) + ps
    {
      var i := 0;
      while i < |ps|
        invariant i <= |ps| && Valid() && work == old(work) + ps[..i]
      {
        Push(ps[i]);
        i := i + 1;
      }
    }

    method Pop() returns (p: Pair)
      requires Valid() && work != []
      modifies this`w, this`work
      ensures Valid() && old(work) == work + [p]
    {
      w := w - 2;
      p := Pair(mem[w], mem[w + 1]);
      work := work[..|work| - 1];
    }

    method Held(m: Pair) returns (b: bool)
      requires Valid()
      ensures b <==> m in seen
    {
      var i := 0;
      while i < ns
        invariant i <= ns && m !in seen[..i]
      {
        if mem[2 * i] == m.a && mem[2 * i + 1] == m.b {
          assert seen[i] == m;
          return true;
        }
        i := i + 1;
      }
      assert seen[..ns] == seen;
      b := false;
    }

    method Hold(m: Pair)
      requires Valid() && ns < nseen
      modifies this`ns, this`seen, mem
      ensures Valid() && seen == old(seen) + [m]
    {
      mem[2 * ns], mem[2 * ns + 1] := m.a, m.b;
      seen := seen + [m];
      ns := ns + 1;
    }

    /** fn_eq: two threads word by word, the worklist as it was unless every word went well. */
    method Threads(h: Heap, m: Pair) returns (f: int)
      requires Valid() && h.Ok() && h.IsThread(m.a) && h.IsThread(m.b)
      modifies this`w, this`work, mem
      ensures Valid() && (f != 1 ==> work == old(work))
      ensures if |From(h, m.a)| != |From(h, m.b)| then f == 0 else
              match Tread(h, m.a, m.b, From(h, m.a), From(h, m.b), mem.Length - old(w))
              case Fits(ks) => f == 1 && work == old(work) + ks
              case Odd => f == 0
              case Cramped => f == -1
    {
      var xs, ys := From(h, m.a), From(h, m.b);
      var w0 := w;
      ghost var work0, ks := work, [];
      if |xs| != |ys| { return 0; }
      f := 1;
      var i := 0;
      assert work0 + ks == work;
      while i < |xs| && f == 1
        invariant i <= |xs| && Valid() && work == work0 + ks && (f == 1 || f == 0 || f == -1)
        invariant Upto(h, m, xs, ys, mem.Length - w0, i) == if f == 1 then Fits(ks) else if f == 0 then Odd else Cramped
      {
        f, ks := ThreadWord(h, m, xs, ys, i, mem.Length - w0, work0, ks);
        i := i + 1;
      }
      if f == 1 {
        UptoAll(h, m, xs, ys, mem.Length - w0);
      } else {
        StopsOn(h, m, xs, ys, mem.Length - w0, i);
        CutTo(w0, work0);
      }
    }

    method ThreadWord(h: Heap, m: Pair, xs: seq<Word>, ys: seq<Word>, i: nat, ghost room: int, ghost work0: seq<Pair>, ghost ks: seq<Pair>)
      returns (f: int, ghost ks': seq<Pair>)
      requires Valid() && h.Ok() && m.a.Ptr? && m.b.Ptr? && |xs| == |ys| && i < |xs| && work == work0 + ks
      requires room == mem.Length - 2 * nseen - 2 * |work0| && Upto(h, m, xs, ys, room, i) == Fits(ks)
      modifies this`w, this`work, mem
      ensures Valid() && work == work0 + ks' && (f == 1 || f == 0 || f == -1)
      ensures Upto(h, m, xs, ys, room, i + 1) == if f == 1 then Fits(ks') else if f == 0 then Odd else Cramped
    {
      KidsStep(h, m, xs, ys, room, i, ks);
      ghost var k;
      f, k := OneWord(Words1(h, m.a, m.b, xs[i], ys[i]), Pair(xs[i], ys[i]));
      ks' := ks + k;
      assert work == work0 + ks';
    }

    /** One word of the two: to go on, unequal, or no room to ask. */
    method OneWord(v: Verdict, p: Pair) returns (f: int, ghost k: seq<Pair>)
      requires Valid()
      modifies this`w, this`work, mem
      ensures Valid() && work == old(work) + k && |k| <= 1
      ensures f == if v == Differ then 0 else if v == Ask && mem.Length - old(w) < 2 then -1 else 1
      ensures f == 1 ==> k == if v == Ask then [p] else []
      ensures f != 1 ==> k == []
    {
      f, k := 1, [];
      match v
      case Same =>
      case Differ => f := 0;
      case Ask =>
        if mem.Length - w < 2 {
          f := -1;
        } else {
          Push(p);
          k := [p];
        }
      assert old(work) + [] == old(work);
    }

    method CutTo(w0: nat, ghost work0: seq<Pair>)
      requires Valid() && work0 <= work && w0 == 2 * nseen + 2 * |work0|
      modifies this`w, this`work
      ensures Valid() && work == work0
    {
      w, work := w0, work0;
    }

    /** One turn of the walk over p: 0 where it differs, -1 where the region is short, else its parts on
        the worklist, the last of them to go on with or to be popped. */
    method Turn(h: Heap, p: Pair) returns (r: int, more: bool, q: Pair, held: bool)
      requires Valid() && h.Ok() && h.Sound(p.a) && h.Sound(p.b)
      modifies this, mem
      ensures Valid() && (r == 1 || r == 0 || r == -1)
      ensures Turned(h, p, old(seen), old(work), r, more, q, held)
    {
      r, more, q, held := 1, false, p, false;
      if p.a == p.b {
      } else if h.IsCoin(p.a) || h.IsCoin(p.b) {
        if h.IsCoin(p.a) && h.IsCoin(p.b) && h.objs[p.a.o].kind == h.objs[p.b.o].kind {
          more, q := true, Pair(h.objs[p.a.o].load, h.objs[p.b.o].load);
        } else {
          r := 0;
        }
      } else if h.Fun(p.a) && h.Fun(p.b) {
        r, more, q, held := TurnFun(h, p);
      } else if !h.Data(p.a) || !h.Data(p.b) {
        r := 0;
      } else {
        r, more, q := TurnData(h, p);
      }
    }

    /** What a turn leaves. */
    ghost predicate Turned(h: Heap, p: Pair, seen0: seq<Pair>, work0: seq<Pair>, r: int, more: bool, q: Pair, held: bool)
      requires h.Ok()
      reads this
    {
      && (r == -1 <==> Lacks(h, Going(seen0, work0, p), nseen, mem.Length))
      && (held <==> Deep(h, p) && Met(h, p) in seen0) && (held ==> r == 1)
      && (r == 0 ==> Kids(h, p.a, p.b).None?)
      && (r == 1 && !held ==>
            && Kids(h, p.a, p.b).Some? && work + (if more then [q] else []) == work0 + Kids(h, p.a, p.b).value
            && seen == if Deep(h, p) then seen0 + [Met(h, p)] else seen0)
      && (held ==> !more && work == work0 && seen == seen0)
    }

    method TurnData(h: Heap, p: Pair) returns (r: int, more: bool, q: Pair)
      requires Valid() && h.Ok() && h.Data(p.a) && h.Data(p.b) && p.a != p.b
      modifies this, mem
      ensures Valid() && (r == 1 || r == 0 || r == -1)
      ensures Turned(h, p, old(seen), old(work), r, more, q, false)
    {
      r, more, q := 0, false, p;
      match (h.objs[p.a.o], h.objs[p.b.o])
      case (Chain(x, y), Chain(u, v)) =>
        if mem.Length - w < 2 { return -1, false, p; }
        Push(Pair(y, v));
        r, more, q := 1, true, Pair(x, u);
      case (Cells(s, xs), Cells(t, ys)) =>
        if s == t && |xs| == |ys| {
          if mem.Length - w < 2 * |xs| { return -1, false, p; }
          PushAll(Zip(xs, ys));
          r := 1;
        }
      case (Leaf(s, x), Leaf(t, y)) =>
        if s == t && h.same(s, x, y) { r := 1; }
      case _ =>
    }

    method TurnFun(h: Heap, p: Pair) returns (r: int, more: bool, q: Pair, held: bool)
      requires Valid() && h.Ok() && h.Sound(p.a) && h.Sound(p.b)
      requires p.a != p.b && !h.IsCoin(p.a) && !h.IsCoin(p.b) && h.Fun(p.a) && h.Fun(p.b)
      modifies this, mem
      ensures Valid() && (r == 1 || r == 0 || r == -1)
      ensures Turned(h, p, old(seen), old(work), r, more, q, held)
    {
      r, more, q, held := 0, false, p, false;
      var a, b := Meaning(h, p.a), Meaning(h, p.b);
      if a == b { return 1, false, p, false; }
      if !h.In(a) || !h.In(b) { return; }
      if h.objs[a.o].Partial? && h.objs[b.o].Partial? {
        var xs, ys := h.objs[a.o].args, h.objs[b.o].args;
        if |xs| != |ys| { return; }
        if mem.Length - w < 2 * (|xs| + 1) { return -1, false, p, false; }
        PushAll(Zip(xs, ys));
        r, more, q := 1, true, Pair(h.objs[a.o].base, h.objs[b.o].base);
      } else if h.objs[a.o].Thread? && h.objs[b.o].Thread? {
        r, held := TurnThreads(h, p);
      }
    }

    method TurnThreads(h: Heap, p: Pair) returns (r: int, held: bool)
      requires Valid() && h.Ok() && h.Sound(p.a) && h.Sound(p.b) && Deep(h, p)
      modifies this, mem
      ensures Valid() && (r == 1 || r == 0 || r == -1)
      ensures Turned(h, p, old(seen), old(work), r, false, p, held)
    {
      var m := Pair(Meaning(h, p.a), Meaning(h, p.b));
      MeaningKids(h, p);
      held := Held(m);
      if held { return 1, true; }
      if ns == nseen { return -1, false; }
      Hold(m);
      if |From(h, m.a)| == |From(h, m.b)| { TreadIs(h, m.a, m.b, From(h, m.a), From(h, m.b), mem.Length - w); }
      r := Threads(h, m);
    }
  }

  ghost function Upto(h: Heap, m: Pair, xs: seq<Word>, ys: seq<Word>, room: int, i: nat): (r: Trod)
    requires h.Ok() && m.a.Ptr? && m.b.Ptr? && |xs| == |ys| && i <= |xs|
  { Tread(h, m.a, m.b, xs[..i], ys[..i], room) }

  lemma UptoAll(h: Heap, m: Pair, xs: seq<Word>, ys: seq<Word>, room: int)
    requires h.Ok() && m.a.Ptr? && m.b.Ptr? && |xs| == |ys|
    ensures Upto(h, m, xs, ys, room, |xs|) == Tread(h, m.a, m.b, xs, ys, room)
  {
    assert xs[..|xs|] == xs && ys[..|xs|] == ys;
  }

  lemma KidsStep(h: Heap, m: Pair, xs: seq<Word>, ys: seq<Word>, room: int, i: nat, ks: seq<Pair>)
    requires h.Ok() && m.a.Ptr? && m.b.Ptr? && |xs| == |ys| && i < |xs| && Upto(h, m, xs, ys, room, i) == Fits(ks)
    ensures Upto(h, m, xs, ys, room, i + 1) ==
              match Words1(h, m.a, m.b, xs[i], ys[i])
              case Same => Fits(ks + [])
              case Differ => Odd
              case Ask => if room < 2 * (|ks| + 1) then Cramped else Fits(ks + [Pair(xs[i], ys[i])])
  {
    assert xs[..i + 1][..i] == xs[..i] && ys[..i + 1][..i] == ys[..i] && ks + [] == ks;
  }

  lemma {:induction false} StopsOn(h: Heap, m: Pair, xs: seq<Word>, ys: seq<Word>, room: int, i: nat)
    requires h.Ok() && m.a.Ptr? && m.b.Ptr? && |xs| == |ys| && i <= |xs|
    requires !Upto(h, m, xs, ys, room, i).Fits?
    ensures Tread(h, m.a, m.b, xs, ys, room) == Upto(h, m, xs, ys, room, i)
    decreases |xs|
  {
    if i < |xs| {
      var n := |xs| - 1;
      assert xs[..n][..i] == xs[..i] && ys[..n][..i] == ys[..i];
      StopsOn(h, m, xs[..n], ys[..n], room, i);
    } else {
      assert xs[..i] == xs && ys[..i] == ys;
    }
  }

  // ----- the walk

  /** What the walk over p0 keeps: done is settled but for todo, and bisimilar or not as p0 is. */
  ghost predicate Walking(h: Heap, p0: Pair, done: set<Pair>, seen: seq<Pair>, todo: seq<Pair>)
    requires h.Ok()
  {
    && SoundAll(h, todo) && Settling(h, done, todo) && Seen(h, seen, done)
    && (p0 in done || p0 in todo)
    && (Bisimilar(h, p0.a, p0.b) ==> AllBisimilar(h, todo))
  }

  lemma WalkStarts(h: Heap, p0: Pair)
    requires h.Ok() && h.Sound(p0.a) && h.Sound(p0.b)
    ensures Walking(h, p0, {}, [], [p0]) && Left(h, 0, [p0]) == Room(h, p0)
  {
    assert [p0][..0] == [];
    assert Total(h, [p0]) == Total(h, []) + Size(h, p0);
  }

  lemma TodoBisimilar(h: Heap, p0: Pair, todo: seq<Pair>, p: Pair, ks: seq<Pair>)
    requires h.Ok() && Kids(h, p.a, p.b) == Some(ks)
    requires Bisimilar(h, p0.a, p0.b) ==> AllBisimilar(h, todo + [p])
    ensures Bisimilar(h, p0.a, p0.b) ==> AllBisimilar(h, todo + ks) && AllBisimilar(h, todo)
  {
    if Bisimilar(h, p0.a, p0.b) {
      assert (todo + [p])[|todo|] == p;
      KidsBisimilar(h, p.a, p.b);
      forall i | 0 <= i < |todo| ensures Bisimilar(h, todo[i].a, todo[i].b) { assert (todo + [p])[i] == todo[i]; }
    }
  }

  lemma SoundSplit(h: Heap, todo: seq<Pair>, p: Pair)
    requires SoundAll(h, todo + [p])
    ensures SoundAll(h, todo) && SoundAll(h, [p]) && h.Sound(p.a) && h.Sound(p.b)
  {
    assert (todo + [p])[|todo|] == p;
    forall i | 0 <= i < |todo| ensures h.Sound(todo[i].a) && h.Sound(todo[i].b) { assert (todo + [p])[i] == todo[i]; }
  }

  /** A pair's parts to its place. */
  lemma NextPlain(h: Heap, p0: Pair, done: set<Pair>, seen: seq<Pair>, todo: seq<Pair>, p: Pair, ks: seq<Pair>)
    requires h.Ok() && Walking(h, p0, done, seen, todo + [p]) && Kids(h, p.a, p.b) == Some(ks)
    requires !Deep(h, p)
    ensures Walking(h, p0, done + {p}, seen, todo + ks)
    ensures SoundAll(h, todo + [p]) && Left(h, |seen|, todo + ks) < Left(h, |seen|, todo + [p])
  {
    SoundSplit(h, todo, p);
    SettleOne(h, done, todo, p, ks);
    TodoBisimilar(h, p0, todo, p, ks);
    SizeIs(h, p);
    TotalConcat(h, todo, ks);
    TotalLast(h, todo, p);
  }

  lemma TotalLast(h: Heap, todo: seq<Pair>, p: Pair)
    requires h.Ok() && SoundAll(h, todo) && SoundAll(h, todo + [p]) && h.Sound(p.a) && h.Sound(p.b)
    ensures Total(h, todo + [p]) == Total(h, todo) + Size(h, p)
  {
    assert (todo + [p])[..|todo + [p]| - 1] == todo;
  }

  /** A pair of threads taken as equal. */
  lemma NextDeep(h: Heap, p0: Pair, done: set<Pair>, seen: seq<Pair>, todo: seq<Pair>, p: Pair, ks: seq<Pair>)
    requires h.Ok() && Walking(h, p0, done, seen, todo + [p]) && Kids(h, p.a, p.b) == Some(ks)
    requires Deep(h, p) && Met(h, p) !in seen
    ensures Walking(h, p0, done + {p} + {Met(h, p)}, seen + [Met(h, p)], todo + ks)
    ensures SoundAll(h, todo + [p]) && Left(h, |seen| + 1, todo + ks) < Left(h, |seen|, todo + [p]) && |seen| < Table(h)
  {
    var m := Met(h, p);
    SoundSplit(h, todo, p);
    SettleOne(h, done, todo, p, ks);
    MeaningKids(h, p);
    SettleTwin(h, done + {p}, todo + ks, p, m);
    TodoBisimilar(h, p0, todo, p, ks);
    DeepIn(h, p);
    DeepLeft(h, seen, todo, p, ks);
    SeenOneMore(h, seen, done, p);
  }

  lemma SeenOneMore(h: Heap, seen: seq<Pair>, done: set<Pair>, p: Pair)
    requires h.Ok() && Seen(h, seen, done) && Deep(h, p) && Met(h, p) !in seen && Met(h, p) in Pairs(h)
    ensures Seen(h, seen + [Met(h, p)], done + {p} + {Met(h, p)})
  {
  }

  /** One pair of threads fewer to meet pays for their parts. */
  lemma DeepLeft(h: Heap, seen: seq<Pair>, todo: seq<Pair>, p: Pair, ks: seq<Pair>)
    requires h.Ok() && Deep(h, p) && Kids(h, p.a, p.b) == Some(ks) && h.Sound(p.a) && h.Sound(p.b)
    requires SoundAll(h, todo) && SoundAll(h, todo + [p]) && Met(h, p) !in seen
    requires (forall i :: 0 <= i < |seen| ==> seen[i] in Pairs(h)) && forall i, j :: 0 <= i < j < |seen| ==> seen[i] != seen[j]
    ensures SoundAll(h, todo + ks) && |seen| < Table(h)
    ensures Left(h, |seen| + 1, todo + ks) < Left(h, |seen|, todo + [p])
  {
    var m := Met(h, p);
    DeepIn(h, p);
    SeenFits(h, seen + [m], Pairs(h));
    DeepCost(h, p, ks);
    TotalConcat(h, todo, ks);
    TotalLast(h, todo, p);
  }

  lemma DeepCost(h: Heap, p: Pair, ks: seq<Pair>)
    requires h.Ok() && Deep(h, p) && Kids(h, p.a, p.b) == Some(ks) && h.Sound(p.a) && h.Sound(p.b)
    ensures SoundAll(h, ks) && Total(h, ks) <= Most(h, Pairs(h))
  {
    var m := Met(h, p);
    MeaningKids(h, p);
    DeepIn(h, p);
    KidsLess(h, p);
    assert Cost(h, m) <= Most(h, Pairs(h));
  }

  lemma SettleTwin(h: Heap, done: set<Pair>, todo: seq<Pair>, p: Pair, m: Pair)
    requires h.Ok() && Settling(h, done, todo) && p in done && Kids(h, p.a, p.b) == Kids(h, m.a, m.b)
    ensures Settling(h, done + {m}, todo)
  {
    forall q | q in done + {m} ensures Settled(h, q, done + {m}, todo) {
      assert Settled(h, if q in done then q else p, done, todo);
    }
  }

  lemma NextHeld(h: Heap, p0: Pair, done: set<Pair>, seen: seq<Pair>, todo: seq<Pair>, p: Pair)
    requires h.Ok() && Walking(h, p0, done, seen, todo + [p]) && Deep(h, p) && Met(h, p) in seen
    ensures Walking(h, p0, done + {p}, seen, todo)
    ensures SoundAll(h, todo + [p]) && Left(h, |seen|, todo) < Left(h, |seen|, todo + [p])
  {
    var m := Met(h, p);
    SoundSplit(h, todo, p);
    MeaningKids(h, p);
    assert Settled(h, m, done, todo + [p]);
    SettleHeld(h, done, todo, p, m);
    TodoBisimilar(h, p0, todo, p, Kids(h, p.a, p.b).value);
    TotalLast(h, todo, p);
  }

  lemma DeepRoom(h: Heap, seen: seq<Pair>, p: Pair)
    requires h.Ok() && Deep(h, p) && h.Sound(p.a) && h.Sound(p.b) && Met(h, p) !in seen
    requires (forall i :: 0 <= i < |seen| ==> seen[i] in Pairs(h)) && forall i, j :: 0 <= i < j < |seen| ==> seen[i] != seen[j]
    ensures |seen| < Table(h) && |From(h, Met(h, p).a)| <= Most(h, Pairs(h))
  {
    var m := Met(h, p);
    DeepIn(h, p);
    SeenFits(h, seen + [m], Pairs(h));
    assert Cost(h, m) <= Most(h, Pairs(h));
  }

  /** A region short for p is shorter than the heap asks. */
  lemma ShortIs(h: Heap, p0: Pair, done: set<Pair>, seen: seq<Pair>, todo: seq<Pair>, p: Pair, nseen: nat, room: nat)
    requires h.Ok() && Walking(h, p0, done, seen, todo + [p]) && h.Sound(p0.a) && h.Sound(p0.b)
    requires SoundAll(h, todo + [p]) && Left(h, |seen|, todo + [p]) <= Room(h, p0)
    requires if Deep(h, p) then Met(h, p) !in seen && (|seen| == nseen || room < 2 * (|todo| + |From(h, Met(h, p).a)|))
             else Kids(h, p.a, p.b).Some? && room < 2 * (|todo| + |Kids(h, p.a, p.b).value|)
    ensures nseen < Table(h) || room < 2 * Room(h, p0)
  {
    SoundSplit(h, todo, p);
    TotalLast(h, todo, p);
    if Deep(h, p) {
      DeepRoom(h, seen, p);
    } else {
      SizeIs(h, p);
    }
  }

  /** eqv_at: 1 only for words bisimilar, and so with equal trees, 0 only for others; -1 just where the walk, which no region has a say in,
      comes to a pair this region has not the room for before it ends. Then the region is less than the heap and
      the words may need. It always ends. */
  method EqvAt(h: Heap, a: Word, b: Word, mem: array<Word>) returns (r: int)
    requires h.Ok() && h.Sound(a) && h.Sound(b)
    modifies mem
    ensures r == 1 || r == 0 || r == -1
    ensures r == 1 ==> Bisimilar(h, a, b)
    ensures r == 0 ==> !Bisimilar(h, a, b)
    ensures r == 1 ==> TreesEqual(h, a, b)
    ensures r == 0 ==> !TreesEqual(h, a, b)
    ensures r == -1 <==> LacksFirst(h, Pair(a, b), mem.Length / 8, mem.Length)
    ensures r == -1 ==> mem.Length / 8 < Table(h) || mem.Length - 2 * (mem.Length / 8) < 2 * Room(h, Pair(a, b))
  {
    var g := new Region(mem);
    var p := Pair(a, b);
    ghost var p0, done: set<Pair>, n: nat := p, {}, 0;
    BisimilarIsEqual(h, a, b);
    WalkStarts(h, p0);
    assert g.work + [p] == [p0];
    r := 2;
    while r == 2
      invariant g.Valid() && g.mem == mem && fresh(g) && g.nseen == mem.Length / 8
      invariant r == 2 ==> Walking(h, p0, done, g.seen, g.work + [p]) && Left(h, |g.seen|, g.work + [p]) <= Room(h, p0)
      invariant r == 2 ==> Walked(h, p0, n) == Going(g.seen, g.work, p) && Fine(h, p0, mem.Length / 8, mem.Length, n)
      invariant r != 2 ==> Answers(h, p0, r, mem.Length / 8, mem.Length)
      decreases if r == 2 then 1 + Left(h, |g.seen|, g.work + [p]) else 0
    {
      r, p, done := WalkOnce(h, g, p, p0, done, n);
      n := n + 1;
    }
  }

  ghost predicate Answers(h: Heap, p0: Pair, r: int, nseen: nat, len: nat)
    requires h.Ok() && h.Sound(p0.a) && h.Sound(p0.b)
  {
    && (r == 1 || r == 0 || r == -1)
    && (r == 1 ==> Bisimilar(h, p0.a, p0.b))
    && (r == 0 ==> !Bisimilar(h, p0.a, p0.b))
    && (r == -1 <==> LacksFirst(h, p0, nseen, len))
    && (r == -1 ==> nseen < Table(h) || len - 2 * nseen < 2 * Room(h, p0))
  }

  lemma WalkedIs(h: Heap, p0: Pair, n: nat)
    requires h.Ok()
    ensures Walked(h, p0, n + 1) == TurnOf(h, Walked(h, p0, n))
  {
  }

  lemma FineNext(h: Heap, p0: Pair, nseen: nat, len: nat, n: nat)
    requires h.Ok() && Fine(h, p0, nseen, len, n) && Walked(h, p0, n).Going? && !Lacks(h, Walked(h, p0, n), nseen, len)
    ensures Fine(h, p0, nseen, len, n + 1)
  {
  }

  /** The walk a turn further, as the region is left. */
  lemma WalkedNext(h: Heap, p0: Pair, nseen: nat, len: nat, n: nat)
    requires h.Ok() && Fine(h, p0, nseen, len, n) && Walked(h, p0, n).Going? && !Lacks(h, Walked(h, p0, n), nseen, len)
    ensures Walked(h, p0, n + 1) == TurnOf(h, Walked(h, p0, n)) && Fine(h, p0, nseen, len, n + 1)
    ensures !Walked(h, p0, n + 1).Going? ==> !LacksFirst(h, p0, nseen, len)
  {
    WalkedIs(h, p0, n);
    FineNext(h, p0, nseen, len, n);
    if !Walked(h, p0, n + 1).Going? { EndsFirst(h, p0, nseen, len, n + 1); }
  }

  /** One round: 2 to go on. */
  method WalkOnce(h: Heap, g: Region, p: Pair, ghost p0: Pair, ghost done: set<Pair>, ghost n: nat)
    returns (r: int, p': Pair, ghost done': set<Pair>)
    requires g.Valid() && h.Ok() && h.Sound(p0.a) && h.Sound(p0.b)
    requires Walking(h, p0, done, g.seen, g.work + [p]) && Left(h, |g.seen|, g.work + [p]) <= Room(h, p0)
    requires Walked(h, p0, n) == Going(g.seen, g.work, p) && Fine(h, p0, g.nseen, g.mem.Length, n)
    modifies g, g.mem
    ensures g.Valid()
    ensures r == 2 ==> Walking(h, p0, done', g.seen, g.work + [p'])
    ensures r == 2 ==> Left(h, |g.seen|, g.work + [p']) < old(Left(h, |g.seen|, g.work + [p]))
    ensures r == 2 ==> Walked(h, p0, n + 1) == Going(g.seen, g.work, p') && Fine(h, p0, g.nseen, g.mem.Length, n + 1)
    ensures r != 2 ==> Answers(h, p0, r, g.nseen, g.mem.Length)
  {
    SoundSplit(h, g.work, p);
    ghost var seen0, work0 := g.seen, g.work;
    ghost var w0 := Going(seen0, work0, p);
    var t, more, q, held := g.Turn(h, p);
    r, p', done' := t, p, done;
    if t == -1 {
      LacksFew(h, w0, g.nseen, g.mem.Length);
      ShortIs(h, p0, done, seen0, work0, p, g.nseen, g.mem.Length - 2 * g.nseen);
      assert LacksAt(h, p0, g.nseen, g.mem.Length, n);
    } else {
      WalkedNext(h, p0, g.nseen, g.mem.Length, n);
      if t == 0 {
        Differs(h, p0, done, seen0, work0, p);
      } else {
        done' := After(h, p0, done, seen0, work0, p, held);
        assert g.work + (if more then [q] else []) == work0 + if held then [] else Kids(h, p.a, p.b).value;
        assert work0 + [] == work0;
        r, p' := GoOn(h, g, more, q, p0, done');
        assert r == 2 ==> Onward(g.seen, g.work + [p']) == Going(g.seen, g.work, p');
      }
    }
  }

  /** On with q, or with what is popped, or at an end. */
  method GoOn(h: Heap, g: Region, more: bool, q: Pair, ghost p0: Pair, ghost done: set<Pair>) returns (r: int, p: Pair)
    requires g.Valid() && h.Ok() && Walking(h, p0, done, g.seen, g.work + if more then [q] else [])
    modifies g
    ensures g.Valid() && g.seen == old(g.seen) && (r == 1 || r == 2)
    ensures r == 2 ==> g.work + [p] == old(g.work) + if more then [q] else []
    ensures r == 1 ==> Bisimilar(h, p0.a, p0.b) && old(g.work) + (if more then [q] else []) == []
  {
    r, p := 2, q;
    if !more {
      assert g.work + [] == g.work;
      if g.w == 2 * g.nseen {
        Drained(h, done, p0);
        r := 1;
      } else {
        p := g.Pop();
      }
    }
  }

  lemma NotBisimilar(h: Heap, p: Pair)
    requires h.Ok() && Kids(h, p.a, p.b).None?
    ensures !Bisimilar(h, p.a, p.b)
  {
    forall R: iset<Pair> | p in R ensures !Bisimulation(h, R) {}
  }

  lemma Differs(h: Heap, p0: Pair, done: set<Pair>, seen: seq<Pair>, todo: seq<Pair>, p: Pair)
    requires h.Ok() && Walking(h, p0, done, seen, todo + [p]) && Kids(h, p.a, p.b).None?
    ensures !Bisimilar(h, p0.a, p0.b)
  {
    NotBisimilar(h, p);
    var all := todo + [p];
    assert !Bisimilar(h, all[|todo|].a, all[|todo|].b);
  }

  lemma After(h: Heap, p0: Pair, done: set<Pair>, seen: seq<Pair>, todo: seq<Pair>, p: Pair, held: bool) returns (done': set<Pair>)
    requires h.Ok() && Walking(h, p0, done, seen, todo + [p]) && SoundAll(h, todo + [p])
    requires if held then Deep(h, p) && Met(h, p) in seen
             else Kids(h, p.a, p.b).Some? && (Deep(h, p) ==> Met(h, p) !in seen)
    ensures var todo' := todo + if held then [] else Kids(h, p.a, p.b).value;
            var seen' := if !held && Deep(h, p) then seen + [Met(h, p)] else seen;
            Walking(h, p0, done', seen', todo') && Left(h, |seen'|, todo') < Left(h, |seen|, todo + [p])
  {
    if held {
      NextHeld(h, p0, done, seen, todo, p);
      done' := done + {p};
      assert todo + [] == todo;
    } else if Deep(h, p) {
      NextDeep(h, p0, done, seen, todo, p, Kids(h, p.a, p.b).value);
      done' := done + {p} + {Met(h, p)};
    } else {
      NextPlain(h, p0, done, seen, todo, p, Kids(h, p.a, p.b).value);
      done' := done + {p};
    }
  }
}
