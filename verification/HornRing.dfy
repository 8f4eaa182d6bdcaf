/** The audio ring of src/love/hornring.h: one pusher, one puller, no lock, each writing its own index only.
    A state machine whose steps touch one slot or one index each, in any interleaving; the indices are 32
    bits and run free. */
module HornRing {
  import opened Options

  const WRAP: nat := 0x1_0000_0000

  datatype Frame = Frame(l: int, r: int)

  /** A push under way: what it was given, how many are in, its view of the other's index and its own, and
      whether a frame's left slot is written; rs is the count its view was of. */
  datatype Pusher = PIdle | Pushing(s: seq<Frame>, k: nat, rd: nat, wr: nat, half: bool, rs: nat)

  /** A pull under way: how many are wanted and out, its own index and its view of the other's, and a left
      slot it has read; ws is the count its view was of. */
  datatype Puller = CIdle | Pulling(len: nat, i: nat, rd: nat, wr: nat, half: bool, l: int, ws: nat)

  /** The slots, two a frame; the shared indices; in history the frames taken in and those given out. */
  datatype Ring = Ring(n: nat, mem: seq<int>, rd: nat, wr: nat, p: Pusher, c: Puller, sent: seq<Frame>, got: seq<Frame>)

  datatype Step = PushStart(s: seq<Frame>) | PushLeft | PushRight | PushEnd | PullStart(len: nat) | PullLeft | PullRight | PullEnd

  /** A count in 32 bits; one more, and a difference, in 32 bits. */
  function Wrap(i: nat): (x: nat)
    ensures x < WRAP
    decreases i
  { if i < WRAP then i else Wrap(i - WRAP) }

  function Inc(x: nat): (y: nat) { if x + 1 >= WRAP then 0 else x + 1 }

  function Minus(a: nat, b: nat): (d: int) { if a >= b then a - b else a - b + WRAP }

  /** i & (n - 1), n being a power of two: what is left of i by whole rounds. */
  function Slot(i: nat, n: nat): (k: nat)
    requires n > 0
    ensures k < n
    decreases i
  { if i < n then i else Slot(i - n, n) }

  ghost predicate Can(g: Ring, a: Step) {
    && g.n > 0 && |g.mem| == 2 * g.n
    && match a
       case PushStart(_) => g.p.PIdle?
       case PushLeft => g.p.Pushing? && !g.p.half && g.p.k < |g.p.s| && Minus(g.p.wr, g.p.rd) < g.n
       case PushRight => g.p.Pushing? && g.p.half && g.p.k < |g.p.s|
       case PushEnd => g.p.Pushing? && !g.p.half && !(g.p.k < |g.p.s| && Minus(g.p.wr, g.p.rd) < g.n)
       case PullStart(_) => g.c.CIdle?
       case PullLeft => g.c.Pulling? && !g.c.half && g.c.i < g.c.len && g.c.rd != g.c.wr
       case PullRight => g.c.Pulling? && g.c.half
       case PullEnd => g.c.Pulling? && !g.c.half && !(g.c.i < g.c.len && g.c.rd != g.c.wr)
  }

  function Do(g: Ring, a: Step): (r: Ring)
    requires Can(g, a)
  {
    match a
    case PushStart(s) => g.(p := Pushing(s, 0, g.rd, g.wr, false, Out(g)))
    case PushLeft => g.(mem := g.mem[2 * Slot(g.p.wr, g.n) := g.p.s[g.p.k].l], p := g.p.(half := true))
    case PushRight =>
      g.(mem := g.mem[2 * Slot(g.p.wr, g.n) + 1 := g.p.s[g.p.k].r],
         p := g.p.(half := false, k := g.p.k + 1, wr := Inc(g.p.wr)), sent := g.sent + [g.p.s[g.p.k]])
    case PushEnd => g.(wr := g.p.wr, p := PIdle)
    case PullStart(len) => g.(c := Pulling(len, 0, g.rd, g.wr, false, 0, In(g)))
    case PullLeft => g.(c := g.c.(half := true, l := g.mem[2 * Slot(g.c.rd, g.n)]))
    case PullRight =>
      g.(c := g.c.(half := false, i := g.c.i + 1, rd := Inc(g.c.rd)),
         got := g.got + [Frame(g.c.l, g.mem[2 * Slot(g.c.rd, g.n) + 1])])
    case PullEnd => g.(rd := g.c.rd, c := CIdle)
  }

  // ----- the counts the indices are of

  /** Frames in, as far as the pusher has said; frames out, as far as the puller has. */
  function In(g: Ring): (n: nat) { if g.p.Pushing? && g.p.k <= |g.sent| then |g.sent| - g.p.k else |g.sent| }
  function Out(g: Ring): (n: nat) { if g.c.Pulling? && g.c.i <= |g.got| then |g.got| - g.c.i else |g.got| }

  /** The frames in and not yet out lie in their slots. */
  ghost predicate Holds(g: Ring)
    requires g.n > 0 && |g.mem| == 2 * g.n
  {
    forall j :: |g.got| <= j < |g.sent| ==> FrameAt(g, j)
  }

  ghost predicate FrameAt(g: Ring, j: nat)
    requires g.n > 0 && |g.mem| == 2 * g.n && j < |g.sent|
  { g.mem[2 * Slot(j, g.n)] == g.sent[j].l && g.mem[2 * Slot(j, g.n) + 1] == g.sent[j].r }

  ghost predicate Sized(g: Ring) {
    0 < g.n < WRAP && |g.mem| == 2 * g.n && exists q: nat :: g.n * q == WRAP
  }

  ghost predicate PushOk(g: Ring)
    requires g.n > 0 && |g.mem| == 2 * g.n
  {
    match g.p
    case PIdle => |g.sent| <= Out(g) + g.n
    case Pushing(s, k, rd, wr, half, rs) =>
      && k <= |g.sent| && k <= |s| && rs <= Out(g) && |g.sent| <= rs + g.n && rs <= |g.sent|
      && rd == Wrap(rs) && wr == Wrap(|g.sent|)
      && (half ==> k < |s| && |g.sent| < rs + g.n && g.mem[2 * Slot(|g.sent|, g.n)] == s[k].l)
  }

  ghost predicate PullOk(g: Ring) {
    match g.c
    case CIdle => |g.got| <= In(g)
    case Pulling(len, i, rd, wr, half, l, ws) =>
      && i <= |g.got| && i <= len && ws <= In(g) && |g.got| <= ws && ws <= |g.got| + g.n
      && rd == Wrap(|g.got|) && wr == Wrap(ws)
      && (half ==> i < len && |g.got| < ws && l == g.sent[|g.got|].l)
  }

  ghost predicate Inv(g: Ring) {
    && Sized(g) && Holds(g) && g.got <= g.sent
    && PushOk(g) && PullOk(g)
    && g.wr == Wrap(In(g)) && g.rd == Wrap(Out(g))
  }

  // ----- remainders

  lemma {:induction false} SlotRounds(i: nat, n: nat, q: nat)
    requires n > 0
    ensures Slot(i + n * q, n) == Slot(i, n)
    decreases q
  {
    if q > 0 {
      assert i + n * q == i + n * (q - 1) + n;
      SlotRounds(i, n, q - 1);
    }
  }

  /** An index and the count it is of name the same slot, n dividing 2^32. */
  lemma {:induction false} SameSlot(i: nat, n: nat, q: nat)
    requires n > 0 && n * q == WRAP
    ensures Slot(Wrap(i), n) == Slot(i, n)
    decreases i
  {
    if i >= WRAP {
      SameSlot(i - WRAP, n, q);
      SlotRounds(i - WRAP, n, q);
    }
  }

  /** Fewer than n apart, two frames have two slots. */
  lemma {:induction false} TwoSlots(i: nat, j: nat, n: nat)
    requires n > 0 && i < j < i + n
    ensures Slot(i, n) != Slot(j, n)
    decreases i
  {
    if i >= n { TwoSlots(i - n, j - n, n); }
  }

  /** The fill is right across the wrap. */
  lemma {:induction false} MinusIs(a: nat, b: nat, n: nat)
    requires b <= a <= b + n && n < WRAP
    ensures Minus(Wrap(a), Wrap(b)) == a - b
    decreases b
  {
    if b >= WRAP { MinusIs(a - WRAP, b - WRAP, n); }
  }

  lemma {:induction false} IncIs(a: nat)
    ensures Inc(Wrap(a)) == Wrap(a + 1)
    decreases a
  {
    if a >= WRAP { IncIs(a - WRAP); }
  }

  // ----- step by step

  lemma SlotIs(g: Ring, i: nat)
    requires Sized(g)
    ensures Slot(Wrap(i), g.n) == Slot(i, g.n)
  {
    var q: nat :| g.n * q == WRAP;
    SameSlot(i, g.n, q);
  }

  /** A slot written is of no frame still wanted. */
  lemma Elsewhere(g: Ring, j: nat)
    requires Inv(g) && g.p.Pushing? && |g.sent| < g.p.rs + g.n && |g.got| <= j < |g.sent|
    ensures Slot(j, g.n) != Slot(|g.sent|, g.n)
  {
    TwoSlots(j, |g.sent|, g.n);
  }

  lemma KeepPushStart(g: Ring, s: seq<Frame>)
    requires Inv(g) && Can(g, PushStart(s))
    ensures Inv(Do(g, PushStart(s)))
  {
    var h := Do(g, PushStart(s));
    assert forall j :: |g.got| <= j < |g.sent| ==> FrameAt(g, j) && FrameAt(h, j);
  }

  lemma KeepPushLeft(g: Ring)
    requires Inv(g) && Can(g, PushLeft)
    ensures Inv(Do(g, PushLeft))
  {
    var h := Do(g, PushLeft);
    SlotIs(g, |g.sent|);
    MinusIs(|g.sent|, g.p.rs, g.n);
    forall j | |h.got| <= j < |h.sent| ensures FrameAt(h, j) {
      assert FrameAt(g, j);
      Elsewhere(g, j);
    }
  }

  lemma KeepPushRight(g: Ring)
    requires Inv(g) && Can(g, PushRight)
    ensures Inv(Do(g, PushRight))
  {
    var h := Do(g, PushRight);
    SlotIs(g, |g.sent|);
    IncIs(|g.sent|);
    forall j | |h.got| <= j < |h.sent| ensures FrameAt(h, j) {
      if j < |g.sent| {
        assert FrameAt(g, j);
        Elsewhere(g, j);
      }
    }
  }

  lemma KeepPushEnd(g: Ring)
    requires Inv(g) && Can(g, PushEnd)
    ensures Inv(Do(g, PushEnd))
  {
    var h := Do(g, PushEnd);
    assert forall j :: |g.got| <= j < |g.sent| ==> FrameAt(g, j) && FrameAt(h, j);
  }

  lemma KeepPullStart(g: Ring, len: nat)
    requires Inv(g) && Can(g, PullStart(len))
    ensures Inv(Do(g, PullStart(len)))
  {
    var h := Do(g, PullStart(len));
    assert forall j :: |g.got| <= j < |g.sent| ==> FrameAt(g, j) && FrameAt(h, j);
  }

  /** The puller sees a frame just where there is one. */
  lemma Unequal(g: Ring)
    requires Inv(g) && g.c.Pulling?
    ensures g.c.rd != g.c.wr <==> |g.got| < g.c.ws
  {
    MinusIs(g.c.ws, |g.got|, g.n);
  }

  lemma KeepPullLeft(g: Ring)
    requires Inv(g) && Can(g, PullLeft)
    ensures Inv(Do(g, PullLeft))
  {
    var h := Do(g, PullLeft);
    Unequal(g);
    SlotIs(g, |g.got|);
    assert FrameAt(g, |g.got|);
    assert forall j :: |g.got| <= j < |g.sent| ==> FrameAt(g, j) && FrameAt(h, j);
  }

  lemma KeepPullRight(g: Ring)
    requires Inv(g) && Can(g, PullRight)
    ensures Inv(Do(g, PullRight))
  {
    var h := Do(g, PullRight);
    SlotIs(g, |g.got|);
    IncIs(|g.got|);
    assert FrameAt(g, |g.got|);
    assert forall j :: |h.got| <= j < |h.sent| ==> FrameAt(g, j) && FrameAt(h, j);
  }

  lemma KeepPullEnd(g: Ring)
    requires Inv(g) && Can(g, PullEnd)
    ensures Inv(Do(g, PullEnd))
  {
    var h := Do(g, PullEnd);
    assert forall j :: |g.got| <= j < |g.sent| ==> FrameAt(g, j) && FrameAt(h, j);
  }

  lemma Keep(g: Ring, a: Step)
    requires Inv(g) && Can(g, a)
    ensures Inv(Do(g, a))
  {
    match a
    case PushStart(s) => KeepPushStart(g, s);
    case PushLeft => KeepPushLeft(g);
    case PushRight => KeepPushRight(g);
    case PushEnd => KeepPushEnd(g);
    case PullStart(len) => KeepPullStart(g, len);
    case PullLeft => KeepPullLeft(g);
    case PullRight => KeepPullRight(g);
    case PullEnd => KeepPullEnd(g);
  }

  // ----- every run


  ghost function Play(g: Ring, run: seq<Step>): (r: Option<Ring>)
    decreases |run|
  { if run == [] then Some(g) else if Can(g, run[0]) then Play(Do(g, run[0]), run[1..]) else None }

  function Empty(n: nat, mem: seq<int>): (g: Ring) { Ring(n, mem, 0, 0, PIdle, CIdle, [], []) }

  lemma {:induction false} PlayKeeps(g: Ring, run: seq<Step>)
    requires Inv(g) && Play(g, run).Some?
    ensures Inv(Play(g, run).value) && Play(g, run).value.n == g.n
    decreases |run|
  {
    if run != [] {
      Keep(g, run[0]);
      PlayKeeps(Do(g, run[0]), run[1..]);
    }
  }

  /** hring_lag. */
  function Lag(g: Ring): (n: int) { Minus(g.wr, g.rd) }

  /** In every interleaving, however long, and over any wrap: the frames given out are the first of those
      taken in, in order; those not yet out lie whole in the ring; and the lag is the fill, n at most. */
  lemma EveryRun(n: nat, mem: seq<int>, q: nat, run: seq<Step>)
    requires 0 < n < WRAP && n * q == WRAP && |mem| == 2 * n && Play(Empty(n, mem), run).Some?
    ensures var g := Play(Empty(n, mem), run).value;
            && Inv(g) && g.got == g.sent[..|g.got|]
            && |g.got| <= |g.sent| <= |g.got| + n
            && Lag(g) == In(g) - Out(g) <= n
  {
    PlayKeeps(Empty(n, mem), run);
    var g := Play(Empty(n, mem), run).value;
    LagIs(g);
  }

  lemma LagIs(g: Ring)
    requires Inv(g)
    ensures |g.got| <= |g.sent| <= |g.got| + g.n && Lag(g) == In(g) - Out(g) <= g.n
  {
    MinusIs(In(g), Out(g), g.n);
  }

  /** Neither side ever waits for the other: a push or a pull under way always has its next step. */
  lemma NeverStuck(g: Ring)
    requires Inv(g)
    ensures g.p.Pushing? ==> Can(g, PushLeft) || Can(g, PushRight) || Can(g, PushEnd)
    ensures g.c.Pulling? ==> Can(g, PullLeft) || Can(g, PullRight) || Can(g, PullEnd)
  {
  }

  /** A push that ends takes all it was given, or has filled the ring as far as it can see; a pull that ends
      gives all that was asked, or has emptied it. */
  lemma EndsShort(g: Ring)
    requires Inv(g)
    ensures Can(g, PushEnd) ==> g.p.k == |g.p.s| || |g.sent| == g.p.rs + g.n
    ensures Can(g, PullEnd) ==> g.c.i >= g.c.len || |g.got| == g.c.ws
  {
    if g.p.Pushing? { MinusIs(|g.sent|, g.p.rs, g.n); }
    if g.c.Pulling? { Unequal(g); }
  }
}
