/** host_lr_run of src/love/lr.c in its one buffer of bytes: states from the front, the log past all the room they
    may need, and at the end the log brought next to them. */
module Lr {
  import opened LrSpec
  import opened LrRun
  import opened LrTables

  type byte = x: nat | x < 256

  function Pair(lo: byte, hi: byte): (v: u16) { (lo as nat) + 256 * (hi as nat) }

  /** The byte of v at place k, the least first. */
  function Digit(v: nat, k: nat): (d: byte)
    decreases k
  { if k == 0 then v % 256 else Digit(v / 256, k - 1) }

  lemma Digits16(v: u16)
    ensures Pair(Digit(v, 0), Digit(v, 1)) == v
  {
    assert Digit(v, 1) == Digit(v / 256, 0);
  }

  lemma PairDigits(lo: byte, hi: byte)
    ensures Digit(Pair(lo, hi), 0) == lo && Digit(Pair(lo, hi), 1) == hi
  {
    var v: nat := Pair(lo, hi);
    assert v / 256 == hi && v % 256 == lo;
    assert Digit(v, 1) == Digit(v / 256, 0);
  }

  /** The low 16, or 32, bits of v are at i. */
  ghost predicate Is16(b: array<byte>, i: nat, v: nat)
    reads b
  { i + 2 <= b.Length && b[i] == Digit(v, 0) && b[i + 1] == Digit(v, 1) }

  ghost predicate Is32(b: array<byte>, i: nat, v: nat)
    reads b
  { i + 4 <= b.Length && b[i] == Digit(v, 0) && b[i + 1] == Digit(v, 1) && b[i + 2] == Digit(v, 2) && b[i + 3] == Digit(v, 3) }

  /** lr16. */
  method Get16(b: array<byte>, i: nat, ghost v: u16) returns (r: u16)
    requires Is16(b, i, v)
    ensures r == v
  {
    Digits16(v);
    r := Pair(b[i], b[i + 1]);
  }

  /** lrput16, lrput32. */
  method Put16(b: array<byte>, i: nat, v: nat)
    requires i + 2 <= b.Length
    modifies b
    ensures Is16(b, i, v)
    ensures forall j :: 0 <= j < b.Length && !(i <= j < i + 2) ==> b[j] == old(b[j])
  {
    b[i], b[i + 1] := Digit(v, 0), Digit(v, 1);
  }

  method Put32(b: array<byte>, i: nat, v: nat)
    requires i + 4 <= b.Length
    modifies b
    ensures Is32(b, i, v)
    ensures forall j :: 0 <= j < b.Length && !(i <= j < i + 4) ==> b[j] == old(b[j])
  {
    b[i], b[i + 1], b[i + 2], b[i + 3] := Digit(v, 0), Digit(v, 1), Digit(v, 2), Digit(v, 3);
  }

  /** The states lie from byte 8 on; the log from lg on, six bytes an entry. */
  ghost predicate StatesLie(b: array<byte>, stk: seq<u16>)
    reads b
  { forall i :: 0 <= i < |stk| ==> Is16(b, 8 + 2 * i, stk[i]) }

  ghost predicate LogLies(b: array<byte>, lg: nat, log: seq<Entry>)
    reads b
  { forall i :: 0 <= i < |log| ==> EntryLies(b, lg + 6 * i, log[i]) }

  ghost predicate EntryLies(b: array<byte>, at: nat, e: Entry)
    reads b
  { Is16(b, at, e.r) && Is32(b, at + 2, e.pos) }

  lemma StatesFit(b: array<byte>, stk: seq<u16>)
    requires StatesLie(b, stk) && stk != []
    ensures 8 + 2 * |stk| <= b.Length
  {
    assert Is16(b, 8 + 2 * (|stk| - 1), stk[|stk| - 1]);
  }

  /** The top of the overlay, or of the states. */
  method TopAt(b: array<byte>, ghost st: seq<u16>, ov: array<u16>, d: nat, no: nat) returns (s: u16)
    requires StatesLie(b, st) && d == |st| >= 1 && no <= ov.Length && 8 + 2 * d <= b.Length
    ensures s == Top(st, ov[..no])
  {
    if no > 0 { s := ov[no - 1]; } else { s := Get16(b, 8 + 2 * (d - 1), st[d - 1]); }
  }

  /** lr_takes: the states are read where they lie, the reductions' own ride an overlay. */
  method TakesAt(p: Parser, b: array<byte>, ghost st0: seq<u16>, d0: nat, kind: nat, turns: nat) returns (yes: bool)
    requires StatesLie(b, st0) && d0 == |st0| >= 1
    ensures yes == Takes(p, st0, [], kind, turns)
  {
    var ov := new u16[OVER];
    var no: nat, d: nat, n: nat := 0, d0, 0;
    ghost var f, st, o := Turner(p, kind), st0, [];
    StatesFit(b, st0);
    while n < turns
      invariant n <= turns && no <= OVER == ov.Length && st != [] && |st| == d <= d0 && StatesLie(b, st) && o == ov[..no]
      invariant Turns(f, st, o, turns - n) == Turns(f, st0, [], turns)
    {
      var more: bool;
      yes, more, d, no, st, o := TurnBy(p, b, st, ov, d, no, kind, f);
      if !more { return; }
      n := n + 1;
    }
    yes := true;
  }

  method TurnBy(p: Parser, b: array<byte>, ghost st0: seq<u16>, ov: array<u16>, d0: nat, no0: nat, kind: nat, ghost f: (seq<u16>, seq<u16>) -> Turn)
    returns (yes: bool, more: bool, d: nat, no: nat, ghost st: seq<u16>, ghost o: seq<u16>)
    requires StatesLie(b, st0) && 1 <= d0 == |st0| && ov.Length == OVER && no0 <= OVER && 8 + 2 * d0 <= b.Length
    requires f == Turner(p, kind)
    modifies ov
    ensures f(st0, old(ov[..no0])) == if more then Next(st, o) else Answer(yes)
    ensures no <= OVER && 1 <= d == |st| <= d0 && StatesLie(b, st) && o == ov[..no]
  {
    yes, more, d, no, st, o := TurnAt(p, b, st0, ov, d0, no0, kind);
  }

  method TurnAt(p: Parser, b: array<byte>, ghost st0: seq<u16>, ov: array<u16>, d0: nat, no0: nat, kind: nat)
    returns (yes: bool, more: bool, d: nat, no: nat, ghost st: seq<u16>, ghost o: seq<u16>)
    requires StatesLie(b, st0) && 1 <= d0 == |st0| && ov.Length == OVER && no0 <= OVER && 8 + 2 * d0 <= b.Length
    modifies ov
    ensures !more ==> TurnOf(p, st0, old(ov[..no0]), kind) == Answer(yes)
    ensures more ==> TurnOf(p, st0, old(ov[..no0]), kind) == Next(st, o)
    ensures no <= OVER && 1 <= d == |st| <= d0 && StatesLie(b, st) && o == ov[..no]
  {
    d, no, yes, more, st, o := d0, no0, false, false, st0, ov[..no0];
    var s := TopAt(b, st, ov, d, no);
    if s >= p.states { return; }
    var a := p.act(s, kind);
    if a == 0 { return; }
    if a < 0x8000 { yes := true; return; }
    var r := a - 0x8000;
    var l: nat := if p.known(r) then p.len(r) else 0;
    var k := if l < no then l else no;
    if l - k >= d { return; }
    no, d := no - k, d - (l - k);
    st, o := PopBoth(st0, o, l).0, PopBoth(st0, o, l).1;
    assert o == ov[..no];
    var q := TopAt(b, st, ov, d, no);
    if no == OVER { yes := true; return; }
    var g := p.goto(r, q);
    ov[no] := g;
    assert ov[..no + 1] == o + [g];
    no, o, more := no + 1, o + [g], true;
  }

  // ----- the run

  /** The cursor c lies in the buffer: d states, n entries of the log. */
  ghost predicate Lies(b: array<byte>, lg: nat, c: Cur, pos: nat, d: nat, look: nat, n: nat)
    reads b
  {
    && d == |c.stk| >= 1 && n == |c.log| && pos == c.pos && look == c.look
    && StatesLie(b, c.stk) && LogLies(b, lg, c.log)
    && 8 + 2 * d <= lg && lg + 6 * n <= b.Length
  }

  method PushState(b: array<byte>, lg: nat, ghost c: Cur, d: nat, n: nat, s: u16)
    requires Lies(b, lg, c, c.pos, d, c.look, n) && 8 + 2 * (d + 1) <= lg
    modifies b
    ensures StatesLie(b, c.stk + [s]) && LogLies(b, lg, c.log)
  {
    Put16(b, 8 + 2 * d, s);
    forall i | 0 <= i < |c.stk| ensures Is16(b, 8 + 2 * i, c.stk[i]) {}
    forall i | 0 <= i < |c.log| ensures EntryLies(b, lg + 6 * i, c.log[i]) {}
  }

  method PushEntry(b: array<byte>, lg: nat, ghost stk: seq<u16>, ghost log: seq<Entry>, n: nat, r: nat, pos: nat)
    requires StatesLie(b, stk) && LogLies(b, lg, log) && n == |log| && 8 + 2 * |stk| <= lg && lg + 6 * (n + 1) <= b.Length
    modifies b
    ensures StatesLie(b, stk) && LogLies(b, lg, log + [Entry(r, pos)])
  {
    Put16(b, lg + 6 * n, r);
    Put32(b, lg + 6 * n + 2, pos);
    forall i | 0 <= i < |stk| ensures Is16(b, 8 + 2 * i, stk[i]) {}
    forall i | 0 <= i < |log| ensures EntryLies(b, lg + 6 * i, log[i]) {}
  }

  /** The action on a kind: 0 to go on. */
  method ActAt(p: Parser, b: array<byte>, lg: nat, ghost c: Cur, pos0: nat, d0: nat, look0: nat, n0: nat, kind: nat)
    returns (z: nat, pos: nat, d: nat, look: nat, n: nat, ghost c': Cur)
    requires Lies(b, lg, c, pos0, d0, look0, n0) && 8 + 2 * (d0 + 1) <= lg && lg + 6 * (n0 + 1) <= b.Length
    requires c.stk[d0 - 1] < p.states
    modifies b
    ensures Act(p, c, kind) == (if z == 0 then Go(c') else Stop(z, c')) && z < 4
    ensures Lies(b, lg, c', pos, d, look, n) && d <= d0 + 1 && n <= n0 + 1
  {
    z, pos, d, look, n, c' := 0, pos0, d0, look0, n0, c;
    var s := Get16(b, 8 + 2 * (d - 1), c.stk[d - 1]);
    var a := p.act(s, kind);
    if a == 0 { z := 2; return; }
    if a < 0x8000 {
      if kind == 0 { z := 1; return; }
      PushState(b, lg, c, d, n, a);
      d, pos, look, c' := d + 1, pos + 1, ASKED, Cur(c.stk + [a], c.pos + 1, ASKED, c.log);
      return;
    }
    var r := a - 0x8000;
    var l: nat := if p.known(r) then p.len(r) else d;
    if l >= d { z := 2; return; }
    d := d - l;
    ghost var below := c.stk[..d];
    var q := Get16(b, 8 + 2 * (d - 1), c.stk[d - 1]);
    assert forall i :: 0 <= i < d ==> Is16(b, 8 + 2 * i, below[i]);
    var g := p.goto(r, q);
    PushState(b, lg, c.(stk := below), d, n, g);
    PushEntry(b, lg, below + [g], c.log, n, r, pos);
    d, n, c' := d + 1, n + 1, c.(stk := below + [g], log := c.log + [Entry(r, c.pos)]);
  }

  /** The kind the caller's say comes to. */
  method SaidAt(p: Parser, b: array<byte>, ghost stk: seq<u16>, d: nat, look: nat) returns (kind: nat)
    requires StatesLie(b, stk) && d == |stk| >= 1
    ensures kind == Said(p, stk, look)
  {
    kind := look;
    if look > ASKED {
      var yes := TakesAt(p, b, stk, d, look % 0x1_0000, p.turns);
      kind := if yes then look % 0x1_0000 else look / 0x1_0000 - 1;
    }
  }

  method StepAt(p: Parser, K: seq<u16>, b: array<byte>, lg: nat, ghost c: Cur, pos0: nat, d0: nat, look0: nat, n0: nat)
    returns (z: nat, pos: nat, d: nat, look: nat, n: nat, ghost c': Cur)
    requires Lies(b, lg, c, pos0, d0, look0, n0) && 8 + 2 * (d0 + 1) <= lg && lg + 6 * (n0 + 1) <= b.Length
    modifies b
    ensures Over(p, K)(c) == (if z == 0 then Go(c') else Stop(z, c')) && z < 4
    ensures Lies(b, lg, c', pos, d, look, n) && d <= d0 + 1 && n <= n0 + 1
  {
    pos, d, look, n, c' := pos0, d0, look0, n0, c;
    var s := Get16(b, 8 + 2 * (d - 1), c.stk[d - 1]);
    if s >= p.states { z := 2; return; }
    var kind: nat := 0;
    if p.wants(s) {
      kind := KindAt(K, pos);
      if kind == ASKED {
        if look == ASKED { z := 3; return; }
        look := SaidAt(p, b, c.stk, d, look);
        kind, c' := look, c.(look := look);
      }
    }
    z, pos, d, look, n, c' := ActAt(p, b, lg, c', pos, d, look, n, kind);
  }

  /** Each cursor is a step on from the one before. */
  ghost predicate Trace(f: Cur -> Res, cs: seq<Cur>) {
    forall i :: 1 <= i < |cs| ==> f(cs[i - 1]) == Go(cs[i])
  }

  lemma {:induction false} TraceRun(f: Cur -> Res, cs: seq<Cur>, n: nat, r: Res)
    requires cs != [] && Trace(f, cs) && |cs| - 1 <= n && Run(f, cs[|cs| - 1], n - (|cs| - 1)) == r
    ensures Run(f, cs[0], n) == r
    decreases |cs|
  {
    if |cs| > 1 {
      assert f(cs[0]) == Go(cs[1]);
      TraceRun(f, cs[1..], n - 1, r);
    }
  }

  /** A step more of a trace, or its end. */
  method StepOn(p: Parser, K: seq<u16>, b: array<byte>, lg: nat, ghost cs0: seq<Cur>, pos0: nat, d0: nat, look0: nat, n0: nat, ghost steps: nat)
    returns (z: nat, pos: nat, d: nat, look: nat, n: nat, ghost c: Cur)
    requires cs0 != [] && Lies(b, lg, cs0[|cs0| - 1], pos0, d0, look0, n0) && 8 + 2 * (d0 + 1) <= lg && lg + 6 * (n0 + 1) <= b.Length
    requires Trace(Over(p, K), cs0) && |cs0| <= steps
    modifies b
    ensures Lies(b, lg, c, pos, d, look, n) && d <= d0 + 1 && n <= n0 + 1 && z < 4
    ensures z == 0 ==> Trace(Over(p, K), cs0 + [c])
    ensures z != 0 ==> Run(Over(p, K), cs0[0], steps) == Stop(z, c)
  {
    z, pos, d, look, n, c := StepAt(p, K, b, lg, cs0[|cs0| - 1], pos0, d0, look0, n0);
    if z != 0 { TraceRun(Over(p, K), cs0, steps, Stop(z, c)); }
  }

  /** The loop, steps of it at most. */
  method Steps(p: Parser, K: seq<u16>, b: array<byte>, lg: nat, steps: nat, ghost c0: Cur, pos0: nat, d0: nat, look0: nat)
    returns (z: nat, pos: nat, d: nat, look: nat, n: nat, ghost c: Cur)
    requires Lies(b, lg, c0, pos0, d0, look0, 0) && 8 + 2 * (d0 + steps) <= lg && lg + 6 * steps <= b.Length
    modifies b
    ensures Run(Over(p, K), c0, steps) == Stop(z, c) && z < 4
    ensures Lies(b, lg, c, pos, d, look, n) && d <= d0 + steps && n <= steps
  {
    z, pos, d, look, n, c := 0, pos0, d0, look0, 0, c0;
    ghost var cs := [c0];
    var i := 0;
    while i < steps
      invariant i <= steps && Lies(b, lg, c, pos, d, look, n) && d <= d0 + i && n <= i
      invariant |cs| == i + 1 && cs[0] == c0 && cs[i] == c && Trace(Over(p, K), cs)
    {
      z, pos, d, look, n, c := StepOn(p, K, b, lg, cs, pos, d, look, n, steps);
      if z != 0 { return; }
      cs := cs + [c];
      i := i + 1;
    }
    TraceRun(Over(p, K), cs, steps, Stop(0, c));
  }

  /** len bytes from lg down to at. */
  method MoveBytes(b: array<byte>, at: nat, lg: nat, len: nat)
    requires at <= lg && lg + len <= b.Length
    modifies b
    ensures forall j :: at <= j < at + len ==> b[j] == old(b[j + (lg - at)])
    ensures forall j :: 0 <= j < at ==> b[j] == old(b[j])
  {
    var k := 0;
    while k < len
      invariant k <= len
      invariant forall j :: at <= j < at + k ==> b[j] == old(b[j + (lg - at)])
      invariant forall j :: at + k <= j < b.Length ==> b[j] == old(b[j])
      invariant forall j :: 0 <= j < at ==> b[j] == old(b[j])
    {
      b[at + k] := b[lg + k];
      k := k + 1;
    }
  }

  /** The log moved down behind the states. */
  method Down(b: array<byte>, at: nat, lg: nat, ghost stk: seq<u16>, ghost log: seq<Entry>, n: nat)
    requires StatesLie(b, stk) && LogLies(b, lg, log) && n == |log| && 8 + 2 * |stk| <= at <= lg && lg + 6 * n <= b.Length
    modifies b
    ensures StatesLie(b, stk) && LogLies(b, at, log)
    ensures forall j :: 0 <= j < at ==> b[j] == old(b[j])
  {
    MoveBytes(b, at, lg, 6 * n);
    forall i | 0 <= i < |stk| ensures Is16(b, 8 + 2 * i, stk[i]) {
      assert old(Is16(b, 8 + 2 * i, stk[i]));
    }
    forall i | 0 <= i < |log| ensures EntryLies(b, at + 6 * i, log[i]) {
      assert old(EntryLies(b, lg + 6 * i, log[i]));
    }
  }

  function W16(b: seq<byte>, i: nat): (v: u16)
    requires i + 2 <= |b|
  { Pair(b[i], b[i + 1]) }

  function W32(b: seq<byte>, i: nat): (v: nat)
    requires i + 4 <= |b|
  { W16(b, i) + 0x1_0000 * W16(b, i + 2) }

  /** A cursor the run takes: a place and 1 to 0xffffff states. */
  predicate CursorOk(C: seq<byte>) {
    |C| >= 10 && 1 <= W32(C, 4) <= 0xffffff && |C| >= 8 + 2 * W32(C, 4)
  }

  function StatesOf(C: seq<byte>, d: nat): (stk: seq<u16>)
    requires 8 + 2 * d <= |C|
    ensures |stk| == d
  { seq(d, (i: nat) requires i < d => W16(C, 8 + 2 * i)) }

  /** The answer: the place, the depth and the states, then the status, and the log. */
  ghost predicate Answered(b: array<byte>, m: nat, r: Res)
    reads b
  {
    var d, n := |r.c.stk|, |r.c.log|;
    && r.Stop? && m == 13 + 2 * d + 6 * n <= b.Length
    && Is32(b, 0, r.c.pos) && Is32(b, 4, d) && StatesLie(b, r.c.stk)
    && b[8 + 2 * d] == r.z && Is32(b, 9 + 2 * d, n) && LogLies(b, 13 + 2 * d, r.c.log)
  }

  /** The bytes of a string of m, in whole words of 8, with one zero at least past them. */
  function Full(m: nat): (n: nat)
    ensures m < n <= m + 8
  { 8 * (m / 8 + 1) }

  lemma FullMono(m: nat, n: nat)
    requires m <= n
    ensures Full(m) <= Full(n)
  {
  }

  /** The last word's bytes past the answer are zero. */
  ghost predicate Padded(b: array<byte>, m: nat)
    reads b
  { Full(m) <= b.Length && forall j :: m <= j < Full(m) ==> b[j] == 0 }

  method Pad(b: array<byte>, m: nat, ghost r: Res)
    requires Answered(b, m, r) && Full(m) <= b.Length
    modifies b
    ensures Answered(b, m, r) && Padded(b, m)
  {
    Zero(b, m, Full(m));
    forall i | 0 <= i < |r.c.stk| ensures Is16(b, 8 + 2 * i, r.c.stk[i]) { assert old(Is16(b, 8 + 2 * i, r.c.stk[i])); }
    forall i | 0 <= i < |r.c.log| ensures EntryLies(b, 13 + 2 * |r.c.stk| + 6 * i, r.c.log[i]) {
      assert old(EntryLies(b, 13 + 2 * |r.c.stk| + 6 * i, r.c.log[i]));
    }
  }

  method Zero(b: array<byte>, m: nat, n: nat)
    requires m <= n <= b.Length
    modifies b
    ensures forall j :: m <= j < n ==> b[j] == 0
    ensures forall j :: 0 <= j < m ==> b[j] == old(b[j])
  {
    var i := m;
    while i < n
      invariant m <= i <= n
      invariant forall j :: m <= j < i ==> b[j] == 0
      invariant forall j :: 0 <= j < m ==> b[j] == old(b[j])
    {
      b[i] := 0;
      i := i + 1;
    }
  }

  /** host_lr_run, over tables of tlen bytes, kinds K, the cursor C and what the caller says; no for arguments it
      does not take. Whatever automaton the tables are packed from, the answer is that automaton's run. Every write
      is within the room it asked for. */
  method HostRun(t: Tab, tlen: nat, K: seq<u16>, C: seq<byte>, look: nat) returns (ok: bool, b: array<byte>, m: nat)
    ensures ok <==> tlen == 2 * t.Size() && t.T() != 0 && CursorOk(C)
    ensures fresh(b)
    ensures ok ==> Answered(b, m, Run(Over(t.Walk(), K), Cur(StatesOf(C, W32(C, 4)), W32(C, 0), look, []), STEPS))
    ensures ok ==> Padded(b, m)
    ensures ok ==> forall d :: Packed(t, d) ==> Answered(b, m, Run(Over(d.Walk(), K), Cur(StatesOf(C, W32(C, 4)), W32(C, 0), look, []), STEPS))
  {
    ok := tlen == 2 * t.Size() && t.T() != 0 && CursorOk(C);
    if !ok {
      b, m := new byte[0], 0;
      return;
    }
    b, m := Host(t.Walk(), K, C, look, STEPS);
    forall d | Packed(t, d) ensures Answered(b, m, Run(Over(d.Walk(), K), Cur(StatesOf(C, W32(C, 4)), W32(C, 0), look, []), STEPS)) {
      PackedRun(t, d, K, Cur(StatesOf(C, W32(C, 4)), W32(C, 0), look, []), STEPS);
    }
  }

  method Host(p: Parser, K: seq<u16>, C: seq<byte>, look: nat, steps: nat) returns (b: array<byte>, m: nat)
    requires CursorOk(C) && steps <= STEPS
    ensures fresh(b) && Padded(b, m) && Answered(b, m, Run(Over(p, K), Cur(StatesOf(C, W32(C, 4)), W32(C, 0), look, []), steps))
  {
    var d0 := W32(C, 4);
    var lg := 8 + 2 * (d0 + steps) + 5;
    b := new byte[Full(lg + 6 * steps)];
    Copy(b, C, d0);
    ghost var c0 := Cur(StatesOf(C, W32(C, 4)), W32(C, 0), look, []);
    ghost var c;
    var z, pos, d, look1, n;
    z, pos, d, look1, n, c := Steps(p, K, b, lg, steps, c0, W32(C, 0), d0, look);
    m := Finish(b, lg, z, pos, d, n, c, steps);
  }

  /** The states copied in. */
  method Copy(b: array<byte>, C: seq<byte>, d0: nat)
    requires 8 + 2 * d0 <= |C| && 8 + 2 * d0 <= b.Length
    modifies b
    ensures StatesLie(b, StatesOf(C, d0))
  {
    var k := 8;
    while k < 8 + 2 * d0
      invariant 8 <= k <= 8 + 2 * d0
      invariant forall j :: 8 <= j < k ==> b[j] == C[j]
    {
      b[k] := C[k];
      k := k + 1;
    }
    forall i | 0 <= i < d0 ensures Is16(b, 8 + 2 * i, StatesOf(C, d0)[i]) { PairDigits(C[8 + 2 * i], C[8 + 2 * i + 1]); }
  }

  method Finish(b: array<byte>, lg: nat, z: nat, pos: nat, d: nat, n: nat, ghost c: Cur, ghost steps: nat) returns (m: nat)
    requires Lies(b, lg, c, pos, d, c.look, n) && 13 + 2 * d <= lg && z < 4 && n <= steps && b.Length == Full(lg + 6 * steps)
    modifies b
    ensures Answered(b, m, Stop(z, c)) && Padded(b, m)
  {
    m := Lay(b, lg, z, pos, d, n, c);
    FullMono(m, lg + 6 * steps);
    Pad(b, m, Stop(z, c));
  }

  /** The answer laid. */
  method Lay(b: array<byte>, lg: nat, z: nat, pos: nat, d: nat, n: nat, ghost c: Cur) returns (m: nat)
    requires Lies(b, lg, c, pos, d, c.look, n) && 13 + 2 * d <= lg && z < 4
    modifies b
    ensures Answered(b, m, Stop(z, c))
  {
    LayHead(b, lg, z, pos, d, n, c);
    Down(b, 13 + 2 * d, lg, c.stk, c.log, n);
    m := 13 + 2 * d + 6 * n;
  }

  method LayHead(b: array<byte>, lg: nat, z: nat, pos: nat, d: nat, n: nat, ghost c: Cur)
    requires Lies(b, lg, c, pos, d, c.look, n) && 13 + 2 * d <= lg && z < 4
    modifies b
    ensures d == |c.stk| && n == |c.log| && Is32(b, 0, pos) && Is32(b, 4, d) && b[8 + 2 * d] == z && Is32(b, 9 + 2 * d, n)
    ensures StatesLie(b, c.stk) && LogLies(b, lg, c.log)
  {
    var at := 8 + 2 * d;
    Put32(b, 0, pos);
    Put32(b, 4, d);
    b[at] := z;
    Put32(b, at + 1, n);
    forall i | 0 <= i < |c.stk| ensures Is16(b, 8 + 2 * i, c.stk[i]) { assert old(Is16(b, 8 + 2 * i, c.stk[i])); }
    forall i | 0 <= i < |c.log| ensures EntryLies(b, lg + 6 * i, c.log[i]) { assert old(EntryLies(b, lg + 6 * i, c.log[i])); }
  }
}
