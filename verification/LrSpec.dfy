/** The machine of src/love/lr.c on values: a shift-reduce walk over packed tables, the lookahead that runs
    it on an overlay, the forest its log stands for, and its slices. */
module LrSpec {

  type u16 = x: nat | x < 0x1_0000

  /** The tables, as 16-bit words read from their start; what lies past their end is anything. */
  datatype Tab = Tab(u: nat -> u16) {
    function T(): u16 { u(0) }
    function N(): u16 { u(1) }
    function S(): u16 { u(2) }
    function R(): u16 { u(3) }
    function AN(): u16 { u(4) }
    function GN(): u16 { u(5) }
    function Rlhs(r: nat): u16 { u(6 + r) }
    function Rlen(r: nat): u16 { u(6 + R() + r) }
    function Dflt(s: nat): u16 { u(6 + 2 * R() + s) }
    function Abase(s: nat): u16 { u(6 + 2 * R() + S() + s) }
    function Gdef(a: nat): u16 { u(6 + 2 * R() + 2 * S() + a) }
    function Gbase(a: nat): u16 { u(6 + 2 * R() + 2 * S() + N() + a) }
    function Atab(i: nat): u16 { u(6 + 2 * R() + 2 * S() + 2 * N() + i) }
    function Achk(i: nat): u16 { u(6 + 2 * R() + 2 * S() + 2 * N() + AN() + i) }
    function Gtab(j: nat): u16 { u(6 + 2 * R() + 2 * S() + 2 * N() + 2 * AN() + j) }
    function Gchk(j: nat): u16 { u(6 + 2 * R() + 2 * S() + 2 * N() + 2 * AN() + GN() + j) }

    /** The 16-bit words the tables are. */
    function Size(): nat { 6 + 2 * R() + 2 * S() + 2 * N() + 2 * AN() + 2 * GN() }

    /** The action in state s on a kind: the row's where the check holds, else the default's. */
    function Act(s: nat, kind: nat): (a: nat) {
      var i := Abase(s) + kind;
      if Abase(s) != 0xffff && kind < T() && i < AN() && Achk(i) == s then Atab(i)
      else if Dflt(s) > 0 then 0x8000 + Dflt(s) - 1 else 0
    }

    function Goto(a: nat, q: nat): (s: u16) {
      var j := if a < N() then Gbase(a) + q else GN();
      if j < GN() && Gchk(j) == a then Gtab(j) else Gdef(a)
    }

    /** What a walk reads of them. */
    function Walk(): (p: Parser) {
      Parser(S(), (r: nat) => r < R(), (s: nat) => Abase(s) != 0xffff, (s: nat, k: nat) => Act(s, k), (r: nat) => Rlen(r),
             (r: nat, q: nat) => Goto(Rlhs(r), q), TURNS)
    }
  }

  /** The states there are; whether a rule is one of theirs; whether a state wants the lookahead; the action; a
      rule's length; where a rule's left side goes from a state; and the turns the lookahead takes. */
  datatype Parser = Parser(states: nat, known: nat -> bool, wants: nat -> bool, act: (nat, nat) -> nat, len: nat -> nat,
                           goto: (nat, nat) -> u16, turns: nat)

  // ----- one move

  datatype Move = Err | Shift(a: u16) | Red(r: nat, stk: seq<u16>)

  /** What the state stack does on a kind. */
  function MoveOn(t: Parser, stk: seq<u16>, kind: nat): (m: Move)
    requires stk != []
    ensures m.Red? ==> m.stk != [] && t.known(m.r) && t.len(m.r) < |stk| && |m.stk| == |stk| - t.len(m.r) + 1
  {
    var s := stk[|stk| - 1];
    if s >= t.states then Err else
      var a := t.act(s, kind);
      if a == 0 then Err
      else if a < 0x8000 then Shift(a)
      else
        var r := a - 0x8000;
        var l: nat := if t.known(r) then t.len(r) else |stk|;
        if l >= |stk| then Err else
          var below := stk[..|stk| - l];
          Red(r, below + [t.goto(r, below[|below| - 1])])
  }

  // ----- would it shift?

  /** The machine on one kind, n moves of it. */
  datatype Outcome = Shifts | Errs | Long

  function Chain(t: Parser, stk: seq<u16>, kind: nat, n: nat): (o: Outcome)
    requires stk != []
    decreases n
  {
    if n == 0 then Long else
      match MoveOn(t, stk, kind)
      case Err => Errs
      case Shift(_) => Shifts
      case Red(_, stk') => Chain(t, stk', kind, n - 1)
  }

  lemma {:induction false} ChainMore(t: Parser, stk: seq<u16>, kind: nat, n: nat, m: nat)
    requires stk != [] && n <= m && Chain(t, stk, kind, n) != Long
    ensures Chain(t, stk, kind, m) == Chain(t, stk, kind, n)
    decreases n
  {
    match MoveOn(t, stk, kind)
    case Red(_, stk') => ChainMore(t, stk', kind, n - 1, m - 1);
    case _ =>
  }

  const OVER: nat := 64
  const TURNS: nat := 256

  datatype Turn = Answer(b: bool) | Next(st: seq<u16>, ov: seq<u16>)

  /** One turn of lr_takes: the stack below is read, an overlay lies on it. */
  function TurnOf(t: Parser, st: seq<u16>, ov: seq<u16>, kind: nat): (r: Turn)
    requires st != []
    ensures r.Next? ==> r.st != []
  {
    var s := Top(st, ov);
    if s >= t.states then Answer(false) else
      var a := t.act(s, kind);
      if a == 0 then Answer(false)
      else if a < 0x8000 then Answer(true)
      else
        var r := a - 0x8000;
        var l: nat := if t.known(r) then t.len(r) else 0;
        if l >= |st| + |ov| then Answer(false) else
          var (st1, ov1) := PopBoth(st, ov, l);
          if |ov1| == OVER then Answer(true) else Next(st1, ov1 + [t.goto(r, Top(st1, ov1))])
  }

  function Turner(t: Parser, kind: nat): (f: (seq<u16>, seq<u16>) -> Turn) {
    (st: seq<u16>, ov: seq<u16>) => if st == [] then Answer(false) else TurnOf(t, st, ov, kind)
  }

  /** At most n turns, and then the answer is yes. */
  function Turns(f: (seq<u16>, seq<u16>) -> Turn, st: seq<u16>, ov: seq<u16>, n: nat): (b: bool)
    decreases n
  {
    if n == 0 then true else
      match f(st, ov)
      case Answer(b) => b
      case Next(st1, ov1) => Turns(f, st1, ov1, n - 1)
  }

  /** lr_takes with n turns left. */
  function Takes(t: Parser, st: seq<u16>, ov: seq<u16>, kind: nat, n: nat): (b: bool)
    requires st != []
  { Turns(Turner(t, kind), st, ov, n) }

  lemma TakesNext(t: Parser, st: seq<u16>, ov: seq<u16>, kind: nat, n: nat)
    requires st != [] && n > 0
    ensures Takes(t, st, ov, kind, n) ==
              match TurnOf(t, st, ov, kind) case Answer(b) => b case Next(st1, ov1) => Takes(t, st1, ov1, kind, n - 1)
  {
    assert Turner(t, kind)(st, ov) == TurnOf(t, st, ov, kind);
  }

  /** l states off the overlay, and what it has not off the cursor's. */
  function PopBoth(st: seq<u16>, ov: seq<u16>, l: nat): (r: (seq<u16>, seq<u16>))
    requires l < |st| + |ov| && st != []
    ensures r.0 != [] && |r.0| <= |st| && |r.1| <= |ov|
  {
    var k := if l < |ov| then l else |ov|;
    (st[..|st| - (l - k)], ov[..|ov| - k])
  }

  function Top(st: seq<u16>, ov: seq<u16>): (s: u16)
    requires st != []
  { if ov != [] then ov[|ov| - 1] else st[|st| - 1] }

  lemma PopIs(st: seq<u16>, ov: seq<u16>, l: nat)
    requires l < |st| + |ov| && st != []
    ensures var (st1, ov1) := PopBoth(st, ov, l); var below := (st + ov)[..|st + ov| - l];
            below == st1 + ov1 && below[|below| - 1] == Top(st1, ov1) && |st1| == if |below| < |st| then |below| else |st|
  {
    var k := if l < |ov| then l else |ov|;
    var (st1, ov1) := PopBoth(st, ov, l);
    assert (st + ov)[..|st + ov| - l] == st1 + ov1;
  }

  /** The machine, on a stack of which the first low are still the cursor's, comes to have more than 64
      over them within n moves. */
  ghost predicate Rises(t: Parser, stk: seq<u16>, low: nat, kind: nat, n: nat)
    requires stk != [] && low <= |stk|
    decreases n
  {
    n > 0 &&
    match MoveOn(t, stk, kind)
    case Red(r, stk') =>
      var low' := Low(stk', low);
      |stk'| - low' > OVER || Rises(t, stk', low', kind, n - 1)
    case _ => false
  }

  /** How far down the cursor's own part of the stack is still its own, after a reduction. */
  function Low(stk: seq<u16>, low: nat): (r: nat)
    requires stk != []
    ensures r <= low && r < |stk|
  { if |stk| - 1 < low then |stk| - 1 else low }

  ghost predicate AllKnown(t: Parser) { forall r :: t.known(r) }

  /** The overlay's turn is the machine's move. */
  lemma TakesTurn(t: Parser, st: seq<u16>, ov: seq<u16>, kind: nat, n: nat)
    requires st != [] && n > 0 && AllKnown(t) && |ov| <= OVER
    ensures match MoveOn(t, st + ov, kind)
            case Err => !Takes(t, st, ov, kind, n)
            case Shift(_) => Takes(t, st, ov, kind, n)
            case Red(r, _) => t.len(r) < |st| + |ov|
    ensures MoveOn(t, st + ov, kind).Red? ==>
              var r := MoveOn(t, st + ov, kind).r; var (st1, ov1) := PopBoth(st, ov, t.len(r)); var ov2 := ov1 + [t.goto(r, Top(st1, ov1))];
              && MoveOn(t, st + ov, kind).stk == st1 + ov2 && Low(st1 + ov2, |st|) == |st1|
              && Takes(t, st, ov, kind, n) == (|ov2| > OVER || Takes(t, st1, ov2, kind, n - 1))
  {
    TakesNext(t, st, ov, kind, n);
    var stk := st + ov;
    var s := stk[|stk| - 1];
    if s < t.states && t.act(s, kind) >= 0x8000 {
      var r := t.act(s, kind) - 0x8000;
      if t.len(r) < |stk| {
        PopIs(st, ov, t.len(r));
        var (st1, ov1) := PopBoth(st, ov, t.len(r));
        assert st1 + ov1 + [t.goto(r, Top(st1, ov1))] == st1 + (ov1 + [t.goto(r, Top(st1, ov1))]);
      }
    }
  }

  lemma {:induction false} TakesKnown(t: Parser, st: seq<u16>, ov: seq<u16>, kind: nat, n: nat)
    requires st != [] && AllKnown(t) && |ov| <= OVER
    ensures Takes(t, st, ov, kind, n) <==> Chain(t, st + ov, kind, n) != Errs || Rises(t, st + ov, |st|, kind, n)
    decreases n
  {
    if n > 0 {
      TakesTurn(t, st, ov, kind, n);
      match MoveOn(t, st + ov, kind)
      case Err =>
      case Shift(_) =>
      case Red(r, stk) =>
        var (st1, ov1) := PopBoth(st, ov, t.len(r));
        var ov2 := ov1 + [t.goto(r, Top(st1, ov1))];
        if |ov2| <= OVER { TakesKnown(t, st1, ov2, kind, n - 1); }
    }
  }

  // ----- rules out of range

  /** The machine as the lookahead takes it to be: a rule that is none of the tables' has no right side. */
  function Lenient(t: Parser): (l: Parser) {
    Parser(t.states, (r: nat) => true, t.wants, t.act, (r: nat) => LenOf(t, r), t.goto, t.turns)
  }

  function LenOf(t: Parser, r: nat): (n: nat) { if t.known(r) then t.len(r) else 0 }

  /** The stack's top asks for a reduction by a rule that is none of the tables'. */
  predicate Wild(t: Parser, stk: seq<u16>, kind: nat)
    requires stk != []
  {
    var s := stk[|stk| - 1];
    s < t.states && t.act(s, kind) >= 0x8000 && !t.known(t.act(s, kind) - 0x8000)
  }

  /** The machine comes to such a stack within n moves. */
  predicate Strays(t: Parser, stk: seq<u16>, kind: nat, n: nat)
    requires stk != []
    decreases n
  {
    n > 0 && (Wild(t, stk, kind) ||
    match MoveOn(t, stk, kind)
    case Red(_, stk') => Strays(t, stk', kind, n - 1)
    case _ => false)
  }

  lemma LenientMove(t: Parser, stk: seq<u16>, kind: nat)
    requires stk != []
    ensures !Wild(t, stk, kind) ==> MoveOn(Lenient(t), stk, kind) == MoveOn(t, stk, kind)
    ensures Wild(t, stk, kind) ==> MoveOn(t, stk, kind) == Err && MoveOn(Lenient(t), stk, kind).Red?
  {
  }

  /** Up to where it strays, if it does, the machine is the lenient one; there it errs. */
  lemma {:induction false} LenientChain(t: Parser, stk: seq<u16>, low: nat, kind: nat, n: nat)
    requires stk != [] && low <= |stk|
    ensures !Strays(t, stk, kind, n) ==>
              && Chain(Lenient(t), stk, kind, n) == Chain(t, stk, kind, n)
              && (Rises(Lenient(t), stk, low, kind, n) <==> Rises(t, stk, low, kind, n))
    ensures Strays(t, stk, kind, n) ==> Chain(t, stk, kind, n) == Errs
    ensures Rises(t, stk, low, kind, n) ==> Rises(Lenient(t), stk, low, kind, n)
    decreases n
  {
    if n > 0 {
      LenientMove(t, stk, kind);
      match MoveOn(t, stk, kind)
      case Red(_, stk') => LenientChain(t, stk', Low(stk', low), kind, n - 1);
      case _ =>
    }
  }

  lemma {:induction false} LenientTakes(t: Parser, st: seq<u16>, ov: seq<u16>, kind: nat, n: nat)
    requires st != []
    ensures Takes(Lenient(t), st, ov, kind, n) == Takes(t, st, ov, kind, n)
    decreases n
  {
    if n > 0 {
      TakesNext(t, st, ov, kind, n);
      TakesNext(Lenient(t), st, ov, kind, n);
      assert TurnOf(Lenient(t), st, ov, kind) == TurnOf(t, st, ov, kind);
      match TurnOf(t, st, ov, kind)
      case Answer(_) =>
      case Next(st1, ov1) => LenientTakes(t, st1, ov1, kind, n - 1);
    }
  }

  /** For any tables it says yes just when the lenient machine does not come to an error within the turns, or
      rises by more than 64 first. */
  lemma TakesIs(t: Parser, st: seq<u16>, ov: seq<u16>, kind: nat, n: nat)
    requires st != [] && |ov| <= OVER
    ensures Takes(t, st, ov, kind, n) <==> Chain(Lenient(t), st + ov, kind, n) != Errs || Rises(Lenient(t), st + ov, |st|, kind, n)
  {
    TakesKnown(Lenient(t), st, ov, kind, n);
    LenientTakes(t, st, ov, kind, n);
  }

  /** At a rule out of range it goes on, the rule's left side pushed. */
  lemma WildGoesOn(t: Parser, st: seq<u16>, ov: seq<u16>, kind: nat, n: nat)
    requires st != [] && n > 0 && Wild(t, st + ov, kind)
    ensures var q := Top(st, ov); var r := t.act(q, kind) - 0x8000;
            Takes(t, st, ov, kind, n) <==> |ov| == OVER || Takes(t, st, ov + [t.goto(r, q)], kind, n - 1)
    ensures Chain(t, st + ov, kind, n) == Errs
  {
    TakesNext(t, st, ov, kind, n);
    assert st[..|st|] == st && ov[..|ov|] == ov;
  }

  ghost predicate ReachesShift(t: Parser, st: seq<u16>, kind: nat)
    requires st != []
  { exists n: nat :: Chain(t, st, kind, n) == Shifts }

  ghost predicate ReachesError(t: Parser, st: seq<u16>, kind: nat)
    requires st != []
  { exists n: nat :: Chain(t, st, kind, n) == Errs }

  /** The machine ends one way. */
  lemma ChainOnce(t: Parser, st: seq<u16>, kind: nat, n: nat, m: nat)
    requires st != [] && Chain(t, st, kind, n) != Long && Chain(t, st, kind, m) != Long
    ensures Chain(t, st, kind, n) == Chain(t, st, kind, m)
  {
    if n <= m { ChainMore(t, st, kind, n, m); } else { ChainMore(t, st, kind, m, n); }
  }

  /** What the lookahead is for: the machine, on the kind, will shift where it says yes and err where no. */
  ghost predicate Agrees(t: Parser, st: seq<u16>, kind: nat, turns: nat)
    requires st != []
  {
    && (Takes(t, st, [], kind, turns) <==> ReachesShift(t, st, kind))
    && (!Takes(t, st, [], kind, turns) <==> ReachesError(t, st, kind))
  }

  /** For any tables: where the machine shifts, the lookahead says yes; where it says no, the machine errs; and
      within its limits the two disagree just where the machine strays and, the rule out of range passed over,
      would not err on. */
  lemma TakesAgrees(t: Parser, st: seq<u16>, kind: nat, turns: nat)
    requires st != []
    ensures ReachesShift(t, st, kind) ==> Takes(t, st, [], kind, turns)
    ensures !Takes(t, st, [], kind, turns) ==> ReachesError(t, st, kind)
    ensures Chain(t, st, kind, turns) != Long && !Rises(t, st, |st|, kind, turns) ==>
              (Agrees(t, st, kind, turns)
               <==> !(Strays(t, st, kind, turns)
                      && (Chain(Lenient(t), st, kind, turns) != Errs || Rises(Lenient(t), st, |st|, kind, turns))))
  {
    assert st + [] == st;
    TakesIs(t, st, [], kind, turns);
    LenientChain(t, st, |st|, kind, turns);
    forall n: nat | Chain(t, st, kind, n) != Long && Chain(t, st, kind, turns) != Long
      ensures Chain(t, st, kind, n) == Chain(t, st, kind, turns)
    {
      ChainOnce(t, st, kind, n, turns);
    }
  }

  const ODD: seq<u16> := [1, 0, 2, 0, 1, 0, 1, 0, 0xffff, 0, 5, 1]

  /** Tables that stray: the lookahead says yes and the machine errs. */
  lemma OutOfRange(turns: nat)
    requires turns >= 2
    ensures var t := Tab((x: nat) => if x < 12 then ODD[x] else 0);
            t.Size() == |ODD| && Strays(t.Walk(), [0], 0, turns) && ReachesError(t.Walk(), [0], 0) && !ReachesShift(t.Walk(), [0], 0) && Takes(t.Walk(), [0], [], 0, turns)
  {
    var t := Tab((x: nat) => if x < 12 then ODD[x] else 0);
    var p := t.Walk();
    OddTables();
    OddTakes(p, turns);
  }

  lemma OddTables()
    ensures var t := Tab((x: nat) => if x < 12 then ODD[x] else 0); var p := t.Walk();
            t.Size() == |ODD| && p.act(0, 0) == 0x8000 && p.act(1, 0) == 5 && p.goto(0, 0) == 1 && p.states == 2 && !p.known(0)
  {
    var t := Tab((x: nat) => if x < 12 then ODD[x] else 0);
    assert t.Act(0, 0) == 0x8000 && t.Act(1, 0) == 5 && t.Goto(t.Rlhs(0), 0) == 1;
  }

  lemma OddTakes(p: Parser, turns: nat)
    requires turns >= 2 && p.act(0, 0) == 0x8000 && p.act(1, 0) == 5 && p.goto(0, 0) == 1 && p.states == 2 && !p.known(0)
    ensures Strays(p, [0], 0, turns) && ReachesError(p, [0], 0) && !ReachesShift(p, [0], 0) && Takes(p, [0], [], 0, turns)
  {
    var st: seq<u16>, ov: seq<u16> := [0], [];
    assert st[..1] == st && ov[..0] == ov && ov + [p.goto(0, 0)] == [1];
    TakesNext(p, st, ov, 0, turns);
    TakesNext(p, st, [1], 0, turns - 1);
    assert Chain(p, st, 0, 1) == Errs;
    forall n: nat ensures Chain(p, st, 0, n) != Shifts { if n > 0 { assert MoveOn(p, st, 0) == Err; } }
  }
}
