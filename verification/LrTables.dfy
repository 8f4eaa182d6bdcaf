/** What the tables src/love/lr.c walks stand for: rows of actions and gotos, most cells of a row its default, the
    others laid over one another in one table with a check beside each. */
module LrTables {
  import opened Options
  import opened LrSpec
  import opened LrRun

  /** An automaton, cell by cell. acts: the actions given state and kind; dflt: a state's rule for all other kinds;
      gotos: the states given nonterminal and state; gdef: a nonterminal's for all other states. */
  datatype Dense = Dense(T: nat, N: nat, S: nat, R: nat, lhs: nat -> nat, len: nat -> nat,
                         acts: map<(nat, nat), nat>, dflt: nat -> Option<nat>,
                         gotos: map<(nat, nat), u16>, gdef: nat -> u16)
  {
    /** What to do in s on a kind: 0 an error, below 0x8000 a shift, else a reduction. */
    function Action(s: nat, kind: nat): (a: nat) {
      if (s, kind) in acts then acts[(s, kind)]
      else match dflt(s) case Some(r) => 0x8000 + r case None => 0
    }

    /** Where a nonterminal leads from q. */
    function Goes(a: nat, q: nat): (s: u16) { if (a, q) in gotos then gotos[(a, q)] else gdef(a) }

    /** Some kind makes a difference in s. */
    ghost predicate Wants(s: nat) { exists kind: nat :: (s, kind) in acts }

    /** The rules it names are its own, and so are their left sides; its cells are of its kinds and states. */
    ghost predicate Ok() {
      && (forall s: nat, kind: nat :: (s, kind) in acts ==> s < S && kind < T && (acts[(s, kind)] >= 0x8000 ==> acts[(s, kind)] - 0x8000 < R))
      && (forall s: nat :: s < S && dflt(s).Some? ==> dflt(s).value < R)
      && (forall a: nat, q: nat :: (a, q) in gotos ==> a < N)
      && (forall r: nat :: r < R ==> lhs(r) < N)
    }

    /** The machine over it. */
    ghost function Walk(): (p: Parser) {
      Parser(S, (r: nat) => r < R, (s: nat) => Wants(s), (s: nat, k: nat) => Action(s, k), (r: nat) => len(r),
             (r: nat, q: nat) => Goes(lhs(r), q), TURNS)
    }
  }

  /** Cell (s, kind) of the actions is laid in its row's slot under the row's own check. */
  ghost predicate ActLaid(t: Tab, d: Dense, s: nat, kind: nat)
    requires (s, kind) in d.acts
  {
    var i := t.Abase(s) + kind;
    i < t.AN() && t.Achk(i) == s && t.Atab(i) == d.acts[(s, kind)]
  }

  /** A slot a row's check is on is a cell of that row. */
  ghost predicate ActOwned(t: Tab, d: Dense, i: nat) {
    var s: nat := t.Achk(i);
    s < d.S ==> i >= t.Abase(s) && (s, (i - t.Abase(s)) as nat) in d.acts
  }

  ghost predicate GotoLaid(t: Tab, d: Dense, a: nat, q: nat)
    requires (a, q) in d.gotos
  {
    var j := t.Gbase(a) + q;
    j < t.GN() && t.Gchk(j) == a && t.Gtab(j) == d.gotos[(a, q)]
  }

  ghost predicate GotoOwned(t: Tab, d: Dense, j: nat) {
    var a: nat := t.Gchk(j);
    a < d.N ==> j >= t.Gbase(a) && (a, (j - t.Gbase(a)) as nat) in d.gotos
  }

  /** t is d packed: its sizes and rules, each row's default, a row of no cells marked, and every cell and every slot
      as said, wherever the rows were laid. */
  ghost predicate Packed(t: Tab, d: Dense) {
    && d.Ok() && t.T() == d.T && t.N() == d.N && t.S() == d.S && t.R() == d.R
    && (forall r: nat :: r < d.R ==> t.Rlhs(r) == d.lhs(r) && t.Rlen(r) == d.len(r))
    && (forall s: nat :: s < d.S ==> t.Dflt(s) == match d.dflt(s) case Some(r) => r + 1 case None => 0)
    && (forall s: nat :: s < d.S ==> (t.Abase(s) == 0xffff <==> !d.Wants(s)))
    && (forall a: nat :: a < d.N ==> t.Gdef(a) == d.gdef(a))
    && (forall s: nat, kind: nat :: (s, kind) in d.acts ==> ActLaid(t, d, s, kind))
    && (forall i: nat :: i < t.AN() ==> ActOwned(t, d, i))
    && (forall a: nat, q: nat :: (a, q) in d.gotos ==> GotoLaid(t, d, a, q))
    && (forall j: nat :: j < t.GN() ==> GotoOwned(t, d, j))
  }

  /** The packed tables read back as the automaton, in every state on every kind. */
  lemma ActRead(t: Tab, d: Dense, s: nat, kind: nat)
    requires Packed(t, d) && s < d.S
    ensures t.Act(s, kind) == d.Action(s, kind)
  {
    var i := t.Abase(s) + kind;
    if (s, kind) in d.acts { assert ActLaid(t, d, s, kind) && d.Wants(s); }
    assert i < t.AN() ==> ActOwned(t, d, i);
  }

  /** And for every nonterminal from every state; past the nonterminals there is the default alone. */
  lemma GotoRead(t: Tab, d: Dense, a: nat, q: nat)
    requires Packed(t, d)
    ensures t.Goto(a, q) == if a < d.N then d.Goes(a, q) else t.Gdef(a)
  {
    var j := t.Gbase(a) + q;
    if (a, q) in d.gotos { assert GotoLaid(t, d, a, q); }
    assert j < t.GN() ==> GotoOwned(t, d, j);
  }

  // ----- so the walks are one

  /** Two parsers that do the same in each of their states. */
  ghost predicate Alike(p: Parser, q: Parser) {
    && p.states == q.states && p.turns == q.turns && (forall r: nat :: p.known(r) == q.known(r))
    && (forall s: nat :: s < p.states ==> p.wants(s) == q.wants(s))
    && (forall s: nat, k: nat :: s < p.states ==> p.act(s, k) == q.act(s, k) && (p.act(s, k) >= 0x8000 ==> p.known(p.act(s, k) - 0x8000)))
    && (forall r: nat :: p.known(r) ==> p.len(r) == q.len(r))
    && (forall r: nat, x: nat :: p.known(r) ==> p.goto(r, x) == q.goto(r, x))
  }

  lemma PackedAlike(t: Tab, d: Dense)
    requires Packed(t, d)
    ensures Alike(t.Walk(), d.Walk())
  {
    var p, q := t.Walk(), d.Walk();
    forall s: nat, k: nat | s < p.states ensures p.act(s, k) == q.act(s, k) && (p.act(s, k) >= 0x8000 ==> p.known(p.act(s, k) - 0x8000)) {
      ActRead(t, d, s, k);
    }
    forall r: nat, x: nat | p.known(r) ensures p.goto(r, x) == q.goto(r, x) {
      GotoRead(t, d, d.lhs(r), x);
    }
  }

  lemma {:induction false} AlikeTakes(p: Parser, q: Parser, st: seq<u16>, ov: seq<u16>, kind: nat, n: nat)
    requires Alike(p, q) && st != []
    ensures Takes(p, st, ov, kind, n) == Takes(q, st, ov, kind, n)
    decreases n
  {
    if n > 0 {
      TakesNext(p, st, ov, kind, n);
      TakesNext(q, st, ov, kind, n);
      assert TurnOf(p, st, ov, kind) == TurnOf(q, st, ov, kind);
      match TurnOf(p, st, ov, kind)
      case Answer(_) =>
      case Next(st1, ov1) => AlikeTakes(p, q, st1, ov1, kind, n - 1);
    }
  }

  lemma AlikeStep(p: Parser, q: Parser, K: seq<u16>, c: Cur)
    requires Alike(p, q) && c.stk != []
    ensures Step(p, K, c) == Step(q, K, c)
  {
    AlikeTakes(p, q, c.stk, [], c.look % 0x1_0000, p.turns);
    forall kind: nat ensures MoveOn(p, c.stk, kind) == MoveOn(q, c.stk, kind) {}
  }

  lemma {:induction false} AlikeRun(p: Parser, q: Parser, K: seq<u16>, c: Cur, n: nat)
    requires Alike(p, q)
    ensures Run(Over(p, K), c, n) == Run(Over(q, K), c, n)
    decreases n
  {
    if n > 0 {
      if c.stk != [] { AlikeStep(p, q, K, c); }
      assert Over(p, K)(c) == Over(q, K)(c);
      if Over(p, K)(c).Go? { AlikeRun(p, q, K, Over(p, K)(c).c, n - 1); }
    }
  }

  /** Over packed tables the run is the automaton's. */
  lemma PackedRun(t: Tab, d: Dense, K: seq<u16>, c: Cur, n: nat)
    requires Packed(t, d)
    ensures Run(Over(t.Walk(), K), c, n) == Run(Over(d.Walk(), K), c, n)
  {
    PackedAlike(t, d);
    AlikeRun(t.Walk(), d.Walk(), K, c, n);
  }

  const SHARED: seq<u16> := [1, 2, 3, 1, 0, 1, 1, 0, 1, 0, 0, 0xffff, 0xffff, 0xffff, 0, 1, 0, 0, 2, 0]

  function Shared(): (t: Tab) { Tab((x: nat) => if x < 20 then SHARED[x] else 0) }

  function SharedFrom(): (d: Dense) {
    Dense(1, 2, 3, 1, (r: nat) => 1, (r: nat) => 0, map[], (s: nat) => if s == 0 then Some(0) else None,
          map[(0, 0) := 2], (a: nat) => if a == 0 then 0 else 1)
  }

  lemma SharedSizes()
    ensures var t := Shared(); t.T() == 1 && t.N() == 2 && t.S() == 3 && t.R() == 1 && t.AN() == 0 && t.GN() == 1
    ensures var t := Shared(); t.Size() == |SHARED| && t.Rlhs(0) == 1 && t.Rlen(0) == 0
  {
  }

  lemma SharedStates()
    ensures var t := Shared();
            && t.Dflt(0) == 1 && t.Dflt(1) == 0 && t.Dflt(2) == 0 && t.Abase(0) == 0xffff && t.Abase(1) == 0xffff && t.Abase(2) == 0xffff
  {
    SharedSizes();
  }

  lemma SharedGotos()
    ensures var t := Shared();
            && t.Gdef(0) == 0 && t.Gdef(1) == 1 && t.Gbase(0) == 0 && t.Gbase(1) == 0 && t.Gtab(0) == 2 && t.Gchk(0) == 0
  {
    SharedSizes();
  }

  lemma SharedPacked(t: Tab)
    requires t.T() == 1 && t.N() == 2 && t.S() == 3 && t.R() == 1 && t.AN() == 0 && t.GN() == 1 && t.Rlhs(0) == 1 && t.Rlen(0) == 0
    requires t.Dflt(0) == 1 && t.Dflt(1) == 0 && t.Dflt(2) == 0 && t.Abase(0) == 0xffff && t.Abase(1) == 0xffff && t.Abase(2) == 0xffff
    requires t.Gdef(0) == 0 && t.Gdef(1) == 1 && t.Gbase(0) == 0 && t.Gtab(0) == 2 && t.Gchk(0) == 0
    ensures Packed(t, SharedFrom())
  {
  }

  lemma SharedRead(t: Tab)
    requires Packed(t, SharedFrom()) && t.Gbase(0) == 0 && t.Gbase(1) == 0 && t.Gtab(0) == 2
    ensures t.Gbase(0) == t.Gbase(1) && t.Gtab(t.Gbase(1)) == 2 && t.Goto(0, 0) == 2 && t.Goto(1, 0) == 1
  {
    GotoRead(t, SharedFrom(), 0, 0);
    GotoRead(t, SharedFrom(), 1, 0);
  }

  /** One nonterminal's cell lies where another's would: the check keeps them apart. */
  lemma CheckMatters(t: Tab)
    requires t == Shared()
    ensures Packed(t, SharedFrom()) && t.Size() == |SHARED|
    ensures t.Gbase(0) == t.Gbase(1) && t.Gtab(t.Gbase(1)) == 2 && t.Goto(0, 0) == 2 && t.Goto(1, 0) == 1
  {
    SharedSizes();
    SharedStates();
    SharedGotos();
    SharedPacked(t);
    SharedRead(t);
  }
}
