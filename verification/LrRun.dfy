/** The run of src/love/lr.c as steps on values: slices make one run, and the log stands for a forest over
    the tokens taken. */
module LrRun {
  import opened LrSpec

  const STEPS: nat := 4096

  /** A kind the caller says; no kind said. */
  const ASKED: u16 := 0xffff

  datatype Entry = Entry(r: nat, pos: nat)

  datatype Cur = Cur(stk: seq<u16>, pos: nat, look: nat, log: seq<Entry>)

  /** It goes on; or it stops: z is 0 out of steps, 1 accepted, 2 no action, 3 waiting for the caller's kind. */
  datatype Res = Go(c: Cur) | Stop(z: nat, c: Cur)

  /** What the caller's say comes to: a kind, or one kind where the parse takes it and else another. */
  function Said(p: Parser, stk: seq<u16>, look: nat): (kind: nat)
    requires stk != []
  {
    if look <= ASKED then look
    else if Takes(p, stk, [], look % 0x1_0000, p.turns) then look % 0x1_0000
    else look / 0x1_0000 - 1
  }

  /** The caller may say "a, where it can be shifted, else b". */
  lemma SaidIs(p: Parser, stk: seq<u16>, a: u16, b: nat)
    requires stk != []
    ensures Said(p, stk, a) == a && Said(p, stk, a + 0x1_0000 * (b + 1)) == if Takes(p, stk, [], a, p.turns) then a else b
  {
    var l := a + 0x1_0000 * (b + 1);
    assert l % 0x1_0000 == a && l / 0x1_0000 == b + 1;
  }

  function KindAt(K: seq<u16>, pos: nat): (k: u16) { if pos < |K| then K[pos] else 0 }

  function Step(p: Parser, K: seq<u16>, c: Cur): (r: Res)
    requires c.stk != []
    ensures r.c.stk != [] && (r.Stop? ==> r.z != 0)
  {
    var s := c.stk[|c.stk| - 1];
    if s >= p.states then Stop(2, c)
    else if !p.wants(s) then Act(p, c, 0)
    else if KindAt(K, c.pos) != ASKED then Act(p, c, KindAt(K, c.pos))
    else if c.look == ASKED then Stop(3, c)
    else var k := Said(p, c.stk, c.look); Act(p, c.(look := k), k)
  }

  function Act(p: Parser, c: Cur, kind: nat): (r: Res)
    requires c.stk != []
    ensures r.c.stk != [] && (r.Stop? ==> r.z != 0)
  { Done(c, MoveOn(p, c.stk, kind), kind) }

  function Done(c: Cur, m: Move, kind: nat): (r: Res) {
    match m
    case Err => Stop(2, c)
    case Shift(a) => if kind == 0 then Stop(1, c) else Go(Cur(c.stk + [a], c.pos + 1, ASKED, c.log))
    case Red(r, stk) => Go(c.(stk := stk, log := c.log + [Entry(r, c.pos)]))
  }

  /** The step over p's tables and the kinds K. */
  function Over(p: Parser, K: seq<u16>): (f: Cur -> Res) {
    (c: Cur) => if c.stk == [] then Stop(2, c) else Step(p, K, c)
  }

  /** n steps, or until it stops. */
  function Run(f: Cur -> Res, c: Cur, n: nat): (r: Res)
    ensures r.Stop?
    decreases n
  {
    if n == 0 then Stop(0, c) else
      match f(c)
      case Stop(z, c') => Stop(z, c')
      case Go(c') => Run(f, c', n - 1)
  }

  // ----- slices

  ghost predicate Says(f: Cur -> Res) { forall c :: f(c).Stop? ==> f(c).z != 0 }

  lemma {:induction false} RunPlus(f: Cur -> Res, c: Cur, n: nat, m: nat)
    requires Says(f)
    ensures Run(f, c, n + m) == var r := Run(f, c, n); if r.z == 0 then Run(f, r.c, m) else r
    decreases n
  {
    if n > 0 && f(c).Go? {
      RunPlus(f, f(c).c, n - 1, m);
      assert Run(f, c, n + m) == Run(f, f(c).c, n - 1 + m);
    }
  }

  predicate NoneAsked(K: seq<u16>) { forall i :: 0 <= i < |K| ==> K[i] != ASKED }

  /** The same place in the parse: but for what the caller said and the log before. */
  ghost predicate SameBut(c: Cur, d: Cur, log0: seq<Entry>) {
    c.stk == d.stk && c.pos == d.pos && c.log == log0 + d.log
  }

  ghost predicate SameRes(r: Res, q: Res, log0: seq<Entry>) {
    r.Go? == q.Go? && (r.Stop? ==> r.z == q.z) && SameBut(r.c, q.c, log0)
  }

  /** The step heeds neither what the caller says nor the log. */
  ghost predicate Heedless(f: Cur -> Res) {
    forall c, d, log0 {:trigger f(c), f(d), SameBut(c, d, log0)} :: SameBut(c, d, log0) ==> SameRes(f(c), f(d), log0)
  }

  lemma OverSays(p: Parser, K: seq<u16>)
    ensures Says(Over(p, K))
  {
  }

  lemma OverHeedless(p: Parser, K: seq<u16>)
    requires NoneAsked(K)
    ensures Heedless(Over(p, K))
  {
    forall c, d, log0 | SameBut(c, d, log0) ensures SameRes(Over(p, K)(c), Over(p, K)(d), log0) {
      assert KindAt(K, c.pos) != ASKED;
      if c.stk != [] {
        var kind: nat := if !p.wants(c.stk[|c.stk| - 1]) then 0 else KindAt(K, c.pos);
        DoneHeedless(c, d, log0, MoveOn(p, c.stk, kind), kind);
      }
    }
  }

  lemma DoneHeedless(c: Cur, d: Cur, log0: seq<Entry>, m: Move, kind: nat)
    requires SameBut(c, d, log0)
    ensures SameRes(Done(c, m, kind), Done(d, m, kind), log0)
  {
    if m.Red? { assert log0 + d.log + [Entry(m.r, c.pos)] == log0 + (d.log + [Entry(m.r, c.pos)]); }
  }

  lemma {:induction false} SameRun(f: Cur -> Res, c: Cur, d: Cur, log0: seq<Entry>, n: nat)
    requires Heedless(f) && SameBut(c, d, log0)
    ensures SameRes(Run(f, c, n), Run(f, d, n), log0)
    decreases n
  {
    if n > 0 {
      assert SameRes(f(c), f(d), log0);
      if f(c).Go? { SameRun(f, f(c).c, f(d).c, log0, n - 1); }
    }
  }

  /** One slice more: from the cursor the one before left, with a log of its own and what the caller says
      now; the logs put together. */
  function Slice(f: Cur -> Res, r: Res, look: nat, n: nat): (q: Res)
    requires r.Stop?
    ensures q.Stop?
  {
    if r.z != 0 then r else
      var q := Run(f, Cur(r.c.stk, r.c.pos, look, []), n);
      Stop(q.z, q.c.(log := r.c.log + q.c.log))
  }

  /** k slices of n steps. */
  function Slices(f: Cur -> Res, stk: seq<u16>, pos: nat, says: nat -> nat, n: nat, k: nat): (r: Res)
    ensures r.Stop?
    decreases k
  {
    if k == 0 then Stop(0, Cur(stk, pos, 0, [])) else Slice(f, Slices(f, stk, pos, says, n, k - 1), says(k), n)
  }

  function Times(k: nat, n: nat): (m: nat)
    ensures m == k * n
  { if k == 0 then 0 else Times(k - 1, n) + n }

  lemma SliceMore(f: Cur -> Res, r: Res, c: Cur, m: nat, look: nat, n: nat)
    requires Says(f) && Heedless(f) && r.Stop? && SameRes(r, Run(f, c, m), [])
    ensures SameRes(Slice(f, r, look, n), Run(f, c, m + n), [])
  {
    var q := Run(f, c, m);
    RunPlus(f, c, m, n);
    if r.z == 0 {
      SameRun(f, q.c, Cur(r.c.stk, r.c.pos, look, []), q.c.log, n);
      assert forall l: seq<Entry> :: [] + l == l;
      assert q.c.log + [] == q.c.log;
    }
  }

  lemma SameNone(f: Cur -> Res, stk: seq<u16>, pos: nat, look: nat)
    ensures SameRes(Stop(0, Cur(stk, pos, 0, [])), Run(f, Cur(stk, pos, look, []), 0), [])
  {
  }

  lemma {:induction false} SlicesRun(f: Cur -> Res, stk: seq<u16>, pos: nat, says: nat -> nat, look: nat, n: nat, k: nat)
    requires Says(f) && Heedless(f)
    ensures SameRes(Slices(f, stk, pos, says, n, k), Run(f, Cur(stk, pos, look, []), Times(k, n)), [])
    decreases k
  {
    if k == 0 {
      SameNone(f, stk, pos, look);
    } else {
      var r, c, m := Slices(f, stk, pos, says, n, k - 1), Cur(stk, pos, look, []), Times(k - 1, n);
      assert SameRes(r, Run(f, c, m), []) by { SlicesRun(f, stk, pos, says, look, n, k - 1); }
      SliceMore(f, r, c, m, says(k), n);
      assert Slices(f, stk, pos, says, n, k) == Slice(f, r, says(k), n) && Times(k, n) == m + n;
    }
  }

  /** With no kind for the caller to say, the slices are the run: the same status, states, place and log. */
  lemma SlicesAreRun(p: Parser, K: seq<u16>, stk: seq<u16>, pos: nat, says: nat -> nat, look: nat, n: nat, k: nat)
    requires NoneAsked(K)
    ensures var r, q := Slices(Over(p, K), stk, pos, says, n, k), Run(Over(p, K), Cur(stk, pos, look, []), k * n);
            r.z == q.z && r.c.stk == q.c.stk && r.c.pos == q.c.pos && r.c.log == q.c.log
  {
    var f := Over(p, K);
    OverSays(p, K);
    OverHeedless(p, K);
    SlicesRun(f, stk, pos, says, look, n, k);
    var q := Run(f, Cur(stk, pos, look, []), Times(k, n));
    assert [] + q.c.log == q.c.log;
  }

  // ----- the forest

  /** Trees left to right, the last on top. */
  datatype Trees = Nil | Grow(rest: Trees, t: Tree)
  datatype Tree = Tok(pos: nat) | Node(r: nat, kids: Trees)

  function Len(f: Trees): (n: nat) { match f case Nil => 0 case Grow(rest, _) => Len(rest) + 1 }

  /** All but the last n, and the last n. */
  function Below(f: Trees, n: nat): (g: Trees) { if n == 0 || f.Nil? then f else Below(f.rest, n - 1) }

  function Last(f: Trees, n: nat): (g: Trees) { if n == 0 || f.Nil? then Nil else Grow(Last(f.rest, n - 1), f.t) }

  /** The tokens from a up to b, pushed. */
  function Toks(f: Trees, a: nat, b: nat): (g: Trees)
    decreases b - a
  { if a >= b then f else Grow(Toks(f, a, b - 1), Tok(b - 1)) }

  /** A rule taken: its right side's trees under one node. */
  function Fold(p: Parser, f: Trees, r: nat): (g: Trees) { Grow(Below(f, p.len(r)), Node(r, Last(f, p.len(r)))) }

  /** The forest a log stands for, over the tokens from a up to b. */
  function Forest(p: Parser, log: seq<Entry>, a: nat, b: nat): (f: Trees)
    decreases |log|
  {
    if log == [] then Toks(Nil, a, b) else
      var e := log[|log| - 1];
      Toks(Fold(p, Forest(p, log[..|log| - 1], a, e.pos), e.r), e.pos, b)
  }

  /** Where the tokens of t end, if they are one run from a on in order; and every node is as wide as its
      rule. */
  function Ends(p: Parser, t: Tree, a: nat): (b: int)
    ensures b == -1 || b >= a
  {
    match t
    case Tok(pos) => if pos == a then a + 1 else -1
    case Node(r, kids) => if Len(kids) == p.len(r) then EndsAll(p, kids, a) else -1
  }

  function EndsAll(p: Parser, f: Trees, a: nat): (b: int)
    ensures b == -1 || b >= a
  {
    match f
    case Nil => a
    case Grow(rest, t) => var m := EndsAll(p, rest, a); if m < 0 then -1 else Ends(p, t, m)
  }

  lemma {:induction false} LenToks(f: Trees, a: nat, b: nat)
    requires a <= b
    ensures Len(Toks(f, a, b)) == Len(f) + (b - a)
    decreases b - a
  {
    if a < b { LenToks(f, a, b - 1); }
  }

  lemma {:induction false} Split(p: Parser, f: Trees, n: nat, a: nat)
    requires n <= Len(f)
    ensures Len(Below(f, n)) == Len(f) - n && Len(Last(f, n)) == n
    ensures EndsAll(p, f, a) >= 0 ==> EndsAll(p, Below(f, n), a) >= 0
                                      && EndsAll(p, Last(f, n), EndsAll(p, Below(f, n), a)) == EndsAll(p, f, a)
    decreases n
  {
    if n > 0 { Split(p, f.rest, n - 1, a); }
  }

  /** f is m trees over the tokens from a up to b. */
  ghost predicate Grown(p: Parser, f: Trees, m: int, a: nat, b: nat) { Len(f) == m && EndsAll(p, f, a) == b }

  lemma FoldGrown(p: Parser, f: Trees, r: nat, m: int, a: nat, b: nat)
    requires Grown(p, f, m, a, b) && p.len(r) <= m
    ensures Grown(p, Fold(p, f, r), m - p.len(r) + 1, a, b)
  {
    Split(p, f, p.len(r), a);
  }

  ghost predicate Stands(p: Parser, c: Cur, a: nat) {
    && a <= c.pos && (c.log != [] ==> a <= c.log[|c.log| - 1].pos <= c.pos)
    && Grown(p, Forest(p, c.log, a, c.pos), |c.stk| - 1, a, c.pos)
  }

  lemma ShiftStands(p: Parser, c: Cur, a: nat, s: u16, look: nat)
    requires Stands(p, c, a)
    ensures Stands(p, Cur(c.stk + [s], c.pos + 1, look, c.log), a)
  {
    assert Forest(p, c.log, a, c.pos + 1) == Grow(Forest(p, c.log, a, c.pos), Tok(c.pos));
  }

  lemma RedStands(p: Parser, c: Cur, a: nat, r: nat, stk: seq<u16>)
    requires Stands(p, c, a) && p.len(r) < |c.stk| && |stk| == |c.stk| - p.len(r) + 1
    ensures Stands(p, c.(stk := stk, log := c.log + [Entry(r, c.pos)]), a)
  {
    var f, log := Forest(p, c.log, a, c.pos), c.log + [Entry(r, c.pos)];
    assert log[..|log| - 1] == c.log;
    assert Forest(p, log, a, c.pos) == Fold(p, f, r);
    FoldGrown(p, f, r, |c.stk| - 1, a, c.pos);
  }

  lemma DoneStands(p: Parser, c: Cur, a: nat, m: Move, kind: nat)
    requires Stands(p, c, a) && (m.Red? ==> p.len(m.r) < |c.stk| && |m.stk| == |c.stk| - p.len(m.r) + 1)
    ensures Stands(p, Done(c, m, kind).c, a)
  {
    match m
    case Err =>
    case Shift(x) => if kind != 0 { ShiftStands(p, c, a, x, ASKED); }
    case Red(r, stk) => RedStands(p, c, a, r, stk);
  }

  lemma OverStands(p: Parser, K: seq<u16>, c: Cur, a: nat)
    requires Stands(p, c, a)
    ensures Stands(p, Over(p, K)(c).c, a)
  {
    if c.stk != [] {
      var s := c.stk[|c.stk| - 1];
      var kind: nat := if !p.wants(s) then 0 else if KindAt(K, c.pos) != ASKED then KindAt(K, c.pos) else Said(p, c.stk, c.look);
      var c1 := if p.wants(s) && KindAt(K, c.pos) == ASKED && c.look != ASKED then c.(look := kind) else c;
      DoneStands(p, c1, a, MoveOn(p, c.stk, kind), kind);
    }
  }

  ghost predicate Keeps(f: Cur -> Res, G: Cur -> bool) { forall c :: G(c) ==> G(f(c).c) }

  lemma {:induction false} RunKeeps(f: Cur -> Res, G: Cur -> bool, c: Cur, n: nat)
    requires Keeps(f, G) && G(c)
    ensures G(Run(f, c, n).c)
    decreases n
  {
    if n > 0 && f(c).Go? { RunKeeps(f, G, f(c).c, n - 1); }
  }

  /** From a cursor of one state, for any tables and whatever the caller says: the log stands for a forest
      of as many trees as there are states above the first, every node as wide as its rule, and its tokens
      are those taken, in order, each once. */
  lemma RunForest(p: Parser, K: seq<u16>, s: u16, a: nat, look: nat, n: nat)
    ensures var c := Run(Over(p, K), Cur([s], a, look, []), n).c; var f := Forest(p, c.log, a, c.pos);
            a <= c.pos && Len(f) == |c.stk| - 1 && EndsAll(p, f, a) == c.pos
  {
    var f, G := Over(p, K), (c: Cur) => Stands(p, c, a);
    forall c | G(c) ensures G(f(c).c) { OverStands(p, K, c, a); }
    RunKeeps(f, G, Cur([s], a, look, []), n);
  }
}
