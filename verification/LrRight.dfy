/** What a run of src/love/lr.c has done, where every kind is said beforehand: its states are those the automaton
    passes along the forest, each node's rule is the action its last state had on the token after it, and the status
    is what the last state has for the next one. */
module LrRight {
  import opened LrSpec
  import opened LrRun

  /** The kind state s sees at pos. */
  function Sees(p: Parser, K: seq<u16>, s: nat, pos: nat): (k: u16) { if p.wants(s) then KindAt(K, pos) else 0 }

  /** The state along t from s: a token's by its shift, a node's by its rule's left side. */
  function Along(p: Parser, K: seq<u16>, t: Tree, s: nat): (q: nat) {
    match t
    case Tok(pos) => p.act(s, Sees(p, K, s, pos))
    case Node(r, _) => p.goto(r, s)
  }

  function AlongAll(p: Parser, K: seq<u16>, f: Trees, s: nat): (q: nat) {
    match f
    case Nil => s
    case Grow(rest, t) => Along(p, K, t, AlongAll(p, K, rest, s))
  }

  /** The states along f, s the first. */
  function States(p: Parser, K: seq<u16>, f: Trees, s: nat): (qs: seq<nat>) {
    match f
    case Nil => [s]
    case Grow(rest, t) => States(p, K, rest, s) + [AlongAll(p, K, f, s)]
  }

  /** t, its first token at a, is what the automaton comes to from s: a token is shifted; a node's trees are right one
      after another, and the state after them reduces by its rule on the token after. */
  predicate Right(p: Parser, K: seq<u16>, t: Tree, s: nat, a: nat) {
    match t
    case Tok(pos) => s < p.states && Sees(p, K, s, pos) != 0 && 0 < p.act(s, Sees(p, K, s, pos)) < 0x8000
    case Node(r, kids) =>
      var q, b := AlongAll(p, K, kids, s), EndsAll(p, kids, a);
      && RightAll(p, K, kids, s, a) && b >= 0 && p.known(r)
      && q < p.states && p.act(q, Sees(p, K, q, b)) == 0x8000 + r
  }

  predicate RightAll(p: Parser, K: seq<u16>, f: Trees, s: nat, a: nat) {
    match f
    case Nil => true
    case Grow(rest, t) =>
      var b := EndsAll(p, rest, a);
      RightAll(p, K, rest, s, a) && b >= 0 && Right(p, K, t, AlongAll(p, K, rest, s), b)
  }

  lemma {:induction false} StatesAre(p: Parser, K: seq<u16>, f: Trees, s: nat)
    ensures var qs := States(p, K, f, s); |qs| == Len(f) + 1 && qs[|qs| - 1] == AlongAll(p, K, f, s)
  {
    if f.Grow? { StatesAre(p, K, f.rest, s); }
  }

  /** What holds of all holds below the last n, and of those from there. */
  lemma {:induction false} SplitRight(p: Parser, K: seq<u16>, f: Trees, n: nat, s: nat, a: nat)
    requires n <= Len(f) && RightAll(p, K, f, s, a) && EndsAll(p, f, a) >= 0
    ensures var g, h := Below(f, n), Last(f, n); var b := EndsAll(p, g, a);
            && RightAll(p, K, g, s, a) && b >= 0 && RightAll(p, K, h, AlongAll(p, K, g, s), b)
            && AlongAll(p, K, h, AlongAll(p, K, g, s)) == AlongAll(p, K, f, s)
            && EndsAll(p, h, b) == EndsAll(p, f, a)
    ensures n < |States(p, K, f, s)| && States(p, K, Below(f, n), s) == States(p, K, f, s)[..|States(p, K, f, s)| - n]
    decreases n
  {
    StatesAre(p, K, f, s);
    if n > 0 { SplitRight(p, K, f.rest, n - 1, s, a); }
  }

  ghost predicate Follows(p: Parser, K: seq<u16>, c: Cur, s: nat, a: nat) {
    var f := Forest(p, c.log, a, c.pos);
    Stands(p, c, a) && c.stk == States(p, K, f, s) && RightAll(p, K, f, s, a)
  }

  lemma ShiftFollows(p: Parser, K: seq<u16>, c: Cur, s: nat, a: nat, x: u16, look: nat)
    requires Follows(p, K, c, s, a) && c.stk != []
    requires var q := c.stk[|c.stk| - 1]; q < p.states && Sees(p, K, q, c.pos) != 0 && 0 < x < 0x8000 && x == p.act(q, Sees(p, K, q, c.pos))
    ensures Follows(p, K, Cur(c.stk + [x], c.pos + 1, look, c.log), s, a)
  {
    var f := Forest(p, c.log, a, c.pos);
    StatesAre(p, K, f, s);
    ShiftStands(p, c, a, x, look);
    assert Forest(p, c.log, a, c.pos + 1) == Grow(f, Tok(c.pos));
  }

  lemma RedFollows(p: Parser, K: seq<u16>, c: Cur, s: nat, a: nat, r: nat)
    requires Follows(p, K, c, s, a) && p.known(r) && p.len(r) < |c.stk|
    requires var q := c.stk[|c.stk| - 1]; q < p.states && p.act(q, Sees(p, K, q, c.pos)) == 0x8000 + r
    ensures var g := c.stk[..|c.stk| - p.len(r)];
            Follows(p, K, c.(stk := g + [p.goto(r, g[|g| - 1])], log := c.log + [Entry(r, c.pos)]), s, a)
  {
    var f, log, n := Forest(p, c.log, a, c.pos), c.log + [Entry(r, c.pos)], p.len(r);
    var g := c.stk[..|c.stk| - n];
    RedStands(p, c, a, r, g + [p.goto(r, g[|g| - 1])]);
    StatesAre(p, K, f, s);
    SplitRight(p, K, f, n, s, a);
    StatesAre(p, K, Below(f, n), s);
    assert log[..|log| - 1] == c.log;
    assert Forest(p, log, a, c.pos) == Fold(p, f, r);
  }

  lemma OverFollows(p: Parser, K: seq<u16>, c: Cur, s: nat, a: nat)
    requires NoneAsked(K) && Follows(p, K, c, s, a)
    ensures Follows(p, K, Over(p, K)(c).c, s, a)
  {
    if c.stk != [] && c.stk[|c.stk| - 1] < p.states {
      var q := c.stk[|c.stk| - 1];
      var kind := Sees(p, K, q, c.pos);
      assert KindAt(K, c.pos) != ASKED;
      assert Over(p, K)(c) == Done(c, MoveOn(p, c.stk, kind), kind);
      match MoveOn(p, c.stk, kind)
      case Err =>
      case Shift(x) => if kind != 0 { ShiftFollows(p, K, c, s, a, x, ASKED); }
      case Red(r, _) => RedFollows(p, K, c, s, a, r);
    }
  }

  // ----- what the status says

  /** The last state has no move on the kind it sees: no action, or a rule that is none or is wider than what is
      there; or it is no state. */
  predicate Refused(p: Parser, K: seq<u16>, c: Cur)
    requires c.stk != []
  {
    var q := c.stk[|c.stk| - 1];
    q >= p.states ||
      var x := p.act(q, Sees(p, K, q, c.pos));
      x == 0 || (x >= 0x8000 && (p.known(x - 0x8000) ==> p.len(x - 0x8000) >= |c.stk|))
  }

  /** The last state would shift the end. */
  predicate Accepted(p: Parser, K: seq<u16>, c: Cur)
    requires c.stk != []
  {
    var q := c.stk[|c.stk| - 1];
    q < p.states && Sees(p, K, q, c.pos) == 0 && 0 < p.act(q, 0) < 0x8000
  }

  lemma StepStops(p: Parser, K: seq<u16>, c: Cur)
    requires NoneAsked(K) && c.stk != []
    ensures var r := Over(p, K)(c);
            && (r.Stop? ==> r.c == c)
            && (r == Stop(1, c) <==> Accepted(p, K, c)) && (r == Stop(2, c) <==> Refused(p, K, c))
            && (r.Stop? ==> r.z == 1 || r.z == 2)
  {
    assert KindAt(K, c.pos) != ASKED;
  }

  lemma {:induction false} RunStops(p: Parser, K: seq<u16>, c: Cur, n: nat)
    requires NoneAsked(K) && c.stk != []
    ensures var r := Run(Over(p, K), c, n);
            && r.c.stk != [] && r.z <= 2
            && (r.z == 1 ==> Accepted(p, K, r.c)) && (r.z == 2 ==> Refused(p, K, r.c))
    decreases n
  {
    if n > 0 {
      StepStops(p, K, c);
      if Over(p, K)(c).Go? { RunStops(p, K, Over(p, K)(c).c, n - 1); }
    }
  }

  /** The whole of a run from one state, over any tables. */
  lemma RunIsRight(p: Parser, K: seq<u16>, s: u16, a: nat, look: nat, n: nat)
    requires NoneAsked(K)
    ensures var r := Run(Over(p, K), Cur([s], a, look, []), n); var c := r.c; var f := Forest(p, c.log, a, c.pos);
            && c.stk == States(p, K, f, s) && RightAll(p, K, f, s, a) && EndsAll(p, f, a) == c.pos
            && (r.z == 0 || (r.z == 1 && Accepted(p, K, c)) || (r.z == 2 && Refused(p, K, c)))
  {
    var f, G := Over(p, K), (c: Cur) => Follows(p, K, c, s, a);
    forall c | G(c) ensures G(f(c).c) { OverFollows(p, K, c, s, a); }
    RunKeeps(f, G, Cur([s], a, look, []), n);
    RunStops(p, K, Cur([s], a, look, []), n);
  }
}
