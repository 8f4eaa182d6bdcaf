/** What the evaluator's answers mean, said without it: fuel only matters until there is enough; what counts as
    true; which branch a conditional takes; and in which order a call computes. */
module LangFacts {
  import opened Options
  import opened Vm
  import opened Lang
  import opened Compiled

  // ----- fuel

  lemma {:induction false} BodyMore(p: Prog, id: nat, vs: seq<Value>, w: World, fuel: nat)
    requires !Body(p, id, vs, w, fuel).Out?
    ensures Body(p, id, vs, w, fuel + 1) == Body(p, id, vs, w, fuel)
    decreases fuel, 0, 0
  {
    if id < |p.funs| && p.funs[id].Lam? { EvalMore(p, p.funs[id].body, vs, w, fuel - 1); }
  }

  lemma {:induction false} ApplyMore(p: Prog, f: Value, x: Value, w: World, fuel: nat)
    requires !Apply(p, f, x, w, fuel).Out?
    ensures Apply(p, f, x, w, fuel + 1) == Apply(p, f, x, w, fuel)
    decreases fuel, 1, 0
  {
    match f
    case Num(_) =>
      var h := Dec(p.Ar(), p.numap);
      if h.Some? {
        ApplyMore(p, h.value, f, w, fuel - 1);
        var r := Apply(p, h.value, f, w, fuel - 1);
        if r.Done? { ApplyMore(p, r.v, x, r.w, fuel - 1); }
      }
    case Dat(_) =>
    case Fn(id, args) =>
      if !(id < |p.funs| && |args| + 1 < p.funs[id].arity) { BodyMore(p, id, args + [x], w, fuel); }
  }

  lemma {:induction false} TestMore(p: Prog, v: Value, w: World, fuel: nat)
    requires !Test(p, v, w, fuel).Out?
    ensures Test(p, v, w, fuel + 1) == Test(p, v, w, fuel)
    decreases fuel, 2, 0
  {
    if v.Dat? && v.d.compound {
      var h := Dec(p.Ar(), p.net);
      if h.Some? {
        ApplyMore(p, h.value, v, w, fuel - 1);
        var r := Apply(p, h.value, v, w, fuel - 1);
        if r.Done? { TestMore(p, r.v, r.w, fuel - 1); }
      }
    }
  }

  lemma {:induction false} EvalMore(p: Prog, e: Expr, env: seq<Value>, w: World, fuel: nat)
    requires !Eval(p, e, env, w, fuel).Out?
    ensures Eval(p, e, env, w, fuel + 1) == Eval(p, e, env, w, fuel)
    decreases fuel, 3, e
  {
    match e
    case Const(_) =>
    case Var(_) =>
    case If(xs) => EvalIfMore(p, xs, env, w, fuel);
    case Call(f, xs) =>
      if AtOnce(p, f, xs.Len()) {
        R2lMore(p, xs, env, w, fuel);
        var a := EvalR2l(p, xs, env, w, fuel);
        if a.DoneAll? { BodyMore(p, f.x.t.id, a.vs, a.w, fuel); }
      } else {
        EvalMore(p, f, env, w, fuel);
        var r := Eval(p, f, env, w, fuel);
        if r.Done? { L2rMore(p, r.v, xs, env, r.w, fuel); }
      }
  }

  lemma {:induction false} EvalIfMore(p: Prog, xs: Exprs, env: seq<Value>, w: World, fuel: nat)
    requires !EvalIf(p, xs, env, w, fuel).Out?
    ensures EvalIf(p, xs, env, w, fuel + 1) == EvalIf(p, xs, env, w, fuel)
    decreases fuel, 3, xs
  {
    match xs
    case Nil =>
    case Cons(x, Nil) => EvalMore(p, x, env, w, fuel);
    case Cons(x, Cons(y, rest)) =>
      EvalMore(p, x, env, w, fuel);
      var c := Eval(p, x, env, w, fuel);
      if c.Done? {
        TestMore(p, c.v, c.w, fuel);
        var t := Test(p, c.v, c.w, fuel);
        if t.Done? {
          if t.v == Num(1) { EvalMore(p, y, env, t.w, fuel); } else { EvalIfMore(p, rest, env, t.w, fuel); }
        }
      }
  }

  lemma {:induction false} L2rMore(p: Prog, f: Value, xs: Exprs, env: seq<Value>, w: World, fuel: nat)
    requires !EvalL2r(p, f, xs, env, w, fuel).Out?
    ensures EvalL2r(p, f, xs, env, w, fuel + 1) == EvalL2r(p, f, xs, env, w, fuel)
    decreases fuel, 3, xs
  {
    if xs.Cons? {
      EvalMore(p, xs.x, env, w, fuel);
      var a := Eval(p, xs.x, env, w, fuel);
      if a.Done? {
        ApplyMore(p, f, a.v, a.w, fuel);
        var r := Apply(p, f, a.v, a.w, fuel);
        if r.Done? { L2rMore(p, r.v, xs.xs, env, r.w, fuel); }
      }
    }
  }

  lemma {:induction false} R2lMore(p: Prog, xs: Exprs, env: seq<Value>, w: World, fuel: nat)
    requires !EvalR2l(p, xs, env, w, fuel).OutAll?
    ensures EvalR2l(p, xs, env, w, fuel + 1) == EvalR2l(p, xs, env, w, fuel)
    decreases fuel, 3, xs
  {
    if xs.Cons? {
      R2lMore(p, xs.xs, env, w, fuel);
      var a := EvalR2l(p, xs.xs, env, w, fuel);
      if a.DoneAll? { EvalMore(p, xs.x, env, a.w, fuel); }
    }
  }

  /** An answer is the answer, whatever more fuel there is. */
  lemma {:induction false} FuelEnough(p: Prog, e: Expr, env: seq<Value>, w: World, fuel: nat, more: nat)
    requires !Eval(p, e, env, w, fuel).Out? && fuel <= more
    ensures Eval(p, e, env, w, more) == Eval(p, e, env, w, fuel)
    decreases more
  {
    if fuel < more {
      FuelEnough(p, e, env, w, fuel, more - 1);
      EvalMore(p, e, env, w, more - 1);
    }
  }

  // ----- what counts as true

  /** What a value nets: a number itself, a leaf what it nets, a function 1. */
  function Net(v: Value): (n: int) {
    match v
    case Num(n) => n
    case Dat(d) => d.net
    case Fn(_, _) => 1
  }

  predicate Measured(v: Value) { v.Dat? && v.d.compound }

  /** All but a compound count as true just where they net more than nothing, and nothing is called; a compound
      counts as what the hook makes of it does. */
  lemma Truth(p: Prog, v: Value, w: World, fuel: nat)
    ensures !Measured(v) ==> Test(p, v, w, fuel) == Done(Num(if Net(v) > 0 then 1 else 0), w)
    ensures Measured(v) && fuel > 0 && Dec(p.Ar(), p.net).Some? ==>
              var r := Apply(p, Dec(p.Ar(), p.net).value, v, w, fuel - 1);
              r.Done? && !Measured(r.v) ==> Test(p, v, w, fuel) == Done(Num(if Net(r.v) > 0 then 1 else 0), r.w)
  {
  }

  // ----- conditionals

  /** The world after all of xs' tests, xs being tests and branches in turn, if every test comes out false. */
  function AllFalse(p: Prog, xs: Exprs, env: seq<Value>, w: World, fuel: nat): (r: Option<World>)
    decreases xs
  {
    match xs
    case Nil => Some(w)
    case Cons(x, Nil) => None
    case Cons(x, Cons(_, rest)) =>
      var c := Eval(p, x, env, w, fuel);
      if !c.Done? then None else
        var t := Test(p, c.v, c.w, fuel);
        if !t.Done? || t.v == Num(1) then None else AllFalse(p, rest, env, t.w, fuel)
  }

  function App(xs: Exprs, ys: Exprs): (zs: Exprs) { match xs case Nil => ys case Cons(x, r) => Cons(x, App(r, ys)) }

  /** Past tests that come out false the rest decides, in the last one's world. */
  lemma {:induction false} IfSkips(p: Prog, xs: Exprs, ys: Exprs, env: seq<Value>, w: World, fuel: nat)
    requires AllFalse(p, xs, env, w, fuel).Some?
    ensures EvalIf(p, App(xs, ys), env, w, fuel) == EvalIf(p, ys, env, AllFalse(p, xs, env, w, fuel).value, fuel)
    decreases xs
  {
    match xs
    case Nil =>
    case Cons(x, Cons(y, rest)) =>
      var t := Test(p, Eval(p, x, env, w, fuel).v, Eval(p, x, env, w, fuel).w, fuel);
      assert App(xs, ys) == Cons(x, Cons(y, App(rest, ys)));
      IfSkips(p, rest, ys, env, t.w, fuel);
  }

  /** The first test to come out true has its branch taken, and no other is computed; with none the else is; and
      with none and no else the value is one that is false, unmeasured. */
  lemma IfPicks(p: Prog, xs: Exprs, x: Expr, y: Expr, more: Exprs, env: seq<Value>, w: World, fuel: nat)
    requires AllFalse(p, xs, env, w, fuel).Some?
    ensures var w1 := AllFalse(p, xs, env, w, fuel).value; var c := Eval(p, x, env, w1, fuel);
            && (c.Done? && !Measured(c.v) && Net(c.v) > 0 ==> EvalIf(p, App(xs, Cons(x, Cons(y, more))), env, w, fuel) == Eval(p, y, env, c.w, fuel))
            && EvalIf(p, App(xs, Cons(x, Nil)), env, w, fuel) == c
    ensures var r := EvalIf(p, xs, env, w, fuel);
            r.Done? && r.w == AllFalse(p, xs, env, w, fuel).value && !Measured(r.v) && Net(r.v) <= 0
  {
    IfSkips(p, xs, Cons(x, Cons(y, more)), env, w, fuel);
    IfSkips(p, xs, Cons(x, Nil), env, w, fuel);
    IfSkips(p, xs, Nil, env, w, fuel);
    AppNil(xs);
    var c := Eval(p, x, env, AllFalse(p, xs, env, w, fuel).value, fuel);
    if c.Done? { Truth(p, c.v, c.w, fuel); }
  }

  lemma {:induction false} AppNil(xs: Exprs)
    ensures App(xs, Nil) == xs
    decreases xs
  {
    if xs.Cons? { AppNil(xs.xs); }
  }

  /** (? (? xs..) a b). */
  function Nested(xs: Exprs, a: Expr, b: Expr): (e: Expr) { If(Cons(If(xs), Cons(a, Cons(b, Nil)))) }

  /** A conditional without an else, none of whose tests comes out true, is false itself: over it the else is taken,
      in the last test's world, whatever the hooks are. */
  lemma NoElse(p: Prog, xs: Exprs, a: Expr, b: Expr, env: seq<Value>, w: World, fuel: nat)
    requires AllFalse(p, xs, env, w, fuel).Some?
    ensures Eval(p, Nested(xs, a, b), env, w, fuel) == Eval(p, b, env, AllFalse(p, xs, env, w, fuel).value, fuel)
  {
    IfPicks(p, xs, a, b, Nil, env, w, fuel);
    var r, rest := EvalIf(p, xs, env, w, fuel), Cons(b, Nil);
    Truth(p, r.v, r.w, fuel);
    assert Eval(p, If(xs), env, w, fuel) == r;
    assert EvalIf(p, Cons(If(xs), Cons(a, rest)), env, w, fuel) == EvalIf(p, rest, env, r.w, fuel);
  }

  lemma {:induction false} AllFalseMore(p: Prog, xs: Exprs, env: seq<Value>, w: World, fuel: nat)
    requires AllFalse(p, xs, env, w, fuel).Some?
    ensures AllFalse(p, xs, env, w, fuel + 1) == AllFalse(p, xs, env, w, fuel)
    decreases xs
  {
    match xs
    case Nil =>
    case Cons(x, Cons(_, rest)) =>
      EvalMore(p, x, env, w, fuel);
      var c := Eval(p, x, env, w, fuel);
      TestMore(p, c.v, c.w, fuel);
      AllFalseMore(p, rest, env, Test(p, c.v, c.w, fuel).w, fuel);
  }

  lemma {:induction false} AllFalseEnough(p: Prog, xs: Exprs, env: seq<Value>, w: World, fuel: nat, more: nat)
    requires AllFalse(p, xs, env, w, fuel).Some? && fuel <= more
    ensures AllFalse(p, xs, env, w, more) == AllFalse(p, xs, env, w, fuel)
    decreases more
  {
    if fuel < more {
      AllFalseEnough(p, xs, env, w, fuel, more - 1);
      AllFalseMore(p, xs, env, w, more - 1);
    }
  }

  lemma NoElseEvals(p: Prog, xs: Exprs, a: Expr, b: Expr, w: World, w1: World, fuel: nat, r: Res)
    requires AllFalse(p, xs, [], w, fuel) == Some(w1) && !r.Out?
    ensures EvalsTo(p, Nested(xs, a, b), w, r) <==> EvalsTo(p, b, w1, r)
  {
    if EvalsTo(p, Nested(xs, a, b), w, r) {
      var f: nat :| Eval(p, Nested(xs, a, b), [], w, f) == r;
      var g := if f < fuel then fuel else f;
      FuelEnough(p, Nested(xs, a, b), [], w, f, g);
      AllFalseEnough(p, xs, [], w, fuel, g);
      NoElse(p, xs, a, b, [], w, g);
      assert Eval(p, b, [], w1, g) == r;
    }
    if EvalsTo(p, b, w1, r) {
      var f: nat :| Eval(p, b, [], w1, f) == r;
      var g := if f < fuel then fuel else f;
      FuelEnough(p, b, [], w1, f, g);
      AllFalseEnough(p, xs, [], w, fuel, g);
      NoElse(p, xs, a, b, [], w, g);
      assert Eval(p, Nested(xs, a, b), [], w, g) == r;
    }
  }

  lemma NestedWf(ar: seq<nat>, xs: Exprs, a: Expr, b: Expr)
    requires Wf(ar, Nested(xs, a, b), 0)
    ensures Wf(ar, b, 0)
  {
    var rest := Cons(b, Nil);
    assert WfAll(ar, Cons(If(xs), Cons(a, rest)), 0) && WfAll(ar, Cons(a, rest), 0) && WfAll(ar, rest, 0);
  }

  /** And so the machine: on such a conditional's thread it halts, and with what, just as on the else's from the
      last test's world; and fails just as that does. */
  lemma NoElseRuns(p: Prog, xs: Exprs, a: Expr, b: Expr, st: seq<Word>, w: World, w1: World, fuel: nat, v: Value, w': World)
    requires WfProg(p) && Wf(p.Ar(), Nested(xs, a, b), 0) && AllFalse(p, xs, [], w, fuel) == Some(w1)
    ensures HaltsWith(p, Nested(xs, a, b), st, w, v, w') <==> HaltsWith(p, b, st, w1, v, w')
    ensures Fails(Link(p), Start(p, Nested(xs, a, b), st, w)) <==> Fails(Link(p), Start(p, b, st, w1))
  {
    NestedWf(p.Ar(), xs, a, b);
    CompileCorrect(p, Nested(xs, a, b), st, w, v, w');
    CompileCorrect(p, b, st, w1, v, w');
    CompileFails(p, Nested(xs, a, b), st, w);
    CompileFails(p, b, st, w1);
    NoElseEvals(p, xs, a, b, w, w1, fuel, Done(v, w'));
    NoElseEvals(p, xs, a, b, w, w1, fuel, Fail);
  }

  // ----- calls

  /** Operands computed first to last. */
  function EvalInOrder(p: Prog, xs: Exprs, env: seq<Value>, w: World, fuel: nat): (r: ResAll)
    decreases xs
  {
    match xs
    case Nil => DoneAll([], w)
    case Cons(x, rest) =>
      match Eval(p, x, env, w, fuel)
      case Done(v, w1) =>
        (match EvalInOrder(p, rest, env, w1, fuel)
         case DoneAll(vs, w2) => DoneAll([v] + vs, w2)
         case FailAll => FailAll
         case OutAll => OutAll)
      case Fail => FailAll
      case Out => OutAll
  }

  lemma {:induction false} Gathers(p: Prog, id: nat, args: seq<Value>, xs: Exprs, env: seq<Value>, w: World, fuel: nat)
    requires id < |p.funs| && xs.Cons? && |args| + xs.Len() == p.funs[id].arity
    ensures EvalL2r(p, Fn(id, args), xs, env, w, fuel) ==
              match EvalInOrder(p, xs, env, w, fuel)
              case DoneAll(vs, w1) => Body(p, id, args + vs, w1, fuel)
              case FailAll => Fail
              case OutAll => Out
    decreases xs
  {
    var a := Eval(p, xs.x, env, w, fuel);
    if a.Done? {
      var args1 := args + [a.v];
      if xs.xs.Cons? {
        Gathers(p, id, args1, xs.xs, env, a.w, fuel);
        var r := EvalInOrder(p, xs.xs, env, a.w, fuel);
        if r.DoneAll? { assert args1 + r.vs == args + ([a.v] + r.vs); }
      } else {
        var b := Body(p, id, args1, a.w, fuel);
        assert [a.v] + [] == [a.v];
        assert EvalL2r(p, Fn(id, args), xs, env, w, fuel) == if b.Done? then EvalL2r(p, b.v, Nil, env, b.w, fuel) else b;
      }
    }
  }

  /** A compiled function called with as many operands as it takes: they are computed first to last, and then its
      body is, over their values. */
  lemma CallsBody(p: Prog, id: nat, xs: Exprs, env: seq<Value>, w: World, fuel: nat)
    requires id < |p.funs| && p.funs[id].Lam? && xs.Cons? && xs.Len() == p.funs[id].arity && fuel > 0
    ensures Eval(p, Call(Const(Ptr(Entry(id))), xs), env, w, fuel) ==
              match EvalInOrder(p, xs, env, w, fuel)
              case DoneAll(vs, w1) => Eval(p, p.funs[id].body, vs, w1, fuel - 1)
              case FailAll => Fail
              case OutAll => Out
  {
    Gathers(p, id, [], xs, env, w, fuel);
    var r := EvalInOrder(p, xs, env, w, fuel);
    if r.DoneAll? { assert [] + r.vs == r.vs; }
  }

  /** A static function of more than one, by name: the operands last to first, and then it. */
  lemma CallsStatic(p: Prog, id: nat, xs: Exprs, env: seq<Value>, w: World, fuel: nat)
    requires id < |p.funs| && p.funs[id].Nif? && xs.Len() == p.funs[id].arity > 1
    ensures Eval(p, Call(Const(Ptr(Entry(id))), xs), env, w, fuel) ==
              match EvalR2l(p, xs, env, w, fuel)
              case DoneAll(vs, w1) => Body(p, id, vs, w1, fuel)
              case FailAll => Fail
              case OutAll => Out
  {
  }

  /** A number applied to x is the hook, a function of two, called on the number and x. */
  lemma NumberCalls(p: Prog, id: nat, n: int, x: Value, w: World, fuel: nat)
    requires Dec(p.Ar(), p.numap) == Some(Fn(id, [])) && id < |p.funs| && p.funs[id].arity == 2
    ensures Apply(p, Num(n), x, w, fuel + 1) == Body(p, id, [Num(n), x], w, fuel)
  {
    assert [] + [Num(n)] == [Num(n)] && [Num(n)] + [x] == [Num(n), x];
    assert Apply(p, Fn(id, []), Num(n), w, fuel) == Done(Fn(id, [Num(n)]), w);
    assert Apply(p, Fn(id, [Num(n)]), x, w, fuel) == Body(p, id, [Num(n), x], w, fuel);
  }

  /** An operation's answer is the program's, where that is a value; any other is a refusal. */
  lemma OpSays(p: Prog, op: nat, vs: seq<Value>, w: World)
    ensures Op(p, op, vs, w) == match p.sem(op, vs, w)
                                case None => Fail
                                case Some(a) => match Dec(p.Ar(), a.0) case None => Fail case Some(v) => Done(v, a.1)
  {
  }

  /** op over the operands, and each of more over what came before it. */
  function InTurn(p: Prog, op: nat, more: seq<nat>, vs: seq<Value>, w: World): (r: Res)
    ensures !r.Out?
    decreases |more|
  {
    if more == [] then Op(p, op, vs, w) else
      var r := InTurn(p, op, more[..|more| - 1], vs, w);
      if r.Done? then Op(p, more[|more| - 1], [r.v], r.w) else r
  }

  lemma {:induction false} OpsLast(p: Prog, ops: seq<nat>, v: Value, w: World)
    requires ops != []
    ensures var r := Ops(p, ops[..|ops| - 1], v, w);
            Ops(p, ops, v, w) == if r.Done? then Op(p, ops[|ops| - 1], [r.v], r.w) else r
    decreases |ops|
  {
    var r := Op(p, ops[0], [v], w);
    if |ops| > 1 {
      assert ops[..|ops| - 1][0] == ops[0] && ops[..|ops| - 1][1..] == ops[1..][..|ops| - 2];
      if r.Done? { OpsLast(p, ops[1..], r.v, r.w); }
    } else if r.Done? {
      assert ops[1..] == [] && ops[..0] == [];
    }
  }

  /** A static function is its operations in turn, the first over all its operands; it calls nothing else. */
  lemma {:induction false} StaticRuns(p: Prog, id: nat, vs: seq<Value>, w: World, fuel: nat)
    requires id < |p.funs| && p.funs[id].Nif?
    ensures Body(p, id, vs, w, fuel) == InTurn(p, p.funs[id].op, p.funs[id].more, vs, w)
  {
    TurnsAre(p, p.funs[id].op, p.funs[id].more, vs, w);
  }

  lemma {:induction false} TurnsAre(p: Prog, op: nat, more: seq<nat>, vs: seq<Value>, w: World)
    ensures InTurn(p, op, more, vs, w) == var r := Op(p, op, vs, w); if r.Done? then Ops(p, more, r.v, r.w) else r
    decreases |more|
  {
    if more != [] {
      TurnsAre(p, op, more[..|more| - 1], vs, w);
      var r := Op(p, op, vs, w);
      if r.Done? { OpsLast(p, more, r.v, r.w); }
    }
  }

  /** (? (? 0 1) 2 3) is 3. */
  lemma NoElseThree(p: Prog, w: World, fuel: nat)
    ensures Eval(p, Nested(Cons(Const(Charm(0)), Cons(Const(Charm(1)), Nil)), Const(Charm(2)), Const(Charm(3))), [], w, fuel) == Done(Num(3), w)
  {
    var xs := Cons(Const(Charm(0)), Cons(Const(Charm(1)), Nil));
    assert Test(p, Num(0), w, fuel) == Done(Num(0), w);
    assert AllFalse(p, Nil, [], w, fuel) == Some(w);
    assert AllFalse(p, xs, [], w, fuel) == Some(w);
    NoElse(p, xs, Const(Charm(2)), Const(Charm(3)), [], w, fuel);
  }
}
