/** The expressions the compiler of src/love/ev.c takes, without captured variables, and what they mean:
    an evaluator that knows nothing of threads. */
module Lang {
  import opened Options
  import opened Vm

  /** If holds the list after `?`. */
  datatype Expr = Const(x: Word) | Var(i: nat) | If(xs: Exprs) | Call(f: Expr, xs: Exprs)

  datatype Exprs = Nil | Cons(x: Expr, xs: Exprs) {
    function Len(): (n: nat) { match this case Nil => 0 case Cons(_, xs) => 1 + xs.Len() }
  }

  /** A compiled function, or a static one: one operation of its arity, then unary ones. */
  datatype Fun = Lam(arity: nat, body: Expr) | Nif(arity: nat, op: nat, more: seq<nat>)

  datatype Prog = Prog(funs: seq<Fun>, numap: Word, net: Word,
                       sem: (nat, seq<Value>, World) -> Option<(Word, World)>) {
    function Ar(): (r: seq<nat>)
      ensures |r| == |funs| && forall i :: 0 <= i < |r| ==> r[i] == funs[i].arity
    { seq(|funs|, (i: nat) requires i < |funs| => funs[i].arity) }
  }

  /** (): a mint, which is a leaf and nets nothing. */
  const ZERO: Datum := Datum(0, false, 0)

  /** Constants are values, arguments are there, a call has an operand and a `?` two: with fewer, each
      is its one operand. */
  ghost predicate Wf(ar: seq<nat>, e: Expr, n: nat) {
    match e
    case Const(x) => Dec(ar, x).Some?
    case Var(i) => i < n
    case If(xs) => xs.Cons? && xs.xs.Cons? && WfAll(ar, xs, n)
    case Call(f, xs) => xs.Cons? && Wf(ar, f, n) && WfAll(ar, xs, n)
  }

  ghost predicate WfAll(ar: seq<nat>, xs: Exprs, n: nat) {
    xs.Cons? ==> Wf(ar, xs.x, n) && WfAll(ar, xs.xs, n)
  }

  ghost predicate WfProg(p: Prog) {
    && Dec(p.Ar(), p.numap).Some? && Dec(p.Ar(), p.net).Some?
    && forall i :: 0 <= i < |p.funs| ==> p.funs[i].arity >= 1 && (p.funs[i].Lam? ==> Wf(p.Ar(), p.funs[i].body, p.funs[i].arity))
  }

  predicate StaticWord(p: Prog, x: Word) {
    x.Ptr? && x.t.Entry? && x.t.id < |p.funs| && p.funs[x.t.id].Nif?
  }

  /** A static function by name, with just its operands, of more than one or of one operation: its
      operands are taken last first, then it. Any other call applies its function to one operand at a
      time, each computed when its turn comes. */
  predicate AtOnce(p: Prog, f: Expr, n: nat) {
    f.Const? && StaticWord(p, f.x) && p.funs[f.x.t.id].arity == n && (n > 1 || p.funs[f.x.t.id].more == [])
  }

  /** A value and the world; or a primitive's refusal; or more calls deep than there was fuel for. */
  datatype Res = Done(v: Value, w: World) | Fail | Out

  datatype ResAll = DoneAll(vs: seq<Value>, w: World) | FailAll | OutAll

  function Op(p: Prog, op: nat, vs: seq<Value>, w: World): (r: Res) {
    var r := Sem(p.Ar(), p.sem, op, vs, w);
    if r.None? then Fail else Done(Dec(p.Ar(), r.value.0).value, r.value.1)
  }

  function Ops(p: Prog, ops: seq<nat>, v: Value, w: World): (r: Res)
    ensures !r.Out?
    decreases |ops|
  {
    if ops == [] then Done(v, w) else
      var r := Op(p, ops[0], [v], w);
      if r.Done? then Ops(p, ops[1..], r.v, r.w) else r
  }

  /** A function's body over all its arguments. */
  function Body(p: Prog, id: nat, vs: seq<Value>, w: World, fuel: nat): (r: Res)
    decreases fuel, 0, 0
  {
    if id >= |p.funs| then Fail else
      match p.funs[id]
      case Lam(_, body) => if fuel == 0 then Out else Eval(p, body, vs, w, fuel - 1)
      case Nif(_, op, more) =>
        var r := Op(p, op, vs, w);
        if r.Done? then Ops(p, more, r.v, r.w) else r
  }

  /** f applied to x: a function takes one argument more and runs on its last; a number goes through
      its hook; a datum has its own way. */
  function Apply(p: Prog, f: Value, x: Value, w: World, fuel: nat): (r: Res)
    decreases fuel, 1, 0
  {
    match f
    case Num(_) =>
      if fuel == 0 then Out else
        var h := Dec(p.Ar(), p.numap);
        if h.None? then Fail else
          var r := Apply(p, h.value, f, w, fuel - 1);
          if r.Done? then Apply(p, r.v, x, r.w, fuel - 1) else r
    case Dat(_) => Op(p, 0, [f, x], w)
    case Fn(id, args) =>
      if id < |p.funs| && |args| + 1 < p.funs[id].arity then Done(Fn(id, args + [x]), w)
      else Body(p, id, args + [x], w, fuel)
  }

  /** Whether v counts as true: 1 or 0. A compound is measured first. */
  function Test(p: Prog, v: Value, w: World, fuel: nat): (r: Res)
    decreases fuel, 2, 0
  {
    match v
    case Num(n) => Done(Num(if n > 0 then 1 else 0), w)
    case Dat(d) =>
      if !d.compound then Done(Num(if d.net > 0 then 1 else 0), w)
      else if fuel == 0 then Out else
        var h := Dec(p.Ar(), p.net);
        if h.None? then Fail else
          var r := Apply(p, h.value, v, w, fuel - 1);
          if r.Done? then Test(p, r.v, r.w, fuel - 1) else r
    case Fn(_, _) => Done(Num(1), w)
  }

  function Eval(p: Prog, e: Expr, env: seq<Value>, w: World, fuel: nat): (r: Res)
    decreases fuel, 3, e
  {
    match e
    case Const(x) => var v := Dec(p.Ar(), x); if v.Some? then Done(v.value, w) else Fail
    case Var(i) => if i < |env| then Done(env[i], w) else Fail
    case If(xs) => EvalIf(p, xs, env, w, fuel)
    case Call(f, xs) =>
      if AtOnce(p, f, xs.Len()) then
        var a := EvalR2l(p, xs, env, w, fuel);
        (match a
         case DoneAll(vs, w1) => Body(p, f.x.t.id, vs, w1, fuel)
         case FailAll => Fail
         case OutAll => Out)
      else
        var r := Eval(p, f, env, w, fuel);
        if r.Done? then EvalL2r(p, r.v, xs, env, r.w, fuel) else r
  }

  /** Tests and branches in turn; an odd one out at the end is the else, and without one it is (). */
  function EvalIf(p: Prog, xs: Exprs, env: seq<Value>, w: World, fuel: nat): (r: Res)
    decreases fuel, 3, xs
  {
    match xs
    case Nil => Done(Dat(ZERO), w)
    case Cons(x, Nil) => Eval(p, x, env, w, fuel)
    case Cons(x, Cons(y, rest)) =>
      var c := Eval(p, x, env, w, fuel);
      if !c.Done? then c else
        var t := Test(p, c.v, c.w, fuel);
        if !t.Done? then t
        else if t.v == Num(1) then Eval(p, y, env, t.w, fuel)
        else EvalIf(p, rest, env, t.w, fuel)
  }

  function EvalL2r(p: Prog, f: Value, xs: Exprs, env: seq<Value>, w: World, fuel: nat): (r: Res)
    decreases fuel, 3, xs
  {
    match xs
    case Nil => Done(f, w)
    case Cons(x, rest) =>
      var a := Eval(p, x, env, w, fuel);
      if !a.Done? then a else
        var r := Apply(p, f, a.v, a.w, fuel);
        if r.Done? then EvalL2r(p, r.v, rest, env, r.w, fuel) else r
  }

  function EvalR2l(p: Prog, xs: Exprs, env: seq<Value>, w: World, fuel: nat): (r: ResAll)
    ensures r.DoneAll? ==> |r.vs| == xs.Len()
    decreases fuel, 3, xs
  {
    match xs
    case Nil => DoneAll([], w)
    case Cons(x, rest) =>
      match EvalR2l(p, rest, env, w, fuel)
      case DoneAll(vs, w1) =>
        (match Eval(p, x, env, w1, fuel)
         case Done(v, w2) => DoneAll([v] + vs, w2)
         case Fail => FailAll
         case Out => OutAll)
      case FailAll => FailAll
      case OutAll => OutAll
  }
}
