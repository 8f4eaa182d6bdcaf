/** Compiled code does what the evaluator says: the same value, the same effects in the same order, a
    refusal where it refuses, and no end where it has none. */
module Compiled {
  import opened Options
  import opened Vm
  import opened Lang
  import opened Codegen

  // ----- a program's machine

  function MoreCode(ops: seq<nat>): (k: Code) {
    if ops == [] then Ins(Ret0, End) else Ins(Prim(ops[0], 1), MoreCode(ops[1..]))
  }

  function LamAna(p: Prog, n: nat, body: Expr): (a: Ana) {
    Analyze(p, body, Ana(Then(PutCur(n), Last), 4, Bare)).Push(PutRet(n), 0)
  }

  function CodeOf(p: Prog, f: Fun): (k: Code) {
    match f
    case Lam(n, body) => PutAll(LamAna(p, n, body).es, Buf(End, [], [])).k
    case Nif(n, op, more) =>
      var k := Ins(Prim(op, n), MoreCode(more));
      if n == 1 then k else Ins(Cur(n), k)
  }

  function Link(p: Prog): (m: Mach) {
    Mach(seq(|p.funs|, (i: nat) requires i < |p.funs| => CodeOf(p, p.funs[i])), p.Ar(), p.numap, p.net, p.sem)
  }

  /** A function's code: its cur, its body, its return. All of it in the words reserved. */
  lemma LamCode(p: Prog, n: nat, body: Expr)
    requires Wf(p.Ar(), body, n)
    ensures var k := Gen(p, body, 0, Ins(Ret(n), End));
            CodeOf(p, Lam(n, body)) == if n == 1 then k else Ins(Cur(n), k)
    ensures Words(CodeOf(p, Lam(n, body))) <= LamAna(p, n, body).len
  {
    var a, b := Ana(Then(PutCur(n), Last), 4, Bare), Buf(Ins(Ret(n), End), [], []);
    AnalyzeLays(p, p.Ar(), body, n, a, b);
    var a1, b1 := Analyze(p, body, a), b.(k := Gen(p, body, 0, b.k));
    assert Words(b.k) == 2;
    assert Lays(a, a1, b, b1.k);
    assert PutAll(LamAna(p, n, body).es, Buf(End, [], [])) == PutAll(a1.es, b);
    assert PutAll(a.es, b1) == Put(PutCur(n), b1);
    CurWords(n, b1);
  }

  lemma CurWords(n: nat, b: Buf)
    ensures Put(PutCur(n), b).k == (if n == 1 then b.k else Ins(Cur(n), b.k))
    ensures Words(Put(PutCur(n), b).k) <= Words(b.k) + 2
  {
  }

  // ----- code starts with a word pushed

  ghost predicate Starts(k: Code) { k.Ins? && (k.i.Quote? || k.i.Arg?) }

  lemma {:induction false} GenStarts(p: Prog, ar: seq<nat>, e: Expr, n: nat, d: nat, k: Code)
    requires Wf(ar, e, n)
    ensures Starts(Gen(p, e, d, k))
    decreases e
  {
    match e
    case Const(_) =>
    case Var(_) =>
    case If(xs) => GenStarts(p, ar, xs.x, n, d, Ins(Cond(Words(GenIf(p, xs.xs.xs, d, k, k))), Gen(p, xs.xs.x, d, ExitK(k, GenIf(p, xs.xs.xs, d, k, k)))));
    case Call(f, xs) =>
      if !AtOnce(p, f, xs.Len()) {
        GenStarts(p, ar, f, n, d, GenL2r(p, xs, d + 1, k));
      } else if p.funs[f.x.t.id].more == [] {
        R2lStarts(p, ar, xs, n, d, Ins(Prim(p.funs[f.x.t.id].op, xs.Len()), k));
      }
  }

  lemma {:induction false} R2lStarts(p: Prog, ar: seq<nat>, xs: Exprs, n: nat, d: nat, k: Code)
    requires WfAll(ar, xs, n) && (xs.Cons? || Starts(k))
    ensures Starts(GenR2l(p, xs, d, k))
    decreases xs
  {
    if xs.Cons? {
      GenStarts(p, ar, xs.x, n, d + xs.xs.Len(), k);
      R2lStarts(p, ar, xs.xs, n, d, Gen(p, xs.x, d + xs.xs.Len(), k));
    }
  }

  lemma LinkOk(p: Prog)
    requires WfProg(p)
    ensures Link(p).Ok()
  {
    var m := Link(p);
    forall i | 0 <= i < |m.ar|
      ensures m.ar[i] >= 1 && m.code[i].Ins? && if m.ar[i] == 1 then !m.code[i].i.Cur? else m.code[i].i == Cur(m.ar[i])
    {
      if p.funs[i].Lam? {
        LamCode(p, p.funs[i].arity, p.funs[i].body);
        GenStarts(p, p.Ar(), p.funs[i].body, p.funs[i].arity, 0, Ins(Ret(p.funs[i].arity), End));
      }
    }
  }

  // ----- outcomes

  /** From s the machine does what r says: it comes to t with r's value over st; or fails; or runs n steps
      and more. */
  ghost predicate Comes(m: Mach, s: State, r: Res, n: int, u: Word, t: Thread, st: seq<Word>) {
    match r
    case Done(v, w) => Den(m.ar, u, v) && Leads(m, s, State(t, [u] + st, w))
    case Fail => Fails(m, s)
    case Out => n > 0 ==> RunsFor(m, s, n)
  }

  lemma ComesAfter(m: Mach, s: State, s1: State, r: Res, n: int, u: Word, t: Thread, st: seq<Word>)
    requires Leads(m, s, s1) && Comes(m, s1, r, n, u, t, st)
    ensures Comes(m, s, r, n, u, t, st)
  {
    match r
    case Done(v, w) => LeadsThen(m, s, s1, State(t, [u] + st, w));
    case Fail => LeadsFails(m, s, s1);
    case Out => if n > 0 { LeadsRuns(m, s, s1, n); }
  }

  lemma StepComes(m: Mach, s: State, r: Res, n: int, u: Word, t: Thread, st: seq<Word>)
    requires s.State? && Comes(m, Step(m, s), r, n - 1, u, t, st)
    ensures Comes(m, s, r, n, u, t, st)
  {
    StepLeads(m, s);
    match r
    case Done(v, w) => LeadsThen(m, s, Step(m, s), State(t, [u] + st, w));
    case Fail => LeadsFails(m, s, Step(m, s));
    case Out => if n > 0 { assert RunsFor(m, Step(m, s), n - 1); }
  }

  /** A call in tail position comes back to the caller's caller, as the return it replaced would have. */
  lemma LeadsBoth(m: Mach, s: State, t: State)
    requires s.State? && t.State? && Leads(m, Step(m, s), Step(m, t))
    ensures Leads(m, s, t)
  {
    var i: nat, j: nat :| LeadsIn(m, Step(m, s), Step(m, t), i, j);
    assert LeadsIn(m, s, t, i + 1, j + 1);
  }

  // ----- words that are functions

  /** A function's word says by its cur how many arguments it wants; past the cur is its chain. */
  lemma FnShape(m: Mach, f: Word, id: nat, args: seq<Value>)
    requires m.Ok() && Den(m.ar, f, Fn(id, args))
    ensures f.Ptr? && id < |m.ar| && |args| < m.ar[id]
    ensures m.ar[id] - |args| >= 2 ==> CurOf(m, f) == m.ar[id] - |args| && Chain(m.ar, After(m, f.t)) == Some(Fn(id, args))
    ensures m.ar[id] - |args| == 1 ==> CurOf(m, f) == 0
    ensures m.ar[id] - |args| == 1 ==> if args == [] then f.t == Entry(id) else Chain(m.ar, f.t) == Some(Fn(id, args))
  {
    if f.t.At? && f.t.k.k.End? { assert ChainCell(m.ar, f.t.k.i).Some?; }
  }

  /** The links of a partial lay its arguments, the first on top, and come to the base's body. */
  lemma {:induction false} ChainSim(m: Mach, t: Thread, id: nat, args: seq<Value>, stk: seq<Word>, w: World)
    returns (ws: seq<Word>)
    requires Chain(m.ar, t) == Some(Fn(id, args))
    ensures DenAll(m.ar, ws, args) && Leads(m, State(t, stk, w), State(Past(id), ws + stk, w))
    decreases t
  {
    if t.Past? {
      ws := [];
      assert ws + stk == stk;
      LeadsSelf(m, State(t, stk, w));
    } else {
      var i := t.k.i;
      var c := Chain(m.ar, i.t).value;
      var xs := if i.Unc? then [i.x] else i.xs;
      StepLeads(m, State(t, stk, w));
      assert Step(m, State(t, stk, w)) == State(i.t, xs + stk, w);
      var ws1 := ChainSim(m, i.t, id, c.args, xs + stk, w);
      ws := ws1 + xs;
      assert ws1 + (xs + stk) == ws + stk;
      LeadsThen(m, State(t, stk, w), State(i.t, xs + stk, w), State(Past(id), ws + stk, w));
    }
  }

  /** One argument more: the partial made by lvm_cur. */
  lemma PartialDen(m: Mach, f: Word, id: nat, args: seq<Value>, x: Word, v: Value)
    requires m.Ok() && Den(m.ar, f, Fn(id, args)) && Den(m.ar, x, v) && |args| + 1 < m.ar[id]
    ensures Den(m.ar, Partial(m.ar[id] - |args| - 1, Unc(x, After(m, f.t))), Fn(id, args + [v]))
  {
    FnShape(m, f, id, args);
  }

  lemma StepsAlike(m: Mach, t: Thread, k: Code, stk: seq<Word>, w: World)
    requires Resolve(m, t) == k && k.Ins? && (t.Entry? ==> !k.i.Cur?)
    ensures Step(m, State(t, stk, w)) == Step(m, State(At(k), stk, w))
  {
    assert Resolve(m, At(k)) == k && After(m, t) == After(m, At(k)) == At(k.k);
    assert StepOn(m, t, k.i, stk, w) == StepOn(m, At(k), k.i, stk, w);
  }

  /** Threads of one code take the same step. */
  lemma SameCode(m: Mach, t: Thread, k: Code, stk: seq<Word>, w: World)
    requires Resolve(m, t) == k && k.Ins? && (t.Entry? ==> !k.i.Cur?)
    ensures Leads(m, State(t, stk, w), State(At(k), stk, w))
  {
    StepsAlike(m, t, k, stk, w);
    SameStep(m, State(t, stk, w), State(At(k), stk, w));
  }

  // ----- application

  lemma {:induction false} OpsSim(p: Prog, m: Mach, ops: seq<nat>, v: Value, x: Word, ret: Thread, rest: seq<Word>, w: World)
    returns (u: Word)
    requires m == Link(p) && Den(m.ar, x, v)
    ensures Comes(m, State(At(MoreCode(ops)), [x, Ptr(ret)] + rest, w), Ops(p, ops, v, w), 0, u, ret, rest)
    decreases |ops|
  {
    var s := State(At(MoreCode(ops)), [x, Ptr(ret)] + rest, w);
    if ops == [] {
      u := x;
      StepLeads(m, s);
    } else {
      assert [x, Ptr(ret)] + rest == [x] + ([Ptr(ret)] + rest);
      u := PrimSim(p, m, ops[0], [v], [x], At(MoreCode(ops[1..])), At(MoreCode(ops)), [Ptr(ret)] + rest, w);
      var r := Op(p, ops[0], [v], w);
      if r.Done? {
        var s1 := State(At(MoreCode(ops[1..])), [u, Ptr(ret)] + rest, r.w);
        assert [u] + ([Ptr(ret)] + rest) == [u, Ptr(ret)] + rest;
        u := OpsSim(p, m, ops[1..], r.v, u, ret, rest, r.w);
        ComesAfter(m, s, s1, Ops(p, ops, v, w), 0, u, ret, rest);
      }
    }
  }

  /** A primitive's step. */
  lemma PrimSim(p: Prog, m: Mach, op: nat, vs: seq<Value>, ws: seq<Word>, k: Thread, ip: Thread, rest: seq<Word>, w: World)
    returns (u: Word)
    requires m == Link(p) && DenAll(m.ar, ws, vs)
    requires Resolve(m, ip).Ins? && Resolve(m, ip).i == Prim(op, |ws|) && After(m, ip) == k
    ensures Comes(m, State(ip, ws + rest, w), Op(p, op, vs, w), 0, u, k, rest)
  {
    var s := State(ip, ws + rest, w);
    assert (ws + rest)[..|ws|] == ws && (ws + rest)[|ws|..] == rest;
    assert DecAll(m.ar, ws).value == vs;
    var r := Sem(m.ar, m.sem, op, vs, w);
    if r.Some? {
      u := r.value.0;
      StepLeads(m, s);
    } else {
      u := Charm(0);
      FailStep(m, s);
    }
  }

  /** Where a function's body starts, its arguments laid. */
  function BodyAt(m: Mach, id: nat): (t: Thread) {
    if id < |m.ar| && m.ar[id] == 1 then Entry(id) else Past(id)
  }

  lemma {:induction false} BodySim(p: Prog, m: Mach, id: nat, vs: seq<Value>, ws: seq<Word>, ret: Thread, rest: seq<Word>,
                                   w: World, fuel: nat)
    returns (u: Word)
    requires WfProg(p) && m == Link(p) && id < |p.funs| && |vs| == p.funs[id].arity && DenAll(m.ar, ws, vs)
    ensures Comes(m, State(BodyAt(m, id), ws + [Ptr(ret)] + rest, w), Body(p, id, vs, w, fuel), fuel - 1, u, ret, rest)
    decreases fuel, 0, Nil
  {
    if p.funs[id].Nif? {
      u := NifSim(p, m, id, vs, ws, ret, rest, w, fuel);
    } else if fuel == 0 {
      u := Charm(0);
    } else {
      u := LamSim(p, m, id, vs, ws, ret, rest, w, fuel);
    }
  }

  lemma NifSim(p: Prog, m: Mach, id: nat, vs: seq<Value>, ws: seq<Word>, ret: Thread, rest: seq<Word>, w: World, fuel: nat)
    returns (u: Word)
    requires WfProg(p) && m == Link(p) && id < |p.funs| && |vs| == p.funs[id].arity && DenAll(m.ar, ws, vs) && p.funs[id].Nif?
    ensures Comes(m, State(BodyAt(m, id), ws + [Ptr(ret)] + rest, w), Body(p, id, vs, w, fuel), fuel - 1, u, ret, rest)
  {
    LinkOk(p);
    var op, more, rest0 := p.funs[id].op, p.funs[id].more, [Ptr(ret)] + rest;
    assert ws + [Ptr(ret)] + rest == ws + rest0;
    var s := State(BodyAt(m, id), ws + rest0, w);
    u := PrimSim(p, m, op, vs, ws, At(MoreCode(more)), BodyAt(m, id), rest0, w);
    var r := Op(p, op, vs, w);
    if r.Done? {
      assert [u] + rest0 == [u, Ptr(ret)] + rest;
      var s1 := State(At(MoreCode(more)), [u, Ptr(ret)] + rest, r.w);
      u := OpsSim(p, m, more, r.v, u, ret, rest, r.w);
      ComesAfter(m, s, s1, Ops(p, more, r.v, r.w), fuel - 1, u, ret, rest);
    }
  }

  /** A return over its frame. */
  lemma RetSteps(m: Mach, n: nat, k: Code, u: Word, st: seq<Word>, w: World)
    requires n < |st| && st[n].Ptr?
    ensures Step(m, State(At(Ins(Ret(n), k)), [u] + st, w)) == State(st[n].t, [u] + st[n + 1..], w)
  {
    assert ([u] + st)[n + 2..] == st[n + 1..];
  }

  lemma {:induction false} LamSim(p: Prog, m: Mach, id: nat, vs: seq<Value>, ws: seq<Word>, ret: Thread, rest: seq<Word>,
                                  w: World, fuel: nat)
    returns (u: Word)
    requires WfProg(p) && m == Link(p) && id < |p.funs| && |vs| == p.funs[id].arity && DenAll(m.ar, ws, vs)
    requires p.funs[id].Lam? && fuel > 0
    ensures Comes(m, State(BodyAt(m, id), ws + [Ptr(ret)] + rest, w), Body(p, id, vs, w, fuel), fuel - 1, u, ret, rest)
    decreases fuel - 1, 4, Nil
  {
    var n, body := p.funs[id].arity, p.funs[id].body;
    var k := Ins(Ret(n), End);
    var st := ws + [Ptr(ret)] + rest;
    LinkOk(p);
    LamCode(p, n, body);
    GenStarts(p, m.ar, body, n, 0, k);
    SameCode(m, BodyAt(m, id), Gen(p, body, 0, k), st, w);
    u := EvalSim(p, m, body, 0, vs, st, k, w, fuel - 1);
    var r := Eval(p, body, vs, w, fuel - 1);
    ComesAfter(m, State(BodyAt(m, id), st, w), State(At(Gen(p, body, 0, k)), st, w), r, fuel - 1, u, At(k), st);
    if r.Done? {
      RetSteps(m, n, End, u, st, r.w);
      assert st[n + 1..] == rest;
      StepLeads(m, State(At(k), [u] + st, r.w));
      LeadsThen(m, State(BodyAt(m, id), st, w), State(At(k), [u] + st, r.w), State(ret, [u] + rest, r.w));
    }
  }

  /** The frame: d operands, then the arguments. */
  ghost predicate FrameOk(ar: seq<nat>, st: seq<Word>, d: nat, env: seq<Value>) {
    d + |env| <= |st| && forall i :: 0 <= i < |env| ==> Den(ar, st[d + i], env[i])
  }

  /** A return ahead is over this frame. */
  ghost predicate RetOk(k: Code, st: seq<Word>, n: nat) {
    k.Ins? && k.i.Ret? ==> k.i.n == n && n < |st| && st[n].Ptr?
  }

  /** What was entered to be applied comes to ret with the answer. */
  lemma {:induction false} ApplySim(p: Prog, m: Mach, f: Value, x: Value, fw: Word, xw: Word, ret: Thread, rest: seq<Word>,
                                    w: World, fuel: nat)
    returns (u: Word)
    requires WfProg(p) && m == Link(p) && Den(m.ar, fw, f) && Den(m.ar, xw, x)
    ensures Comes(m, Enter(m, fw, xw, ret, rest, w), Apply(p, f, x, w, fuel), fuel - 1, u, ret, rest)
    decreases fuel, 1, Nil
  {
    LinkOk(p);
    match f
    case Num(_) => if fuel == 0 { u := Charm(0); } else { u := NumSim(p, m, f, x, fw, xw, ret, rest, w, fuel); }
    case Dat(d) => u := DatSim(p, m, d, x, fw, xw, ret, rest, w);
    case Fn(id, args) =>
      FnShape(m, fw, id, args);
      if |args| + 1 < m.ar[id] {
        var s := Enter(m, fw, xw, ret, rest, w);
        u := Partial(m.ar[id] - |args| - 1, Unc(xw, After(m, fw.t)));
        PartialDen(m, fw, id, args, xw, x);
        assert ([xw, Ptr(ret)] + rest)[2..] == rest;
        StepLeads(m, s);
      } else {
        u := FullSim(p, m, id, args, x, fw, xw, ret, rest, w, fuel);
      }
  }

  /** The last argument: the chain lays the others, and the body runs. */
  lemma {:induction false} FullSim(p: Prog, m: Mach, id: nat, args: seq<Value>, x: Value, fw: Word, xw: Word, ret: Thread,
                                   rest: seq<Word>, w: World, fuel: nat)
    returns (u: Word)
    requires WfProg(p) && m == Link(p) && Den(m.ar, fw, Fn(id, args)) && Den(m.ar, xw, x)
    requires id < |m.ar| && |args| + 1 == m.ar[id]
    ensures Comes(m, Enter(m, fw, xw, ret, rest, w), Body(p, id, args + [x], w, fuel), fuel - 1, u, ret, rest)
    decreases fuel, 0, Cons(Var(0), Nil)
  {
    LinkOk(p);
    FnShape(m, fw, id, args);
    var stk := [xw, Ptr(ret)] + rest;
    if args == [] {
      assert [xw] + [Ptr(ret)] + rest == stk;
      u := BodySim(p, m, id, [x], [xw], ret, rest, w, fuel);
      assert args + [x] == [x];
    } else {
      var ws := ChainSim(m, fw.t, id, args, stk, w);
      assert ws + stk == (ws + [xw]) + [Ptr(ret)] + rest;
      u := BodySim(p, m, id, args + [x], ws + [xw], ret, rest, w, fuel);
      ComesAfter(m, State(fw.t, stk, w), State(Past(id), ws + stk, w), Body(p, id, args + [x], w, fuel), fuel - 1, u, ret, rest);
    }
  }

  lemma DatSim(p: Prog, m: Mach, d: Datum, x: Value, fw: Word, xw: Word, ret: Thread, rest: seq<Word>, w: World)
    returns (u: Word)
    requires m == Link(p) && Den(m.ar, fw, Dat(d)) && Den(m.ar, xw, x)
    ensures Comes(m, Enter(m, fw, xw, ret, rest, w), Op(p, 0, [Dat(d), x], w), 0, u, ret, rest)
    ensures !Op(p, 0, [Dat(d), x], w).Out?
  {
    var s := Enter(m, fw, xw, ret, rest, w);
    assert fw.Ptr? && fw.t == Leaf(d);
    assert ([xw, Ptr(ret)] + rest)[2..] == rest;
    var r := Sem(m.ar, m.sem, 0, [Dat(d), x], w);
    if r.Some? {
      u := r.value.0;
      StepLeads(m, s);
    } else {
      u := Charm(0);
      FailStep(m, s);
    }
  }

  /** A number applied: the hook to it, and what comes to the operand. */
  lemma {:induction false} NumSim(p: Prog, m: Mach, f: Value, x: Value, fw: Word, xw: Word, ret: Thread, rest: seq<Word>,
                                  w: World, fuel: nat)
    returns (u: Word)
    requires WfProg(p) && m == Link(p) && Den(m.ar, fw, f) && Den(m.ar, xw, x) && f.Num? && fuel > 0
    ensures Comes(m, Enter(m, fw, xw, ret, rest, w), Apply(p, f, x, w, fuel), fuel - 1, u, ret, rest)
    decreases fuel - 1, 2, Nil
  {
    assert fw.Charm?;
    var s := Enter(m, fw, xw, ret, rest, w);
    var h := Dec(m.ar, m.numap).value;
    var k1, k0 := DRIVE.k, DRIVE.k.k;
    var rest1 := [xw, Ptr(ret)] + rest;
    assert ([fw, m.numap, xw, Ptr(ret)] + rest)[2..] == rest1;
    var s1 := Enter(m, m.numap, fw, At(k1), rest1, w);
    assert Step(m, s) == s1;
    u := ApplySim(p, m, h, f, m.numap, fw, At(k1), rest1, w, fuel - 1);
    var r := Apply(p, h, f, w, fuel - 1);
    StepComes(m, s, r, fuel - 1, u, At(k1), rest1);
    if r.Done? {
      var s2 := State(At(k1), [u] + rest1, r.w);
      var uw := u;
      u := NextSim(p, m, r.v, x, uw, xw, ret, rest, r.w, fuel);
      ComesAfter(m, s, s2, Apply(p, r.v, x, r.w, fuel - 1), fuel - 1, u, ret, rest);
    }
  }

  lemma {:induction false} NextSim(p: Prog, m: Mach, f: Value, x: Value, fw: Word, xw: Word, ret: Thread, rest: seq<Word>,
                                   w: World, fuel: nat)
    returns (u: Word)
    requires WfProg(p) && m == Link(p) && Den(m.ar, fw, f) && Den(m.ar, xw, x) && fuel > 0
    ensures Comes(m, State(At(DRIVE.k), [fw] + ([xw, Ptr(ret)] + rest), w), Apply(p, f, x, w, fuel - 1), fuel - 1, u, ret, rest)
    decreases fuel - 1, 1, Cons(Var(0), Nil)
  {
    var s := State(At(DRIVE.k), [fw] + ([xw, Ptr(ret)] + rest), w);
    var rest0 := [Ptr(ret)] + rest;
    assert s.stk[2..] == rest0;
    u := ApplySim(p, m, f, x, fw, xw, At(DRIVE.k.k), rest0, w, fuel - 1);
    var r := Apply(p, f, x, w, fuel - 1);
    StepComes(m, s, r, fuel - 1, u, At(DRIVE.k.k), rest0);
    if r.Done? { Ret0Leads(m, s, u, ret, rest, r.w); }
  }

  lemma Ret0Leads(m: Mach, s: State, u: Word, ret: Thread, rest: seq<Word>, w: World)
    requires Leads(m, s, State(At(Ins(Ret0, End)), [u] + ([Ptr(ret)] + rest), w))
    ensures Leads(m, s, State(ret, [u] + rest, w))
  {
    var t := State(At(Ins(Ret0, End)), [u] + ([Ptr(ret)] + rest), w);
    assert t.stk[2..] == rest;
    StepLeads(m, t);
    LeadsThen(m, s, t, State(ret, [u] + rest, w));
  }

  // ----- truth

  /** From s, on the test of k with its word gone: the branch taken is the one r says. */
  ghost predicate Picks(m: Mach, s: State, r: Res, n: int, k: Code, st: seq<Word>)
    requires k.Ins? && k.i.Cond?
  {
    match r
    case Done(v, w) => Leads(m, s, State(At(if v == Num(1) then k.k else Suffix(k, k.i.a)), st, w))
    case Fail => Fails(m, s)
    case Out => n > 0 ==> RunsFor(m, s, n)
  }

  lemma {:induction false} TestSim(p: Prog, m: Mach, v: Value, x: Word, k: Code, st: seq<Word>, w: World, fuel: nat)
    requires WfProg(p) && m == Link(p) && Den(m.ar, x, v) && k.Ins? && k.i.Cond?
    ensures Picks(m, State(At(k), [x] + st, w), Test(p, v, w, fuel), fuel, k, st)
    decreases fuel, 2, Nil
  {
    var s := State(At(k), [x] + st, w);
    assert s.stk[1..] == st;
    if !Compound(x) {
      StepLeads(m, s);
    } else if fuel > 0 {
      MeasureSim(p, m, v, x, k, st, w, fuel);
    }
  }

  /** A compound is measured, and the test runs again on the number. */
  lemma {:induction false} MeasureSim(p: Prog, m: Mach, v: Value, x: Word, k: Code, st: seq<Word>, w: World, fuel: nat)
    requires WfProg(p) && m == Link(p) && Den(m.ar, x, v) && k.Ins? && k.i.Cond? && Compound(x) && fuel > 0
    ensures Picks(m, State(At(k), [x] + st, w), Test(p, v, w, fuel), fuel, k, st)
    decreases fuel - 1, 3, Nil
  {
    var s := State(At(k), [x] + st, w);
    assert s.stk[1..] == st;
    var h := Dec(m.ar, m.net).value;
    var rest := [Ptr(At(k))] + st;
    var s1 := State(At(CALLOUT), [x, m.net, Ptr(At(k))] + st, w);
    assert Step(m, s) == s1;
    assert s1.stk[2..] == rest;
    var u := ApplySim(p, m, h, v, m.net, x, At(CALLOUT.k), rest, w, fuel - 1);
    var r := Apply(p, h, v, w, fuel - 1);
    StepComes(m, s1, r, fuel - 1, u, At(CALLOUT.k), rest);
    StepComes(m, s, r, fuel, u, At(CALLOUT.k), rest);
    if r.Done? {
      var s2 := State(At(k), [u] + st, r.w);
      Ret0Leads(m, s1, u, At(k), st, r.w);
      TestSim(p, m, r.v, u, k, st, r.w, fuel - 1);
      PicksAfter(m, s, s1, s2, Test(p, r.v, r.w, fuel - 1), fuel, k, st);
    }
  }

  lemma PicksAfter(m: Mach, s: State, s1: State, s2: State, r: Res, n: nat, k: Code, st: seq<Word>)
    requires k.Ins? && k.i.Cond? && s.State? && Step(m, s) == s1 && Leads(m, s1, s2) && Picks(m, s2, r, n - 1, k, st)
    ensures Picks(m, s, r, n, k, st)
  {
    StepLeads(m, s);
    LeadsThen(m, s, s1, s2);
    match r
    case Done(v, w) => LeadsThen(m, s, s2, State(At(if v == Num(1) then k.k else Suffix(k, k.i.a)), st, w));
    case Fail => LeadsFails(m, s, s2);
    case Out =>
      if n > 1 {
        LeadsRuns(m, s1, s2, n - 1);
        assert RunsFor(m, s1, n - 1);
      } else if n == 1 {
        assert RunsFor(m, s1, 0);
      }
  }

  // ----- expressions

  /** e's code, run over a frame: it comes to what follows it with e's value on top. */
  lemma {:induction false} EvalSim(p: Prog, m: Mach, e: Expr, d: nat, env: seq<Value>, st: seq<Word>, k: Code, w: World, fuel: nat)
    returns (u: Word)
    requires WfProg(p) && m == Link(p) && Wf(m.ar, e, |env|) && FrameOk(m.ar, st, d, env) && RetOk(k, st, d + |env|)
    ensures Comes(m, State(At(Gen(p, e, d, k)), st, w), Eval(p, e, env, w, fuel), fuel, u, At(k), st)
    decreases fuel, 3, e, 1
  {
    match e
    case Const(x) =>
      u := x;
      StepLeads(m, State(At(Gen(p, e, d, k)), st, w));
    case Var(i) =>
      u := st[d + i];
      StepLeads(m, State(At(Gen(p, e, d, k)), st, w));
    case If(xs) => u := IfSim(p, m, xs, d, env, st, k, k, w, fuel);
    case Call(f, xs) =>
      if !AtOnce(p, f, xs.Len()) {
        u := L2rCallSim(p, m, f, xs, d, env, st, k, w, fuel);
      } else if p.funs[f.x.t.id].more == [] {
        u := PrimCallSim(p, m, f, xs, d, env, st, k, w, fuel);
      } else {
        u := ApnCallSim(p, m, f, xs, d, env, st, k, w, fuel);
      }
  }

  lemma FramePush(ar: seq<nat>, st: seq<Word>, d: nat, env: seq<Value>, xs: seq<Word>)
    requires FrameOk(ar, st, d, env)
    ensures FrameOk(ar, xs + st, d + |xs|, env)
  {
    forall i | 0 <= i < |env| ensures Den(ar, (xs + st)[d + |xs| + i], env[i]) {
      assert (xs + st)[d + |xs| + i] == st[d + i];
    }
  }

  /** An exit, copied or jumped to, is the exit. */
  lemma ExitLeads(m: Mach, kx: Code, k: Code, stk: seq<Word>, w: World)
    requires EndsWith(k, kx)
    ensures Leads(m, State(At(ExitK(kx, k)), stk, w), State(At(kx), stk, w))
  {
    var s := State(At(ExitK(kx, k)), stk, w);
    if kx.Ins? && (kx.i.Ret? || kx.i.Tap? || kx.i.Tapn?) {
      SameStep(m, s, State(At(kx), stk, w));
    } else {
      EndsSuffix(ExitK(kx, k), kx);
      StepLeads(m, s);
    }
  }

  lemma {:induction false} BranchSim(p: Prog, m: Mach, e: Expr, d: nat, env: seq<Value>, st: seq<Word>, kx: Code, k: Code, w: World, fuel: nat)
    returns (u: Word)
    requires WfProg(p) && m == Link(p) && Wf(m.ar, e, |env|) && FrameOk(m.ar, st, d, env) && RetOk(kx, st, d + |env|)
    requires EndsWith(k, kx)
    ensures Comes(m, State(At(Gen(p, e, d, ExitK(kx, k))), st, w), Eval(p, e, env, w, fuel), fuel, u, At(kx), st)
    decreases fuel, 3, e, 2
  {
    u := EvalSim(p, m, e, d, env, st, ExitK(kx, k), w, fuel);
    var r := Eval(p, e, env, w, fuel);
    if r.Done? {
      ExitLeads(m, kx, k, [u] + st, r.w);
      LeadsThen(m, State(At(Gen(p, e, d, ExitK(kx, k))), st, w), State(At(ExitK(kx, k)), [u] + st, r.w), State(At(kx), [u] + st, r.w));
    }
  }

  lemma {:induction false} IfSim(p: Prog, m: Mach, xs: Exprs, d: nat, env: seq<Value>, st: seq<Word>, kx: Code, k: Code, w: World, fuel: nat)
    returns (u: Word)
    requires WfProg(p) && m == Link(p) && WfAll(m.ar, xs, |env|) && FrameOk(m.ar, st, d, env) && RetOk(kx, st, d + |env|)
    requires EndsWith(k, kx)
    ensures Comes(m, State(At(GenIf(p, xs, d, kx, k)), st, w), EvalIf(p, xs, env, w, fuel), fuel, u, At(kx), st)
    decreases fuel, 3, xs, 0
  {
    match xs
    case Nil =>
      u := Ptr(Leaf(ZERO));
      var s := State(At(GenIf(p, xs, d, kx, k)), st, w);
      StepLeads(m, s);
      ExitLeads(m, kx, k, [u] + st, w);
      LeadsThen(m, s, State(At(ExitK(kx, k)), [u] + st, w), State(At(kx), [u] + st, w));
    case Cons(x, Nil) => u := BranchSim(p, m, x, d, env, st, kx, k, w, fuel);
    case Cons(x, Cons(y, rest)) =>
      var k1 := GenIf(p, rest, d, kx, k);
      var kc := Ins(Cond(Words(k1)), Gen(p, y, d, ExitK(kx, k1)));
      var s := State(At(Gen(p, x, d, kc)), st, w);
      GenIfEnds(p, rest, d, kx, k);
      EndsThen(k1, k, kx);
      u := EvalSim(p, m, x, d, env, st, kc, w, fuel);
      var c := Eval(p, x, env, w, fuel);
      if c.Done? {
        var s1 := State(At(kc), [u] + st, c.w);
        TestSim(p, m, c.v, u, kc, st, c.w, fuel);
        u := PickSim(p, m, y, rest, d, env, st, kx, k, s1, Test(p, c.v, c.w, fuel), fuel);
        ComesAfter(m, s, s1, EvalIf(p, xs, env, w, fuel), fuel, u, At(kx), st);
      }
  }

  /** The branch the test picked. */
  lemma {:induction false} PickSim(p: Prog, m: Mach, y: Expr, rest: Exprs, d: nat, env: seq<Value>, st: seq<Word>, kx: Code, k: Code,
                                   s: State, t: Res, fuel: nat)
    returns (u: Word)
    requires WfProg(p) && m == Link(p) && Wf(m.ar, y, |env|) && WfAll(m.ar, rest, |env|) && FrameOk(m.ar, st, d, env)
    requires RetOk(kx, st, d + |env|) && EndsWith(k, kx) && EndsWith(GenIf(p, rest, d, kx, k), kx)
    requires var k1 := GenIf(p, rest, d, kx, k);
             Picks(m, s, t, fuel, Ins(Cond(Words(k1)), Gen(p, y, d, ExitK(kx, k1))), st)
    ensures Comes(m, s, if !t.Done? then t else if t.v == Num(1) then Eval(p, y, env, t.w, fuel) else EvalIf(p, rest, env, t.w, fuel),
                  fuel, u, At(kx), st)
    decreases fuel, 3, Cons(y, rest), 3
  {
    var k1 := GenIf(p, rest, d, kx, k);
    var k2 := Gen(p, y, d, ExitK(kx, k1));
    u := Charm(0);
    if t.Done? {
      if t.v == Num(1) {
        u := BranchSim(p, m, y, d, env, st, kx, k1, t.w, fuel);
        ComesAfter(m, s, State(At(k2), st, t.w), Eval(p, y, env, t.w, fuel), fuel, u, At(kx), st);
      } else {
        GenExitEnds(p, y, d, kx, k1);
        EndsSuffix(Ins(Cond(Words(k1)), k2), k1);
        u := IfSim(p, m, rest, d, env, st, kx, k, t.w, fuel);
        ComesAfter(m, s, State(At(k1), st, t.w), EvalIf(p, rest, env, t.w, fuel), fuel, u, At(kx), st);
      }
    }
  }

  // ----- calls, one operand at a time

  lemma {:induction false} L2rCallSim(p: Prog, m: Mach, f: Expr, xs: Exprs, d: nat, env: seq<Value>, st: seq<Word>, k: Code, w: World, fuel: nat)
    returns (u: Word)
    requires WfProg(p) && m == Link(p) && Wf(m.ar, Call(f, xs), |env|) && FrameOk(m.ar, st, d, env) && RetOk(k, st, d + |env|)
    requires !AtOnce(p, f, xs.Len())
    ensures Comes(m, State(At(Gen(p, Call(f, xs), d, k)), st, w), Eval(p, Call(f, xs), env, w, fuel), fuel, u, At(k), st)
    decreases fuel, 3, Call(f, xs), 0
  {
    var k1 := GenL2r(p, xs, d + 1, k);
    GenStarts(p, m.ar, xs.x, |env|, d + 1, ApK(1, GenL2r(p, xs.xs, d + 1, k)));
    u := EvalSim(p, m, f, d, env, st, k1, w, fuel);
    var r := Eval(p, f, env, w, fuel);
    if r.Done? {
      var s1 := State(At(k1), [u] + st, r.w);
      u := L2rSim(p, m, r.v, u, xs, d, env, st, k, r.w, fuel);
      ComesAfter(m, State(At(Gen(p, f, d, k1)), st, w), s1, EvalL2r(p, r.v, xs, env, r.w, fuel), fuel, u, At(k), st);
    }
  }

  lemma {:induction false} L2rSim(p: Prog, m: Mach, f: Value, fw: Word, xs: Exprs, d: nat, env: seq<Value>, st: seq<Word>, k: Code, w: World, fuel: nat)
    returns (u: Word)
    requires WfProg(p) && m == Link(p) && Den(m.ar, fw, f) && WfAll(m.ar, xs, |env|)
    requires FrameOk(m.ar, st, d, env) && RetOk(k, st, d + |env|)
    ensures Comes(m, State(At(GenL2r(p, xs, d + 1, k)), [fw] + st, w), EvalL2r(p, f, xs, env, w, fuel), fuel, u, At(k), st)
    decreases fuel, 3, xs, 0
  {
    match xs
    case Nil =>
      u := fw;
      LeadsSelf(m, State(At(k), [fw] + st, w));
    case Cons(x, rest) =>
      var k1 := GenL2r(p, rest, d + 1, k);
      var s := State(At(GenL2r(p, xs, d + 1, k)), [fw] + st, w);
      FramePush(m.ar, st, d, env, [fw]);
      if rest.Cons? { GenStarts(p, m.ar, rest.x, |env|, d + 1, ApK(1, GenL2r(p, rest.xs, d + 1, k))); }
      var xw := EvalSim(p, m, x, d + 1, env, [fw] + st, ApK(1, k1), w, fuel);
      u := xw;
      var a := Eval(p, x, env, w, fuel);
      if a.Done? {
        var s1 := State(At(ApK(1, k1)), [xw] + ([fw] + st), a.w);
        u := ApSim(p, m, f, a.v, fw, xw, k1, st, d + |env|, a.w, fuel);
        var r := Apply(p, f, a.v, a.w, fuel);
        ComesAfter(m, s, s1, r, fuel, u, At(k1), st);
        if r.Done? {
          var s2 := State(At(k1), [u] + st, r.w);
          u := L2rSim(p, m, r.v, u, rest, d, env, st, k, r.w, fuel);
          ComesAfter(m, s, s2, EvalL2r(p, r.v, rest, env, r.w, fuel), fuel, u, At(k), st);
        }
      }
  }

  /** One call, in tail position or not. */
  lemma {:induction false} ApSim(p: Prog, m: Mach, f: Value, x: Value, fw: Word, xw: Word, k: Code, st: seq<Word>, n: nat, w: World, fuel: nat)
    returns (u: Word)
    requires WfProg(p) && m == Link(p) && Den(m.ar, fw, f) && Den(m.ar, xw, x) && RetOk(k, st, n)
    ensures Comes(m, State(At(ApK(1, k)), [xw] + ([fw] + st), w), Apply(p, f, x, w, fuel), fuel, u, At(k), st)
    decreases fuel, 2, Nil, 0
  {
    var s := State(At(ApK(1, k)), [xw] + ([fw] + st), w);
    var r := Apply(p, f, x, w, fuel);
    if k.Ins? && k.i.Ret? {
      assert s.stk[n + 2] == st[n] && s.stk[n + 3..] == st[n + 1..];
      u := ApplySim(p, m, f, x, fw, xw, st[n].t, st[n + 1..], w, fuel);
      if r.Done? {
        RetSteps(m, n, k.k, u, st, r.w);
        LeadsBoth(m, s, State(At(k), [u] + st, r.w));
      } else {
        StepComes(m, s, r, fuel, u, At(k), st);
      }
    } else {
      assert s.stk[2..] == st;
      u := ApplySim(p, m, f, x, fw, xw, At(k), st, w, fuel);
      StepComes(m, s, r, fuel, u, At(k), st);
    }
  }

  // ----- calls, all operands at once

  /** From s: the operands laid, the first on top; or refused; or no end. */
  ghost predicate Lands(m: Mach, s: State, r: ResAll, n: nat, ws: seq<Word>, t: Thread, st: seq<Word>) {
    match r
    case DoneAll(vs, w) => DenAll(m.ar, ws, vs) && Leads(m, s, State(t, ws + st, w))
    case FailAll => Fails(m, s)
    case OutAll => RunsFor(m, s, n)
  }

  lemma {:induction false} R2lSim(p: Prog, m: Mach, xs: Exprs, d: nat, env: seq<Value>, st: seq<Word>, k: Code, w: World, fuel: nat)
    returns (ws: seq<Word>)
    requires WfProg(p) && m == Link(p) && WfAll(m.ar, xs, |env|) && FrameOk(m.ar, st, d, env) && !(k.Ins? && k.i.Ret?)
    ensures Lands(m, State(At(GenR2l(p, xs, d, k)), st, w), EvalR2l(p, xs, env, w, fuel), fuel, ws, At(k), st)
    decreases fuel, 3, xs, 0
  {
    match xs
    case Nil =>
      ws := [];
      assert ws + st == st;
      LeadsSelf(m, State(At(k), st, w));
    case Cons(x, rest) =>
      var k1 := Gen(p, x, d + rest.Len(), k);
      var s := State(At(GenR2l(p, xs, d, k)), st, w);
      GenStarts(p, m.ar, x, |env|, d + rest.Len(), k);
      ws := R2lSim(p, m, rest, d, env, st, k1, w, fuel);
      var r := EvalR2l(p, rest, env, w, fuel);
      if r.DoneAll? {
        var s1 := State(At(k1), ws + st, r.w);
        FramePush(m.ar, st, d, env, ws);
        var u := EvalSim(p, m, x, d + rest.Len(), env, ws + st, k, r.w, fuel);
        var a := Eval(p, x, env, r.w, fuel);
        ComesAfter(m, s, s1, a, fuel, u, At(k), ws + st);
        assert [u] + (ws + st) == ([u] + ws) + st;
        ws := [u] + ws;
      }
  }

  lemma {:induction false} PrimCallSim(p: Prog, m: Mach, f: Expr, xs: Exprs, d: nat, env: seq<Value>, st: seq<Word>, k: Code, w: World, fuel: nat)
    returns (u: Word)
    requires WfProg(p) && m == Link(p) && Wf(m.ar, Call(f, xs), |env|) && FrameOk(m.ar, st, d, env) && RetOk(k, st, d + |env|)
    requires AtOnce(p, f, xs.Len()) && p.funs[f.x.t.id].more == []
    ensures Comes(m, State(At(Gen(p, Call(f, xs), d, k)), st, w), Eval(p, Call(f, xs), env, w, fuel), fuel, u, At(k), st)
    decreases fuel, 3, Call(f, xs), 0
  {
    var id, n, a := f.x.t.id, xs.Len(), EvalR2l(p, xs, env, w, fuel);
    var s := State(At(Gen(p, Call(f, xs), d, k)), st, w);
    u := Charm(0);
    var k1 := Ins(Prim(p.funs[id].op, n), k);
    var ws := R2lSim(p, m, xs, d, env, st, k1, w, fuel);
    if a.DoneAll? {
      u := PrimSim(p, m, p.funs[id].op, a.vs, ws, At(k), At(k1), st, a.w);
      var r := Op(p, p.funs[id].op, a.vs, a.w);
      assert Body(p, id, a.vs, a.w, fuel) == r && !r.Out?;
      ComesAfter(m, s, State(At(k1), ws + st, a.w), r, fuel, u, At(k), st);
    }
  }

  lemma {:induction false} ApnCallSim(p: Prog, m: Mach, f: Expr, xs: Exprs, d: nat, env: seq<Value>, st: seq<Word>, k: Code, w: World, fuel: nat)
    returns (u: Word)
    requires WfProg(p) && m == Link(p) && Wf(m.ar, Call(f, xs), |env|) && FrameOk(m.ar, st, d, env) && RetOk(k, st, d + |env|)
    requires AtOnce(p, f, xs.Len()) && p.funs[f.x.t.id].more != []
    ensures Comes(m, State(At(Gen(p, Call(f, xs), d, k)), st, w), Eval(p, Call(f, xs), env, w, fuel), fuel, u, At(k), st)
    decreases fuel, 3, Call(f, xs), 0
  {
    var id, n, a := f.x.t.id, xs.Len(), EvalR2l(p, xs, env, w, fuel);
    var s := State(At(Gen(p, Call(f, xs), d, k)), st, w);
    u := Charm(0);
    var k1 := ApK(n, k);
    var s1 := State(At(GenR2l(p, xs, d + 1, k1)), [f.x] + st, w);
    FramePush(m.ar, st, d, env, [f.x]);
    StepLeads(m, s);
    assert Step(m, s) == s1;
    var ws := R2lSim(p, m, xs, d + 1, env, [f.x] + st, k1, w, fuel);
    match a
    case FailAll => LeadsFails(m, s, s1);
    case OutAll => LeadsRuns(m, s, s1, fuel);
    case DoneAll(vs, w1) =>
      var s2 := State(At(k1), ws + ([f.x] + st), w1);
      LeadsThen(m, s, s1, s2);
      u := ApnSim(p, m, id, vs, ws, k, st, d + |env|, w1, fuel);
      ComesAfter(m, s, s2, Body(p, id, vs, w1, fuel), fuel, u, At(k), st);
  }

  /** The n-ary call of a static function, in tail position or not. */
  lemma {:induction false} ApnSim(p: Prog, m: Mach, id: nat, vs: seq<Value>, ws: seq<Word>, k: Code, st: seq<Word>, n: nat, w: World, fuel: nat)
    returns (u: Word)
    requires WfProg(p) && m == Link(p) && id < |p.funs| && DenAll(m.ar, ws, vs) && |vs| == p.funs[id].arity > 1 && RetOk(k, st, n)
    ensures Comes(m, State(At(ApK(|ws|, k)), ws + ([Ptr(Entry(id))] + st), w), Body(p, id, vs, w, fuel), fuel, u, At(k), st)
    decreases fuel, 2, Nil, 0
  {
    LinkOk(p);
    var s := State(At(ApK(|ws|, k)), ws + ([Ptr(Entry(id))] + st), w);
    var r := Body(p, id, vs, w, fuel);
    ApnSteps(m, id, ws, k, st, n, w);
    if k.Ins? && k.i.Ret? {
      u := BodySim(p, m, id, vs, ws, st[n].t, st[n + 1..], w, fuel);
      if r.Done? {
        RetSteps(m, n, k.k, u, st, r.w);
        LeadsBoth(m, s, State(At(k), [u] + st, r.w));
      } else {
        StepComes(m, s, r, fuel, u, At(k), st);
      }
    } else {
      u := BodySim(p, m, id, vs, ws, At(k), st, w, fuel);
      StepComes(m, s, r, fuel, u, At(k), st);
    }
  }

  /** An n-ary call enters past the cur; a tail one over the frame. */
  lemma ApnSteps(m: Mach, id: nat, ws: seq<Word>, k: Code, st: seq<Word>, n: nat, w: World)
    requires m.Ok() && id < |m.ar| && |ws| == m.ar[id] > 1 && RetOk(k, st, n)
    ensures Step(m, State(At(ApK(|ws|, k)), ws + ([Ptr(Entry(id))] + st), w))
         == if k.Ins? && k.i.Ret? then State(Past(id), ws + [Ptr(st[n].t)] + st[n + 1..], w)
            else State(Past(id), ws + [Ptr(At(k))] + st, w)
  {
    var c, stk := |ws|, ws + ([Ptr(Entry(id))] + st);
    assert stk[..c] == ws && stk[c] == Ptr(Entry(id)) && stk[c + 1..] == st;
    if k.Ins? && k.i.Ret? {
      assert stk[c + n + 1..] == [Ptr(st[n].t)] + st[n + 1..];
      assert ws + ([Ptr(st[n].t)] + st[n + 1..]) == ws + [Ptr(st[n].t)] + st[n + 1..];
    }
  }

  // ----- a compiled expression

  function TopAna(p: Prog, e: Expr): (a: Ana) { Analyze(p, e, Ana(Last, 0, Bare)).Push(PutYield, 2) }

  /** The thread c0 makes of an expression. */
  function Compile(p: Prog, e: Expr): (k: Code) { PutAll(TopAna(p, e).es, Buf(End, [], [])).k }

  lemma CompileIs(p: Prog, e: Expr)
    requires Wf(p.Ar(), e, 0)
    ensures Compile(p, e) == Gen(p, e, 0, Ins(Yield, End))
    ensures Words(Compile(p, e)) <= TopAna(p, e).len
  {
    AnalyzeLays(p, p.Ar(), e, 0, Ana(Last, 0, Bare), Buf(Ins(Yield, End), [], []));
  }

  /** The machine, run on the expression's thread over any stack. */
  function Start(p: Prog, e: Expr, st: seq<Word>, w: World): (s: State) { State(At(Compile(p, e)), st, w) }

  ghost predicate HaltsWith(p: Prog, e: Expr, st: seq<Word>, w: World, v: Value, w': World) {
    exists n: nat, u: Word :: Run(Link(p), Start(p, e, st, w), n) == Some(Halted([u] + st, w')) && Den(p.Ar(), u, v)
  }

  /** Whatever fuel the evaluator is given, the machine does as it says. */
  lemma CompileSim(p: Prog, e: Expr, st: seq<Word>, w: World, fuel: nat)
    requires WfProg(p) && Wf(p.Ar(), e, 0)
    ensures match Eval(p, e, [], w, fuel)
            case Done(v, w') => HaltsWith(p, e, st, w, v, w')
            case Fail => Fails(Link(p), Start(p, e, st, w))
            case Out => RunsFor(Link(p), Start(p, e, st, w), fuel)
  {
    var m, k := Link(p), Ins(Yield, End);
    CompileIs(p, e);
    var u := EvalSim(p, m, e, 0, [], st, k, w, fuel);
    var r := Eval(p, e, [], w, fuel);
    if r.Done? {
      HaltLeads(m, Start(p, e, st, w), [u] + st, r.w);
    }
  }

  lemma HaltLeads(m: Mach, s: State, stk: seq<Word>, w: World)
    requires Leads(m, s, State(At(Ins(Yield, End)), stk, w))
    ensures exists n: nat :: Run(m, s, n) == Some(Halted(stk, w))
  {
    var t := State(At(Ins(Yield, End)), stk, w);
    StepLeads(m, t);
    LeadsThen(m, s, t, Halted(stk, w));
    var i: nat, j: nat :| LeadsIn(m, s, Halted(stk, w), i, j);
    assert j == 0;
  }

  /** A machine that stops in n steps is one the evaluator answers for, given n + 1. */
  lemma HaltFuel(p: Prog, e: Expr, st: seq<Word>, w: World, v: Value, w': World, n: nat, u: Word)
    requires WfProg(p) && Wf(p.Ar(), e, 0)
    requires Run(Link(p), Start(p, e, st, w), n) == Some(Halted([u] + st, w')) && Den(p.Ar(), u, v)
    ensures Eval(p, e, [], w, n + 1) == Done(v, w')
  {
    var m, s := Link(p), Start(p, e, st, w);
    CompileSim(p, e, st, w, n + 1);
    match Eval(p, e, [], w, n + 1)
    case Done(v1, w1) =>
      var i: nat, u1: Word :| Run(m, s, i) == Some(Halted([u1] + st, w1)) && Den(p.Ar(), u1, v1);
      EndsOnce(m, s, n, i);
      assert ([u] + st)[0] == ([u1] + st)[0];
    case Fail =>
      var i: nat :| Run(m, s, i) == Some(Failed);
      EndsOnce(m, s, n, i);
    case Out =>
      RunDown(m, s, n, n + 1);
  }

  lemma FailFuel(p: Prog, e: Expr, st: seq<Word>, w: World, n: nat)
    requires WfProg(p) && Wf(p.Ar(), e, 0) && Run(Link(p), Start(p, e, st, w), n) == Some(Failed)
    ensures Eval(p, e, [], w, n + 1) == Fail
  {
    var m, s := Link(p), Start(p, e, st, w);
    CompileSim(p, e, st, w, n + 1);
    match Eval(p, e, [], w, n + 1)
    case Done(v1, w1) =>
      var i: nat, u1: Word :| Run(m, s, i) == Some(Halted([u1] + st, w1)) && Den(p.Ar(), u1, v1);
      EndsOnce(m, s, n, i);
    case Fail =>
    case Out =>
      RunDown(m, s, n, n + 1);
  }

  /** Given fuel enough. */
  ghost predicate EvalsTo(p: Prog, e: Expr, w: World, r: Res) {
    exists fuel: nat :: Eval(p, e, [], w, fuel) == r
  }

  /** The machine halts on an expression's thread just when the evaluator, given fuel enough, has its
      value; and then with that value and that world. */
  lemma CompileCorrect(p: Prog, e: Expr, st: seq<Word>, w: World, v: Value, w': World)
    requires WfProg(p) && Wf(p.Ar(), e, 0)
    ensures HaltsWith(p, e, st, w, v, w') <==> EvalsTo(p, e, w, Done(v, w'))
  {
    if HaltsWith(p, e, st, w, v, w') {
      var n: nat, u: Word :| Run(Link(p), Start(p, e, st, w), n) == Some(Halted([u] + st, w')) && Den(p.Ar(), u, v);
      HaltFuel(p, e, st, w, v, w', n, u);
    }
    if EvalsTo(p, e, w, Done(v, w')) {
      var fuel: nat :| Eval(p, e, [], w, fuel) == Done(v, w');
      CompileSim(p, e, st, w, fuel);
    }
  }

  /** It fails just when the evaluator refuses. */
  lemma CompileFails(p: Prog, e: Expr, st: seq<Word>, w: World)
    requires WfProg(p) && Wf(p.Ar(), e, 0)
    ensures Fails(Link(p), Start(p, e, st, w)) <==> EvalsTo(p, e, w, Fail)
  {
    if Fails(Link(p), Start(p, e, st, w)) {
      var n: nat :| Run(Link(p), Start(p, e, st, w), n) == Some(Failed);
      FailFuel(p, e, st, w, n);
    }
    if EvalsTo(p, e, w, Fail) {
      var fuel: nat :| Eval(p, e, [], w, fuel) == Fail;
      CompileSim(p, e, st, w, fuel);
    }
  }
}
