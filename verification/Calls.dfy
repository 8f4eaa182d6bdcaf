/** n-ary calls of unproven width, and the readers of partial applications (src/love/ev.c, src/love/io.c):
    an n-ary call is n calls of one argument, and a partial's readers give back what it was made of. */
module Calls {
  import opened Options
  import opened Vm
  import opened Lang
  import opened Codegen
  import opened Compiled

  /** One application after another. */
  function ApplyAll(p: Prog, f: Value, xs: seq<Value>, w: World, fuel: nat): (r: Res)
    decreases |xs|
  {
    if xs == [] then Done(f, w) else
      var r := Apply(p, f, xs[0], w, fuel);
      if r.Done? then ApplyAll(p, r.v, xs[1..], r.w, fuel) else r
  }

  lemma {:induction false} ApplyAllLast(p: Prog, f: Value, xs: seq<Value>, x: Value, w: World, fuel: nat)
    ensures ApplyAll(p, f, xs + [x], w, fuel) ==
              var r := ApplyAll(p, f, xs, w, fuel); if r.Done? then Apply(p, r.v, x, r.w, fuel) else r
    decreases |xs|
  {
    var ys := xs + [x];
    if xs == [] {
      assert ys == [x] && ys[1..] == [];
    } else {
      assert ys[0] == xs[0] && ys[1..] == xs[1..] + [x];
      var r := Apply(p, f, xs[0], w, fuel);
      if r.Done? { ApplyAllLast(p, r.v, xs[1..], x, r.w, fuel); }
    }
  }

  /** A function takes arguments without effect until its last, which runs it. */
  lemma {:induction false} ApplyAllFn(p: Prog, id: nat, args: seq<Value>, xs: seq<Value>, w: World, fuel: nat)
    requires id < |p.funs| && xs != [] && |args| + |xs| <= p.funs[id].arity
    ensures ApplyAll(p, Fn(id, args), xs, w, fuel) ==
              if |args| + |xs| < p.funs[id].arity then Done(Fn(id, args + xs), w) else Body(p, id, args + xs, w, fuel)
    decreases |xs|
  {
    if |xs| == 1 {
      assert xs[1..] == [] && args + [xs[0]] == args + xs;
    } else {
      assert args + [xs[0]] + xs[1..] == args + xs;
      ApplyAllFn(p, id, args + [xs[0]], xs[1..], w, fuel);
    }
  }

  lemma DenTail(ar: seq<nat>, ws: seq<Word>, xs: seq<Value>)
    requires DenAll(ar, ws, xs) && ws != []
    ensures Den(ar, ws[0], xs[0]) && DenAll(ar, ws[1..], xs[1..])
  {
    forall i | 0 <= i < |ws| - 1 ensures Den(ar, ws[1..][i], xs[1..][i]) {
      assert Den(ar, ws[i + 1], xs[i + 1]);
    }
  }

  lemma DenFront(ar: seq<nat>, ws: seq<Word>, xs: seq<Value>)
    requires DenAll(ar, ws, xs) && ws != []
    ensures var n := |ws| - 1; DenAll(ar, ws[..n], xs[..n]) && Den(ar, ws[n], xs[n]) && xs == xs[..n] + [xs[n]]
  {
  }

  /** The left-to-right chain: n calls of one argument each. */
  lemma {:induction false} ChainRuns(p: Prog, m: Mach, f: Value, fw: Word, xs: seq<Value>, ws: seq<Word>, k: Code, rest: seq<Word>, w: World, fuel: nat)
    returns (u: Word)
    requires WfProg(p) && m == Link(p) && Den(m.ar, fw, f) && DenAll(m.ar, ws, xs)
    ensures Comes(m, State(At(QuoteAps(ws, k)), [fw] + rest, w), ApplyAll(p, f, xs, w, fuel), fuel, u, At(k), rest)
    decreases |ws|
  {
    var s := State(At(QuoteAps(ws, k)), [fw] + rest, w);
    if ws == [] {
      u := fw;
      LeadsSelf(m, s);
    } else {
      DenTail(m.ar, ws, xs);
      var k1 := QuoteAps(ws[1..], k);
      assert s.stk[1..] == rest;
      u := ApplySim(p, m, f, xs[0], fw, ws[0], At(k1), rest, w, fuel);
      var r := Apply(p, f, xs[0], w, fuel);
      StepComes(m, s, r, fuel, u, At(k1), rest);
      if r.Done? {
        var s1 := State(At(k1), [u] + rest, r.w);
        u := ChainRuns(p, m, r.v, u, xs[1..], ws[1..], k, rest, r.w, fuel);
        ComesAfter(m, s, s1, ApplyAll(p, r.v, xs[1..], r.w, fuel), fuel, u, At(k), rest);
      }
    }
  }

  // ----- a callee of exactly n, and one of more

  /** The frame entered past the cur, however the callee came by the arguments it holds. */
  lemma {:induction false} ExactSim(p: Prog, m: Mach, id: nat, args: seq<Value>, fw: Word, xs: seq<Value>, ws: seq<Word>, ret: Thread,
                                    rest: seq<Word>, w: World, fuel: nat)
    returns (u: Word)
    requires WfProg(p) && m == Link(p) && Den(m.ar, fw, Fn(id, args)) && DenAll(m.ar, ws, xs) && CurOf(m, fw) == |ws| >= 1
    ensures Comes(m, State(After(m, fw.t), ws + [Ptr(ret)] + rest, w), ApplyAll(p, Fn(id, args), xs, w, fuel), fuel - 1, u, ret, rest)
  {
    LinkOk(p);
    FnShape(m, fw, id, args);
    ApplyAllFn(p, id, args, xs, w, fuel);
    var stk := ws + [Ptr(ret)] + rest;
    var ws0 := ChainSim(m, After(m, fw.t), id, args, stk, w);
    assert ws0 + stk == (ws0 + ws) + [Ptr(ret)] + rest;
    u := BodySim(p, m, id, args + xs, ws0 + ws, ret, rest, w, fuel);
    ComesAfter(m, State(After(m, fw.t), stk, w), State(Past(id), ws0 + stk, w), Body(p, id, args + xs, w, fuel), fuel - 1, u, ret, rest);
  }

  /** One uncn cell holds what n unc cells would. */
  lemma ShortDen(p: Prog, m: Mach, id: nat, args: seq<Value>, fw: Word, xs: seq<Value>, ws: seq<Word>, w: World, fuel: nat)
    requires WfProg(p) && m == Link(p) && Den(m.ar, fw, Fn(id, args)) && DenAll(m.ar, ws, xs) && CurOf(m, fw) > |ws| >= 1
    ensures ApplyAll(p, Fn(id, args), xs, w, fuel) == Done(Fn(id, args + xs), w)
    ensures Den(m.ar, Partial(CurOf(m, fw) - |ws|, UncN(ws, After(m, fw.t))), Fn(id, args + xs))
  {
    LinkOk(p);
    FnShape(m, fw, id, args);
    ApplyAllFn(p, id, args, xs, w, fuel);
    assert DecAll(m.ar, ws).value == xs;
  }

  lemma CurIsFn(m: Mach, fw: Word, f: Value)
    requires m.Ok() && Den(m.ar, fw, f) && CurOf(m, fw) > 0
    ensures f.Fn?
  {
  }

  // ----- apo and tapo

  /** lvm_apo, for a callee of any kind and any width: it comes to k as n calls of one argument would. */
  lemma {:induction false} ApoSim(p: Prog, m: Mach, f: Value, fw: Word, xs: seq<Value>, ws: seq<Word>, k: Code, rest: seq<Word>, w: World, fuel: nat)
    returns (u: Word)
    requires WfProg(p) && m == Link(p) && Den(m.ar, fw, f) && DenAll(m.ar, ws, xs) && ws != []
    ensures Comes(m, State(At(Ins(Apo(|ws|), k)), ws + [fw] + rest, w), ApplyAll(p, f, xs, w, fuel), fuel, u, At(k), rest)
  {
    LinkOk(p);
    var n, c := |ws|, CurOf(m, fw);
    var s := State(At(Ins(Apo(n), k)), ws + [fw] + rest, w);
    assert s.stk[..n] == ws && s.stk[n] == fw && s.stk[n + 1..] == rest;
    if c == n {
      CurIsFn(m, fw, f);
      u := ExactSim(p, m, f.id, f.args, fw, xs, ws, At(k), rest, w, fuel);
      StepComes(m, s, ApplyAll(p, f, xs, w, fuel), fuel, u, At(k), rest);
    } else if c > n {
      CurIsFn(m, fw, f);
      ShortDen(p, m, f.id, f.args, fw, xs, ws, w, fuel);
      u := Partial(c - n, UncN(ws, After(m, fw.t)));
      StepLeads(m, s);
    } else {
      u := MissSim(p, m, f, fw, xs, ws, k, rest, w, fuel);
      StepLeads(m, s);
      ComesAfter(m, s, Step(m, s), ApplyAll(p, f, xs, w, fuel), fuel, u, At(k), rest);
    }
  }

  /** The thread the miss lays: the chain over the values, and a jump back past the call. */
  lemma {:induction false} MissSim(p: Prog, m: Mach, f: Value, fw: Word, xs: seq<Value>, ws: seq<Word>, k: Code, rest: seq<Word>, w: World, fuel: nat)
    returns (u: Word)
    requires WfProg(p) && m == Link(p) && Den(m.ar, fw, f) && DenAll(m.ar, ws, xs)
    ensures Comes(m, State(At(Ins(Quote(fw), QuoteAps(ws, Ins(Goto(At(k)), End)))), rest, w), ApplyAll(p, f, xs, w, fuel), fuel, u, At(k), rest)
  {
    var k0 := Ins(Goto(At(k)), End);
    var s := State(At(Ins(Quote(fw), QuoteAps(ws, k0))), rest, w);
    var s1 := State(At(QuoteAps(ws, k0)), [fw] + rest, w);
    u := ChainRuns(p, m, f, fw, xs, ws, k0, rest, w, fuel);
    var r := ApplyAll(p, f, xs, w, fuel);
    StepLeads(m, s);
    ComesAfter(m, s, s1, r, fuel, u, At(k0), rest);
    if r.Done? {
      var t := State(At(k0), [u] + rest, r.w);
      StepLeads(m, t);
      LeadsThen(m, s, t, State(At(k), [u] + rest, r.w));
    }
  }

  /** lvm_tapo over a frame of r words: it comes to the caller's caller. */
  lemma {:induction false} TapoSim(p: Prog, m: Mach, f: Value, fw: Word, xs: seq<Value>, ws: seq<Word>, frame: seq<Word>, ret: Thread, k: Code,
                                   rest: seq<Word>, w: World, fuel: nat)
    returns (u: Word)
    requires WfProg(p) && m == Link(p) && Den(m.ar, fw, f) && DenAll(m.ar, ws, xs) && ws != []
    ensures Comes(m, State(At(Ins(Tapo(|ws|, |frame|), k)), ws + [fw] + frame + [Ptr(ret)] + rest, w),
                  ApplyAll(p, f, xs, w, fuel), fuel, u, ret, rest)
  {
    LinkOk(p);
    var n, c, rest0 := |ws|, CurOf(m, fw), [Ptr(ret)] + rest;
    var s := State(At(Ins(Tapo(n, |frame|), k)), ws + [fw] + frame + [Ptr(ret)] + rest, w);
    TapoSteps(m, fw, ws, frame, ret, k, rest, w);
    if c == n {
      CurIsFn(m, fw, f);
      u := ExactSim(p, m, f.id, f.args, fw, xs, ws, ret, rest, w, fuel);
      StepComes(m, s, ApplyAll(p, f, xs, w, fuel), fuel, u, ret, rest);
    } else if c > n {
      CurIsFn(m, fw, f);
      ShortDen(p, m, f.id, f.args, fw, xs, ws, w, fuel);
      u := Partial(c - n, UncN(ws, After(m, fw.t)));
      assert rest0[1..] == rest;
      StepLeads(m, s);
    } else {
      u := TailMiss(p, m, f, fw, xs, ws, ret, rest, w, fuel);
      StepLeads(m, s);
      ComesAfter(m, s, Step(m, s), ApplyAll(p, f, xs, w, fuel), fuel, u, ret, rest);
    }
  }

  lemma TapoSteps(m: Mach, fw: Word, ws: seq<Word>, frame: seq<Word>, ret: Thread, k: Code, rest: seq<Word>, w: World)
    requires ws != []
    ensures Step(m, State(At(Ins(Tapo(|ws|, |frame|), k)), ws + [fw] + frame + [Ptr(ret)] + rest, w))
         == if CurOf(m, fw) == |ws| then State(After(m, fw.t), ws + [Ptr(ret)] + rest, w)
            else Miss(m, fw, ws, At(k), true, [Ptr(ret)] + rest, w)
  {
    var n, rest0 := |ws|, [Ptr(ret)] + rest;
    var stk := ws + [fw] + frame + [Ptr(ret)] + rest;
    assert stk[..n] == ws && stk[n] == fw && stk[n + |frame| + 1..] == rest0;
    assert ws + rest0 == ws + [Ptr(ret)] + rest;
  }

  /** In tail position the chain's last call is a tail call. */
  lemma {:induction false} TailMiss(p: Prog, m: Mach, f: Value, fw: Word, xs: seq<Value>, ws: seq<Word>, ret: Thread, rest: seq<Word>, w: World, fuel: nat)
    returns (u: Word)
    requires WfProg(p) && m == Link(p) && Den(m.ar, fw, f) && DenAll(m.ar, ws, xs) && ws != []
    ensures var n := |ws| - 1;
            Comes(m, State(At(Ins(Quote(fw), QuoteAps(ws[..n], Ins(Quote(ws[n]), Ins(Tap(0), End))))), [Ptr(ret)] + rest, w),
                  ApplyAll(p, f, xs, w, fuel), fuel, u, ret, rest)
  {
    var n, rest0 := |ws| - 1, [Ptr(ret)] + rest;
    var k0 := Ins(Quote(ws[n]), Ins(Tap(0), End));
    var s := State(At(Ins(Quote(fw), QuoteAps(ws[..n], k0))), rest0, w);
    DenFront(m.ar, ws, xs);
    ApplyAllLast(p, f, xs[..n], xs[n], w, fuel);
    u := ChainRuns(p, m, f, fw, xs[..n], ws[..n], k0, rest0, w, fuel);
    var r := ApplyAll(p, f, xs[..n], w, fuel);
    StepLeads(m, s);
    ComesAfter(m, s, State(At(QuoteAps(ws[..n], k0)), [fw] + rest0, w), r, fuel, u, At(k0), rest0);
    if r.Done? {
      var t := State(At(k0), [u] + rest0, r.w);
      var x := xs[n];
      var f1 := u;
      u := TapSim(p, m, r.v, x, f1, ws[n], ret, rest, r.w, fuel);
      ComesAfter(m, s, t, Apply(p, r.v, x, r.w, fuel), fuel, u, ret, rest);
    }
  }

  lemma {:induction false} TapSim(p: Prog, m: Mach, f: Value, x: Value, fw: Word, xw: Word, ret: Thread, rest: seq<Word>, w: World, fuel: nat)
    returns (u: Word)
    requires WfProg(p) && m == Link(p) && Den(m.ar, fw, f) && Den(m.ar, xw, x)
    ensures Comes(m, State(At(Ins(Quote(xw), Ins(Tap(0), End))), [fw] + ([Ptr(ret)] + rest), w), Apply(p, f, x, w, fuel), fuel, u, ret, rest)
  {
    var s := State(At(Ins(Quote(xw), Ins(Tap(0), End))), [fw] + ([Ptr(ret)] + rest), w);
    var s1 := State(At(Ins(Tap(0), End)), [xw] + s.stk, w);
    assert s1.stk[3..] == rest && s1.stk[2] == Ptr(ret);
    u := ApplySim(p, m, f, x, fw, xw, ret, rest, w, fuel);
    StepComes(m, s1, Apply(p, f, x, w, fuel), fuel, u, ret, rest);
    StepLeads(m, s);
    ComesAfter(m, s, s1, Apply(p, f, x, w, fuel), fuel, u, ret, rest);
  }

  /** An n-ary call and the chain of n calls end alike: on the same value with the same effects, or both
      refuse. */
  lemma ApoIsChain(p: Prog, m: Mach, f: Value, fw: Word, xs: seq<Value>, ws: seq<Word>, k: Code, rest: seq<Word>, w: World, fuel: nat)
    returns (u: Word, v: Word)
    requires WfProg(p) && m == Link(p) && Den(m.ar, fw, f) && DenAll(m.ar, ws, xs) && ws != []
    ensures var s := State(At(Ins(Apo(|ws|), k)), ws + [fw] + rest, w);
            var t := State(At(QuoteAps(ws, k)), [fw] + rest, w);
            var r := ApplyAll(p, f, xs, w, fuel);
            && (r.Done? ==> && Dec(m.ar, u) == Dec(m.ar, v) == Some(r.v)
                            && Leads(m, s, State(At(k), [u] + rest, r.w)) && Leads(m, t, State(At(k), [v] + rest, r.w)))
            && (r.Fail? ==> Fails(m, s) && Fails(m, t))
            && (r.Out? ==> RunsFor(m, s, fuel) && RunsFor(m, t, fuel))
  {
    u := ApoSim(p, m, f, fw, xs, ws, k, rest, w, fuel);
    v := ChainRuns(p, m, f, fw, xs, ws, k, rest, w, fuel);
  }

  // ----- the readers of a partial

  predicate IsUnc(t: Thread) { t.At? && t.k.Ins? && (t.k.i.Unc? || t.k.i.UncN?) }

  /** fn_partialp. */
  predicate IsPartial(t: Thread) {
    IsUnc(t) || (t.At? && t.k.Ins? && t.k.i.Cur? && t.k.k.Ins? && (t.k.k.i.Unc? || t.k.k.i.UncN?))
  }

  /** The first cell, past a cur. */
  function FirstCell(t: Thread): (i: Instr)
    requires IsPartial(t)
    ensures i.Unc? || i.UncN?
  { if IsUnc(t) then t.k.i else t.k.k.i }

  function CellWidth(i: Instr): (n: nat) { if i.UncN? then |i.xs| else 1 }

  lemma CellShape(ar: seq<nat>, i: Instr)
    requires ChainCell(ar, i).Some?
    ensures i.Unc? || i.UncN?
  {
  }

  /** A value is a partial just when it is a function that holds arguments. */
  lemma PartialIs(ar: seq<nat>, t: Thread, v: Value)
    requires Den(ar, Ptr(t), v)
    ensures IsPartial(t) <==> (v.Fn? && v.args != [])
    ensures IsPartial(t) ==> ChainCell(ar, FirstCell(t)) == Some(v)
  {
    match t
    case At(Ins(Cur(n), Ins(i, End))) => CellShape(ar, i);
    case At(Ins(i, End)) => CellShape(ar, i);
    case _ =>
  }

  /** fn_base: the function a partial is of, and how many arguments it holds. */
  method FnBase(ghost ar: seq<nat>, t: Thread, ghost v: Value) returns (base: Thread, n: nat)
    requires Den(ar, Ptr(t), v) && IsPartial(t)
    ensures v.Fn? && base == Entry(v.id) && n == |v.args|
  {
    PartialIs(ar, t, v);
    var u := FirstCell(t);
    var link := u.t;
    n := CellWidth(u);
    while IsUnc(link)
      invariant Chain(ar, link).Some? && Chain(ar, link).value.id == v.id && |Chain(ar, link).value.args| + n == |v.args|
      decreases link
    {
      u := link.k.i;
      n := n + CellWidth(u);
      link := u.t;
    }
    base := Entry(link.id);
  }

  /** fn_arg: the i-th argument, in the order they were applied. */
  method FnArg(ghost ar: seq<nat>, t: Thread, ghost v: Value, i: nat, nargs: nat) returns (x: Word)
    requires Den(ar, Ptr(t), v) && IsPartial(t) && v.Fn? && nargs == |v.args| && i < nargs
    ensures Den(ar, x, v.args[i])
  {
    PartialIs(ar, t, v);
    var u := FirstCell(t);
    var at := nargs - CellWidth(u);
    while i < at
      invariant u.Unc? || u.UncN?
      invariant ChainCell(ar, u).Some? && ChainCell(ar, u).value.args <= v.args && i < |ChainCell(ar, u).value.args|
      invariant at == |ChainCell(ar, u).value.args| - CellWidth(u) >= 0
      decreases u
    {
      assert Chain(ar, u.t).Some? && Chain(ar, u.t).value.args != [];
      CellShape(ar, u.t.k.i);
      u := u.t.k.i;
      at := at - CellWidth(u);
    }
    x := if u.Unc? then u.x else u.xs[i - at];
  }
}
