/** The compiler of src/love/ev.c: analysis, which pushes emitters and counts the words they may need, and
    emission, which pulls them last first and lays code backwards from the end of a thread. */
module Codegen {
  import opened Options
  import opened Vm
  import opened Lang

  // ----- the compile-time stack

  /** A let's slot, a slot without a name, or a run of operand slots. */
  datatype Slot = Named(name: nat) | One | Many(n: nat)

  datatype Slots = Bare | Top(s: Slot, rest: Slots)

  function EsN(s: Slot): (n: nat) { if s.Many? && s.n > 0 then s.n else 1 }

  function EsLen(st: Slots): (n: nat) {
    match st
    case Bare => 0
    case Top(s, rest) => EsN(s) + EsLen(rest)
  }

  function EsPush(st: Slots): (r: Slots) {
    if st.Top? && st.s.Many? && st.s.n > 0 then Top(Many(st.s.n + 1), st.rest) else Top(Many(1), st)
  }

  function EsPop(st: Slots, k: nat): (r: Slots) {
    if k == 0 || st.Bare? then st
    else if EsN(st.s) > k then Top(Many(EsN(st.s) - k), st.rest)
    else EsPop(st.rest, k - EsN(st.s))
  }

  /** The slots above a name's. */
  function EsIdx(st: Slots, name: nat): (i: int) {
    if st.Bare? then -1
    else if st.s == Named(name) then 0
    else
      var i := EsIdx(st.rest, name);
      if i < 0 then -1 else EsN(st.s) + i
  }

  function EsPushes(st: Slots, k: nat): (r: Slots)
    decreases k
  { if k == 0 then st else EsPushes(EsPush(st), k - 1) }

  lemma PushOne(st: Slots, k: nat)
    ensures EsLen(EsPush(st)) == EsLen(st) + 1
    ensures EsPop(EsPush(st), k + 1) == EsPop(st, k)
  {
  }

  lemma {:induction false} PopMore(st: Slots, k: nat, j: nat)
    ensures EsLen(EsPushes(st, k)) == EsLen(st) + k && EsPop(EsPushes(st, k), k + j) == EsPop(st, j)
    decreases k
  {
    if k > 0 {
      PopMore(EsPush(st), k - 1, j + 1);
      PushOne(st, j);
    }
  }

  /** Operands pushed and popped again leave the stack it was, to the run. */
  lemma PopPushes(st: Slots, k: nat)
    ensures EsLen(EsPushes(st, k)) == EsLen(st) + k && EsPop(EsPushes(st, k), k) == st
  {
    PopMore(st, k, 0);
  }

  lemma {:induction false} PushesOne(st: Slots, k: nat)
    ensures EsPush(EsPushes(st, k)) == EsPushes(st, k + 1)
    decreases k
  {
    if k > 0 { PushesOne(EsPush(st), k - 1); }
  }

  /** A name's slot is as many further down as operands came over it. */
  lemma {:induction false} IdxPushed(st: Slots, name: nat, k: nat)
    requires EsIdx(st, name) >= 0
    ensures EsIdx(EsPushes(st, k), name) == EsIdx(st, name) + k
    decreases k
  {
    if k > 0 { IdxPushed(EsPush(st), name, k - 1); }
  }

  // ----- emitters

  datatype Emit =
    | PutQuote(x: Word) | PutPrim(op: nat, n: nat) | PutVar(i: nat, st: Slots) | PutAp(n: nat)
    | CondExit | PushBranch | PopBranch | PushExit | PopExit | PutCur(n: nat) | PutRet(n: nat) | PutYield

  /** The emitters, the one pushed last on top. */
  datatype Emits = Last | Then(e: Emit, rest: Emits)

  /** The code so far, with the labels of the branches and exits open around it. */
  datatype Buf = Buf(k: Code, branch: seq<nat>, exit: seq<nat>)

  /** A call in tail position takes the place of the return. */
  function ApK(n: nat, k: Code): (r: Code) {
    match k
    case Ins(Ret(d), k') => Ins(if n == 1 then Tap(d) else Tapn(n, d), k')
    case _ => Ins(if n == 1 then Ap else Apn(n), k)
  }

  /** An exit that returns or calls away is copied, any other is jumped to. */
  function ExitK(kx: Code, k: Code): (r: Code) {
    if kx.Ins? && (kx.i.Ret? || kx.i.Tap? || kx.i.Tapn?) then Ins(kx.i, k) else Ins(Jump(Words(kx)), k)
  }

  function Put(e: Emit, b: Buf): (r: Buf) {
    match e
    case PutQuote(x) => b.(k := Ins(Quote(x), b.k))
    case PutPrim(op, n) => b.(k := Ins(Prim(op, n), b.k))
    case PutVar(i, st) => b.(k := Ins(Arg(EsLen(st) + i), b.k))
    case PutAp(n) => b.(k := ApK(n, b.k))
    case CondExit => if b.exit == [] then b else b.(k := ExitK(Suffix(b.k, b.exit[0]), b.k))
    case PushBranch => b.(branch := [Words(b.k)] + b.branch)
    case PopBranch => if b.branch == [] then b else Buf(Ins(Cond(b.branch[0]), b.k), b.branch[1..], b.exit)
    case PushExit => b.(exit := [Words(b.k)] + b.exit)
    case PopExit => if b.exit == [] then b else b.(exit := b.exit[1..])
    case PutCur(n) => if n == 1 then b else b.(k := Ins(Cur(n), b.k))
    case PutRet(n) => b.(k := Ins(Ret(n), b.k))
    case PutYield => b.(k := Ins(Yield, b.k))
  }

  function PutAll(es: Emits, b: Buf): (r: Buf) {
    match es
    case Last => b
    case Then(e, rest) => PutAll(rest, Put(e, b))
  }

  // ----- analysis

  /** A scope being analysed: the emitters, the words reserved for them, and the compile-time stack. */
  datatype Ana = Ana(es: Emits, len: nat, st: Slots) {
    function Push(e: Emit, n: nat): (r: Ana) { Ana(Then(e, es), len + n, st) }
  }

  /** The static function whose quote is the last emitter pushed. */
  function Imfp(p: Prog, es: Emits): (r: Option<nat>)
    ensures r.Some? ==> es.Then? && r.value < |p.funs| && p.funs[r.value].Nif?
  {
    match es
    case Then(PutQuote(x), _) => if StaticWord(p, x) then Some(x.t.id) else None
    case _ => None
  }

  function Analyze(p: Prog, e: Expr, a: Ana): (r: Ana)
    decreases e, 0
  {
    match e
    case Const(x) => a.Push(PutQuote(x), 2)
    case Var(i) => a.Push(PutVar(i, a.st), 2)
    case If(xs) =>
      if xs.Cons? && xs.xs.Nil? then Analyze(p, xs.x, a)
      else AnaCond(p, xs, a.Push(PopExit, 0)).Push(PushExit, 0)
    case Call(f, xs) =>
      if xs.Nil? then Analyze(p, f, a) else AnaAp(p, xs, Analyze(p, f, a))
  }

  function AnaCond(p: Prog, xs: Exprs, a: Ana): (r: Ana)
    decreases xs, 1
  {
    match xs
    case Nil => a.Push(PutQuote(Ptr(Leaf(ZERO))), 2).Push(CondExit, 3)
    case Cons(x, Nil) => Analyze(p, x, a).Push(CondExit, 3)
    case Cons(x, Cons(y, rest)) =>
      var t := Analyze(p, x, a).Push(PopBranch, 2);
      AnaCond(p, rest, Analyze(p, y, t).Push(CondExit, 3).Push(PushBranch, 0))
  }

  /** The operands of a call, its function being analysed last. */
  function AnaAp(p: Prog, xs: Exprs, a: Ana): (r: Ana)
    requires xs.Cons?
    decreases xs, 2
  {
    var id, ca := Imfp(p, a.es), xs.Len();
    var va := if id.Some? then p.funs[id.value].arity else 1;
    if id.Some? && ca == 1 && va == 1 && p.funs[id.value].more == [] then
      Analyze(p, xs.x, a.(es := a.es.rest)).Push(PutPrim(p.funs[id.value].op, 1), 1)
    else if id.Some? && va == ca && ca > 1 && p.funs[id.value].more == [] then
      var b := AnaR2l(p, xs, a.(es := a.es.rest)).Push(PutPrim(p.funs[id.value].op, ca), 1);
      b.(st := EsPop(b.st, ca))
    else if id.Some? && va == ca && ca > 1 then
      var b := AnaR2l(p, xs, a.(st := EsPush(a.st))).Push(PutAp(ca), 2);
      b.(st := EsPop(EsPop(b.st, ca), 1))
    else
      var b := AnaL2r(p, xs, a.(st := EsPush(a.st)));
      b.(st := EsPop(b.st, 1))
  }

  function AnaR2l(p: Prog, xs: Exprs, a: Ana): (r: Ana)
    decreases xs, 1
  {
    match xs
    case Nil => a
    case Cons(x, rest) =>
      var b := Analyze(p, x, AnaR2l(p, rest, a));
      b.(st := EsPush(b.st))
  }

  function AnaL2r(p: Prog, xs: Exprs, a: Ana): (r: Ana)
    decreases xs, 1
  {
    match xs
    case Nil => a
    case Cons(x, rest) => AnaL2r(p, rest, Analyze(p, x, a).Push(PutAp(1), 2))
  }

  // ----- what emission of an analysis comes to: code for e before k, at d operands

  function Gen(p: Prog, e: Expr, d: nat, k: Code): (r: Code)
    decreases e, 0
  {
    match e
    case Const(x) => Ins(Quote(x), k)
    case Var(i) => Ins(Arg(d + i), k)
    case If(xs) => GenIf(p, xs, d, k, k)
    case Call(f, xs) =>
      if !AtOnce(p, f, xs.Len()) then Gen(p, f, d, GenL2r(p, xs, d + 1, k))
      else if p.funs[f.x.t.id].more == [] then GenR2l(p, xs, d, Ins(Prim(p.funs[f.x.t.id].op, xs.Len()), k))
      else Ins(Quote(f.x), GenR2l(p, xs, d + 1, ApK(xs.Len(), k)))
  }

  /** The tests and branches before k, their exit being kx. */
  function GenIf(p: Prog, xs: Exprs, d: nat, kx: Code, k: Code): (r: Code)
    decreases xs, 1
  {
    match xs
    case Nil => Ins(Quote(Ptr(Leaf(ZERO))), ExitK(kx, k))
    case Cons(x, Nil) => Gen(p, x, d, ExitK(kx, k))
    case Cons(x, Cons(y, rest)) =>
      var k1 := GenIf(p, rest, d, kx, k);
      Gen(p, x, d, Ins(Cond(Words(k1)), Gen(p, y, d, ExitK(kx, k1))))
  }

  function GenR2l(p: Prog, xs: Exprs, d: nat, k: Code): (r: Code)
    decreases xs, 1
  {
    match xs
    case Nil => k
    case Cons(x, rest) => GenR2l(p, rest, d, Gen(p, x, d + rest.Len(), k))
  }

  function GenL2r(p: Prog, xs: Exprs, d: nat, k: Code): (r: Code)
    decreases xs, 1
  {
    match xs
    case Nil => k
    case Cons(x, rest) => Gen(p, x, d, ApK(1, GenL2r(p, rest, d, k)))
  }

  // ----- code is laid before code: only a return at the head is ever rewritten

  ghost predicate EndsWith(k: Code, t: Code) { k == t || (k.Ins? && EndsWith(k.k, t)) }

  lemma {:induction false} EndsThen(k: Code, t: Code, u: Code)
    requires EndsWith(k, t) && EndsWith(t, u)
    ensures EndsWith(k, u)
  {
    if k != t { EndsThen(k.k, t, u); }
  }

  lemma {:induction false} EndsWords(k: Code, t: Code)
    requires EndsWith(k, t)
    ensures Words(t) <= Words(k) && (k != t ==> Words(t) < Words(k))
  {
    if k != t { EndsWords(k.k, t); }
  }

  /** A label is found again: the words from its place to the end are its own. */
  lemma {:induction false} EndsSuffix(k: Code, t: Code)
    requires EndsWith(k, t)
    ensures Suffix(k, Words(t)) == t
  {
    EndsWords(k, t);
    if k != t { EndsSuffix(k.k, t); }
  }

  /** r is code laid before k, whose head alone it may have rewritten. */
  ghost predicate Over(r: Code, k: Code) { r == k || (r.Ins? && (k.Ins? ==> EndsWith(r.k, k.k))) }

  lemma OverThen(r: Code, t: Code, k: Code)
    requires Over(r, t) && Over(t, k)
    ensures Over(r, k)
  {
    if r != t && t != k && k.Ins? { EndsThen(r.k, t.k, k.k); }
  }

  lemma OverIns(i: Instr, k: Code)
    ensures Over(Ins(i, k), k)
  {
    if k.Ins? { assert EndsWith(k.k, k.k); }
  }

  lemma OverAp(n: nat, k: Code)
    ensures Over(ApK(n, k), k)
  {
    if !(k.Ins? && k.i.Ret?) { OverIns(ApK(n, k).i, k); }
  }

  /** Past a head, all of it is kept. */
  lemma OverEnds(r: Code, i: Instr, k: Code)
    requires Over(r, Ins(i, k))
    ensures r.Ins? && EndsWith(r, k)
  {
  }

  lemma {:induction false} GenOver(p: Prog, e: Expr, d: nat, k: Code)
    ensures Over(Gen(p, e, d, k), k)
    decreases e, 0
  {
    match e
    case Const(x) => OverIns(Quote(x), k);
    case Var(i) => OverIns(Arg(d + i), k);
    case If(xs) =>
      GenIfEnds(p, xs, d, k, k);
      EndsOver(GenIf(p, xs, d, k, k), k);
    case Call(f, xs) =>
      if !AtOnce(p, f, xs.Len()) {
        var k1 := GenL2r(p, xs, d + 1, k);
        L2rOver(p, xs, d + 1, k);
        GenOver(p, f, d, k1);
        OverThen(Gen(p, f, d, k1), k1, k);
      } else if p.funs[f.x.t.id].more == [] {
        var k1 := Ins(Prim(p.funs[f.x.t.id].op, xs.Len()), k);
        OverIns(k1.i, k);
        R2lOver(p, xs, d, k1);
        OverThen(GenR2l(p, xs, d, k1), k1, k);
      } else {
        var k1 := ApK(xs.Len(), k);
        var k2 := GenR2l(p, xs, d + 1, k1);
        OverAp(xs.Len(), k);
        R2lOver(p, xs, d + 1, k1);
        OverThen(k2, k1, k);
        OverIns(Quote(f.x), k2);
        OverThen(Ins(Quote(f.x), k2), k2, k);
      }
  }

  lemma {:induction false} EndsOver(r: Code, k: Code)
    requires EndsWith(r, k) && r.Ins?
    ensures Over(r, k)
  {
    if r != k && k.Ins? {
      assert EndsWith(k, k.k);
      EndsThen(r.k, k, k.k);
    }
  }

  lemma {:induction false} GenExitEnds(p: Prog, e: Expr, d: nat, kx: Code, k: Code)
    ensures Gen(p, e, d, ExitK(kx, k)).Ins? && EndsWith(Gen(p, e, d, ExitK(kx, k)), k)
    decreases e, 1
  {
    GenOver(p, e, d, ExitK(kx, k));
    OverEnds(Gen(p, e, d, ExitK(kx, k)), ExitK(kx, k).i, k);
  }

  lemma {:induction false} GenIfEnds(p: Prog, xs: Exprs, d: nat, kx: Code, k: Code)
    ensures GenIf(p, xs, d, kx, k).Ins? && EndsWith(GenIf(p, xs, d, kx, k), k)
    decreases xs, 1
  {
    match xs
    case Nil =>
    case Cons(x, Nil) => GenExitEnds(p, x, d, kx, k);
    case Cons(x, Cons(y, rest)) =>
      var k1 := GenIf(p, rest, d, kx, k);
      var k2 := Gen(p, y, d, ExitK(kx, k1));
      var r := Gen(p, x, d, Ins(Cond(Words(k1)), k2));
      GenIfEnds(p, rest, d, kx, k);
      GenExitEnds(p, y, d, kx, k1);
      GenOver(p, x, d, Ins(Cond(Words(k1)), k2));
      OverEnds(r, Cond(Words(k1)), k2);
      EndsThen(r, k2, k1);
      EndsThen(r, k1, k);
  }

  lemma {:induction false} R2lOver(p: Prog, xs: Exprs, d: nat, k: Code)
    ensures Over(GenR2l(p, xs, d, k), k)
    decreases xs, 1
  {
    match xs
    case Nil =>
    case Cons(x, rest) =>
      var k1 := Gen(p, x, d + rest.Len(), k);
      GenOver(p, x, d + rest.Len(), k);
      R2lOver(p, rest, d, k1);
      OverThen(GenR2l(p, rest, d, k1), k1, k);
  }

  lemma {:induction false} L2rOver(p: Prog, xs: Exprs, d: nat, k: Code)
    ensures Over(GenL2r(p, xs, d, k), k)
    decreases xs, 1
  {
    match xs
    case Nil =>
    case Cons(x, rest) =>
      var k1 := GenL2r(p, rest, d, k);
      var k2 := ApK(1, k1);
      L2rOver(p, rest, d, k);
      OverAp(1, k1);
      OverThen(k2, k1, k);
      GenOver(p, x, d, k2);
      OverThen(Gen(p, x, d, k2), k2, k);
  }

  // ----- emission of an analysis

  /** Whenever an exit is laid, its label is the place of an instruction laid before. */
  ghost predicate Fits(es: Emits, b: Buf) {
    match es
    case Last => true
    case Then(e, rest) => (e.CondExit? && b.exit != [] ==> Found(b.k, b.exit[0])) && Fits(rest, Put(e, b))
  }

  ghost predicate Found(k: Code, a: nat) { Words(Suffix(k, a)) == a && EndsWith(k, Suffix(k, a)) }

  /** From a to a2 the analysis pushed emitters that lay k before b's code and leave its labels; the words
      were reserved. */
  ghost predicate Lays(a: Ana, a2: Ana, b: Buf, k: Code) {
    && PutAll(a2.es, b) == PutAll(a.es, b.(k := k)) && (Fits(a.es, b.(k := k)) ==> Fits(a2.es, b))
    && a.len <= a2.len && Words(k) <= Words(b.k) + (a2.len - a.len)
  }

  lemma LaysThen(a: Ana, a1: Ana, a2: Ana, b: Buf, k1: Code, k2: Code)
    requires Lays(a1, a2, b, k1) && Lays(a, a1, b.(k := k1), k2)
    ensures Lays(a, a2, b, k2)
  {
  }

  lemma {:induction false} L2rLast(p: Prog, xs: Exprs, a: Ana)
    requires xs.Cons? || (a.es.Then? && a.es.e == PutAp(1))
    ensures var es := AnaL2r(p, xs, a).es; es.Then? && es.e == PutAp(1)
    decreases xs
  {
    if xs.Cons? { L2rLast(p, xs.xs, Analyze(p, xs.x, a).Push(PutAp(1), 2)); }
  }

  /** The peephole's look at the last emitter finds a constant, and nothing else. */
  lemma LastQuote(p: Prog, ar: seq<nat>, e: Expr, n: nat, a: Ana)
    requires Wf(ar, e, n)
    ensures var es := Analyze(p, e, a).es; es.Then? && (es.e.PutQuote? <==> e.Const?)
  {
    match e
    case Const(_) =>
    case Var(_) =>
    case If(xs) =>
    case Call(f, xs) =>
      L2rLast(p, xs, Analyze(p, f, a).(st := EsPush(Analyze(p, f, a).st)));
  }

  lemma ApWords(n: nat, k: Code)
    ensures Words(ApK(n, k)) <= Words(k) + 2
  {
  }

  lemma {:induction false} AnalyzeLays(p: Prog, ar: seq<nat>, e: Expr, n: nat, a: Ana, b: Buf)
    requires Wf(ar, e, n)
    ensures Analyze(p, e, a).st == a.st
    ensures Lays(a, Analyze(p, e, a), b, Gen(p, e, EsLen(a.st), b.k))
    decreases e, 4
  {
    match e
    case Const(x) =>
    case Var(i) =>
    case If(xs) => IfLays(p, ar, xs, n, a, b);
    case Call(f, xs) =>
      if !AtOnce(p, f, xs.Len()) {
        L2rCall(p, ar, f, xs, n, a, b);
      } else if p.funs[f.x.t.id].more != [] {
        ApnCall(p, ar, f, xs, n, a, b);
      } else {
        PrimCall(p, ar, f, xs, n, a, b);
      }
  }

  lemma {:induction false} IfLays(p: Prog, ar: seq<nat>, xs: Exprs, n: nat, a: Ana, b: Buf)
    requires Wf(ar, If(xs), n)
    ensures Analyze(p, If(xs), a).st == a.st
    ensures Lays(a, Analyze(p, If(xs), a), b, GenIf(p, xs, EsLen(a.st), b.k, b.k))
    decreases If(xs), 3
  {
    var b1 := Put(PushExit, b);
    CondLays(p, ar, xs, n, a.Push(PopExit, 0), b1, b.k);
    assert b1.exit[1..] == b.exit;
  }

  lemma {:induction false} CondLays(p: Prog, ar: seq<nat>, xs: Exprs, n: nat, a: Ana, b: Buf, kx: Code)
    requires WfAll(ar, xs, n)
    requires EndsWith(b.k, kx) && b.exit != [] && b.exit[0] == Words(kx)
    ensures AnaCond(p, xs, a).st == a.st
    ensures Lays(a, AnaCond(p, xs, a), b, GenIf(p, xs, EsLen(a.st), kx, b.k))
    decreases xs, 5
  {
    match xs
    case Nil => PutExit(b, kx);
    case Cons(x, Nil) =>
      PutExit(b, kx);
      AnalyzeLays(p, ar, x, n, a, b.(k := ExitK(kx, b.k)));
    case Cons(x, Cons(y, rest)) =>
      var d, a1 := EsLen(a.st), Analyze(p, x, a);
      var a2 := Analyze(p, y, a1.Push(PopBranch, 2));
      var u := a2.Push(CondExit, 3).Push(PushBranch, 0);
      var k1 := GenIf(p, rest, d, kx, b.k);
      var k2 := Gen(p, y, d, ExitK(kx, k1));
      GenIfEnds(p, rest, d, kx, b.k);
      EndsThen(k1, b.k, kx);
      AnalyzeLays(p, ar, x, n, a, Buf(Ins(Cond(Words(k1)), k2), b.branch, b.exit));
      AnalyzeLays(p, ar, y, n, a1.Push(PopBranch, 2), Buf(ExitK(kx, k1), [Words(k1)] + b.branch, b.exit));
      CondLays(p, ar, rest, n, u, b, kx);
      CondStep(a, a1, a2, AnaCond(p, rest, u), b, kx, k1, k2, Gen(p, x, d, Ins(Cond(Words(k1)), k2)));
  }

  /** A test, its branch and the rest, each laid, are laid together. */
  lemma CondStep(a: Ana, a1: Ana, a2: Ana, a3: Ana, b: Buf, kx: Code, k1: Code, k2: Code, k3: Code)
    requires EndsWith(k1, kx) && b.exit != [] && b.exit[0] == Words(kx)
    requires Lays(a2.Push(CondExit, 3).Push(PushBranch, 0), a3, b, k1)
    requires Lays(a1.Push(PopBranch, 2), a2, Buf(ExitK(kx, k1), [Words(k1)] + b.branch, b.exit), k2)
    requires Lays(a, a1, Buf(Ins(Cond(Words(k1)), k2), b.branch, b.exit), k3)
    ensures Lays(a, a3, b, k3)
  {
    var b0 := Buf(ExitK(kx, k1), [Words(k1)] + b.branch, b.exit);
    ExitStep(a2, b, kx, k1);
    BranchStep(a1, b, k1, k2);
    assert b0.(k := k2) == Buf(k2, [Words(k1)] + b.branch, b.exit);
    EndsWords(k1, kx);
  }

  /** The branch's label opened, its exit laid. */
  lemma ExitStep(a: Ana, b: Buf, kx: Code, k1: Code)
    requires EndsWith(k1, kx) && b.exit != [] && b.exit[0] == Words(kx)
    ensures var es := a.Push(CondExit, 3).Push(PushBranch, 0).es; var b0 := Buf(ExitK(kx, k1), [Words(k1)] + b.branch, b.exit);
            PutAll(es, b.(k := k1)) == PutAll(a.es, b0) && (Fits(a.es, b0) ==> Fits(es, b.(k := k1)))
    ensures Words(ExitK(kx, k1)) <= Words(k1) + 3
  {
    var b1 := Put(PushBranch, b.(k := k1));
    PutExit(b1, kx);
    var u := a.Push(CondExit, 3);
    assert PutAll(u.es, b1) == PutAll(a.es, Put(CondExit, b1));
    assert Fits(u.es, b1) == (Found(b1.k, b1.exit[0]) && Fits(a.es, Put(CondExit, b1)));
  }

  /** The branch's label closed, the test's branch laid. */
  lemma BranchStep(a: Ana, b: Buf, k1: Code, k2: Code)
    ensures var es := a.Push(PopBranch, 2).es; var b2 := Buf(k2, [Words(k1)] + b.branch, b.exit);
            var b3 := Buf(Ins(Cond(Words(k1)), k2), b.branch, b.exit);
            PutAll(es, b2) == PutAll(a.es, b3) && Fits(es, b2) == Fits(a.es, b3)
  {
    var b2 := Buf(k2, [Words(k1)] + b.branch, b.exit);
    assert ([Words(k1)] + b.branch)[1..] == b.branch;
    assert Put(PopBranch, b2) == Buf(Ins(Cond(Words(k1)), k2), b.branch, b.exit);
  }

  lemma PutExit(b: Buf, kx: Code)
    requires EndsWith(b.k, kx) && b.exit != [] && b.exit[0] == Words(kx)
    ensures Put(CondExit, b) == b.(k := ExitK(kx, b.k)) && Words(ExitK(kx, b.k)) <= Words(b.k) + 3
    ensures Found(b.k, b.exit[0])
  {
    EndsSuffix(b.k, kx);
  }

  lemma {:induction false} R2lLays(p: Prog, ar: seq<nat>, xs: Exprs, n: nat, a: Ana, b: Buf)
    requires WfAll(ar, xs, n)
    ensures AnaR2l(p, xs, a).st == EsPushes(a.st, xs.Len())
    ensures Lays(a, AnaR2l(p, xs, a), b, GenR2l(p, xs, EsLen(a.st), b.k))
    decreases xs, 5
  {
    match xs
    case Nil =>
    case Cons(x, rest) =>
      var a1 := AnaR2l(p, rest, a);
      PopPushes(a.st, rest.Len());
      PushesOne(a.st, rest.Len());
      var k1 := Gen(p, x, EsLen(a.st) + rest.Len(), b.k);
      R2lLays(p, ar, rest, n, a, b.(k := k1));
      AnalyzeLays(p, ar, x, n, a1, b);
      LaysThen(a, a1, AnaR2l(p, xs, a), b, k1, GenR2l(p, xs, EsLen(a.st), b.k));
  }

  lemma {:induction false} L2rLays(p: Prog, ar: seq<nat>, xs: Exprs, n: nat, a: Ana, b: Buf)
    requires WfAll(ar, xs, n)
    ensures AnaL2r(p, xs, a).st == a.st
    ensures Lays(a, AnaL2r(p, xs, a), b, GenL2r(p, xs, EsLen(a.st), b.k))
    decreases xs, 5
  {
    match xs
    case Nil =>
    case Cons(x, rest) =>
      var d, a1 := EsLen(a.st), Analyze(p, x, a);
      var k1 := GenL2r(p, rest, d, b.k);
      AnalyzeLays(p, ar, x, n, a, b.(k := ApK(1, k1)));
      L2rLays(p, ar, rest, n, a1.Push(PutAp(1), 2), b);
      ApWords(1, k1);
      assert Lays(a1, a1.Push(PutAp(1), 2), b.(k := k1), ApK(1, k1));
      LaysThen(a1, a1.Push(PutAp(1), 2), AnaL2r(p, xs, a), b, k1, ApK(1, k1));
      LaysThen(a, a1, AnaL2r(p, xs, a), b, ApK(1, k1), Gen(p, x, d, ApK(1, k1)));
  }

  lemma {:induction false} L2rCall(p: Prog, ar: seq<nat>, f: Expr, xs: Exprs, n: nat, a: Ana, b: Buf)
    requires Wf(ar, Call(f, xs), n) && !AtOnce(p, f, xs.Len())
    ensures Analyze(p, Call(f, xs), a).st == a.st
    ensures Lays(a, Analyze(p, Call(f, xs), a), b, Gen(p, Call(f, xs), EsLen(a.st), b.k))
    decreases Call(f, xs), 3
  {
    var d, a1 := EsLen(a.st), Analyze(p, f, a);
    var k1 := GenL2r(p, xs, d + 1, b.k);
    LastQuote(p, ar, f, n, a);
    AnalyzeLays(p, ar, f, n, a, b.(k := k1));
    var a2 := a1.(st := EsPush(a1.st));
    PushOne(a.st, 0);
    L2rLays(p, ar, xs, n, a2, b);
    L2rIs(p, f, xs, a);
    LaysThen(a, a2, AnaL2r(p, xs, a2), b, k1, Gen(p, f, d, k1));
  }

  lemma L2rIs(p: Prog, f: Expr, xs: Exprs, a: Ana)
    requires var es := Analyze(p, f, a).es; es.Then? && (es.e.PutQuote? <==> f.Const?)
    requires xs.Cons? && !AtOnce(p, f, xs.Len())
    ensures var a1 := Analyze(p, f, a); var b := AnaL2r(p, xs, a1.(st := EsPush(a1.st)));
            Analyze(p, Call(f, xs), a) == b.(st := EsPop(b.st, 1))
  {
  }

  lemma {:induction false} ApnCall(p: Prog, ar: seq<nat>, f: Expr, xs: Exprs, n: nat, a: Ana, b: Buf)
    requires Wf(ar, Call(f, xs), n) && AtOnce(p, f, xs.Len()) && p.funs[f.x.t.id].more != []
    ensures Analyze(p, Call(f, xs), a).st == a.st
    ensures Lays(a, Analyze(p, Call(f, xs), a), b, Gen(p, Call(f, xs), EsLen(a.st), b.k))
    decreases Call(f, xs), 3
  {
    var d, c := EsLen(a.st), xs.Len();
    var a2 := a.Push(PutQuote(f.x), 2).(st := EsPush(a.st));
    var b1 := b.(k := ApK(c, b.k));
    PushOne(a.st, 0);
    PopPushes(EsPush(a.st), c);
    R2lLays(p, ar, xs, n, a2, b1);
    ApWords(c, b.k);
  }

  lemma {:induction false} PrimCall(p: Prog, ar: seq<nat>, f: Expr, xs: Exprs, n: nat, a: Ana, b: Buf)
    requires Wf(ar, Call(f, xs), n) && AtOnce(p, f, xs.Len()) && p.funs[f.x.t.id].more == []
    ensures Analyze(p, Call(f, xs), a).st == a.st
    ensures Lays(a, Analyze(p, Call(f, xs), a), b, Gen(p, Call(f, xs), EsLen(a.st), b.k))
    decreases Call(f, xs), 3
  {
    var c, op, a2 := xs.Len(), p.funs[f.x.t.id].op, a.(len := a.len + 2);
    var b1 := b.(k := Ins(Prim(op, c), b.k));
    PopPushes(a.st, c);
    R2lLays(p, ar, xs, n, a2, b1);
    if c == 1 {
      assert xs.xs.Nil?;
      AnalyzeLays(p, ar, xs.x, n, a2, b1);
    }
  }
}
