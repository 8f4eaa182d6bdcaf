/** The machine of src/love/ev.c: words, threads of instructions, and one step of each instruction that
    takes part in a call. A thread is a value here: what an address points at, with labels counted in
    words from the thread's end. */
module Vm {
  import opened Options

  /** What primitives read and change. */
  type World = seq<int>

  /** A datum: whether it is a compound, which love measures, and what a leaf nets. */
  datatype Datum = Datum(tag: nat, compound: bool, net: int)

  datatype Word = Charm(n: int) | Ptr(t: Thread)

  /** A function's entry; the same past its cur; a run of instructions; a datum, which is entered too. */
  datatype Thread = Entry(id: nat) | Past(id: nat) | At(k: Code) | Leaf(d: Datum)

  /** Instructions in a row. */
  datatype Code = End | Ins(i: Instr, k: Code)

  datatype Instr =
    | Quote(x: Word) | QuoteAp(x: Word) | Arg(j: nat) | Prim(op: nat, n: nat)
    | Ap | ApNext | Tap(r: nat) | Apn(n: nat) | Tapn(n: nat, r: nat) | Apo(n: nat) | Tapo(n: nat, r: nat)
    | Cond(a: nat) | Jump(a: nat) | Goto(t: Thread)
    | Ret(n: nat) | Ret0 | Cur(n: nat) | Unc(x: Word, t: Thread) | UncN(xs: seq<Word>, t: Thread)
    | Data(d: Datum) | Yield

  /** The words an instruction takes. */
  function Width(i: Instr): (n: nat)
    ensures n >= 1
  {
    match i
    case Prim(_, _) | Ap | ApNext | Ret0 | Data(_) => 1
    case Quote(_) | QuoteAp(_) | Arg(_) | Tap(_) | Apn(_) | Apo(_) | Cond(_) | Jump(_) | Goto(_)
       | Ret(_) | Cur(_) | Yield => 2
    case Tapn(_, _) | Tapo(_, _) | Unc(_, _) => 3
    case UncN(xs, _) => 3 + |xs|
  }

  function Words(k: Code): (n: nat) {
    match k
    case End => 0
    case Ins(i, k') => Width(i) + Words(k')
  }

  /** The part of k that is a words long. */
  function Suffix(k: Code, a: nat): (r: Code) {
    match k
    case End => End
    case Ins(_, k') => if Words(k) <= a then k else Suffix(k', a)
  }

  // ----- what a word means

  /** A number, a datum, or a function with the arguments it holds so far. */
  datatype Value = Num(n: int) | Dat(d: Datum) | Fn(id: nat, args: seq<Value>)

  /** A link of a partial: the base, or one cell more. */
  function Chain(ar: seq<nat>, t: Thread): (r: Option<Value>)
    ensures r.Some? ==> r.value.Fn? && r.value.id < |ar|
    decreases t, 1
  {
    match t
    case Past(id) => if id < |ar| && ar[id] >= 2 then Some(Fn(id, [])) else None
    case At(Ins(i, End)) => ChainCell(ar, i)
    case _ => None
  }

  /** The newest cell holds the last arguments. */
  function ChainCell(ar: seq<nat>, i: Instr): (r: Option<Value>)
    ensures r.Some? ==> r.value.Fn? && r.value.id < |ar| && r.value.args != []
    decreases i, 0
  {
    match i
    case Unc(x, t) =>
      var c, v := Chain(ar, t), Dec(ar, x);
      if c.Some? && v.Some? then Some(Fn(c.value.id, c.value.args + [v.value])) else None
    case UncN(xs, t) =>
      var c, vs := Chain(ar, t), DecAll(ar, xs);
      if c.Some? && vs.Some? && xs != [] then Some(Fn(c.value.id, c.value.args + vs.value)) else None
    case _ => None
  }

  /** What a word means, if it is a value: a return address is not. A partial says in its cur how many
      arguments it still wants, and has none when it wants one. */
  function Dec(ar: seq<nat>, x: Word): (r: Option<Value>)
    decreases x, 0
  {
    match x
    case Charm(n) => Some(Num(n))
    case Ptr(Leaf(d)) => Some(Dat(d))
    case Ptr(Entry(id)) => if id < |ar| then Some(Fn(id, [])) else None
    case Ptr(At(Ins(Cur(n), Ins(i, End)))) =>
      var c := ChainCell(ar, i);
      if c.Some? && n >= 2 && |c.value.args| + n == ar[c.value.id] then c else None
    case Ptr(At(Ins(i, End))) =>
      var c := ChainCell(ar, i);
      if c.Some? && |c.value.args| + 1 == ar[c.value.id] then c else None
    case _ => None
  }

  function DecAll(ar: seq<nat>, xs: seq<Word>): (r: Option<seq<Value>>)
    ensures r.Some? ==> |r.value| == |xs|
    ensures r.Some? ==> forall i :: 0 <= i < |xs| ==> Dec(ar, xs[i]) == Some(r.value[i])
    ensures (forall i :: 0 <= i < |xs| ==> Dec(ar, xs[i]).Some?) ==> r.Some?
    decreases xs, 1
  {
    if xs == [] then Some([])
    else
      var v, vs := Dec(ar, xs[0]), DecAll(ar, xs[1..]);
      if v.Some? && vs.Some? then Some([v.value] + vs.value) else None
  }

  ghost predicate Den(ar: seq<nat>, x: Word, v: Value) { Dec(ar, x) == Some(v) }

  ghost predicate DenAll(ar: seq<nat>, xs: seq<Word>, vs: seq<Value>) {
    |xs| == |vs| && forall i :: 0 <= i < |xs| ==> Den(ar, xs[i], vs[i])
  }

  // ----- the machine

  /** Every function's thread and arity; the hooks; what the primitives do, op 0 being a datum applied. */
  datatype Mach = Mach(code: seq<Code>, ar: seq<nat>, numap: Word, net: Word,
                       sem: (nat, seq<Value>, World) -> Option<(Word, World)>) {
    /** A function of more than one argument starts with its cur; one of one argument does not. */
    ghost predicate Ok() {
      && |code| == |ar|
      && (forall i :: 0 <= i < |ar| ==> ar[i] >= 1 && code[i].Ins?)
      && (forall i :: 0 <= i < |ar| ==> if ar[i] == 1 then !code[i].i.Cur? else code[i].i == Cur(ar[i]))
      && Dec(ar, numap).Some? && Dec(ar, net).Some?
    }
  }

  /** A primitive's answer, which is a value. */
  function Sem(ar: seq<nat>, sem: (nat, seq<Value>, World) -> Option<(Word, World)>, op: nat, vs: seq<Value>, w: World):
    (r: Option<(Word, World)>)
    ensures r.Some? ==> Dec(ar, r.value.0).Some?
  {
    var r := sem(op, vs, w);
    if r.Some? && Dec(ar, r.value.0).Some? then r else None
  }

  datatype State = State(ip: Thread, stk: seq<Word>, w: World) | Failed | Halted(stk: seq<Word>, w: World)

  function Resolve(m: Mach, t: Thread): (k: Code) {
    match t
    case Entry(id) => if id < |m.code| then m.code[id] else End
    case Past(id) => if id < |m.code| && m.code[id].Ins? then m.code[id].k else End
    case At(k) => k
    case Leaf(d) => Ins(Data(d), End)
  }

  /** The thread past the instruction at t. */
  function After(m: Mach, t: Thread): (r: Thread) {
    match Resolve(m, t)
    case End => t
    case Ins(i, k) => if t.Entry? && i.Cur? then Past(t.id) else At(k)
  }

  /** numap_drive and callout_drive. */
  const DRIVE: Code := Ins(Ap, Ins(ApNext, Ins(Ret0, End)))
  const CALLOUT: Code := Ins(Ap, Ins(Ret0, End))

  /** f applied to x, to answer at ret over rest; a charm goes through the hook. */
  function Enter(m: Mach, f: Word, x: Word, ret: Thread, rest: seq<Word>, w: World): (s: State) {
    if f.Charm? then State(At(DRIVE), [f, m.numap, x, Ptr(ret)] + rest, w)
    else State(f.t, [x, Ptr(ret)] + rest, w)
  }

  /** How many more arguments f's own cur asks for, 0 where it has none. */
  function CurOf(m: Mach, f: Word): (n: nat) {
    if f.Charm? then 0 else
      match Resolve(m, f.t)
      case Ins(Cur(n), _) => n
      case _ => 0
  }

  /** [cur n]? and the cell. */
  function Partial(n: nat, cell: Instr): (x: Word) {
    Ptr(At(if n > 1 then Ins(Cur(n), Ins(cell, End)) else Ins(cell, End)))
  }

  predicate Truthy(x: Word) {
    match x
    case Charm(n) => n > 0
    case Ptr(Leaf(d)) => d.net > 0
    case _ => true
  }

  predicate Compound(x: Word) { x.Ptr? && x.t.Leaf? && x.t.d.compound }

  /** A return: v to the address at ret. */
  function Return(v: Word, ret: Word, rest: seq<Word>, w: World): (s: State) {
    if ret.Ptr? then State(ret.t, [v] + rest, w) else Failed
  }

  function QuoteAps(xs: seq<Word>, k: Code): (r: Code) {
    if xs == [] then k else Ins(QuoteAp(xs[0]), QuoteAps(xs[1..], k))
  }

  /** apo_miss: as over f, xs being the arguments; tail drops a frame of r. */
  function Miss(m: Mach, f: Word, xs: seq<Word>, k: Thread, tail: bool, rest: seq<Word>, w: World): (s: State)
    requires xs != []
    requires tail ==> rest != []
  {
    var c, n := CurOf(m, f), |xs|;
    if c > n then
      var p := Partial(c - n, UncN(xs, After(m, f.t)));
      if tail then Return(p, rest[0], rest[1..], w) else State(k, [p] + rest, w)
    else if tail then
      State(At(Ins(Quote(f), QuoteAps(xs[..n - 1], Ins(Quote(xs[n - 1]), Ins(Tap(0), End))))), rest, w)
    else
      State(At(Ins(Quote(f), QuoteAps(xs, Ins(Goto(k), End)))), rest, w)
  }

  function Step(m: Mach, s: State): (r: State)
    requires s.State?
  {
    match Resolve(m, s.ip)
    case End => Failed
    case Ins(i, _) => StepOn(m, s.ip, i, s.stk, s.w)
  }

  function StepOn(m: Mach, ip: Thread, i: Instr, stk: seq<Word>, w: World): (r: State) {
    var k := After(m, ip);
    match i
    case Quote(x) => State(k, [x] + stk, w)
    case Arg(j) => if j < |stk| then State(k, [stk[j]] + stk, w) else Failed
    case Prim(op, n) => StepPrim(m, op, n, k, stk, w)
    case QuoteAp(x) => if |stk| < 1 then Failed else Enter(m, stk[0], x, k, stk[1..], w)
    case Ap => if |stk| < 2 then Failed else Enter(m, stk[1], stk[0], k, stk[2..], w)
    case ApNext => if |stk| < 2 then Failed else Enter(m, stk[0], stk[1], k, stk[2..], w)
    case Tap(r) =>
      if |stk| < r + 3 || !stk[r + 2].Ptr? then Failed
      else Enter(m, stk[1], stk[0], stk[r + 2].t, stk[r + 3..], w)
    case Apn(n) => StepApn(m, n, k, stk, w)
    case Tapn(n, r) => StepTapn(m, n, r, stk, w)
    case Apo(n) =>
      if n == 0 || |stk| < n + 1 then Failed
      else if CurOf(m, stk[n]) == n then StepApn(m, n, k, stk, w)
      else Miss(m, stk[n], stk[..n], k, false, stk[n + 1..], w)
    case Tapo(n, r) =>
      if n == 0 || |stk| < n + r + 2 then Failed
      else if CurOf(m, stk[n]) == n then StepTapn(m, n, r, stk, w)
      else Miss(m, stk[n], stk[..n], k, true, stk[n + r + 1..], w)
    case Cond(a) =>
      if |stk| < 1 then Failed
      else if Compound(stk[0]) then State(At(CALLOUT), [stk[0], m.net, Ptr(At(Resolve(m, ip)))] + stk[1..], w)
      else State(if Truthy(stk[0]) then k else At(Suffix(Resolve(m, ip), a)), stk[1..], w)
    case Jump(a) => State(At(Suffix(Resolve(m, ip), a)), stk, w)
    case Goto(t) => State(t, stk, w)
    case Ret(n) => if |stk| < n + 2 then Failed else Return(stk[0], stk[n + 1], stk[n + 2..], w)
    case Ret0 => if |stk| < 2 then Failed else Return(stk[0], stk[1], stk[2..], w)
    case Cur(n) =>
      if |stk| < 2 || n < 2 then Failed
      else Return(Partial(n - 1, Unc(stk[0], k)), stk[1], stk[2..], w)
    case Unc(x, t) => State(t, [x] + stk, w)
    case UncN(xs, t) => State(t, xs + stk, w)
    case Data(d) => if |stk| < 2 then Failed else StepData(m, d, stk[0], stk[1], stk[2..], w)
    case Yield => Halted(stk, w)
  }

  function StepPrim(m: Mach, op: nat, n: nat, k: Thread, stk: seq<Word>, w: World): (r: State) {
    if |stk| < n then Failed else
      var vs := DecAll(m.ar, stk[..n]);
      if vs.None? then Failed else
        var r := Sem(m.ar, m.sem, op, vs.value, w);
        if r.None? then Failed else State(k, [r.value.0] + stk[n..], r.value.1)
  }

  function StepData(m: Mach, d: Datum, x: Word, ret: Word, rest: seq<Word>, w: World): (r: State) {
    var v := Dec(m.ar, x);
    if v.None? then Failed else
      var r := Sem(m.ar, m.sem, 0, [Dat(d), v.value], w);
      if r.None? then Failed else Return(r.value.0, ret, rest, r.value.1)
  }

  function StepApn(m: Mach, n: nat, k: Thread, stk: seq<Word>, w: World): (r: State) {
    if |stk| < n + 1 || n == 0 || CurOf(m, stk[n]) != n then Failed
    else State(After(m, stk[n].t), stk[..n] + [Ptr(k)] + stk[n + 1..], w)
  }

  function StepTapn(m: Mach, n: nat, r: nat, stk: seq<Word>, w: World): (r': State) {
    if |stk| < n + r + 2 || n == 0 || CurOf(m, stk[n]) != n then Failed
    else State(After(m, stk[n].t), stk[..n] + stk[n + r + 1..], w)
  }

  // ----- runs

  /** n steps, if the machine makes so many. */
  function Run(m: Mach, s: State, n: nat): (r: Option<State>)
    decreases n
  {
    if n == 0 then Some(s) else if !s.State? then None else Run(m, Step(m, s), n - 1)
  }

  lemma {:induction false} RunPlus(m: Mach, s: State, i: nat, j: nat)
    ensures Run(m, s, i + j) == match Run(m, s, i) case Some(t) => Run(m, t, j) case None => None
    decreases i
  {
    if i > 0 && s.State? {
      RunPlus(m, Step(m, s), i - 1, j);
    }
  }

  lemma RunDown(m: Mach, s: State, i: nat, n: nat)
    requires Run(m, s, n).Some? && i <= n
    ensures Run(m, s, i).Some? && Run(m, Run(m, s, i).value, n - i) == Run(m, s, n)
  {
    RunPlus(m, s, i, n - i);
  }

  /** s comes to what t comes to, in no fewer steps. */
  ghost predicate Leads(m: Mach, s: State, t: State) {
    exists i: nat, j: nat :: LeadsIn(m, s, t, i, j)
  }

  ghost predicate LeadsIn(m: Mach, s: State, t: State, i: nat, j: nat) {
    j <= i && Run(m, s, i).Some? && Run(m, s, i) == Run(m, t, j)
  }

  ghost predicate Fails(m: Mach, s: State) { exists n: nat :: Run(m, s, n) == Some(Failed) }

  ghost predicate RunsFor(m: Mach, s: State, n: nat) { Run(m, s, n).Some? }

  lemma LeadsSelf(m: Mach, s: State)
    ensures Leads(m, s, s)
  {
    assert LeadsIn(m, s, s, 0, 0);
  }

  lemma LeadsThen(m: Mach, s: State, t: State, u: State)
    requires Leads(m, s, t) && Leads(m, t, u)
    ensures Leads(m, s, u)
  {
    var i: nat, j: nat :| LeadsIn(m, s, t, i, j);
    var a: nat, b: nat :| LeadsIn(m, t, u, a, b);
    if a >= j {
      RunPlus(m, s, i, a - j);
      RunDown(m, t, j, a);
      assert LeadsIn(m, s, u, i + (a - j), b);
    } else {
      RunPlus(m, u, b, j - a);
      RunDown(m, t, a, j);
      assert LeadsIn(m, s, u, i, b + (j - a));
    }
  }

  lemma LeadsFails(m: Mach, s: State, t: State)
    requires Leads(m, s, t) && Fails(m, t)
    ensures Fails(m, s)
  {
    var i: nat, j: nat :| LeadsIn(m, s, t, i, j);
    var n: nat :| Run(m, t, n) == Some(Failed);
    if n >= j {
      RunDown(m, t, j, n);
      RunPlus(m, s, i, n - j);
    } else {
      RunDown(m, t, n, j);
    }
  }

  lemma LeadsRuns(m: Mach, s: State, t: State, n: nat)
    requires Leads(m, s, t) && RunsFor(m, t, n)
    ensures RunsFor(m, s, n)
  {
    var i: nat, j: nat :| LeadsIn(m, s, t, i, j);
    if n >= j {
      RunDown(m, t, j, n);
      RunPlus(m, s, i, n - j);
      RunDown(m, s, n, i + (n - j));
    } else {
      RunDown(m, s, n, i);
    }
  }

  lemma StepLeads(m: Mach, s: State)
    requires s.State?
    ensures Leads(m, s, Step(m, s))
    ensures forall n: nat :: RunsFor(m, Step(m, s), n) ==> RunsFor(m, s, n + 1)
  {
    assert Run(m, s, 1) == Run(m, Step(m, s), 0);
    assert LeadsIn(m, s, Step(m, s), 1, 0);
  }

  /** Two states with one step in common. */
  lemma SameStep(m: Mach, s: State, t: State)
    requires s.State? && t.State? && Step(m, s) == Step(m, t)
    ensures Leads(m, s, t)
  {
    assert Run(m, s, 1) == Some(Step(m, s)) && Run(m, t, 1) == Some(Step(m, t));
    assert LeadsIn(m, s, t, 1, 1);
  }

  lemma FailStep(m: Mach, s: State)
    requires s.State? && Step(m, s) == Failed
    ensures Fails(m, s)
  {
    assert Run(m, s, 1) == Some(Failed);
  }

  /** The machine is deterministic: where it ends is one place. */
  lemma EndsOnce(m: Mach, s: State, i: nat, j: nat)
    requires Run(m, s, i).Some? && Run(m, s, j).Some?
    requires !Run(m, s, i).value.State? && !Run(m, s, j).value.State?
    ensures i == j
  {
    if i < j { RunDown(m, s, i, j); } else if j < i { RunDown(m, s, j, i); }
  }
}
