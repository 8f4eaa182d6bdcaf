/** Emission in its buffer (c1 and the emitters of src/love/ev.c): the words were reserved, the code is laid
    backwards from the buffer's end, and Kp moves down over it; a return at Kp is rewritten where it lies. */
module Emission {
  import opened Options
  import opened Vm
  import opened Lang
  import opened Codegen
  import opened Compiled

  datatype Opcode = OQuote | OArg | OPrim(op: nat, n: nat) | OAp | OTap | OApn | OTapn | OCond | OJump | ORet | OCur | OYield | OOther

  /** A word of a thread: an op, a number, a value, or an address in it. */
  datatype Cell = Op(o: Opcode) | Count(n: nat) | Val(x: Word) | Addr(a: int) | Blank

  ghost predicate Two(s: seq<Cell>, at: nat, o: Opcode, c: Cell) {
    at + 2 <= |s| && s[at] == Op(o) && s[at + 1] == c
  }

  /** Instruction i lies at at. A label is an address: as many words from the end as it counts. */
  ghost predicate InsLies(s: seq<Cell>, at: nat, i: Instr) {
    match i
    case Quote(x) => Two(s, at, OQuote, Val(x))
    case Arg(j) => Two(s, at, OArg, Count(j))
    case Prim(op, n) => at < |s| && s[at] == Op(OPrim(op, n))
    case Ap => at < |s| && s[at] == Op(OAp)
    case Tap(r) => Two(s, at, OTap, Count(r))
    case Apn(n) => Two(s, at, OApn, Count(n))
    case Tapn(n, r) => at + 3 <= |s| && s[at] == Op(OTapn) && s[at + 1] == Count(n) && s[at + 2] == Count(r)
    case Cond(a) => Two(s, at, OCond, Addr(|s| - a))
    case Jump(a) => Two(s, at, OJump, Addr(|s| - a))
    case Ret(n) => Two(s, at, ORet, Count(n))
    case Cur(n) => Two(s, at, OCur, Count(n))
    case Yield => at + 2 <= |s| && s[at] == Op(OYield)
    case _ => at < |s| && s[at] == Op(OOther)
  }

  /** The code k lies from at to the end. */
  ghost predicate Lies(s: seq<Cell>, at: nat, k: Code)
    decreases k
  {
    match k
    case End => at == |s|
    case Ins(i, k') => InsLies(s, at, i) && Lies(s, at + Width(i), k')
  }

  lemma {:induction false} LiesWords(s: seq<Cell>, at: nat, k: Code)
    requires Lies(s, at, k)
    ensures at + Words(k) == |s|
    decreases k
  {
    if k.Ins? { LiesWords(s, at + Width(k.i), k.k); }
  }

  /** What code ends with lies at its label. */
  lemma {:induction false} LiesFound(s: seq<Cell>, at: nat, k: Code, t: Code)
    requires Lies(s, at, k) && EndsWith(k, t)
    ensures Words(t) <= |s| && Lies(s, |s| - Words(t), t)
    decreases k
  {
    LiesWords(s, at, k);
    if k != t { LiesFound(s, at + Width(k.i), k.k, t); }
  }

  /** Writes below it leave code as it lay. */
  lemma {:induction false} LiesKept(s: seq<Cell>, s': seq<Cell>, at: nat, k: Code)
    requires Lies(s, at, k) && |s'| == |s| && forall j :: at <= j < |s| ==> s'[j] == s[j]
    ensures Lies(s', at, k)
    decreases k
  {
    if k.Ins? { LiesKept(s, s', at + Width(k.i), k.k); }
  }

  lemma {:induction false} PutGrows(e: Emit, b: Buf)
    ensures Words(b.k) <= Words(Put(e, b).k)
  {
  }

  lemma {:induction false} PutAllGrows(es: Emits, b: Buf)
    ensures Words(b.k) <= Words(PutAll(es, b).k)
  {
    match es
    case Last =>
    case Then(e, rest) =>
      PutGrows(e, b);
      PutAllGrows(rest, Put(e, b));
  }

  class Emitter {
    const buf: array<Cell>
    var kp: nat
    var branch: seq<int>
    var exit: seq<int>
    ghost var b: Buf

    ghost predicate Valid()
      reads this, buf
    {
      && Lies(buf[..], kp, b.k)
      && |branch| == |b.branch| && |exit| == |b.exit|
      && (forall i :: 0 <= i < |branch| ==> branch[i] == buf.Length - b.branch[i])
      && (forall i :: 0 <= i < |exit| ==> exit[i] == buf.Length - b.exit[i])
    }

    /** A buffer of the words reserved. */
    constructor (len: nat)
      ensures Valid() && fresh(buf) && buf.Length == len && b == Buf(End, [], [])
    {
      buf := new Cell[len](_ => Blank);
      kp, branch, exit := len, [], [];
      b := Buf(End, [], []);
    }

    /** One word below Kp; two. */
    method Lay1(o: Opcode, ghost i: Instr)
      requires Valid() && kp >= 1 && (i.Prim? || i.Ap?) && o == if i.Prim? then OPrim(i.op, i.n) else OAp
      modifies this`kp, this`b, buf
      ensures Valid() && b == old(b).(k := Ins(i, old(b).k))
    {
      kp := kp - 1;
      buf[kp] := Op(o);
      LiesKept(old(buf[..]), buf[..], kp + 1, b.k);
      b := b.(k := Ins(i, b.k));
    }

    /** What an instruction of two words lays. */
    ghost predicate Spells(i: Instr, o: Opcode, c: Cell) {
      match i
      case Quote(x) => o == OQuote && c == Val(x)
      case Arg(j) => o == OArg && c == Count(j)
      case Tap(r) => o == OTap && c == Count(r)
      case Apn(n) => o == OApn && c == Count(n)
      case Cond(a) => o == OCond && c == Addr(buf.Length - a)
      case Jump(a) => o == OJump && c == Addr(buf.Length - a)
      case Ret(n) => o == ORet && c == Count(n)
      case Cur(n) => o == OCur && c == Count(n)
      case _ => false
    }

    method Lay2(o: Opcode, c: Cell, ghost i: Instr)
      requires Valid() && kp >= 2 && Spells(i, o, c)
      modifies this`kp, this`b, buf
      ensures Valid() && b == old(b).(k := Ins(i, old(b).k))
    {
      kp := kp - 2;
      buf[kp], buf[kp + 1] := Op(o), c;
      LiesKept(old(buf[..]), buf[..], kp + 2, b.k);
      b := b.(k := Ins(i, b.k));
    }

    /** c1_apn: a return at Kp is made the tail call, in its place. */
    method LayAp(n: nat)
      requires Valid() && Words(ApK(n, b.k)) <= buf.Length
      modifies this`kp, this`b, buf
      ensures Valid() && b == old(b).(k := ApK(n, old(b).k))
    {
      LiesWords(buf[..], kp, b.k);
      var tail := kp < buf.Length && buf[kp] == Op(ORet);
      if tail {
        ghost var d, k := b.k.i.n, b.k.k;
        if n == 1 {
          buf[kp] := Op(OTap);
          LiesKept(old(buf[..]), buf[..], kp + 2, k);
          b := b.(k := Ins(Tap(d), k));
        } else {
          kp := kp - 1;
          buf[kp], buf[kp + 1] := Op(OTapn), Count(n);
          LiesKept(old(buf[..]), buf[..], kp + 3, k);
          b := b.(k := Ins(Tapn(n, d), k));
        }
      } else if n == 1 {
        Lay1(OAp, Ap);
      } else {
        Lay2(OApn, Count(n), Apn(n));
      }
    }

    /** c1_cond_exit: the exit's own return or tail call copied, or a jump to it. */
    method LayExit()
      requires Valid() && b.exit != [] && Found(b.k, b.exit[0]) && Words(Put(CondExit, b).k) <= buf.Length
      modifies this`kp, this`b, buf
      ensures Valid() && b == Put(CondExit, old(b))
    {
      LiesWords(buf[..], kp, b.k);
      LiesFound(buf[..], kp, b.k, Suffix(b.k, b.exit[0]));
      CopyExit(exit[0], Suffix(b.k, b.exit[0]));
    }

    method CopyExit(a: nat, ghost kx: Code)
      requires Valid() && Lies(buf[..], a, kx) && a + Words(kx) == buf.Length && kp + Words(b.k) == buf.Length
      requires Words(ExitK(kx, b.k)) <= buf.Length
      modifies this`kp, this`b, buf
      ensures Valid() && b == old(b).(k := ExitK(kx, old(b).k))
    {
      if a < buf.Length && (buf[a] == Op(ORet) || buf[a] == Op(OTap)) {
        Lay2(buf[a].o, buf[a + 1], kx.i);
      } else if a < buf.Length && buf[a] == Op(OTapn) {
        Lay3(a, kx.i);
      } else {
        Lay2(OJump, Addr(a), Jump(Words(kx)));
      }
    }

    method Lay3(a: nat, ghost i: Instr)
      requires Valid() && kp >= 3 && i.Tapn? && InsLies(buf[..], a, i)
      modifies this`kp, this`b, buf
      ensures Valid() && b == old(b).(k := Ins(i, old(b).k))
    {
      var n, r := buf[a + 1], buf[a + 2];
      kp := kp - 3;
      buf[kp], buf[kp + 1], buf[kp + 2] := Op(OTapn), n, r;
      LiesKept(old(buf[..]), buf[..], kp + 3, b.k);
      b := b.(k := Ins(i, b.k));
    }

    /** One emitter. */
    method Emit(e: Emit)
      requires Valid() && Words(Put(e, b).k) <= buf.Length && (e.CondExit? && b.exit != [] ==> Found(b.k, b.exit[0]))
      modifies this, buf
      ensures Valid() && b == Put(e, old(b))
    {
      LiesWords(buf[..], kp, b.k);
      match e
      case PutQuote(x) => Lay2(OQuote, Val(x), Quote(x));
      case PutPrim(op, n) => Lay1(OPrim(op, n), Prim(op, n));
      case PutVar(i, st) => Lay2(OArg, Count(EsLen(st) + i), Arg(EsLen(st) + i));
      case PutAp(n) => LayAp(n);
      case CondExit => if exit != [] { LayExit(); }
      case PutCur(n) => if n != 1 { Lay2(OCur, Count(n), Cur(n)); }
      case PutRet(n) => Lay2(ORet, Count(n), Ret(n));
      case PutYield => Lay1Yield();
      case PushBranch => Label(e);
      case PopBranch => Label(e);
      case PushExit => Label(e);
      case PopExit => Label(e);
    }

    /** The labels, opened at Kp and closed. */
    method Label(e: Emit)
      requires Valid() && kp + Words(b.k) == buf.Length && Words(Put(e, b).k) <= buf.Length
      requires e.PushBranch? || e.PopBranch? || e.PushExit? || e.PopExit?
      modifies this, buf
      ensures Valid() && b == Put(e, old(b))
    {
      if e.PushBranch? {
        branch := [kp] + branch;
        b := Put(e, b);
      } else if e.PopBranch? && branch != [] {
        Lay2(OCond, Addr(branch[0]), Cond(b.branch[0]));
        branch := branch[1..];
        b := b.(branch := b.branch[1..]);
      } else if e.PushExit? {
        exit := [kp] + exit;
        b := Put(e, b);
      } else if e.PopExit? && exit != [] {
        exit := exit[1..];
        b := b.(exit := b.exit[1..]);
      }
    }

    method Lay1Yield()
      requires Valid() && kp >= 2
      modifies this`kp, this`b, buf
      ensures Valid() && b == old(b).(k := Ins(Yield, old(b).k))
    {
      kp := kp - 2;
      buf[kp], buf[kp + 1] := Op(OYield), Blank;
      LiesKept(old(buf[..]), buf[..], kp + 2, b.k);
      b := b.(k := Ins(Yield, b.k));
    }

    /** c1: the emitters pulled, last pushed first. No word is written outside the words reserved. */
    method Pull(es: Emits)
      requires Valid() && Words(PutAll(es, b).k) <= buf.Length && Fits(es, b)
      modifies this, buf
      ensures Valid() && b == PutAll(es, old(b))
    {
      var rest := es;
      while rest.Then?
        invariant Valid() && Fits(rest, b) && PutAll(rest, b) == PutAll(es, old(b))
        decreases rest
      {
        PutAllGrows(rest.rest, Put(rest.e, b));
        Emit(rest.e);
        rest := rest.rest;
      }
    }
  }

  /** An expression's thread, in a buffer of just the words analysis reserved. */
  method Thread(p: Prog, e: Expr) returns (x: Emitter)
    requires Wf(p.Ar(), e, 0)
    ensures fresh(x) && fresh(x.buf) && x.buf.Length == TopAna(p, e).len
    ensures Lies(x.buf[..], x.kp, Compile(p, e))
  {
    var a := TopAna(p, e);
    CompileIs(p, e);
    TopFits(p, e);
    x := new Emitter(a.len);
    x.Pull(a.es);
  }

  lemma TopFits(p: Prog, e: Expr)
    requires Wf(p.Ar(), e, 0)
    ensures Fits(TopAna(p, e).es, Buf(End, [], []))
  {
    AnalyzeLays(p, p.Ar(), e, 0, Ana(Last, 0, Bare), Buf(Ins(Yield, End), [], []));
  }

  lemma LamFits(p: Prog, n: nat, body: Expr)
    requires Wf(p.Ar(), body, n)
    ensures Fits(LamAna(p, n, body).es, Buf(End, [], []))
  {
    var a, b := Ana(Then(PutCur(n), Last), 4, Bare), Buf(Ins(Ret(n), End), [], []);
    AnalyzeLays(p, p.Ar(), body, n, a, b);
    assert Fits(a.es, b.(k := Gen(p, body, 0, b.k))) by { assert Fits(Last, Put(PutCur(n), b.(k := Gen(p, body, 0, b.k)))); }
  }

  /** A function's thread. */
  method Function(p: Prog, n: nat, body: Expr) returns (x: Emitter)
    requires Wf(p.Ar(), body, n)
    ensures fresh(x) && fresh(x.buf) && x.buf.Length == LamAna(p, n, body).len
    ensures Lies(x.buf[..], x.kp, CodeOf(p, Lam(n, body)))
  {
    var a := LamAna(p, n, body);
    LamCode(p, n, body);
    LamFits(p, n, body);
    x := new Emitter(a.len);
    x.Pull(a.es);
  }
}
