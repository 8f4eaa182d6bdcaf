/** The fork-join pool of src/love/pool.c as a state machine over the steps of its threads. A critical
    section is one step, for what it reads and writes is touched only under the mutex; what the chunk loop
    reads outside it, the claim, the bound and the job, is read in steps of its own. */
module Pool {
  import opened Options

  /** gen and seen are 32 bits wide. */
  const WRAP: nat := 0x1_0000_0000

  /** Where a thread is. The caller between jobs; the caller making workers for n chunks at width w; in
      the chunk loop before its claim, with a claim, running a chunk, and past it; the caller asleep on
      done; a worker at its check; a worker asleep on go. */
  datatype Pc = Ready | Making(n: nat, w: nat) | Claim | Got(i: nat) | Run(i: nat) | Leave | JoinWait | Check | Asleep {
    predicate Inside() { Claim? || Got? || Run? }
    predicate Holds(j: nat) { (Got? && i == j) || (Run? && i == j) }
  }

  datatype Thread = Thread(pc: Pc, seen: nat)

  /** What became of a claim. */
  datatype Mark = Held(t: nat) | Ran | Over

  /** Thread 0 is the caller, the workers the others. job stands for the function and its context. The
      history: the chunk count of each job so far, each claim of the last, every chunk run, and how many workers
      counted into the last job had its generation before it was posted. */
  datatype State = State(gen: nat, job: nat, n: nat, next: nat, part: nat, left: nat, busy: bool, th: seq<Thread>,
                         ns: seq<nat>, claims: seq<Mark>, ran: multiset<(nat, nat)>, lost: nat)

  datatype Step =
    | Ask(n: nat, w: nat) | Create | Serial | Post | Join
    | Look(t: nat) | Take(t: nat) | Test(t: nat) | Chunk(t: nat) | Finish(t: nat) | Spurious(t: nat)

  const Init: State := State(0, 0, 0, 0, 0, 0, false, [Thread(Ready, 0)], [], [], multiset{}, 0)

  function Min(a: int, b: int): (r: int) { if a < b then a else b }

  ghost predicate Can(s: State, a: Step) {
    |s.th| >= 1 &&
    match a
    case Ask(n, w) => s.th[0].pc.Ready? && 2 <= w <= n
    case Create => s.th[0].pc.Making? && |s.th| < s.th[0].pc.w
    case Serial => s.th[0].pc.Making? && |s.th| == 1
    case Post => s.th[0].pc.Making? && |s.th| >= 2 && s.th[0].pc.w >= 2
    case Join => s.th[0].pc.Leave?
    case Look(t) => 1 <= t < |s.th| && s.th[t].pc.Check?
    case Take(t) => t < |s.th| && s.th[t].pc.Claim?
    case Test(t) => t < |s.th| && s.th[t].pc.Got?
    case Chunk(t) => t < |s.th| && s.th[t].pc.Run?
    case Finish(t) => 1 <= t < |s.th| && s.th[t].pc.Leave? && s.left > 0
    case Spurious(t) => t < |s.th| && (s.th[t].pc.Asleep? || s.th[t].pc.JoinWait?)
  }

  function Woken(th: seq<Thread>): (r: seq<Thread>) {
    seq(|th|, (i: nat) requires i < |th| => if th[i].pc.Asleep? then Thread(Check, th[i].seen) else th[i])
  }

  function At(s: State, t: nat, pc: Pc): (r: State)
    requires t < |s.th|
  { s.(th := s.th[t := Thread(pc, s.th[t].seen)]) }

  function Next(gen: nat): (g: nat) { if gen + 1 < WRAP then gen + 1 else 0 }

  /** How many of the workers below k have seen the generation. */
  function Stale(th: seq<Thread>, gen: nat, k: nat): (n: nat)
    requires k <= |th|
    ensures n == 0 <==> forall t :: 1 <= t < k ==> th[t].seen != gen
  { if k <= 1 then 0 else Stale(th, gen, k - 1) + if th[k - 1].seen == gen then 1 else 0 }

  function Do(s: State, a: Step): (r: State)
    requires Can(s, a)
  {
    match a
    case Ask(n, w) => At(s, 0, Making(n, w))
    // a worker is made; it has seen nothing
    case Create => s.(th := s.th + [Thread(Check, 0)])
    // none could be made: the caller runs the chunks itself
    case Serial => At(s, 0, Ready)
    case Post =>
      var p := s.th[0].pc;
      var w := Min(p.w, |s.th|);
      var th, gen := Woken(s.th[0 := Thread(Claim, 0)]), Next(s.gen);
      State(gen, |s.ns|, p.n, 0, w - 1, w - 1, true, th, s.ns + [p.n], [], s.ran, Stale(th, gen, w))
    case Join => if s.left == 0 then At(s, 0, Ready).(busy := false) else At(s, 0, JoinWait)
    case Look(t) =>
      if s.gen == s.th[t].seen then At(s, t, Asleep)
      else s.(th := s.th[t := Thread(if t - 1 < s.part then Claim else Check, s.gen)])
    // the fetch-and-add
    case Take(t) => At(s, t, Got(s.next)).(next := s.next + 1, claims := s.claims + [Held(t)])
    case Test(t) =>
      var i := s.th[t].pc.i;
      if i < s.n then At(s, t, Run(i)) else At(s, t, Leave).(claims := Marked(s.claims, i, Over))
    case Chunk(t) =>
      var i := s.th[t].pc.i;
      At(s, t, Claim).(claims := Marked(s.claims, i, Ran), ran := s.ran + multiset{(s.job, i)})
    case Finish(t) =>
      var s1 := At(s, t, Check).(left := s.left - 1);
      if s1.left == 0 && s1.th[0].pc.JoinWait? then At(s1, 0, Leave) else s1
    case Spurious(t) => At(s, t, if s.th[t].pc.Asleep? then Check else Leave)
  }

  function Marked(c: seq<Mark>, i: nat, m: Mark): (r: seq<Mark>) { if i < |c| then c[i := m] else c }

  // ----- what every step keeps

  predicate Working(s: State) { |s.th| >= 1 && !s.th[0].pc.Ready? && !s.th[0].pc.Making? }

  /** A participant still owes the job its decrement. */
  predicate Owes(s: State, t: nat)
    requires t < |s.th|
  {
    1 <= t <= s.part && (s.th[t].seen != s.gen || s.th[t].pc.Inside() || s.th[t].pc.Leave?)
  }

  /** How many of the threads below k owe. */
  function Owing(s: State, k: nat): (n: nat)
    requires k <= |s.th|
    ensures n <= k
  { if k == 0 then 0 else Owing(s, k - 1) + if Owes(s, k - 1) then 1 else 0 }

  predicate CallerPc(pc: Pc) { pc.Ready? || pc.Making? || pc.Claim? || pc.Got? || pc.Run? || pc.Leave? || pc.JoinWait? }
  predicate WorkerPc(pc: Pc) { pc.Check? || pc.Asleep? || pc.Claim? || pc.Got? || pc.Run? || pc.Leave? }

  /** The worker t: asleep only with nothing new to see; in the job only as a participant that has seen it. */
  ghost predicate WorkerOk(s: State, t: nat)
    requires t < |s.th|
  {
    var x := s.th[t];
    && WorkerPc(x.pc)
    && x.seen <= |s.ns|
    && (x.pc.Asleep? ==> x.seen == s.gen)
    && (x.pc.Inside() || x.pc.Leave? ==> t <= s.part && x.seen == s.gen && Working(s))
  }

  /** The count of jobs in 32 bits. */
  function Wrapped(jobs: nat): (gen: nat)
    ensures gen <= jobs && gen < WRAP
  { if jobs == 0 then 0 else Next(Wrapped(jobs - 1)) }

  lemma {:induction false} WrappedLow(jobs: nat)
    requires jobs < WRAP
    ensures Wrapped(jobs) == jobs
  {
    if jobs > 0 { WrappedLow(jobs - 1); }
  }

  ghost predicate CallerOk(s: State) {
    && |s.th| >= 1 && CallerPc(s.th[0].pc)
    && s.gen == Wrapped(|s.ns|) && s.part < |s.th|
    && (s.busy <==> Working(s))
    && (Working(s) ==> |s.ns| >= 1 && s.job == |s.ns| - 1 && s.n == s.ns[|s.ns| - 1])
    && (!Working(s) ==> s.left == 0)
    && (s.th[0].pc.JoinWait? ==> s.left > 0)
    && (s.th[0].pc.Making? ==> s.th[0].pc.w >= 2)
    && s.left == Owing(s, |s.th|) + s.lost
  }

  ghost predicate ThreadsOk(s: State) { forall t :: 1 <= t < |s.th| ==> WorkerOk(s, t) }

  /** What thread t holds is its claim; it runs within the bound, and leaves only past it. */
  ghost predicate ThreadClaims(s: State, t: nat)
    requires t < |s.th|
  {
    var pc := s.th[t].pc;
    && (pc.Got? || pc.Run? ==> pc.i < |s.claims| && s.claims[pc.i] == Held(t))
    && (pc.Run? ==> pc.i < s.n)
    && (pc.Leave? || pc.JoinWait? ==> s.next >= s.n)
  }

  /** A claim held is held by that thread; one let go is run, or was past the bound. */
  ghost predicate MarkOk(s: State, i: nat)
    requires i < |s.claims|
  {
    match s.claims[i]
    case Held(t) => t < |s.th| && s.th[t].pc.Holds(i)
    case Ran => i < s.n
    case Over => i >= s.n
  }

  ghost predicate ClaimsOk(s: State) {
    && |s.claims| == s.next
    && (forall t :: 0 <= t < |s.th| ==> ThreadClaims(s, t))
    && (forall i :: 0 <= i < |s.claims| ==> MarkOk(s, i))
  }

  /** Every job before is run whole; the current one as far as its claims say. */
  ghost predicate RanOk(s: State) {
    && (forall j: nat, i: nat :: 0 <= j < |s.ns| && (j + 1 < |s.ns| || !Working(s)) ==> s.ran[(j, i)] == if 0 <= i < s.ns[j] then 1 else 0)
    && (Working(s) ==> forall i: nat :: s.ran[(s.job, i)] == if 0 <= i < |s.claims| && s.claims[i].Ran? then 1 else 0)
    && (forall j: nat, i: nat :: j >= |s.ns| ==> s.ran[(j, i)] == 0)
  }

  ghost predicate Inv(s: State) { CallerOk(s) && ThreadsOk(s) && ClaimsOk(s) && RanOk(s) }

  // ----- the count of those who owe

  lemma {:induction false} OwingChange(s: State, s': State, t: nat, k: nat)
    requires t < |s.th| == |s'.th| && k <= |s.th|
    requires forall x :: 0 <= x < |s.th| && x != t ==> Owes(s', x) == Owes(s, x)
    ensures Owing(s', k) == Owing(s, k) + if t < k then (if Owes(s', t) then 1 else 0) - (if Owes(s, t) then 1 else 0) else 0
  {
    if k > 0 { OwingChange(s, s', t, k - 1); }
  }

  lemma {:induction false} OwingSame(s: State, s': State, k: nat)
    requires k <= |s.th| && k <= |s'.th| && forall x :: 0 <= x < k ==> Owes(s', x) == Owes(s, x)
    ensures Owing(s', k) == Owing(s, k)
  {
    if k > 0 { OwingSame(s, s', k - 1); }
  }

  lemma {:induction false} OwingNone(s: State, t: nat, k: nat)
    requires t < k <= |s.th| && Owing(s, k) == 0
    ensures !Owes(s, t)
  {
    if t < k - 1 { OwingNone(s, t, k - 1); }
  }

  lemma {:induction false} OwingSome(s: State, t: nat, k: nat)
    requires t < k <= |s.th| && Owes(s, t)
    ensures Owing(s, k) > 0
  {
    if t < k - 1 { OwingSome(s, t, k - 1); }
  }

  // ----- step by step

  /** Nothing but one thread's place changed, and it holds no chunk, before or after. */
  lemma ClaimsKept(s: State, s': State, t: nat)
    requires ClaimsOk(s) && t < |s.th| == |s'.th| && s'.claims == s.claims && s'.next == s.next && s'.n == s.n
    requires forall x :: 0 <= x < |s.th| && x != t ==> s'.th[x].pc == s.th[x].pc
    requires !s.th[t].pc.Got? && !s.th[t].pc.Run? && ThreadClaims(s', t)
    requires !s'.th[t].pc.Got? && !s'.th[t].pc.Run?
    ensures ClaimsOk(s')
  {
    forall x | 0 <= x < |s'.th| ensures ThreadClaims(s', x) { assert ThreadClaims(s, x); }
    forall i | 0 <= i < |s'.claims| ensures MarkOk(s', i) { assert MarkOk(s, i); }
  }

  /** The workers but t are as they were. */
  lemma ThreadsKept(s: State, s': State, t: nat)
    requires ThreadsOk(s) && |s'.th| >= |s.th| && s'.gen == s.gen && s'.part == s.part && s'.ns == s.ns
    requires forall x :: 1 <= x < |s.th| && x != t ==> s'.th[x] == s.th[x]
    requires forall x :: (|s.th| <= x < |s'.th|) || (x == t && 1 <= t < |s.th|) ==> WorkerOk(s', x)
    requires Working(s') == Working(s)
    ensures ThreadsOk(s')
  {
    forall x | 1 <= x < |s'.th| ensures WorkerOk(s', x) {
      if x < |s.th| { assert WorkerOk(s, x); }
    }
  }

  lemma KeepAsk(s: State, a: Step)
    requires Inv(s) && a.Ask? && Can(s, a)
    ensures Inv(Do(s, a))
  {
    OwingChange(s, Do(s, a), 0, |s.th|);
    ThreadsKept(s, Do(s, a), 0);
    ClaimsKept(s, Do(s, a), 0);
  }

  lemma KeepCreate(s: State)
    requires Inv(s) && Can(s, Create)
    ensures Inv(Do(s, Create))
  {
    var s' := Do(s, Create);
    OwingSame(s, s', |s.th|);
    ThreadsKept(s, s', 0);
    forall x | 0 <= x < |s'.th| ensures ThreadClaims(s', x) { if x < |s.th| { assert ThreadClaims(s, x); } }
    forall i | 0 <= i < |s'.claims| ensures MarkOk(s', i) { assert MarkOk(s, i); }
  }

  lemma KeepSerial(s: State)
    requires Inv(s) && Can(s, Serial)
    ensures Inv(Do(s, Serial))
  {
    OwingChange(s, Do(s, Serial), 0, |s.th|);
    ThreadsKept(s, Do(s, Serial), 0);
    ClaimsKept(s, Do(s, Serial), 0);
  }

  lemma KeepPost(s: State)
    requires Inv(s) && Can(s, Post)
    ensures Inv(Do(s, Post))
  {
    var s' := Do(s, Post);
    NoneInside(s);
    forall t: nat | 1 <= t < |s'.th| ensures WorkerOk(s', t) && ThreadClaims(s', t) && !s'.th[t].pc.Inside() && !s'.th[t].pc.Leave? {
      assert WorkerOk(s, t);
    }
    OwingSplit(s', |s'.th|);
  }

  lemma {:induction false} OwingSplit(s: State, k: nat)
    requires s.part < |s.th| && k <= |s.th|
    requires forall t :: 1 <= t < |s.th| ==> !s.th[t].pc.Inside() && !s.th[t].pc.Leave?
    ensures Owing(s, k) + Stale(s.th, s.gen, if k <= s.part + 1 then k else s.part + 1) == if k == 0 then 0 else Min(k - 1, s.part)
  {
    if k > 0 { OwingSplit(s, k - 1); }
  }

  lemma KeepJoin(s: State)
    requires Inv(s) && Can(s, Join)
    ensures Inv(Do(s, Join))
  {
    var s' := Do(s, Join);
    assert ThreadClaims(s, 0);
    OwingChange(s, s', 0, |s.th|);
    ClaimsKept(s, s', 0);
    if s.left == 0 {
      NoneInside(s);
      forall t | 1 <= t < |s.th| ensures WorkerOk(s', t) { assert WorkerOk(s, t); }
      JoinRan(s);
    } else {
      ThreadsKept(s, s', 0);
    }
  }

  lemma NoneInside(s: State)
    requires Inv(s) && s.left == 0
    ensures forall t :: 1 <= t < |s.th| ==> !s.th[t].pc.Inside() && !s.th[t].pc.Leave?
  {
    forall t | 1 <= t < |s.th| ensures !s.th[t].pc.Inside() && !s.th[t].pc.Leave? {
      OwingNone(s, t, |s.th|);
      assert WorkerOk(s, t);
    }
  }

  /** With nobody left in the job, every chunk is run, once. */
  lemma JoinRan(s: State)
    requires Inv(s) && Can(s, Join) && s.left == 0
    ensures forall i: nat :: s.ran[(s.job, i)] == if i < s.n then 1 else 0
  {
    NoneInside(s);
    assert ThreadClaims(s, 0);
    forall i: nat ensures s.ran[(s.job, i)] == if i < s.n then 1 else 0 {
      if i < |s.claims| { assert MarkOk(s, i); }
    }
  }

  lemma KeepLook(s: State, t: nat)
    requires Inv(s) && Can(s, Look(t))
    ensures Inv(Do(s, Look(t)))
  {
    var s' := Do(s, Look(t));
    assert WorkerOk(s, t);
    OwingChange(s, s', t, |s.th|);
    if s'.th[t].pc.Claim? { OwingSome(s, t, |s.th|); }
    ThreadsKept(s, s', t);
    ClaimsKept(s, s', t);
  }

  lemma KeepTake(s: State, t: nat)
    requires Inv(s) && Can(s, Take(t))
    ensures Inv(Do(s, Take(t)))
  {
    var s' := Do(s, Take(t));
    if t > 0 { assert WorkerOk(s, t); }
    OwingChange(s, s', t, |s.th|);
    ThreadsKept(s, s', t);
    forall x | 0 <= x < |s'.th| ensures ThreadClaims(s', x) { assert ThreadClaims(s, x); }
    forall i | 0 <= i < |s'.claims| ensures MarkOk(s', i) { if i < |s.claims| { assert MarkOk(s, i); } }
  }

  /** A claim let go. */
  lemma ClaimLet(s: State, s': State, t: nat, i: nat, m: Mark)
    requires ClaimsOk(s) && t < |s.th| && s.th[t].pc.Holds(i)
    requires i < |s.claims| && |s'.th| == |s.th| && s'.th == s.th[t := s'.th[t]]
    requires s'.claims == s.claims[i := m] && s'.next == s.next && s'.n == s.n
    requires !s'.th[t].pc.Got? && ThreadClaims(s', t) && (m.Held? ==> m.t == t && s'.th[t].pc == Run(i)) && MarkOk(s', i)
    requires m.Held? || !s'.th[t].pc.Run?
    ensures ClaimsOk(s')
  {
    assert ThreadClaims(s, t);
    forall x | 0 <= x < |s'.th| ensures ThreadClaims(s', x) { assert ThreadClaims(s, x); }
    forall j | 0 <= j < |s'.claims| ensures MarkOk(s', j) { assert MarkOk(s, j); }
  }

  lemma KeepTest(s: State, t: nat)
    requires Inv(s) && Can(s, Test(t))
    ensures Inv(Do(s, Test(t)))
  {
    var s', i := Do(s, Test(t)), s.th[t].pc.i;
    assert ThreadClaims(s, t) && MarkOk(s, i);
    if t > 0 { assert WorkerOk(s, t); }
    OwingChange(s, s', t, |s.th|);
    ThreadsKept(s, s', t);
    ClaimLet(s, s', t, i, if i < s.n then Held(t) else Over);
  }

  lemma KeepChunk(s: State, t: nat)
    requires Inv(s) && Can(s, Chunk(t))
    ensures Inv(Do(s, Chunk(t)))
  {
    var s', i := Do(s, Chunk(t)), s.th[t].pc.i;
    assert ThreadClaims(s, t) && MarkOk(s, i);
    if t > 0 { assert WorkerOk(s, t); }
    OwingChange(s, s', t, |s.th|);
    ThreadsKept(s, s', t);
    ClaimLet(s, s', t, i, Ran);
  }

  lemma KeepFinish(s: State, t: nat)
    requires Inv(s) && Can(s, Finish(t))
    ensures Inv(Do(s, Finish(t)))
  {
    var s1, s' := At(s, t, Check).(left := s.left - 1), Do(s, Finish(t));
    assert WorkerOk(s, t) && ThreadClaims(s, 0);
    OwingChange(s, s1, t, |s.th|);
    ThreadsKept(s, s', t);
    ClaimsKept(s, s1, t);
    if s' != s1 {
      OwingChange(s1, s', 0, |s.th|);
      ClaimsKept(s1, s', 0);
    }
  }

  lemma KeepSpurious(s: State, t: nat)
    requires Inv(s) && Can(s, Spurious(t))
    ensures Inv(Do(s, Spurious(t)))
  {
    var s' := Do(s, Spurious(t));
    assert ThreadClaims(s, t);
    if t > 0 { assert WorkerOk(s, t); }
    OwingChange(s, s', t, |s.th|);
    ThreadsKept(s, s', t);
    ClaimsKept(s, s', t);
  }

  /** Every step keeps the invariant, however often the generation has wrapped. */
  lemma Keep(s: State, a: Step)
    requires Inv(s) && Can(s, a)
    ensures Inv(Do(s, a))
  {
    match a
    case Ask(n, w) => KeepAsk(s, a);
    case Create => KeepCreate(s);
    case Serial => KeepSerial(s);
    case Post => KeepPost(s);
    case Join => KeepJoin(s);
    case Look(t) => KeepLook(s, t);
    case Take(t) => KeepTake(s, t);
    case Test(t) => KeepTest(s, t);
    case Chunk(t) => KeepChunk(s, t);
    case Finish(t) => KeepFinish(s, t);
    case Spurious(t) => KeepSpurious(s, t);
  }

  // ----- every run

  ghost function Play(s: State, run: seq<Step>): (r: Option<State>)
    decreases |run|
  { if run == [] then Some(s) else if Can(s, run[0]) then Play(Do(s, run[0]), run[1..]) else None }

  lemma {:induction false} PlayKeeps(s: State, run: seq<Step>)
    requires Inv(s) && Play(s, run).Some?
    ensures Inv(Play(s, run).value)
    decreases |run|
  {
    if run != [] {
      Keep(s, run[0]);
      PlayKeeps(Do(s, run[0]), run[1..]);
    }
  }

  lemma {:induction false} PlayGrows(s: State, run: seq<Step>)
    requires Play(s, run).Some?
    ensures |s.ns| <= |Play(s, run).value.ns|
    decreases |run|
  {
    if run != [] { PlayGrows(Do(s, run[0]), run[1..]); }
  }

  /** In every interleaving, of any number of jobs, with workers made when first wanted, every chunk of every job
      that was joined has run, exactly once; and no chunk of any job has run twice. Below 2^32 jobs no worker is
      lost. */
  lemma EveryRun(run: seq<Step>)
    requires Play(Init, run).Some?
    ensures var s := Play(Init, run).value;
            && Inv(s)
            && (forall j: nat, i: nat :: j + 1 < |s.ns| || (j < |s.ns| && !Working(s)) ==>
                  s.ran[(j, i)] == if i < s.ns[j] then 1 else 0)
            && (forall j: nat, i: nat :: s.ran[(j, i)] <= 1)
            && (|s.ns| < WRAP ==> s.lost == 0)
  {
    PlayKeeps(Init, run);
    if |Play(Init, run).value.ns| < WRAP { PlayFresh(Init, run); }
  }

  lemma {:induction false} PlayFresh(s: State, run: seq<Step>)
    requires Inv(s) && s.lost == 0 && Play(s, run).Some? && |Play(s, run).value.ns| < WRAP
    ensures Play(s, run).value.lost == 0
    decreases |run|
  {
    if run != [] {
      PlayGrows(Do(s, run[0]), run[1..]);
      Keep(s, run[0]);
      if run[0].Post? {
        FewFresh(s);
        FreshIs(s);
      }
      PlayFresh(Do(s, run[0]), run[1..]);
    }
  }

  // ----- workers counted in that cannot come

  /** No worker to be counted into the job has its generation already. */
  predicate Fresh(s: State)
    requires Can(s, Post)
  { forall t :: 1 <= t < Min(s.th[0].pc.w, |s.th|) ==> s.th[t].seen != Next(s.gen) }

  lemma FreshIs(s: State)
    requires Can(s, Post)
    ensures Fresh(s) <==> Do(s, Post).lost == 0
  {
    var s', w := Do(s, Post), Min(s.th[0].pc.w, |s.th|);
    forall t | 1 <= t < w ensures s'.th[t].seen == s.th[t].seen {}
  }

  lemma FewFresh(s: State)
    requires Inv(s) && Can(s, Post) && |s.ns| + 1 < WRAP
    ensures Fresh(s)
  {
    WrappedLow(|s.ns|);
    forall t | 1 <= t < Min(s.th[0].pc.w, |s.th|) ensures s.th[t].seen != Next(s.gen) { assert WorkerOk(s, t); }
  }

  /** A job that lost a worker is never joined: it is worked at for ever. */
  lemma {:induction false} NeverJoins(s: State, run: seq<Step>)
    requires Inv(s) && Working(s) && s.lost > 0 && Play(s, run).Some?
    ensures var s' := Play(s, run).value; Working(s') && s'.ns == s.ns && s'.lost == s.lost
    decreases |run|
  {
    if run != [] {
      Keep(s, run[0]);
      NeverJoins(Do(s, run[0]), run[1..]);
    }
  }

  ghost predicate CanJoin(s: State) {
    exists run :: Play(s, run).Some? && Play(s, run).value.th != [] && Play(s, run).value.th[0].pc.Ready?
  }

  lemma LostNever(s: State)
    requires Inv(s) && Working(s) && s.lost > 0
    ensures !CanJoin(s)
  {
    forall run | Play(s, run).Some? ensures Working(Play(s, run).value) { NeverJoins(s, run); }
  }

  /** So a job posted can be joined if and only if none of its workers has seen its generation. */
  lemma JoinsFresh(s: State)
    requires Inv(s) && Can(s, Post)
    ensures CanJoin(Do(s, Post)) <==> Fresh(s)
  {
    var s' := Do(s, Post);
    Keep(s, Post);
    FreshIs(s);
    if Fresh(s) {
      var run := Finishes(s');
      assert Play(s', run).value.th != [];
    } else {
      LostNever(s');
    }
  }

  /** While any thread is in the job, no step changes what the chunk loop reads. */
  lemma FieldsStable(s: State, a: Step, t: nat)
    requires Inv(s) && Can(s, a) && t < |s.th| && (s.th[t].pc.Inside() || s.th[t].pc.Leave?)
    ensures var s' := Do(s, a);
            s'.job == s.job && s'.n == s.n && s'.part == s.part && s'.gen == s.gen && s.next <= s'.next
  {
    if t > 0 { assert WorkerOk(s, t); }
  }

  /** The join returns only with every worker out of the job, and every chunk run; until then an ask from
      inside a chunk finds the pool busy. */
  lemma JoinWhole(s: State)
    requires Inv(s) && Can(s, Join)
    ensures s.busy
    ensures Do(s, Join).th[0].pc.Ready? ==>
              && (forall t :: 1 <= t < |s.th| ==> !s.th[t].pc.Inside() && !s.th[t].pc.Leave?)
              && (forall i: nat :: s.ran[(s.job, i)] == if i < s.n then 1 else 0)
  {
    if s.left == 0 {
      NoneInside(s);
      JoinRan(s);
    }
  }

  lemma BusyInside(s: State, t: nat)
    requires Inv(s) && t < |s.th| && (s.th[t].pc.Inside() || s.th[t].pc.Leave?)
    ensures s.busy
  {
    if t > 0 { assert WorkerOk(s, t); }
  }

  /** Who is asleep has nothing to do, and while the caller sleeps somebody is there to wake it. */
  lemma NoLostWakeup(s: State)
    requires Inv(s)
    ensures forall t :: 1 <= t < |s.th| && s.th[t].pc.Asleep? ==> !Owes(s, t)
    ensures s.th[0].pc.JoinWait? && s.lost == 0 ==> exists t :: 1 <= t < |s.th| && Owes(s, t) && !s.th[t].pc.Asleep?
  {
    forall t | 1 <= t < |s.th| && s.th[t].pc.Asleep? ensures !Owes(s, t) { assert WorkerOk(s, t); }
    if s.th[0].pc.JoinWait? && s.lost == 0 {
      var t := SomeOwes(s, |s.th|);
      assert WorkerOk(s, t);
    }
  }

  lemma {:induction false} SomeOwes(s: State, k: nat) returns (t: nat)
    requires k <= |s.th| && Owing(s, k) > 0
    ensures t < k && Owes(s, t)
  {
    if Owes(s, k - 1) { t := k - 1; } else { t := SomeOwes(s, k - 1); }
  }

  // ----- every job ends

  predicate Plain(a: Step) { a.Join? || a.Look? || a.Take? || a.Test? || a.Chunk? || a.Finish? }

  /** What is left of a thread's work in this job. */
  function Weight(s: State, x: Thread): (n: nat) {
    (if x.seen != s.gen && x.pc.Check? then 10 else 0) +
    match x.pc
    case Ready | Making(_, _) | Asleep => 0
    case Check => 1
    case JoinWait => 3
    case Leave => 4
    case Claim => 6
    case Run(_) => 7
    case Got(i) => if i < s.n then 8 else 5
  }

  function Weights(s: State, k: nat): (n: nat)
    requires k <= |s.th|
  { if k == 0 then 0 else Weights(s, k - 1) + Weight(s, s.th[k - 1]) }

  function Unclaimed(s: State): (n: nat) { if s.next < s.n then s.n - s.next else 0 }

  function Measure(s: State): (n: nat) { 4 * Unclaimed(s) + Weights(s, |s.th|) }

  lemma {:induction false} WeightsChange(s: State, s': State, t: nat, k: nat)
    requires t < |s.th| == |s'.th| && k <= |s.th| && s'.gen == s.gen && s'.n == s.n
    requires forall x :: 0 <= x < |s.th| && x != t ==> s'.th[x] == s.th[x]
    ensures Weights(s', k) == Weights(s, k) + if t < k then Weight(s', s'.th[t]) - Weight(s, s.th[t]) else 0
  {
    if k > 0 { WeightsChange(s, s', t, k - 1); }
  }

  lemma LessOne(s: State, s': State, t: nat)
    requires t < |s.th| == |s'.th| && s'.gen == s.gen && s'.n == s.n
    requires forall x :: 0 <= x < |s.th| && x != t ==> s'.th[x] == s.th[x]
    requires 4 * Unclaimed(s') + Weight(s', s'.th[t]) < 4 * Unclaimed(s) + Weight(s, s.th[t])
    ensures Measure(s') < Measure(s)
  {
    WeightsChange(s, s', t, |s.th|);
  }

  /** Each step but a spurious wakeup leaves less to do. */
  lemma Less(s: State, a: Step)
    requires Inv(s) && Can(s, a) && Plain(a) && Working(s)
    ensures Measure(Do(s, a)) < Measure(s)
  {
    match a
    case Join => LessOne(s, Do(s, a), 0);
    case Look(t) => LessOne(s, Do(s, a), t);
    case Take(t) => LessOne(s, Do(s, a), t);
    case Test(t) => LessOne(s, Do(s, a), t);
    case Chunk(t) => LessOne(s, Do(s, a), t);
    case Finish(t) => LessFinish(s, t);
  }

  lemma LessFinish(s: State, t: nat)
    requires Inv(s) && Can(s, Finish(t))
    ensures Measure(Do(s, Finish(t))) < Measure(s)
  {
    var s1, s' := At(s, t, Check).(left := s.left - 1), Do(s, Finish(t));
    assert WorkerOk(s, t);
    WeightsChange(s, s1, t, |s.th|);
    WeightsChange(s1, s', 0, |s.th|);
  }

  /** And until the caller is back there is such a step: no deadlock. */
  lemma Progress(s: State) returns (a: Step)
    requires Inv(s) && Working(s) && s.lost == 0
    ensures Plain(a) && Can(s, a)
  {
    var t: nat := 0;
    if s.th[0].pc.JoinWait? {
      t := SomeOwes(s, |s.th|);
      assert WorkerOk(s, t);
    }
    match s.th[t].pc
    case Claim => a := Take(t);
    case Got(_) => a := Test(t);
    case Run(_) => a := Chunk(t);
    case Leave => a := if t == 0 then Join else Finish(t);
    case Check => a := Look(t);
  }

  /** Every job ends: however its threads are scheduled, without spurious wakeups, in Measure steps. */
  lemma {:induction false} JobEnds(s: State, run: seq<Step>)
    requires Inv(s) && Working(s)
    requires Play(s, run).Some? && (forall i :: 0 <= i < |run| ==> Plain(run[i]))
    requires forall i :: 0 <= i < |run| ==> Play(s, run[..i]).Some? && Working(Play(s, run[..i]).value)
    ensures |run| <= Measure(s)
    decreases |run|
  {
    if run != [] {
      Less(s, run[0]);
      Keep(s, run[0]);
      var s1 := Do(s, run[0]);
      if |run| > 1 {
        assert run[..1][1..] == [] && run[..1][0] == run[0];
        assert Play(s, run[..1]) == Play(s1, run[..1][1..]);
        forall i | 0 <= i < |run[1..]| ensures Play(s1, run[1..][..i]).Some? && Working(Play(s1, run[1..][..i]).value) {
          assert run[..i + 1][1..] == run[1..][..i];
          assert Play(s, run[..i + 1]) == Play(s1, run[..i + 1][1..]);
        }
        JobEnds(s1, run[1..]);
      }
    }
  }

  lemma {:induction false} Finishes(s: State) returns (run: seq<Step>)
    requires Inv(s) && Working(s) && s.lost == 0
    ensures Play(s, run).Some?
    ensures var s' := Play(s, run).value; Inv(s') && s'.th[0].pc.Ready? && s'.ns == s.ns && |s'.th| == |s.th| && s'.lost == 0
    decreases Measure(s)
  {
    var a := Progress(s);
    Less(s, a);
    Keep(s, a);
    var s1 := Do(s, a);
    if Working(s1) {
      var bs := Finishes(s1);
      run := [a] + bs;
      assert run[1..] == bs;
    } else {
      run := [a];
      assert run[1..] == [];
    }
  }

  // ----- at the wrap

  lemma {:induction false} PlayThen(s: State, run: seq<Step>, more: seq<Step>)
    requires Play(s, run).Some?
    ensures Play(s, run + more) == Play(Play(s, run).value, more)
    decreases |run|
  {
    if run == [] {
      assert run + more == more;
    } else {
      assert (run + more)[1..] == run[1..] + more;
      PlayThen(Do(s, run[0]), run[1..], more);
    }
  }

  lemma PlayOne(s: State, a: Step)
    requires Can(s, a)
    ensures Play(s, [a]) == Some(Do(s, a))
  {
    assert [a][1..] == [];
    assert Play(Do(s, a), []) == Some(Do(s, a));
  }

  lemma PlayAnd(s: State, run: seq<Step>, a: Step)
    requires Play(s, run).Some? && Can(Play(s, run).value, a)
    ensures Play(s, run + [a]) == Some(Do(Play(s, run).value, a))
  {
    PlayThen(s, run, [a]);
    PlayOne(Play(s, run).value, a);
  }

  /** k jobs, one worker. */
  lemma {:induction false} ManyJobs(k: nat) returns (run: seq<Step>)
    requires 1 <= k < WRAP
    ensures Play(Init, run).Some?
    ensures var s := Play(Init, run).value; Inv(s) && s.th[0].pc.Ready? && |s.ns| == k && |s.th| == 2 && s.lost == 0
    decreases k
  {
    run := [];
    if k > 1 { run := ManyJobs(k - 1); }
    var s := Play(Init, run).value;
    Keep(s, Ask(2, 2));
    PlayAnd(Init, run, Ask(2, 2));
    run, s := run + [Ask(2, 2)], Do(s, Ask(2, 2));
    if k == 1 {
      Keep(s, Create);
      PlayAnd(Init, run, Create);
      run, s := run + [Create], Do(s, Create);
    }
    FewFresh(s);
    FreshIs(s);
    Keep(s, Post);
    PlayAnd(Init, run, Post);
    run, s := run + [Post], Do(s, Post);
    var more := Finishes(s);
    PlayThen(Init, run, more);
    run := run + more;
  }

  lemma LastJob(s: State) returns (s': State, run: seq<Step>)
    requires Inv(s) && s.th[0].pc.Ready? && |s.ns| == WRAP - 1 && |s.th| == 2
    ensures Play(s, run) == Some(s') && Inv(s') && Working(s') && s'.lost > 0
    ensures |s'.ns| == WRAP && |s'.th| == 3 && s'.th[2].pc.Asleep? && s'.part == s'.left == 2 && s'.claims == []
  {
    WrappedLow(|s.ns|);
    assert WorkerOk(s, 1);
    Keep(s, Ask(3, 3));
    PlayOne(s, Ask(3, 3));
    run, s' := [Ask(3, 3)], Do(s, Ask(3, 3));
    Keep(s', Create);
    PlayAnd(s, run, Create);
    run, s' := run + [Create], Do(s', Create);
    Keep(s', Post);
    assert !Fresh(s') by { assert s'.th[2].seen == Next(s'.gen); }
    FreshIs(s');
    PlayAnd(s, run, Post);
    run, s' := run + [Post], Do(s', Post);
    Keep(s', Look(2));
    PlayAnd(s, run, Look(2));
    run, s' := run + [Look(2)], Do(s', Look(2));
  }

  /** At the 2^32nd job the generation is 0 again: a worker made for that very job has seen 0, goes to
      sleep and never joins it, though it is counted; and no run from there joins the job. */
  lemma WrapLoses() returns (run: seq<Step>)
    ensures Play(Init, run).Some?
    ensures var s := Play(Init, run).value;
            |s.ns| == WRAP && |s.th| == 3 && s.th[2].pc.Asleep? && s.part == s.left == 2 && s.claims == [] && !CanJoin(s)
  {
    run := ManyJobs(WRAP - 1);
    var s, more := LastJob(Play(Init, run).value);
    PlayThen(Init, run, more);
    run := run + more;
    LostNever(s);
  }
}
