/** What the records of src/inle/sys.c are for: the status a process ended with is the one its parent is told, and
    its descriptors are open on what its spawn's actions said. */
module ProcFacts {
  import opened Options
  import opened Procs

  // ----- a status, from the end to the parent

  /** An end changes the others only in whose children they are. */
  lemma EndOthers(t: seq<Proc>, k: nat, status: int, i: nat)
    requires k < |t| && i < |t| && i != k
    ensures var p, q := t[i], Ended(t, k, status)[i];
            && q.live == p.live && q.status == p.status && q.rows == p.rows && q.cx == p.cx && q.nb == p.nb && q.m == p.m
            && (p.pid == 0 || p.ppid != t[k].pid ==> q == p)
            && (p.pid != 0 && p.ppid == t[k].pid ==> if p.live then q.pid == p.pid && q.ppid == 0 else q.pid == 0)
  {
  }

  /** Reaped after its end, a process with a parent answers the status; an orphan is no one's to ask. */
  lemma EndReaped(t: seq<Proc>, next: nat, done: set<nat>, k: nat, status: int)
    requires PidsOk(t, next, done) && k < |t| && t[k].live
    ensures ReapAnswer(Ended(t, k, status), t[k].pid) == if t[k].ppid != 0 then Shell(status) else ECHILD
  {
    var e, pid := Ended(t, k, status), t[k].pid;
    assert RecordOk(t, next, done, t[k]);
    forall i | 0 <= i < |t| && i != k ensures e[i].pid != pid {
      EndOthers(t, k, status, i);
      assert t[i].pid != pid;
    }
    if t[k].ppid != 0 { assert e[k].pid == pid; }
  }

  /** exit(a) is reaped as a's low byte. */
  lemma ExitReaped(t: seq<Proc>, next: nat, done: set<nat>, k: nat, a: int)
    requires PidsOk(t, next, done) && k < |t| && t[k].live && t[k].ppid != 0
    ensures ReapAnswer(Ended(t, k, a % 256 * 256), t[k].pid) == a % 256
  {
    EndReaped(t, next, done, k, a % 256 * 256);
    ShellOfExit(a % 256);
  }

  lemma ShellOfExit(c: nat)
    requires c < 256
    ensures Shell(c * 256) == c
  {
    assert c * 256 == 128 * (2 * c);
  }

  /** A kill is reaped as 128 and the signal. */
  lemma KillReaped(t: seq<Proc>, next: nat, done: set<nat>, k: nat, b: int)
    requires PidsOk(t, next, done) && k < |t| && t[k].live && t[k].ppid != 0 && 1 <= b <= 64
    ensures ReapAnswer(Ended(t, k, b), t[k].pid) == 128 + b
  {
    EndReaped(t, next, done, k, b);
  }

  /** And a parent that waits for it is told the status itself, its pid then no one's. */
  lemma EndWaited(t: seq<Proc>, next: nat, done: set<nat>, k: nat, status: int, j: nat, nohang: bool, r: int, st: int, t': seq<Proc>)
    requires PidsOk(t, next, done) && k < |t| && t[k].live && j < |t| && t[j].live && t[k].ppid == t[j].pid
    requires Waited(Ended(t, k, status), j, t[k].pid, nohang, r, st, t')
    ensures r == t[k].pid && st == status && t' == Freed(Ended(t, k, status), k)
  {
    var e, pid := Ended(t, k, status), t[k].pid;
    assert RecordOk(t, next, done, t[k]) && RecordOk(t, next, done, t[j]);
    EndOthers(t, k, status, j);
    assert e[k].pid == pid && e[j].pid == t[j].pid && IsKid(e, j, pid, k) && !e[k].live;
    forall i | 0 <= i < |t| && i != k ensures e[i].pid != pid {
      EndOthers(t, k, status, i);
      assert t[i].pid != pid;
    }
  }

  /** The slots a table has grown by are no one's and may be given; a reap of pid 0 that comes to them answers 0. */
  lemma GrownReaped(t: seq<Proc>, m: nat)
    requires m > 0 && forall k :: 0 <= k < |t| ==> t[k].pid != 0
    ensures var e := t + seq(m, i => Blank); ReapAnswer(e, 0) == 0 && forall k :: |t| <= k < |e| ==> e[k].pid == 0 && !e[k].m && !e[k].live
  {
    var e := t + seq(m, i => Blank);
    assert e[|t|] == Blank;
    forall i | 0 <= i < |t| ensures e[i].pid != 0 { assert e[i] == t[i]; }
  }

  /** A kill names a process by its pid, or by that negated, or itself by 0. */
  lemma KilledIs(t: seq<Proc>, next: nat, done: set<nat>, j: nat, k: nat)
    requires PidsOk(t, next, done) && j < |t| && k < |t| && t[k].pid != 0
    ensures Killed(t, j, t[k].pid) == k && Killed(t, j, -(t[k].pid as int)) == k && Killed(t, j, 0) == j
  {
    assert RecordOk(t, next, done, t[k]);
  }

  /** Of the signals there are, those whose default is to stop, to go on or to be ignored end no one: SIGCHLD,
      SIGCONT, SIGSTOP, SIGTSTP, SIGTTIN, SIGTTOU, SIGURG, SIGWINCH; and 0, which is none. */
  const SPARED: set<int> := {0, 17, 18, 19, 20, 21, 22, 23, 28}

  lemma SparesAre(b: int)
    ensures Spares(b) <==> b in SPARED
  {
    assert 19 <= b <= 23 <==> b in {19, 20, 21, 22, 23};
  }

  // ----- descriptors, from the actions to the child

  /** After the first i actions. */
  function After(d: Fds, ops: seq<Op>, i: nat): (r: Option<Fds>)
    requires |d.f| == FDS && i <= |ops|
    ensures r.Some? ==> |r.value.f| == FDS
  {
    if i == 0 then Some(d) else
      var e := After(d, ops, i - 1);
      if e.None? then None else Act(e.value, ops[i - 1].op, ops[i - 1].fd, ops[i - 1].src)
  }

  lemma {:induction false} AfterNone(d: Fds, ops: seq<Op>, i: nat, j: nat)
    requires |d.f| == FDS && i <= j <= |ops| && After(d, ops, i).None?
    ensures After(d, ops, j).None?
    decreases j
  {
    if i < j { AfterNone(d, ops, i, j - 1); }
  }

  lemma {:induction false} ActsFrom(d: Fds, ops: seq<Op>, i: nat)
    requires |d.f| == FDS && i <= |ops| && After(d, ops, i).Some?
    ensures Acts(After(d, ops, i).value, ops, i) ==
              match After(d, ops, |ops|)
              case None => None
              case Some(e) => Some(Fds(Kept(e.f, e.cx), {}, e.nb))
    decreases |ops| - i
  {
    if i < |ops| {
      if After(d, ops, i + 1).Some? { ActsFrom(d, ops, i + 1); } else { AfterNone(d, ops, i + 1, |ops|); }
    }
  }

  /** An action that can be taken: a close, or a dup2 of an open descriptor, to one there is. */
  predicate Takes(d: Fds, o: Op) {
    0 <= o.fd < FDS && (o.op == 2 || (o.op == 1 && 0 <= o.src < FDS == |d.f| && d.f[o.src] >= 0))
  }

  /** The i-th is reached and cannot be taken. */
  predicate StuckAt(d: Fds, ops: seq<Op>, i: nat)
    requires |d.f| == FDS && i < |ops|
  { After(d, ops, i).Some? && !Takes(After(d, ops, i).value, ops[i]) }

  lemma {:induction false} AfterStuck(d: Fds, ops: seq<Op>, n: nat)
    requires |d.f| == FDS && n <= |ops|
    ensures After(d, ops, n).None? <==> exists i :: 0 <= i < n && StuckAt(d, ops, i)
  {
    if n > 0 {
      AfterStuck(d, ops, n - 1);
      assert After(d, ops, n).None? <==> After(d, ops, n - 1).None? || StuckAt(d, ops, n - 1);
    }
  }

  /** The actions are refused just where one of them, after those before it, cannot be taken. */
  lemma ActsRefused(d: Fds, ops: seq<Op>)
    requires |d.f| == FDS
    ensures Acts(d, ops, 0).None? <==> exists i :: 0 <= i < |ops| && StuckAt(d, ops, i)
  {
    ActsFrom(d, ops, 0);
    AfterStuck(d, ops, |ops|);
  }

  /** Descriptors no action names from i on are left as they are. */
  lemma {:induction false} Unnamed(d: Fds, ops: seq<Op>, i: nat, n: nat, fd: nat)
    requires |d.f| == FDS && i <= n <= |ops| && fd < FDS && After(d, ops, n).Some? && forall j :: i <= j < n ==> ops[j].fd != fd
    ensures After(d, ops, i).Some?
    ensures var e, r := After(d, ops, i).value, After(d, ops, n).value;
            r.f[fd] == e.f[fd] && (fd in r.cx <==> fd in e.cx) && (fd in r.nb <==> fd in e.nb)
    decreases n
  {
    if i < n {
      Unnamed(d, ops, i, n - 1, fd);
    }
  }

  /** A descriptor the actions do not name is the parent's, unless it was to close on exec. */
  lemma ActsKeep(d: Fds, ops: seq<Op>, fd: nat)
    requires |d.f| == FDS && fd < FDS && Acts(d, ops, 0).Some? && forall j :: 0 <= j < |ops| ==> ops[j].fd != fd
    ensures var r := Acts(d, ops, 0).value; r.f[fd] == (if fd in d.cx then -1 else d.f[fd]) && (fd in r.nb <==> fd in d.nb) && fd !in r.cx
  {
    ActsFrom(d, ops, 0);
    Unnamed(d, ops, 0, |ops|, fd);
  }

  /** One they do is what the last of them to name it says: open on the file its source was open on just then, close
      on exec or not, and nonblocking as that was; or closed. */
  lemma ActsSay(d: Fds, ops: seq<Op>, i: nat)
    requires |d.f| == FDS && Acts(d, ops, 0).Some? && i < |ops| && forall j :: i < j < |ops| ==> ops[j].fd != ops[i].fd
    ensures After(d, ops, i).Some? && 0 <= ops[i].fd < FDS
    ensures var e, r, o := After(d, ops, i).value, Acts(d, ops, 0).value, ops[i];
            && o.fd !in r.cx
            && (o.op == 1 ==> 0 <= o.src < FDS && r.f[o.fd] == e.f[o.src] >= 0 && (o.fd in r.nb <==> o.src in e.nb))
            && (o.op != 1 ==> o.op == 2 && r.f[o.fd] < 0)
  {
    ActsFrom(d, ops, 0);
    if After(d, ops, i + 1).None? { AfterNone(d, ops, i + 1, |ops|); }
    Unnamed(d, ops, i + 1, |ops|, ops[i].fd);
  }
}
