/** The kernel's processes (src/inle/sys.c) as values: who holds which row, who has which pid, whose child is
    whose, and what a spawn's actions leave. */
module Procs {
  import opened Options

  /** A process's descriptors, and past them its exit pipe's end: the kernel's row each, -1 for none. */
  const FDS: nat := 64
  const EXITW: nat := 64
  const ALL: nat := 65
  const MOST: nat := 0x1_0000

  const ESRCH: int := -3
  const EBADF: int := -9
  const ECHILD: int := -10
  const EAGAIN: int := -11
  const ENOMEM: int := -12
  const EINVAL: int := -22
  const EMFILE: int := -24
  const RESTART: int := -512

  /** pid 0 is a free slot; ppid 0 an orphan's, 1 the kernel's; m, that the seat still holds its machine. */
  datatype Proc = Proc(pid: nat, ppid: nat, live: bool, status: int, rows: seq<int>, cx: set<nat>, nb: set<nat>, m: bool)

  type Owner = (nat, nat)

  function Nones(n: nat): (s: seq<int>)
    ensures |s| == n && forall i :: 0 <= i < n ==> s[i] == -1
  { if n == 0 then [] else Nones(n - 1) + [-1] }

  const NoRows: seq<int> := Nones(ALL)
  const Blank: Proc := Proc(0, 0, false, 0, NoRows, {}, {}, false)

  // ----- who holds which row

  ghost predicate PlaceOk(own: map<int, Owner>, k: nat, i: nat, r: int) {
    r >= -1 && (r >= 0 ==> r in own && own[r] == (k, i))
  }

  ghost predicate SlotOk(own: map<int, Owner>, k: nat, p: Proc) {
    |p.rows| == ALL && (p.live ==> forall i :: 0 <= i < ALL ==> PlaceOk(own, k, i, p.rows[i]))
  }

  ghost predicate Owned(t: seq<Proc>, r: int, o: Owner) {
    r >= 0 && o.0 < |t| && o.1 < ALL && |t[o.0].rows| == ALL && t[o.0].live && t[o.0].rows[o.1] == r
  }

  /** A live process's rows are owned by their places, and what is owned is such a row. */
  ghost predicate RowsOk(t: seq<Proc>, own: map<int, Owner>) {
    && (forall k :: 0 <= k < |t| ==> SlotOk(own, k, t[k]))
    && (forall r :: r in own ==> Owned(t, r, own[r]))
  }

  /** The open rows: other holders', those in the kernel's hand, and those owned; no row twice. */
  ghost predicate OpenOk(open: set<int>, others: set<int>, hand: set<int>, own: map<int, Owner>) {
    && open == others + hand + own.Keys
    && others !! hand && others !! own.Keys && hand !! own.Keys
    && forall r :: r in open ==> r >= 0
  }

  /** The rows a process holds. */
  function RowSet(rows: seq<int>): (s: set<int>) { set i | 0 <= i < |rows| && rows[i] >= 0 :: rows[i] }

  lemma RowSetPut(rows: seq<int>, i: nat, r: int)
    requires i < |rows| && rows[i] < 0 && r >= 0
    ensures RowSet(rows[i := r]) == RowSet(rows) + {r}
  {
    var rows' := rows[i := r];
    assert rows'[i] == r;
    forall x | x in RowSet(rows) ensures x in RowSet(rows') {
      var j :| 0 <= j < |rows| && rows[j] >= 0 && rows[j] == x;
      assert rows'[j] == x;
    }
  }

  lemma RowSetTake(own: map<int, Owner>, k: nat, p: Proc, i: nat)
    requires SlotOk(own, k, p) && p.live && i < ALL && p.rows[i] >= 0
    ensures RowSet(p.rows[i := -1]) == RowSet(p.rows) - {p.rows[i]}
  {
    var rows, rows' := p.rows, p.rows[i := -1];
    assert PlaceOk(own, k, i, rows[i]);
    forall x | x in RowSet(rows) - {rows[i]} ensures x in RowSet(rows') {
      var j :| 0 <= j < |rows| && rows[j] >= 0 && rows[j] == x;
      assert rows'[j] == x;
    }
    forall j | 0 <= j < ALL && rows'[j] >= 0 ensures rows'[j] != rows[i] { assert PlaceOk(own, k, j, rows[j]); }
  }

  lemma RowSetNone()
    ensures RowSet(NoRows) == {}
  {
  }

  function SetRow(t: seq<Proc>, k: nat, i: nat, r: int): (t': seq<Proc>)
    requires k < |t| && i < |t[k].rows|
  { t[k := t[k].(rows := t[k].rows[i := r])] }

  lemma PutKeeps(t: seq<Proc>, own: map<int, Owner>, k: nat, i: nat, r: nat)
    requires RowsOk(t, own) && k < |t| && i < ALL && SlotOk(own, k, t[k]) && t[k].live && t[k].rows[i] < 0 && r !in own
    ensures RowsOk(SetRow(t, k, i, r), own[r := (k, i)])
  {
    var t', own' := SetRow(t, k, i, r), own[r := (k, i)];
    forall q | q in own' ensures Owned(t', q, own'[q]) { if q != r { assert Owned(t, q, own[q]); } }
    forall a | 0 <= a < |t'| ensures SlotOk(own', a, t'[a]) {
      assert SlotOk(own, a, t[a]);
      if t'[a].live {
        forall b | 0 <= b < ALL ensures PlaceOk(own', a, b, t'[a].rows[b]) { assert PlaceOk(own, a, b, t[a].rows[b]); }
      }
    }
  }

  lemma TakeKeeps(t: seq<Proc>, own: map<int, Owner>, k: nat, i: nat)
    requires RowsOk(t, own) && k < |t| && i < ALL && SlotOk(own, k, t[k]) && t[k].live && t[k].rows[i] >= 0
    ensures RowsOk(SetRow(t, k, i, -1), own - {t[k].rows[i]})
  {
    var r: nat := t[k].rows[i];
    var t', own' := SetRow(t, k, i, -1), own - {r};
    assert PlaceOk(own, k, i, r);
    forall q | q in own' ensures Owned(t', q, own'[q]) { assert Owned(t, q, own[q]); }
    forall a | 0 <= a < |t'| ensures SlotOk(own', a, t'[a]) {
      assert SlotOk(own, a, t[a]);
      if t'[a].live {
        forall b | 0 <= b < ALL ensures PlaceOk(own', a, b, t'[a].rows[b]) { assert PlaceOk(own, a, b, t[a].rows[b]); }
      }
    }
  }

  /** A record changed but for its rows, while it lives. */
  lemma RecordKeeps(t: seq<Proc>, own: map<int, Owner>, k: nat, p: Proc)
    requires RowsOk(t, own) && k < |t| && p.rows == t[k].rows && (p.live <==> t[k].live)
    ensures RowsOk(t[k := p], own)
  {
    var t' := t[k := p];
    forall r | r in own ensures Owned(t', r, own[r]) { assert Owned(t, r, own[r]); }
    forall a | 0 <= a < |t'| ensures SlotOk(own, a, t'[a]) { assert SlotOk(own, a, t[a]); }
  }

  lemma GrowRows(t: seq<Proc>, own: map<int, Owner>, n: nat)
    requires RowsOk(t, own)
    ensures RowsOk(t + seq(n, i => Blank), own)
  {
    var t' := t + seq(n, i => Blank);
    forall r | r in own ensures Owned(t', r, own[r]) { assert Owned(t, r, own[r]); }
    forall a | 0 <= a < |t'| ensures SlotOk(own, a, t'[a]) { if a < |t| { assert SlotOk(own, a, t[a]); } }
  }

  // ----- who has which pid, whose child is whose

  ghost predicate HasParent(t: seq<Proc>, q: Proc) {
    q.ppid <= 1 || exists j :: 0 <= j < |t| && t[j].live && t[j].pid == q.ppid
  }

  /** A slot's record: its pid was given and not yet delivered, its parent is older and there. */
  ghost predicate RecordOk(t: seq<Proc>, next: nat, done: set<nat>, p: Proc) {
    && (p.live ==> p.pid != 0)
    && (p.pid != 0 ==> p.ppid < p.pid && 2 <= p.pid < next && p.pid !in done && HasParent(t, p))
  }

  /** Pids are distinct and given once; a process there is has a live parent, or the kernel, or none; a
      status delivered is of a pid no more. */
  ghost predicate PidsOk(t: seq<Proc>, next: nat, done: set<nat>) {
    && next >= 2
    && (forall k :: 0 <= k < |t| ==> RecordOk(t, next, done, t[k]))
    && (forall a, b :: 0 <= a < b < |t| && t[a].pid != 0 ==> t[a].pid != t[b].pid)
    && (forall d :: d in done ==> d < next)
  }

  ghost predicate SameId(p: Proc, q: Proc) {
    q.pid == p.pid && q.ppid == p.ppid && q.live == p.live && q.status == p.status && q.m == p.m
  }

  /** Nothing but process k's rows and bits changed. */
  ghost predicate Only(t: seq<Proc>, t': seq<Proc>, k: nat) {
    && k < |t| == |t'| && SameId(t[k], t'[k])
    && forall i :: 0 <= i < |t| && i != k ==> t'[i] == t[i]
  }

  lemma OnlyThen(t: seq<Proc>, t1: seq<Proc>, t2: seq<Proc>, k: nat)
    requires Only(t, t1, k) && Only(t1, t2, k)
    ensures Only(t, t2, k)
  {
  }

  lemma OnlyKeeps(t: seq<Proc>, t': seq<Proc>, k: nat, next: nat, done: set<nat>)
    requires PidsOk(t, next, done) && Only(t, t', k)
    ensures PidsOk(t', next, done)
  {
    forall i | 0 <= i < |t'| ensures RecordOk(t', next, done, t'[i]) {
      assert RecordOk(t, next, done, t[i]);
      if t[i].pid != 0 && t[i].ppid > 1 {
        var j :| 0 <= j < |t| && t[j].live && t[j].pid == t[i].ppid;
        assert t'[j].live && t'[j].pid == t'[i].ppid;
      }
    }
  }

  /** What a process's end leaves of p, if it was its child: an orphan, or where it was dead, nothing. */
  function Orphan(p: Proc, pid: nat): (q: Proc) {
    if p.pid == 0 || p.ppid != pid then p else if p.live then p.(ppid := 0) else p.(pid := 0)
  }

  /** And of itself: it holds nothing, and waits for its parent, if it has one. */
  function Dead(p: Proc, status: int): (q: Proc) {
    Proc(if p.ppid == 0 then 0 else p.pid, p.ppid, false, status, NoRows, {}, {}, p.m)
  }

  function Ended(t: seq<Proc>, k: nat, status: int): (t': seq<Proc>)
    requires k < |t|
    ensures |t'| == |t| && forall i :: 0 <= i < |t| ==> t'[i] == if i == k then Dead(t[k], status) else Orphan(t[i], t[k].pid)
  {
    seq(|t|, (i: nat) requires i < |t| => if i == k then Dead(t[k], status) else Orphan(t[i], t[k].pid))
  }

  lemma EndedOnly(t: seq<Proc>, t': seq<Proc>, k: nat, status: int)
    requires Only(t, t', k)
    ensures Ended(t', k, status) == Ended(t, k, status)
  {
    var e, e' := Ended(t, k, status), Ended(t', k, status);
    forall i | 0 <= i < |e| ensures e'[i] == e[i] { assert i != k ==> t'[i] == t[i]; }
  }

  lemma EndedRecord(t: seq<Proc>, k: nat, status: int, next: nat, done: set<nat>, i: nat)
    requires PidsOk(t, next, done) && k < |t| && t[k].live && i < |t|
    ensures RecordOk(Ended(t, k, status), next, done, Ended(t, k, status)[i])
  {
    var t' := Ended(t, k, status);
    assert RecordOk(t, next, done, t[i]) && RecordOk(t, next, done, t[k]);
    if t'[i].pid != 0 && t'[i].ppid > 1 {
      assert t'[i].ppid == t[i].ppid && t[i].ppid != t[k].pid;
      var j :| 0 <= j < |t| && t[j].live && t[j].pid == t[i].ppid;
      assert t'[j].live && t'[j].pid == t'[i].ppid;
    }
  }

  lemma EndedKeeps(t: seq<Proc>, k: nat, status: int, next: nat, done: set<nat>)
    requires PidsOk(t, next, done) && k < |t| && t[k].live
    ensures PidsOk(Ended(t, k, status), next, done)
  {
    var t' := Ended(t, k, status);
    forall i | 0 <= i < |t'| ensures RecordOk(t', next, done, t'[i]) { EndedRecord(t, k, status, next, done, i); }
    forall a, b | 0 <= a < b < |t'| && t'[a].pid != 0 ensures t'[a].pid != t'[b].pid {
      EndedPid(t, k, status, a);
      EndedPid(t, k, status, b);
    }
  }

  lemma EndedPid(t: seq<Proc>, k: nat, status: int, i: nat)
    requires k < |t| && i < |t|
    ensures Ended(t, k, status)[i].pid == 0 || Ended(t, k, status)[i].pid == t[i].pid
  {
  }

  lemma EndedRows(t: seq<Proc>, k: nat, status: int, own: map<int, Owner>)
    requires RowsOk(t, own) && k < |t| && t[k].rows == NoRows
    ensures RowsOk(Ended(t, k, status), own)
  {
    var t' := Ended(t, k, status);
    forall r | r in own ensures Owned(t', r, own[r]) { assert Owned(t, r, own[r]); }
    forall a | 0 <= a < |t'| ensures SlotOk(own, a, t'[a]) { assert SlotOk(own, a, t[a]); }
  }

  /** A slot freed for good, its process dead. */
  function Freed(t: seq<Proc>, k: nat): (t': seq<Proc>)
    requires k < |t|
  { t[k := t[k].(pid := 0)] }

  lemma FreedKeeps(t: seq<Proc>, k: nat, next: nat, done: set<nat>)
    requires PidsOk(t, next, done) && k < |t| && !t[k].live
    ensures PidsOk(Freed(t, k), next, done) && (t[k].pid != 0 ==> PidsOk(Freed(t, k), next, done + {t[k].pid}))
  {
    var t' := Freed(t, k);
    forall i, d | 0 <= i < |t'| && (d == done || (t[k].pid != 0 && d == done + {t[k].pid})) ensures RecordOk(t', next, d, t'[i]) {
      assert RecordOk(t, next, done, t[i]) && RecordOk(t, next, done, t[k]);
      if i != k && t[i].pid != 0 && t[i].ppid > 1 {
        var j :| 0 <= j < |t| && t[j].live && t[j].pid == t[i].ppid;
        assert t'[j].live && t'[j].pid == t'[i].ppid;
      }
    }
    assert RecordOk(t, next, done, t[k]);
  }

  /** A slot taken by a new process, of the next pid. */
  lemma MadeKeeps(t: seq<Proc>, k: nat, p: Proc, next: nat, done: set<nat>)
    requires PidsOk(t, next, done) && k < |t| && t[k].pid == 0 && p.pid == next && p.ppid < next && HasParent(t, p) && p.live
    ensures PidsOk(t[k := p], next + 1, done)
  {
    var t' := t[k := p];
    assert RecordOk(t, next, done, t[k]);
    forall i | 0 <= i < |t'| ensures RecordOk(t', next + 1, done, t'[i]) {
      assert RecordOk(t, next, done, t[i]);
      if t'[i].pid != 0 && t'[i].ppid > 1 {
        var j :| 0 <= j < |t| && t[j].live && t[j].pid == t'[i].ppid;
        assert t'[j].live && t'[j].pid == t'[i].ppid;
      }
    }
    forall a, b | 0 <= a < b < |t'| && t'[a].pid != 0 ensures t'[a].pid != t'[b].pid {
      assert RecordOk(t, next, done, t[a]) && RecordOk(t, next, done, t[b]);
    }
  }

  lemma MadeRows(t: seq<Proc>, k: nat, p: Proc, own: map<int, Owner>)
    requires RowsOk(t, own) && k < |t| && !t[k].live && p.rows == NoRows
    ensures RowsOk(t[k := p], own)
  {
    var t' := t[k := p];
    forall r | r in own ensures Owned(t', r, own[r]) { assert Owned(t, r, own[r]); }
    forall a | 0 <= a < |t'| ensures SlotOk(own, a, t'[a]) { assert SlotOk(own, a, t[a]); }
  }

  lemma GrowPids(t: seq<Proc>, n: nat, next: nat, done: set<nat>)
    requires PidsOk(t, next, done)
    ensures PidsOk(t + seq(n, i => Blank), next, done)
  {
    var t' := t + seq(n, i => Blank);
    forall k | 0 <= k < |t'| ensures RecordOk(t', next, done, t'[k]) {
      if k < |t| {
        assert RecordOk(t, next, done, t[k]);
        if t[k].pid != 0 && t[k].ppid > 1 {
          var j :| 0 <= j < |t| && t[j].live && t[j].pid == t[k].ppid;
          assert t'[j].live && t'[j].pid == t'[k].ppid;
        }
      }
    }
    forall a, b | 0 <= a < b < |t'| && t'[a].pid != 0 ensures t'[a].pid != t'[b].pid {
      assert RecordOk(t', next, done, t'[a]) && a < |t|;
    }
  }

  /** The table, perhaps grown. */
  ghost predicate Grown(t: seq<Proc>, t': seq<Proc>) {
    |t| <= |t'| && (forall i :: 0 <= i < |t| ==> t'[i] == t[i]) && forall i :: |t| <= i < |t'| ==> t'[i] == Blank
  }

  /** The table, perhaps grown, but for a slot that was free. */
  ghost predicate Beside(t: seq<Proc>, t': seq<Proc>, k: nat) {
    && |t| <= |t'| && (k < |t| ==> t[k].pid == 0 && !t[k].m)
    && forall i :: 0 <= i < |t'| && i != k ==> t'[i] == if i < |t| then t[i] else Blank
  }

  lemma GrownBeside(t: seq<Proc>, t1: seq<Proc>, t': seq<Proc>, k: nat)
    requires Grown(t, t1) && k < |t1| == |t'| && t1[k].pid == 0 && !t1[k].m && forall i :: 0 <= i < |t1| && i != k ==> t'[i] == t1[i]
    ensures Beside(t, t', k)
  {
  }

  lemma BesideThen(t: seq<Proc>, t1: seq<Proc>, t': seq<Proc>, k: nat)
    requires Beside(t, t1, k) && k < |t1| == |t'| && forall i :: 0 <= i < |t1| && i != k ==> t'[i] == t1[i]
    ensures Beside(t, t', k)
  {
  }

  /** A new process, with nothing open yet. */
  function Made(pid: nat, ppid: nat, cx: set<nat>, nb: set<nat>): (p: Proc)
    ensures p.rows == NoRows
  { Proc(pid, ppid, true, 0, NoRows, cx, nb, false) }

  lemma MadeParent(t: seq<Proc>, ppid: nat, next: nat, done: set<nat>)
    requires PidsOk(t, next, done) && (ppid == 1 || exists j :: 0 <= j < |t| && t[j].live && t[j].pid == ppid)
    ensures ppid < next
  {
    if ppid != 1 {
      var j :| 0 <= j < |t| && t[j].live && t[j].pid == ppid;
      assert RecordOk(t, next, done, t[j]);
    }
  }

  /** The seat has a machine for the process of pid. */
  function Seated(t: seq<Proc>, pid: int): (t': seq<Proc>)
    ensures |t'| == |t| && forall i :: 0 <= i < |t| ==> t'[i] == t[i].(m := t[i].m || i == Find(t, pid))
  { seq(|t|, (i: nat) requires i < |t| => t[i].(m := t[i].m || i == Find(t, pid))) }

  /** Machines are let go that no live process has. */
  function Pumped(t: seq<Proc>): (t': seq<Proc>)
    ensures |t'| == |t| && forall i :: 0 <= i < |t| ==> t'[i] == t[i].(m := t[i].m && t[i].live)
  { seq(|t|, (i: nat) requires i < |t| => t[i].(m := t[i].m && t[i].live)) }

  lemma MachinesKeep(t: seq<Proc>, t': seq<Proc>, own: map<int, Owner>, next: nat, done: set<nat>)
    requires RowsOk(t, own) && PidsOk(t, next, done) && |t'| == |t| && forall i :: 0 <= i < |t| ==> t'[i] == t[i].(m := t'[i].m)
    ensures RowsOk(t', own) && PidsOk(t', next, done)
  {
    forall r | r in own ensures Owned(t', r, own[r]) { assert Owned(t, r, own[r]); }
    forall a | 0 <= a < |t'| ensures SlotOk(own, a, t'[a]) { assert SlotOk(own, a, t[a]); }
    forall i | 0 <= i < |t'| ensures RecordOk(t', next, done, t'[i]) {
      assert RecordOk(t, next, done, t[i]);
      if t[i].pid != 0 && t[i].ppid > 1 {
        var j :| 0 <= j < |t| && t[j].live && t[j].pid == t[i].ppid;
        assert t'[j].live && t'[j].pid == t'[i].ppid;
      }
    }
  }

  /** A process refused as it was made: every other record is as it was, its slot is free, and its pid may be
      given again. */
  lemma UnmadeKeeps(t: seq<Proc>, k: nat, next: nat, done: set<nat>)
    requires PidsOk(t, next + 1, done) && k < |t| && t[k].live && t[k].pid == next && next >= 2 && forall d :: d in done ==> d < next
    ensures var t' := Freed(Ended(t, k, 0), k);
            && PidsOk(t', next, done) && |t'| == |t| && t'[k].pid == 0 && !t'[k].live
            && forall i :: 0 <= i < |t| && i != k ==> t'[i] == t[i]
  {
    var t1 := Ended(t, k, 0);
    EndedKeeps(t, k, 0, next + 1, done);
    FreedKeeps(t1, k, next + 1, done);
    var t' := Freed(t1, k);
    forall i | 0 <= i < |t| && i != k ensures t'[i] == t[i] && t[i].pid != next {
      assert RecordOk(t, next + 1, done, t[i]) && t[i].pid != t[k].pid;
    }
    forall i | 0 <= i < |t'| ensures RecordOk(t', next, done, t'[i]) { assert RecordOk(t', next + 1, done, t'[i]); }
  }

  // ----- rows given out

  function Above(open: set<int>, i: nat): (s: set<int>) { set x | x in open && x >= i }

  /** The lowest row at or past i that is not open. */
  function Lowest(open: set<int>, i: nat): (r: nat)
    ensures r >= i && r !in open && forall j :: i <= j < r ==> j in open
    decreases Above(open, i)
  {
    if i !in open then i else
      assert Above(open, i + 1) == Above(open, i) - {i} && i in Above(open, i);
      Lowest(open, i + 1)
  }

  // ----- what a process's descriptors are open on

  /** The open file at each descriptor, -1 for none, with the close-on-exec and the nonblocking. */
  datatype Fds = Fds(f: seq<int>, cx: set<nat>, nb: set<nat>)

  function FileAt(file: map<int, int>, r: int): (f: int) { if r >= 0 && r in file then file[r] else -1 }

  function View(file: map<int, int>, p: Proc): (d: Fds)
    requires |p.rows| == ALL
    ensures |d.f| == FDS
  { Fds(seq(FDS, (i: nat) requires i < FDS => FileAt(file, p.rows[i])), p.cx, p.nb) }

  function SetBit(s: set<nat>, i: nat, on: bool): (r: set<nat>) { if on then s + {i} else s - {i} }

  /** What close-on-exec leaves. */
  function Kept(f: seq<int>, cx: set<nat>): (g: seq<int>)
    requires |f| == FDS
    ensures |g| == FDS && forall i :: 0 <= i < FDS ==> g[i] == if i in cx then -1 else f[i]
  { seq(FDS, (i: nat) requires i < FDS => if i in cx then -1 else f[i]) }

  /** One of posix_spawn's actions: 1 a dup2 of src to fd, 2 a close of fd. */
  function Act(d: Fds, op: int, fd: int, src: int): (r: Option<Fds>)
    requires |d.f| == FDS
    ensures r.Some? ==> |r.value.f| == FDS
  {
    if fd < 0 || fd >= FDS then None
    else if op == 2 then Some(if d.f[fd] >= 0 then Fds(d.f[fd := -1], d.cx - {fd}, d.nb) else d)
    else if op != 1 || src < 0 || src >= FDS || d.f[src] < 0 then None
    else if src == fd then Some(Fds(d.f, d.cx - {fd}, d.nb))
    else Some(Fds(d.f[fd := d.f[src]], d.cx - {fd}, SetBit(d.nb, fd, src in d.nb)))
  }

  datatype Op = Op(op: int, fd: int, src: int)

  /** The actions from the n-th on, then close-on-exec. */
  function Acts(d: Fds, ops: seq<Op>, n: nat): (r: Option<Fds>)
    requires |d.f| == FDS && n <= |ops|
    ensures r.Some? ==> |r.value.f| == FDS
    decreases |ops| - n
  {
    if n == |ops| then Some(Fds(Kept(d.f, d.cx), {}, d.nb)) else
      var d1 := Act(d, ops[n].op, ops[n].fd, ops[n].src);
      if d1.None? then None else Acts(d1.value, ops, n + 1)
  }

  // ----- a status, by pid

  function FindFrom(t: seq<Proc>, pid: int, i: nat): (k: nat)
    requires i <= |t|
    ensures i <= k <= |t| && (k < |t| ==> t[k].pid == pid) && forall j :: i <= j < k ==> t[j].pid != pid
    decreases |t| - i
  { if i == |t| || t[i].pid == pid then i else FindFrom(t, pid, i + 1) }

  /** k_proc_of: the first slot of that pid. */
  function Find(t: seq<Proc>, pid: int): (k: nat)
    ensures k <= |t| && (k < |t| ==> t[k].pid == pid) && forall j :: 0 <= j < k ==> t[j].pid != pid
  { FindFrom(t, pid, 0) }

  /** A child j may wait for. */
  predicate IsKid(t: seq<Proc>, j: nat, a: int, k: nat)
    requires j < |t| && k < |t|
  { t[k].pid != 0 && k != j && t[k].ppid == t[j].pid && (a > 0 ==> t[k].pid == a) }

  /** What a wait by j answers and leaves: a dead child's pid and status, the first there is, its slot then free; or a
      refusal. */
  ghost predicate Waited(t: seq<Proc>, j: nat, a: int, nohang: bool, r: int, status: int, t': seq<Proc>)
    requires j < |t|
  {
    && |t'| == |t|
    && (r > 0 ==> exists k :: 0 <= k < |t| && IsKid(t, j, a, k) && t[k].pid == r && !t[k].live && status == t[k].status && t' == Freed(t, k)
                              && forall i :: 0 <= i < k && IsKid(t, j, a, i) ==> t[i].live)
    && (r <= 0 ==> t' == t && forall k :: 0 <= k < |t| && IsKid(t, j, a, k) ==> t[k].live)
    && (r == ECHILD <==> forall k :: 0 <= k < |t| ==> !IsKid(t, j, a, k))
    && (r <= 0 && r != ECHILD ==> r == if nohang then 0 else RESTART)
  }

  /** Whose end a kill asks: its own, or a pid's, a group being its leader's. */
  function Killed(t: seq<Proc>, j: nat, a: int): (k: nat)
    requires j < |t|
    ensures k <= |t|
  { if a == 0 then j else Find(t, if a < 0 then -a else a) }

  /** The signals that end no one. */
  predicate Spares(b: int) { b == 0 || b == 17 || b == 18 || b == 28 || 19 <= b <= 23 }

  /** What k_proc_reap makes of a status: 128 and the signal, or the exit's byte. */
  function Shell(status: int): (r: nat) { if status % 128 != 0 then 128 + status % 128 else status / 256 % 256 }

  /** k_proc_reap: no slot of that pid, one still running, or the status. */
  function ReapAnswer(t: seq<Proc>, pid: int): (r: int) {
    var k := Find(t, pid);
    if k == |t| then ECHILD else if t[k].live then EAGAIN else Shell(t[k].status)
  }

  function Reaped(t: seq<Proc>, pid: int): (t': seq<Proc>) {
    var k := Find(t, pid);
    if k == |t| || t[k].live then t else Freed(t, k)
  }

  /** A reap that answers a status delivers one not delivered before, of a process there was, just when it is
      not of pid 0: that finds a free slot, whose status is an old one or none's. */
  lemma ReapDelivers(t: seq<Proc>, next: nat, done: set<nat>, pid: int)
    requires PidsOk(t, next, done) && ReapAnswer(t, pid) >= 0
    ensures pid != 0 <==> pid >= 2 && pid !in done && exists k :: 0 <= k < |t| && !t[k].live && t[k].pid == pid && ReapAnswer(t, pid) == Shell(t[k].status)
    ensures pid == 0 ==> Reaped(t, 0) == t && exists k :: 0 <= k < |t| && t[k].pid == 0
    ensures PidsOk(Reaped(t, pid), next, if pid != 0 then done + {pid as nat} else done)
  {
    var k := Find(t, pid);
    assert RecordOk(t, next, done, t[k]);
    FreedKeeps(t, k, next, done);
    if pid == 0 { assert t[k := t[k].(pid := 0)] == t; }
  }

  /** So a status is delivered again: reaped once, and then, its slot the first free one, as pid 0's. */
  lemma ReapedTwice(t: seq<Proc>, pid: nat)
    requires pid != 0 && ReapAnswer(t, pid) >= 0 && forall i :: 0 <= i < Find(t, pid) ==> t[i].pid != 0
    ensures ReapAnswer(Reaped(t, pid), 0) == ReapAnswer(t, pid)
  {
    var k, t' := Find(t, pid), Reaped(t, pid);
    assert t'[k].pid == 0 && forall i :: 0 <= i < k ==> t'[i].pid != 0;
    assert !(Find(t', 0) < k);
    assert !(Find(t', 0) > k);
  }

  /** Pid 0 is no one's just where no slot is free. */
  lemma ReapZero(t: seq<Proc>, next: nat, done: set<nat>)
    requires PidsOk(t, next, done)
    ensures ReapAnswer(t, 0) == ECHILD <==> forall k :: 0 <= k < |t| ==> t[k].pid != 0
  {
    var k := Find(t, 0);
    if k < |t| { assert RecordOk(t, next, done, t[k]); }
  }
}
