/** The kernel's rows and their holders, one move at a time: what each keeps, and what it does to the descriptors
    of the process it is for. */
module ProcRows {
  import opened Procs

  /** The processes, the rows open, those of them in the kernel's hand, and the open file of each. */
  datatype State = State(t: seq<Proc>, open: set<int>, hand: set<int>, file: map<int, int>)

  ghost predicate FilesOk(open: set<int>, file: map<int, int>) { forall r :: r in open ==> r in file && file[r] >= 0 }

  /** Every open row is another holder's, in hand, or owned by just one place. */
  ghost predicate Held(s: State, others: set<int>, own: map<int, Owner>) {
    RowsOk(s.t, own) && OpenOk(s.open, others, s.hand, own) && FilesOk(s.open, s.file)
  }

  /** The open rows that are neither k's nor in hand. */
  function Rest(s: State, k: nat): (r: set<int>)
    requires k < |s.t|
  { s.open - s.hand - RowSet(s.t[k].rows) }

  ghost predicate SameFiles(rs: set<int>, file: map<int, int>, file': map<int, int>) {
    forall r :: r in rs ==> r in file && r in file' && file'[r] == file[r]
  }

  /** Moves for process k: no other record changed, and no row opened, closed or changed but k's and the hand's. */
  ghost predicate Took(s: State, s': State, k: nat) {
    Only(s.t, s'.t, k) && Rest(s', k) == Rest(s, k) && SameFiles(Rest(s, k), s.file, s'.file)
  }

  lemma TookThen(s: State, s1: State, s2: State, k: nat)
    requires Took(s, s1, k) && Took(s1, s2, k)
    ensures Took(s, s2, k)
  {
    OnlyThen(s.t, s1.t, s2.t, k);
    forall r | r in Rest(s, k) ensures r in s.file && r in s2.file && s2.file[r] == s.file[r] { assert r in Rest(s1, k); }
  }

  lemma TookNone(s: State, others: set<int>, own: map<int, Owner>, k: nat)
    requires Held(s, others, own) && k < |s.t|
    ensures Took(s, s, k)
  {
  }

  /** A live process's row is open, and neither in hand nor another's. */
  lemma PlaceRow(s: State, others: set<int>, own: map<int, Owner>, k: nat, i: nat)
    requires Held(s, others, own) && k < |s.t| && s.t[k].live && i < ALL
    ensures |s.t[k].rows| == ALL && s.t[k].rows[i] >= -1
    ensures s.t[k].rows[i] >= 0 ==> s.t[k].rows[i] in own && own[s.t[k].rows[i]] == (k, i) && s.t[k].rows[i] in s.open
                                    && s.t[k].rows[i] !in s.hand && s.t[k].rows[i] in s.file && s.file[s.t[k].rows[i]] >= 0
  {
    assert SlotOk(own, k, s.t[k]);
    assert PlaceOk(own, k, i, s.t[k].rows[i]);
  }

  lemma RowsLong(s: State, others: set<int>, own: map<int, Owner>, k: nat)
    requires Held(s, others, own) && k < |s.t|
    ensures |s.t[k].rows| == ALL
  {
    assert SlotOk(own, k, s.t[k]);
  }

  lemma RowsOwned(s: State, others: set<int>, own: map<int, Owner>, k: nat, r: int)
    requires Held(s, others, own) && k < |s.t| && s.t[k].live && r in RowSet(s.t[k].rows)
    ensures r in s.open && r !in s.hand && r !in others && r in own && own[r].0 == k
  {
    RowsLong(s, others, own, k);
    var i :| 0 <= i < |s.t[k].rows| && s.t[k].rows[i] >= 0 && s.t[k].rows[i] == r;
    PlaceRow(s, others, own, k, i);
  }

  // ----- the moves

  /** A row newly opened on file f, or a dup of one that is, in hand. */
  function OpenTo(s: State, f: int, r: int): (s': State) { State(s.t, s.open + {r}, s.hand + {r}, s.file[r := f]) }

  /** A row in hand closed. */
  function DropOf(s: State, r: int): (s': State) { State(s.t, s.open - {r}, s.hand - {r}, s.file) }

  /** A row in hand to a place. */
  function PutAt(s: State, k: nat, i: nat, r: int): (s': State)
    requires k < |s.t| && i < |s.t[k].rows|
  { State(SetRow(s.t, k, i, r), s.open, s.hand - {r}, s.file) }

  /** A place's row closed. */
  function CloseOf(s: State, k: nat, i: nat): (s': State)
    requires k < |s.t| && i < |s.t[k].rows|
  { State(SetRow(s.t, k, i, -1), s.open - {s.t[k].rows[i]}, s.hand, s.file) }

  function BitsOf(s: State, k: nat, cx: set<nat>, nb: set<nat>): (s': State)
    requires k < |s.t|
  { State(s.t[k := s.t[k].(cx := cx, nb := nb)], s.open, s.hand, s.file) }

  lemma OpenHolds(s: State, others: set<int>, own: map<int, Owner>, f: int, r: int)
    requires Held(s, others, own) && r >= 0 && r !in s.open && f >= 0
    ensures Held(OpenTo(s, f, r), others, own)
  {
  }

  lemma OpenTook(s: State, others: set<int>, own: map<int, Owner>, f: int, r: int, k: nat)
    requires Held(s, others, own) && r >= 0 && r !in s.open && k < |s.t| && s.t[k].live
    ensures Took(s, OpenTo(s, f, r), k) && View(OpenTo(s, f, r).file, s.t[k]) == View(s.file, s.t[k])
  {
    var s' := OpenTo(s, f, r);
    forall x | x in RowSet(s.t[k].rows) ensures x != r { RowsOwned(s, others, own, k, x); }
    assert Rest(s', k) == Rest(s, k);
    RowsLong(s, others, own, k);
    var d, d' := View(s.file, s.t[k]), View(s'.file, s'.t[k]);
    forall i | 0 <= i < FDS ensures d'.f[i] == d.f[i] { PlaceRow(s, others, own, k, i); }
    assert d'.f == d.f;
  }

  lemma DropHolds(s: State, others: set<int>, own: map<int, Owner>, r: int)
    requires Held(s, others, own) && r in s.hand
    ensures Held(DropOf(s, r), others, own)
  {
  }

  lemma DropTook(s: State, others: set<int>, own: map<int, Owner>, r: int, k: nat)
    requires Held(s, others, own) && r in s.hand && k < |s.t|
    ensures Took(s, DropOf(s, r), k)
  {
    assert Rest(DropOf(s, r), k) == Rest(s, k);
  }

  lemma PutHolds(s: State, others: set<int>, own: map<int, Owner>, k: nat, i: nat, r: nat)
    requires Held(s, others, own) && k < |s.t| && i < ALL && s.t[k].live && |s.t[k].rows| == ALL && s.t[k].rows[i] < 0 && r in s.hand
    ensures Held(PutAt(s, k, i, r), others, own[r := (k, i)])
  {
    assert SlotOk(own, k, s.t[k]);
    PutKeeps(s.t, own, k, i, r);
  }

  lemma PutTook(s: State, others: set<int>, own: map<int, Owner>, k: nat, i: nat, r: nat)
    requires Held(s, others, own) && k < |s.t| && i < ALL && s.t[k].live && |s.t[k].rows| == ALL && s.t[k].rows[i] < 0 && r in s.hand
    ensures var s' := PutAt(s, k, i, r);
            Took(s, s', k) && |s'.t[k].rows| == ALL && RowSet(s'.t[k].rows) == RowSet(s.t[k].rows) + {r}
            && View(s'.file, s'.t[k]) == (var d := View(s.file, s.t[k]); if i < FDS then Fds(d.f[i := s.file[r]], d.cx, d.nb) else d)
  {
    var s' := PutAt(s, k, i, r);
    RowSetPut(s.t[k].rows, i, r);
    assert Rest(s', k) == Rest(s, k);
    var d, d' := View(s.file, s.t[k]), View(s'.file, s'.t[k]);
    assert d'.f == if i < FDS then d.f[i := s.file[r]] else d.f;
  }

  lemma CloseHolds(s: State, others: set<int>, own: map<int, Owner>, k: nat, i: nat)
    requires Held(s, others, own) && k < |s.t| && i < ALL && s.t[k].live && |s.t[k].rows| == ALL && s.t[k].rows[i] >= 0
    ensures Held(CloseOf(s, k, i), others, own - {s.t[k].rows[i]})
  {
    PlaceRow(s, others, own, k, i);
    assert SlotOk(own, k, s.t[k]);
    TakeKeeps(s.t, own, k, i);
  }

  lemma CloseTook(s: State, others: set<int>, own: map<int, Owner>, k: nat, i: nat)
    requires Held(s, others, own) && k < |s.t| && i < ALL && s.t[k].live && |s.t[k].rows| == ALL && s.t[k].rows[i] >= 0
    ensures var s' := CloseOf(s, k, i);
            Took(s, s', k) && |s'.t[k].rows| == ALL && RowSet(s'.t[k].rows) == RowSet(s.t[k].rows) - {s.t[k].rows[i]}
            && View(s'.file, s'.t[k]) == (var d := View(s.file, s.t[k]); if i < FDS then Fds(d.f[i := -1], d.cx, d.nb) else d)
  {
    var s' := CloseOf(s, k, i);
    PlaceRow(s, others, own, k, i);
    assert SlotOk(own, k, s.t[k]);
    RowSetTake(own, k, s.t[k], i);
    assert Rest(s', k) == Rest(s, k);
    var d, d' := View(s.file, s.t[k]), View(s'.file, s'.t[k]);
    assert d'.f == if i < FDS then d.f[i := -1] else d.f;
  }

  lemma BitsHolds(s: State, others: set<int>, own: map<int, Owner>, k: nat, cx: set<nat>, nb: set<nat>)
    requires Held(s, others, own) && k < |s.t|
    ensures var s' := BitsOf(s, k, cx, nb);
            Held(s', others, own) && Took(s, s', k) && |s'.t[k].rows| == ALL && View(s'.file, s'.t[k]) == Fds(View(s.file, s.t[k]).f, cx, nb)
  {
    RowsLong(s, others, own, k);
    RecordKeeps(s.t, own, k, s.t[k].(cx := cx, nb := nb));
    var s' := BitsOf(s, k, cx, nb);
    assert View(s'.file, s'.t[k]).f == View(s.file, s.t[k]).f;
  }

  // ----- what the others see, and how many rows one may hold

  /** Moves for k leave what another's descriptors are open on. */
  lemma OthersSee(s: State, s': State, others: set<int>, own: map<int, Owner>, k: nat, j: nat)
    requires Held(s, others, own) && Took(s, s', k) && j < |s.t| && j != k && s.t[j].live && s.t[k].live
    ensures |s.t[j].rows| == ALL && View(s'.file, s'.t[j]) == View(s.file, s.t[j])
  {
    RowsLong(s, others, own, j);
    var d, d' := View(s.file, s.t[j]), View(s'.file, s'.t[j]);
    forall i | 0 <= i < FDS ensures d'.f[i] == d.f[i] {
      PlaceRow(s, others, own, j, i);
      var r := s.t[j].rows[i];
      if r in RowSet(s.t[k].rows) { RowsOwned(s, others, own, k, r); }
      assert r >= 0 ==> r in Rest(s, k);
    }
    assert d'.f == d.f;
  }

  function SomeRows(rows: seq<int>, n: nat): (s: set<int>)
    requires n <= |rows|
    ensures |s| <= n && forall r :: r in s <==> exists i :: 0 <= i < n && rows[i] >= 0 && rows[i] == r
  { if n == 0 then {} else SomeRows(rows, n - 1) + if rows[n - 1] >= 0 then {rows[n - 1]} else {} }

  lemma RowSetSize(rows: seq<int>)
    ensures |RowSet(rows)| <= |rows|
  {
    assert SomeRows(rows, |rows|) == RowSet(rows);
  }

  /** No row from 3 on is left, but for those one process may hold and one more. */
  ghost predicate NoRoom(open: set<int>) {
    exists h: set<int> :: |h| <= ALL + 1 && forall i {:trigger i in h} :: 3 <= i < MOST ==> i in open || i in h
  }

  ghost predicate Full(open: set<int>) { forall i :: 3 <= i < MOST ==> i in open }

  lemma FullFor(s: State, k: nat)
    requires k < |s.t| && |s.t[k].rows| == ALL && Full(s.open) && |s.hand| <= 1
    ensures NoRoom(Rest(s, k))
  {
    RowSetSize(s.t[k].rows);
    var h := RowSet(s.t[k].rows) + s.hand;
    assert |h| <= ALL + 1 && forall i {:trigger i in h} :: 3 <= i < MOST ==> i in Rest(s, k) || i in h;
  }

  lemma FullPair(open: set<int>, r: int)
    requires Full(open + {r})
    ensures NoRoom(open)
  {
    var h := {r};
    forall i {:trigger i in h} | 3 <= i < MOST ensures i in open || i in h { assert i in open + {r}; }
    assert |h| <= ALL + 1 && forall i {:trigger i in h} :: 3 <= i < MOST ==> i in open || i in h;
  }

  // ----- a child's descriptors, place by place

  /** The first n descriptors. */
  function Firsts(d: Fds, n: nat): (r: Fds)
    requires |d.f| == FDS
    ensures |r.f| == FDS
  { Fds(seq(FDS, (i: nat) requires i < FDS => if i < n then d.f[i] else -1), d.cx, d.nb) }

  lemma FirstsNext(d: Fds, n: nat)
    requires |d.f| == FDS && n < FDS
    ensures Firsts(d, n + 1).f == Firsts(d, n).f[n := d.f[n]]
    ensures d.f[n] == -1 ==> Firsts(d, n + 1) == Firsts(d, n)
  {
    assert Firsts(d, n + 1).f == Firsts(d, n).f[n := d.f[n]];
    if d.f[n] == -1 { assert Firsts(d, n + 1).f == Firsts(d, n).f; }
  }

  lemma FirstsAll(d: Fds)
    requires |d.f| == FDS
    ensures Firsts(d, FDS) == d && Firsts(d, 0).f == View(map[], Blank).f
  {
    assert Firsts(d, FDS).f == d.f && Firsts(d, 0).f == View(map[], Blank).f;
  }

  lemma BlankView(file: map<int, int>, p: Proc)
    requires p.rows == NoRows
    ensures View(file, p) == Fds(View(map[], Blank).f, p.cx, p.nb)
  {
    assert View(file, p).f == View(map[], Blank).f;
  }

  /** Close-on-exec, place by place. */
  function Closed(f: seq<int>, cx: set<nat>, n: nat): (g: seq<int>)
    requires |f| == FDS
    ensures |g| == FDS
  { seq(FDS, (i: nat) requires i < FDS => if i < n && i in cx then -1 else f[i]) }

  lemma ClosedNext(f: seq<int>, cx: set<nat>, n: nat)
    requires |f| == FDS && n < FDS
    ensures Closed(f, cx, n + 1) == if n in cx then Closed(f, cx, n)[n := -1] else Closed(f, cx, n)
  {
    assert Closed(f, cx, n + 1) == if n in cx then Closed(f, cx, n)[n := -1] else Closed(f, cx, n);
  }

  lemma ClosedAll(f: seq<int>, cx: set<nat>)
    requires |f| == FDS
    ensures Closed(f, cx, 0) == f && Closed(f, cx, FDS) == Kept(f, cx)
  {
    assert Closed(f, cx, 0) == f && Closed(f, cx, FDS) == Kept(f, cx);
  }

  /** A file at a place just where there is a row. */
  lemma ViewAt(s: State, others: set<int>, own: map<int, Owner>, k: nat, i: nat)
    requires Held(s, others, own) && k < |s.t| && s.t[k].live && i < FDS
    ensures |s.t[k].rows| == ALL && (View(s.file, s.t[k]).f[i] >= 0 <==> s.t[k].rows[i] >= 0)
    ensures s.t[k].rows[i] < 0 ==> View(s.file, s.t[k]).f[i] == -1 == s.t[k].rows[i]
  {
    PlaceRow(s, others, own, k, i);
  }

  /** A new process's first descriptors open on the files fs. */
  function ThreeOf(fs: seq<int>, d: Fds): (r: Fds)
    requires |fs| <= 3 && |d.f| == FDS
    ensures |r.f| == FDS
  { Fds(seq(FDS, (i: nat) requires i < FDS => if i < |fs| then fs[i] else d.f[i]), d.cx, d.nb) }

  lemma ThreeNone(d: Fds)
    requires |d.f| == FDS
    ensures ThreeOf([], d) == d
  {
    assert ThreeOf([], d).f == d.f;
  }

  lemma ThreeNext(fs: seq<int>, d: Fds, f: int)
    requires |fs| < 3 && |d.f| == FDS
    ensures ThreeOf(fs + [f], d).f == ThreeOf(fs, d).f[|fs| := f]
  {
    assert ThreeOf(fs + [f], d).f == ThreeOf(fs, d).f[|fs| := f];
  }

  /** The first rows of fds are open on the files fs. */
  ghost predicate On(fds: seq<int>, fs: seq<int>, open: set<int>, file: map<int, int>) {
    |fs| <= |fds| && forall i :: 0 <= i < |fs| ==> fds[i] in open && fds[i] in file && file[fds[i]] == fs[i] >= 0 && fds[i] >= 0
  }

  lemma OnNext(fds: seq<int>, fs: seq<int>, open: set<int>, file: map<int, int>, open': set<int>, file': map<int, int>)
    requires On(fds, fs, open, file) && |fs| < |fds| && fds[|fs|] in open && FilesOk(open, file) && fds[|fs|] >= 0
    requires open <= open' && SameFiles(open, file, file')
    ensures fds[|fs|] in file && On(fds, fs + [file[fds[|fs|]]], open', file')
  {
  }

  /** A row among the three is closed. */
  predicate Closed3(fds: seq<int>, open: set<int>) { exists i :: 0 <= i < |fds| && fds[i] !in open }

  /** The open rows are k's, the hand's and the rest, no row twice. */
  lemma RestAll(s: State, others: set<int>, own: map<int, Owner>, k: nat)
    requires Held(s, others, own) && k < |s.t| && s.t[k].live
    ensures s.open == Rest(s, k) + s.hand + RowSet(s.t[k].rows) && RowSet(s.t[k].rows) !! Rest(s, k) + s.hand
    ensures others <= Rest(s, k) && (s.t[k].rows == NoRows ==> RowSet(s.t[k].rows) == {})
  {
    forall r | r in RowSet(s.t[k].rows) ensures r in s.open && r !in s.hand && r !in others { RowsOwned(s, others, own, k, r); }
    if s.t[k].rows == NoRows { RowSetNone(); }
  }

  lemma FilesThen(open: set<int>, open1: set<int>, file: map<int, int>, file1: map<int, int>, file2: map<int, int>)
    requires SameFiles(open, file, file1) && SameFiles(open1, file1, file2) && open <= open1
    ensures SameFiles(open, file, file2)
  {
  }

  /** A new process with its exit pipe's end alone, and then its three. */
  lemma NewView(s: State, file: map<int, int>, p: Proc, s': State, fs: seq<int>, k: nat)
    requires k < |s.t| && k < |s'.t| && s.t[k].rows == NoRows && |p.rows| == ALL == |s'.t[k].rows| && |fs| == 3
    requires View(file, p) == View(s.file, s.t[k]) && View(s'.file, s'.t[k]) == ThreeOf(fs, View(file, p))
    ensures s'.t[k].cx == s.t[k].cx && s'.t[k].nb == s.t[k].nb
    ensures forall i :: 0 <= i < FDS ==> FileAt(s'.file, s'.t[k].rows[i]) == if i < 3 then fs[i] else -1
  {
    var d, d' := View(s.file, s.t[k]), View(s'.file, s'.t[k]);
    BlankView(s.file, s.t[k]);
    forall i | 0 <= i < FDS ensures FileAt(s'.file, s'.t[k].rows[i]) == if i < 3 then fs[i] else -1 {
      assert d'.f[i] == FileAt(s'.file, s'.t[k].rows[i]) && d.f[i] == -1;
    }
  }

  /** What moves for a new process come to. */
  lemma TookAll(s: State, s': State, others: set<int>, own': map<int, Owner>, k: nat)
    requires Took(s, s', k) && Held(s', others, own') && s'.t[k].live && Rest(s, k) == s.open
    ensures Rest(s', k) == s.open && SameFiles(s.open, s.file, s'.file)
    ensures s'.open == s.open + s'.hand + RowSet(s'.t[k].rows) && RowSet(s'.t[k].rows) !! s.open + s'.hand
  {
    RestAll(s', others, own', k);
  }
}
