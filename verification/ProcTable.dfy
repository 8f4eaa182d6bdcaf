/** The kernel's processes (src/inle/sys.c) in place: their calls, how one is made, and how one ends. */
module ProcTable {
  import opened Procs
  import opened ProcRows
  import opened Options

  class Table {
    var t: seq<Proc>
    var next: nat
    /** The kernel's open rows; in history whose they are, what they are open on, and the pids whose status was
        delivered. */
    var open: set<int>
    ghost var others: set<int>
    ghost var hand: set<int>
    ghost var own: map<int, Owner>
    ghost var file: map<int, int>
    ghost var done: set<nat>

    ghost function S(): (s: State)
      reads this
    { State(t, open, hand, file) }

    ghost predicate HeldNow()
      reads this
    { Held(S(), others, own) }

    /** Every open row is another holder's, or owned by just one place; pids and parents are right. */
    ghost predicate Valid()
      reads this
    { HeldNow() && hand == {} && PidsOk(t, next, done) }

    constructor (others: set<int>, ghost file: map<int, int>)
      requires FilesOk(others, file)
      requires forall r :: r in others ==> r >= 0
      ensures Valid() && open == others && t == [] && fresh(this)
    {
      t, next, open := [], 2, others;
      this.others, hand, own, done := others, {}, map[], {};
      this.file := file;
    }

    // ----- rows

    /** k_fd_dup at floor 3: a fresh row on src's file, in hand; or a refusal, for src is closed or no row is left. */
    method Dup(src: int) returns (r: int)
      requires HeldNow()
      modifies this`open, this`hand, this`file
      ensures HeldNow() && (r >= 0 ==> src in old(open) && r !in old(open) && src in old(file) && S() == OpenTo(old(S()), old(file)[src], r))
      ensures r < 0 ==> r == EBADF && S() == old(S()) && (src !in open || Full(open))
    {
      if src !in open { return EBADF; }
      r := Lowest(open, 3);
      if r >= MOST { return EBADF; }
      OpenHolds(S(), others, own, file[src], r);
      open, hand, file := open + {r}, hand + {r}, file[r := file[src]];
    }

    /** k_fd_pipe: two fresh rows, in hand, on files f and g. */
    method MakePipe(ghost f: nat, ghost g: nat) returns (ok: bool, r: int, w: int)
      requires HeldNow()
      modifies this`open, this`hand, this`file
      ensures HeldNow() && (ok ==> r >= 0 && w >= 0 && r != w && r !in old(open) && w !in old(open) && S() == OpenTo(OpenTo(old(S()), f, r), g, w))
      ensures !ok ==> S() == old(S()) && NoRoom(open)
    {
      r := Lowest(open, 3);
      w := Lowest(open + {r}, 3);
      ok := r < MOST && w < MOST;
      if ok {
        OpenHolds(S(), others, own, f, r);
        OpenHolds(OpenTo(S(), f, r), others, own, g, w);
        open, hand, file := open + {r} + {w}, hand + {r} + {w}, file[r := f][w := g];
      } else {
        FullPair(open, r);
      }
    }

    /** k_fd_close of a row in hand: it is open, and it is closed once. */
    method Drop(r: int)
      requires HeldNow() && r in hand
      modifies this`open, this`hand
      ensures HeldNow() && S() == DropOf(old(S()), r)
    {
      DropHolds(S(), others, own, r);
      open, hand := open - {r}, hand - {r};
    }

    /** A row in hand to a place that has none. */
    method Put(k: nat, i: nat, r: int)
      requires HeldNow() && k < |t| && i < ALL && t[k].live && |t[k].rows| == ALL && t[k].rows[i] < 0 && r in hand && r >= 0
      modifies this`t, this`hand, this`own
      ensures HeldNow() && S() == PutAt(old(S()), k, i, r) && r in own
    {
      PutHolds(S(), others, own, k, i, r);
      own := own[r := (k, i)];
      hand := hand - {r};
      t := SetRow(t, k, i, r);
    }

    /** A place's row closed. */
    method CloseAt(k: nat, i: nat)
      requires HeldNow() && k < |t| && i < ALL && t[k].live && |t[k].rows| == ALL && t[k].rows[i] >= 0
      modifies this`t, this`open, this`own
      ensures HeldNow() && S() == CloseOf(old(S()), k, i)
    {
      CloseHolds(S(), others, own, k, i);
      var r := t[k].rows[i];
      own := own - {r};
      open := open - {r};
      t := SetRow(t, k, i, -1);
    }

    method Bits(k: nat, cx: set<nat>, nb: set<nat>)
      requires HeldNow() && k < |t|
      modifies this`t
      ensures HeldNow() && S() == BitsOf(old(S()), k, cx, nb)
    {
      BitsHolds(S(), others, own, k, cx, nb);
      t := t[k := t[k].(cx := cx, nb := nb)];
    }

    /** k_pfd_put: a row in hand, or an error, to the lowest free place from at on; where there is none it is
        closed. */
    method PfdPut(k: nat, kf: int, at: int, cx: bool) returns (i: int)
      requires HeldNow() && k < |t| && t[k].live && |t[k].rows| == ALL && (kf >= 0 ==> kf in hand)
      modifies this`t, this`open, this`hand, this`own
      ensures HeldNow() && hand == old(hand) - {kf} && Took(old(S()), S(), k)
      ensures kf < 0 ==> i == kf && S() == old(S())
      ensures kf >= 0 && i < 0 ==> i == EMFILE && t == old(t) && open == old(open) - {kf}
      ensures kf >= 0 && i < 0 ==> forall j :: 0 <= j < FDS && at <= j ==> t[k].rows[j] >= 0
      ensures kf >= 0 && i >= 0 ==> at <= i < FDS && |t[k].rows| == ALL && old(t)[k].rows[i] < 0 && t[k].rows == old(t)[k].rows[i := kf] && open == old(open)
      ensures kf >= 0 && i >= 0 ==> t[k].cx == SetBit(old(t)[k].cx, i, cx) && t[k].nb == old(t)[k].nb - {i}
      ensures kf >= 0 && i >= 0 ==> forall j :: 0 <= j < i && at <= j ==> old(t)[k].rows[j] >= 0
    {
      TookNone(S(), others, own, k);
      if kf < 0 {
        assert kf !in hand;
        return kf;
      }
      ghost var s0 := S();
      var j: nat := if at < 0 then 0 else at;
      while j < FDS
        invariant at <= j && HeldNow() && S() == s0 && own == old(own)
        invariant forall x :: 0 <= x < j && at <= x && x < FDS ==> t[k].rows[x] >= 0
      {
        if t[k].rows[j] < 0 {
          PutTook(S(), others, own, k, j, kf);
          Put(k, j, kf);
          ghost var s1 := S();
          BitsHolds(S(), others, own, k, SetBit(t[k].cx, j, cx), t[k].nb - {j});
          Bits(k, SetBit(t[k].cx, j, cx), t[k].nb - {j});
          TookThen(s0, s1, S(), k);
          return j;
        }
        j := j + 1;
      }
      DropTook(S(), others, own, kf, k);
      Drop(kf);
      i := EMFILE;
    }

    // ----- an end

    /** All a process holds closed, its exit pipe's end last. */
    method CloseAll(k: nat)
      requires HeldNow() && k < |t| && t[k].live
      modifies this`t, this`open, this`own
      ensures HeldNow() && Took(old(S()), S(), k) && t[k].rows == NoRows
    {
      ghost var s0 := S();
      TookNone(S(), others, own, k);
      RowsLong(S(), others, own, k);
      var i := 0;
      while i < ALL
        invariant i <= ALL && HeldNow() && Took(s0, S(), k) && hand == old(hand) && |t[k].rows| == ALL
        invariant forall j :: 0 <= j < i ==> t[k].rows[j] == -1
      {
        PlaceRow(S(), others, own, k, i);
        if t[k].rows[i] >= 0 {
          ghost var s1 := S();
          CloseTook(S(), others, own, k, i);
          CloseAt(k, i);
          TookThen(s0, s1, S(), k);
        }
        i := i + 1;
      }
      assert t[k].rows == NoRows;
    }

    /** k_proc_end: every row it holds closed and no other's, then its children's and its own record. */
    method End(k: nat, status: int)
      requires HeldNow() && k < |t| && t[k].live
      modifies this`t, this`open, this`own
      ensures HeldNow() && t == Ended(old(t), k, status)
      ensures open == Rest(old(S()), k) + hand
    {
      ghost var t0 := t;
      CloseAll(k);
      EndedRows(t, k, status, own);
      assert Ended(t, k, status) == Ended(t0, k, status) by { EndedOnly(t0, t, k, status); }
      t := Ended(t, k, status);
    }

    /** exit: nothing changes but that its rows are closed, its children are orphans or gone, and it is dead. */
    method Exit(k: nat, a: int)
      requires Valid() && k < |t| && t[k].live
      modifies this`t, this`open, this`own
      ensures Valid() && t == Ended(old(t), k, a % 256 * 256) && open == old(open) - RowSet(old(t)[k].rows)
    {
      EndedKeeps(t, k, a % 256 * 256, next, done);
      End(k, a % 256 * 256);
    }

    /** kill, by the process at j: a's own end, or no one's. */
    method Kill(j: nat, a: int, b: int) returns (r: int)
      requires Valid() && j < |t| && t[j].live
      modifies this`t, this`open, this`own
      ensures Valid()
      ensures var k := Killed(old(t), j, a);
              if k == |old(t)| || !old(t)[k].live then r == ESRCH && t == old(t) && open == old(open)
              else if b < 0 || b > 64 then r == EINVAL && t == old(t) && open == old(open)
              else if Spares(b) then r == 0 && t == old(t) && open == old(open)
              else r == 0 && t == Ended(old(t), k, b) && open == old(open) - RowSet(old(t)[k].rows)
    {
      var k := Killed(t, j, a);
      if k == |t| || !t[k].live { return ESRCH; }
      if b < 0 || b > 64 { return EINVAL; }
      r := 0;
      if Spares(b) { return; }
      EndedKeeps(t, k, b, next, done);
      End(k, b);
    }

    // ----- a process's calls

    /** close. */
    method CloseFd(k: nat, a: int) returns (r: int)
      requires Valid() && k < |t| && t[k].live
      modifies this`t, this`open, this`own
      ensures Valid() && Took(old(S()), S(), k) && |old(t)[k].rows| == ALL
      ensures r == 0 <==> 0 <= a < FDS && old(t)[k].rows[a] >= 0
      ensures r == 0 ==> t[k].rows == old(t)[k].rows[a := -1] && open == old(open) - {old(t)[k].rows[a]}
                         && t[k].cx == old(t)[k].cx - {a} && t[k].nb == old(t)[k].nb - {a}
      ensures r != 0 ==> r == EBADF && S() == old(S())
    {
      RowsLong(S(), others, own, k);
      TookNone(S(), others, own, k);
      if !(0 <= a < FDS && t[k].rows[a] >= 0) { return EBADF; }
      ghost var s0 := S();
      CloseTook(S(), others, own, k, a);
      CloseAt(k, a);
      ghost var s1 := S();
      BitsHolds(S(), others, own, k, t[k].cx - {a}, t[k].nb - {a});
      Bits(k, t[k].cx - {a}, t[k].nb - {a});
      TookThen(s0, s1, S(), k);
      OnlyKeeps(s0.t, t, k, next, done);
      r := 0;
    }

    /** fcntl's F_DUPFD, and with close-on-exec: a fresh row on the same file, at the lowest descriptor. */
    method DupFd(k: nat, a: int, at: int, cx: bool) returns (r: int)
      requires Valid() && k < |t| && t[k].live
      modifies this`t, this`open, this`hand, this`own, this`file
      ensures Valid() && Took(old(S()), S(), k) && |old(t)[k].rows| == ALL == |t[k].rows|
      ensures r < 0 ==> t == old(t) && open == old(open)
      ensures r == EBADF && 0 <= a < FDS && old(t)[k].rows[a] >= 0 ==> Full(open)
      ensures r == EMFILE ==> forall j :: 0 <= j < FDS && at <= j ==> t[k].rows[j] >= 0
      ensures r < 0 ==> r == EBADF || r == EMFILE
      ensures r >= 0 ==> 0 <= a < FDS && at <= r < FDS && old(t)[k].rows[r] < 0 <= t[k].rows[r] && t[k].rows[r] !in old(open)
                         && t[k].rows == old(t)[k].rows[r := t[k].rows[r]] && open == old(open) + {t[k].rows[r]}
                         && FileAt(file, t[k].rows[r]) == FileAt(old(file), old(t)[k].rows[a]) >= 0
      ensures r >= 0 ==> t[k].cx == SetBit(old(t)[k].cx, r, cx) && t[k].nb == old(t)[k].nb - {r}
      ensures r >= 0 ==> forall j :: 0 <= j < r && at <= j ==> old(t)[k].rows[j] >= 0
    {
      RowsLong(S(), others, own, k);
      TookNone(S(), others, own, k);
      if !(0 <= a < FDS && t[k].rows[a] >= 0) { return EBADF; }
      ghost var s0 := S();
      PlaceRow(S(), others, own, k, a);
      var kf := Dup(t[k].rows[a]);
      if kf >= 0 { OpenTook(s0, others, own, s0.file[t[k].rows[a]], kf, k); }
      ghost var s1 := S();
      r := PfdPut(k, kf, at, cx);
      TookThen(s0, s1, S(), k);
      OnlyKeeps(s0.t, t, k, next, done);
    }

    /** A row in hand in the place of what was there, which is closed. */
    method Replace(k: nat, b: nat, kf: int)
      requires HeldNow() && k < |t| && t[k].live && b < FDS && kf in hand && kf >= 0
      modifies this`t, this`open, this`hand, this`own
      ensures HeldNow() && Took(old(S()), S(), k) && hand == old(hand) - {kf} && kf in old(file)
      ensures |old(t)[k].rows| == ALL && |t[k].rows| == ALL && t == SetRow(old(t), k, b, kf) && open == old(open) - {old(t)[k].rows[b]}
      ensures View(file, t[k]) == (var d := View(old(file), old(t)[k]); Fds(d.f[b := old(file)[kf]], d.cx, d.nb))
    {
      ghost var s0 := S();
      RowsLong(S(), others, own, k);
      TookNone(S(), others, own, k);
      PlaceRow(S(), others, own, k, b);
      if t[k].rows[b] >= 0 {
        CloseTook(S(), others, own, k, b);
        CloseAt(k, b);
      }
      ghost var s1 := S();
      PutTook(S(), others, own, k, b, kf);
      Put(k, b, kf);
      TookThen(s0, s1, S(), k);
      assert t[k].rows == s0.t[k].rows[b := kf];
    }

    /** A fresh row on place a's file over place b's, which is closed. */
    method DupOver(k: nat, a: nat, b: nat) returns (r: int)
      requires HeldNow() && k < |t| && t[k].live && a < FDS && b < FDS && |t[k].rows| == ALL && t[k].rows[a] >= 0
      modifies this`t, this`open, this`hand, this`own, this`file
      ensures HeldNow() && Took(old(S()), S(), k) && hand == old(hand) && |old(t)[k].rows| == ALL == |t[k].rows|
      ensures r < 0 ==> r == EBADF && S() == old(S()) && Full(open)
      ensures r >= 0 ==> r !in old(open) && t[k].rows == old(t)[k].rows[b := r] && open == old(open) + {r} - {old(t)[k].rows[b]}
                         && View(file, t[k]) == (var d := View(old(file), old(t)[k]); Fds(d.f[b := d.f[a]], d.cx, d.nb))
    {
      ghost var s0 := S();
      TookNone(S(), others, own, k);
      PlaceRow(S(), others, own, k, a);
      PlaceRow(S(), others, own, k, b);
      var src := t[k].rows[a];
      r := Dup(src);
      if r < 0 { return; }
      OpenTook(s0, others, own, s0.file[src], r, k);
      ghost var s1 := S();
      Replace(k, b, r);
      TookThen(s0, s1, S(), k);
      assert r !in s0.hand && hand == s0.hand;
    }

    /** dup3: b's own row closed, and a fresh row on a's file in its place. */
    method Dup3(k: nat, a: int, b: int, cloexec: bool) returns (r: int)
      requires Valid() && k < |t| && t[k].live
      modifies this`t, this`open, this`hand, this`own, this`file
      ensures Valid() && Took(old(S()), S(), k) && |old(t)[k].rows| == ALL == |t[k].rows|
      ensures r < 0 ==> S() == old(S())
      ensures r == EBADF ==> !(0 <= a < FDS && old(t)[k].rows[a] >= 0 && 0 <= b < FDS) || Full(open)
      ensures r < 0 ==> r == EBADF || (r == EINVAL && a == b)
      ensures r >= 0 ==> r == b != a && 0 <= b < FDS && 0 <= a < FDS && t[k].rows[b] >= 0 && t[k].rows[b] !in old(open)
                         && t[k].rows == old(t)[k].rows[b := t[k].rows[b]] && open == old(open) + {t[k].rows[b]} - {old(t)[k].rows[b]}
      ensures r >= 0 ==> View(file, t[k]) == (var d := View(old(file), old(t)[k]); Fds(d.f[b := d.f[a]], SetBit(d.cx, b, cloexec), SetBit(d.nb, b, a in d.nb)))
    {
      RowsLong(S(), others, own, k);
      TookNone(S(), others, own, k);
      if !(0 <= a < FDS && t[k].rows[a] >= 0) || b < 0 || b >= FDS { return EBADF; }
      if a == b { return EINVAL; }
      ghost var s0 := S();
      var nb := a in t[k].nb;
      var kf := DupOver(k, a, b);
      if kf < 0 { return kf; }
      ghost var s1 := S();
      BitsHolds(S(), others, own, k, SetBit(t[k].cx, b, cloexec), SetBit(t[k].nb, b, nb));
      Bits(k, SetBit(t[k].cx, b, cloexec), SetBit(t[k].nb, b, nb));
      TookThen(s0, s1, S(), k);
      OnlyKeeps(s0.t, t, k, next, done);
      r := b;
    }

    /** pipe2: both ends placed, lowest first, or neither and both closed. f and g: the ends' files. */
    method Pipe2(k: nat, cloexec: bool, nonblock: bool, ghost f: nat, ghost g: nat) returns (r: int, r0: int, r1: int)
      requires Valid() && k < |t| && t[k].live
      modifies this`t, this`open, this`hand, this`own, this`file
      ensures Valid() && Took(old(S()), S(), k) && |old(t)[k].rows| == ALL == |t[k].rows|
      ensures r == 0 ==> 0 <= r0 < r1 < FDS && old(t)[k].rows[r0] < 0 && old(t)[k].rows[r1] < 0
                         && t[k].rows == old(t)[k].rows[r0 := t[k].rows[r0]][r1 := t[k].rows[r1]]
                         && t[k].rows[r0] !in old(open) && t[k].rows[r1] !in old(open) && t[k].rows[r0] != t[k].rows[r1]
                         && open == old(open) + {t[k].rows[r0], t[k].rows[r1]}
                         && FileAt(file, t[k].rows[r0]) == f && FileAt(file, t[k].rows[r1]) == g
      ensures r == 0 ==> t[k].cx == SetBit(SetBit(old(t)[k].cx, r0, cloexec), r1, cloexec)
                         && t[k].nb == SetBit(SetBit(old(t)[k].nb, r0, nonblock), r1, nonblock)
      ensures r != 0 ==> t[k].rows == old(t)[k].rows && open == old(open)
      ensures r != 0 ==> (r == ENOMEM && NoRoom(open)) || (r == EMFILE && forall i, j :: 0 <= i < j < FDS ==> t[k].rows[i] >= 0 || t[k].rows[j] >= 0)
    {
      RowsLong(S(), others, own, k);
      TookNone(S(), others, own, k);
      ghost var s0 := S();
      var ok, a, b := MakeFor(k, f, g);
      if !ok { return ENOMEM, -1, -1; }
      ghost var s1 := S();
      r, r0, r1 := PutBoth(k, a, b, cloexec);
      TookThen(s0, s1, S(), k);
      if r == 0 {
        ghost var s2 := S();
        NonBlock(k, r0, r1, nonblock);
        TookThen(s0, s2, S(), k);
      }
      OnlyKeeps(s0.t, t, k, next, done);
    }

    method NonBlock(k: nat, r0: nat, r1: nat, on: bool)
      requires HeldNow() && k < |t|
      modifies this`t
      ensures HeldNow() && Took(old(S()), S(), k) && t[k].rows == old(t)[k].rows && t[k].cx == old(t)[k].cx
      ensures t[k].nb == SetBit(SetBit(old(t)[k].nb, r0, on), r1, on)
    {
      var nb := SetBit(SetBit(t[k].nb, r0, on), r1, on);
      BitsHolds(S(), others, own, k, t[k].cx, nb);
      Bits(k, t[k].cx, nb);
    }

    /** A pipe for k. */
    method MakeFor(k: nat, ghost f: nat, ghost g: nat) returns (ok: bool, a: int, b: int)
      requires HeldNow() && k < |t| && t[k].live
      modifies this`open, this`hand, this`file
      ensures HeldNow() && Took(old(S()), S(), k)
      ensures SameFiles(old(open), old(file), file)
      ensures ok ==> a >= 0 && b >= 0 && a != b && a !in old(open) && b !in old(open) && open == old(open) + {a, b} && hand == old(hand) + {a, b}
                     && FileAt(file, a) == f && FileAt(file, b) == g && View(file, t[k]) == View(old(file), t[k])
      ensures !ok ==> S() == old(S()) && NoRoom(open)
    {
      ghost var s0 := S();
      TookNone(S(), others, own, k);
      ok, a, b := MakePipe(f, g);
      if ok {
        ghost var s1 := OpenTo(s0, f, a);
        OpenTook(s0, others, own, f, a, k);
        OpenHolds(s0, others, own, f, a);
        OpenTook(s1, others, own, g, b, k);
        TookThen(s0, s1, S(), k);
      }
    }

    /** Two rows in hand to two places, or closed both. */
    method PutBoth(k: nat, a: int, b: int, cloexec: bool) returns (r: int, r0: int, r1: int)
      requires HeldNow() && k < |t| && t[k].live && a in hand && b in hand && a != b && a >= 0 && b >= 0 && |t[k].rows| == ALL
      modifies this`t, this`open, this`hand, this`own
      ensures HeldNow() && Took(old(S()), S(), k) && hand == old(hand) - {a, b} && |t[k].rows| == ALL
      ensures r == 0 ==> 0 <= r0 < r1 < FDS && old(t)[k].rows[r0] < 0 && old(t)[k].rows[r1] < 0
                         && t[k].rows == old(t)[k].rows[r0 := a][r1 := b] && open == old(open)
                         && t[k].cx == SetBit(SetBit(old(t)[k].cx, r0, cloexec), r1, cloexec) && t[k].nb == old(t)[k].nb - {r0} - {r1}
      ensures r != 0 ==> r == EMFILE && t[k].rows == old(t)[k].rows && open == old(open) - {a, b}
      ensures r != 0 ==> forall i, j :: 0 <= i < j < FDS ==> t[k].rows[i] >= 0 || t[k].rows[j] >= 0
    {
      ghost var s0 := S();
      r0 := PfdPut(k, a, 0, cloexec);
      ghost var s1 := S();
      if r0 < 0 {
        DropTook(S(), others, own, b, k);
        Drop(b);
        TookThen(s0, s1, S(), k);
        return r0, -1, -1;
      }
      r1 := PfdPut(k, b, 0, cloexec);
      ghost var s2 := S();
      TookThen(s0, s1, s2, k);
      if r1 < 0 {
        CloseTook(S(), others, own, k, r0);
        CloseAt(k, r0);
        TookThen(s0, s2, S(), k);
        assert t[k].rows == s0.t[k].rows;
        return r1, -1, -1;
      }
      assert s1.t[k].rows[r1] < 0;
      r := 0;
    }

    // ----- making a process

    /** k_proc_slot: a free slot whose machine is let go, or the table doubled. */
    method Slot() returns (k: nat)
      requires Valid()
      modifies this`t
      ensures Valid() && Grown(old(t), t) && k < |t| && t[k].pid == 0 && !t[k].m
    {
      k := 0;
      while k < |t|
        invariant k <= |t|
      {
        if t[k].pid == 0 && !t[k].m { return; }
        k := k + 1;
      }
      var m := if |t| > 0 then |t| else 8;
      GrowRows(t, own, m);
      GrowPids(t, m, next, done);
      t := t + seq(m, i => Blank);
    }

    /** k_proc_seat, and the machine put there. */
    method Seat(pid: int) returns (ok: bool)
      requires Valid()
      modifies this`t
      ensures Valid() && t == Seated(old(t), pid) && (ok <==> exists k :: 0 <= k < |t| && t[k].pid == pid)
    {
      MachinesKeep(t, Seated(t, pid), own, next, done);
      ok := Find(t, pid) < |t|;
      t := Seated(t, pid);
    }

    /** What k_proc_pump does of the records: the dead's machines go, and with them what kept their slots. */
    method Pump()
      requires Valid()
      modifies this`t
      ensures Valid() && t == Pumped(old(t)) && forall k :: 0 <= k < |t| && !t[k].live ==> !t[k].m
    {
      MachinesKeep(t, Pumped(t), own, next, done);
      t := Pumped(t);
    }

    /** A process of the next pid made in a free slot, with no rows yet. */
    method Make(k: nat, ppid: nat, cx: set<nat>, nb: set<nat>)
      requires Valid() && k < |t| && t[k].pid == 0 && !t[k].m
      requires ppid == 1 || exists j :: 0 <= j < |t| && t[j].live && t[j].pid == ppid
      modifies this`t
      ensures HeldNow() && PidsOk(t, next + 1, done) && t == old(t)[k := Made(next, ppid, cx, nb)]
    {
      var p := Made(next, ppid, cx, nb);
      assert HasParent(t, p);
      assert RecordOk(t, next, done, t[k]);
      MadeParent(t, ppid, next, done);
      MadeKeeps(t, k, p, next, done);
      MadeRows(t, k, p, own);
      t := t[k := p];
    }

    /** A slot and a new process in it. */
    method Begin(ppid: nat, cx: set<nat>, nb: set<nat>) returns (k: nat)
      requires Valid() && (ppid == 1 || exists j :: 0 <= j < |t| && t[j].live && t[j].pid == ppid)
      modifies this`t
      ensures HeldNow() && PidsOk(t, next + 1, done) && k < |t| && Beside(old(t), t, k) && t[k] == Made(next, ppid, cx, nb)
      ensures Rest(S(), k) == open && next >= 2 && forall d :: d in done ==> d < next
    {
      ghost var t0 := t;
      k := Slot();
      ghost var t1 := t;
      if ppid != 1 {
        ghost var j :| 0 <= j < |t0| && t0[j].live && t0[j].pid == ppid;
        assert t[j] == t0[j];
      }
      Make(k, ppid, cx, nb);
      GrownBeside(t0, t1, t, k);
      RestAll(S(), others, own, k);
    }

    /** The refusal: all it held closed, and the slot free. */
    method Unmake(k: nat)
      requires HeldNow() && PidsOk(t, next + 1, done) && k < |t| && t[k].live && t[k].pid == next && next >= 2 && forall d :: d in done ==> d < next
      modifies this`t, this`open, this`own
      ensures HeldNow() && PidsOk(t, next, done) && |t| == |old(t)| && !t[k].live && t[k].pid == 0
      ensures open == Rest(old(S()), k) + hand && forall i :: 0 <= i < |t| && i != k ==> t[i] == old(t)[i]
    {
      UnmadeKeeps(t, k, next, done);
      End(k, 0);
      RecordKeeps(t, own, k, t[k].(pid := 0));
      t := Freed(t, k);
    }

    /** Its pid given for good, or the refusal. */
    method Finish(k: nat, r0: int, ghost t0: seq<Proc>) returns (r: int)
      requires HeldNow() && PidsOk(t, next + 1, done) && k < |t| && t[k].live && t[k].pid == next && next >= 2 && r0 <= 0
      requires Beside(t0, t, k) && forall d :: d in done ==> d < next
      modifies this`t, this`open, this`own, this`next
      ensures HeldNow() && PidsOk(t, next, done) && Beside(t0, t, k) && k < |t| && |t[k].rows| == ALL
      ensures r0 == 0 ==> r == old(next) > 0 && next == r + 1 && S() == old(S())
      ensures r0 < 0 ==> r == r0 && next == old(next) && open == Rest(old(S()), k) + hand && t[k].pid == 0 && !t[k].live
    {
      ghost var t1 := t;
      r := r0;
      if r == 0 {
        r := next;
        next := next + 1;
      } else {
        Unmake(k);
        BesideThen(t0, t1, t, k);
      }
      RowsLong(S(), others, own, k);
    }

    /** Each of j's first 64 places, dup'd to k's own: the same files, bit for bit. */
    method Inherit(k: nat, j: nat) returns (r: int)
      requires HeldNow() && hand == {} && k < |t| && j < |t| && k != j && t[k].live && t[j].live && t[k].rows == NoRows
      modifies this`t, this`open, this`hand, this`own, this`file
      ensures HeldNow() && hand == {} && Took(old(S()), S(), k) && |t[k].rows| == ALL == |old(t)[j].rows| && r <= 0 && t[k].rows[EXITW] == -1
      ensures r == 0 ==> View(file, t[k]) == Fds(View(old(file), old(t)[j]).f, old(t)[k].cx, old(t)[k].nb)
      ensures r < 0 ==> r == EBADF && NoRoom(Rest(S(), k))
    {
      ghost var s0 := S();
      ghost var own0 := own;
      RowsLong(S(), others, own, j);
      TookNone(S(), others, own, k);
      ghost var d := View(file, t[j]);
      FirstsAll(d);
      BlankView(file, t[k]);
      r := 0;
      var i := 0;
      while i < FDS
        invariant i <= FDS && HeldNow() && hand == {} && Took(s0, S(), k) && |t[k].rows| == ALL && r <= 0
        invariant t[k].rows[EXITW] == -1 && t[k].cx == s0.t[k].cx && t[k].nb == s0.t[k].nb
        invariant r == 0 ==> View(file, t[k]).f == Firsts(d, i).f
        invariant r < 0 ==> r == EBADF && NoRoom(Rest(S(), k))
      {
        if r == 0 {
          FirstsNext(d, i);
          OthersSee(s0, S(), others, own0, k, j);
          ghost var s1 := S();
          r := InheritPlace(k, j, i);
          TookThen(s0, s1, S(), k);
        }
        i := i + 1;
      }
    }

    method InheritPlace(k: nat, j: nat, i: nat) returns (r: int)
      requires HeldNow() && hand == {} && k < |t| && j < |t| && k != j && t[k].live && t[j].live && i < FDS && |t[k].rows| == ALL == |t[j].rows|
      requires View(file, t[k]).f[i] == -1
      modifies this`t, this`open, this`hand, this`own, this`file
      ensures HeldNow() && hand == {} && Took(old(S()), S(), k) && |t[k].rows| == ALL && r <= 0
      ensures t[k].rows[EXITW] == old(t)[k].rows[EXITW] && t[k].cx == old(t)[k].cx && t[k].nb == old(t)[k].nb
      ensures r == 0 ==> View(file, t[k]).f == View(old(file), old(t)[k]).f[i := View(old(file), old(t)[j]).f[i]]
      ensures r < 0 ==> r == EBADF && NoRoom(Rest(S(), k))
    {
      TookNone(S(), others, own, k);
      ViewAt(S(), others, own, k, i);
      ViewAt(S(), others, own, j, i);
      PlaceRow(S(), others, own, j, i);
      r := 0;
      if t[j].rows[i] >= 0 {
        r := DupPut(k, i, t[j].rows[i]);
      } else {
        assert View(file, t[k]).f[i := -1] == View(file, t[k]).f;
      }
    }

    /** A fresh row on src's file to a place that has none. */
    method DupPut(k: nat, i: nat, src: int) returns (r: int)
      requires HeldNow() && |hand| <= 1 && k < |t| && t[k].live && i < FDS && |t[k].rows| == ALL && t[k].rows[i] < 0
      modifies this`t, this`open, this`hand, this`own, this`file
      ensures HeldNow() && hand == old(hand) && Took(old(S()), S(), k) && |t[k].rows| == ALL && r <= 0
      ensures r == 0 ==> t[k].rows == old(t)[k].rows[i := t[k].rows[i]] && src in old(open) && src in old(file)
                         && View(file, t[k]) == (var d := View(old(file), old(t)[k]); Fds(d.f[i := old(file)[src]], d.cx, d.nb))
      ensures old(open) <= open && SameFiles(old(open), old(file), file)
      ensures r < 0 ==> r == EBADF && S() == old(S()) && (src !in open || NoRoom(Rest(S(), k)))
    {
      ghost var s0 := S();
      TookNone(S(), others, own, k);
      var kf := Dup(src);
      if kf < 0 {
        if src in open { FullFor(S(), k); }
        return kf;
      }
      OpenTook(s0, others, own, s0.file[src], kf, k);
      ghost var s1 := S();
      PutTook(S(), others, own, k, i, kf);
      Put(k, i, kf);
      TookThen(s0, s1, S(), k);
      assert hand == s0.hand;
      r := 0;
    }

    /** posix_spawn's actions, then close-on-exec: what they leave open is what they say; or a refusal. */
    method Act(k: nat, ops: seq<Op>) returns (r: int)
      requires HeldNow() && hand == {} && k < |t| && t[k].live && |t[k].rows| == ALL
      modifies this`t, this`open, this`hand, this`own, this`file
      ensures HeldNow() && hand == {} && Took(old(S()), S(), k) && |t[k].rows| == ALL && r <= 0
      ensures t[k].rows[EXITW] == old(t)[k].rows[EXITW]
      ensures r == 0 ==> Acts(View(old(file), old(t)[k]), ops, 0) == Some(View(file, t[k]))
      ensures r < 0 ==> r == EBADF && (Acts(View(old(file), old(t)[k]), ops, 0).None? || NoRoom(Rest(S(), k)))
    {
      ghost var s0 := S();
      TookNone(S(), others, own, k);
      var n := 0;
      while n < |ops|
        invariant n <= |ops| && HeldNow() && hand == {} && Took(s0, S(), k) && |t[k].rows| == ALL && t[k].rows[EXITW] == s0.t[k].rows[EXITW]
        invariant Acts(View(s0.file, s0.t[k]), ops, 0) == Acts(View(file, t[k]), ops, n)
      {
        ghost var s1 := S();
        r := ActOne(k, ops[n].op, ops[n].fd, ops[n].src);
        TookThen(s0, s1, S(), k);
        if r < 0 { return; }
        n := n + 1;
      }
      ghost var s1 := S();
      CloseOnExec(k);
      TookThen(s0, s1, S(), k);
      r := 0;
    }

    method ActOne(k: nat, op: int, fd: int, src: int) returns (r: int)
      requires HeldNow() && hand == {} && k < |t| && t[k].live && |t[k].rows| == ALL
      modifies this`t, this`open, this`hand, this`own, this`file
      ensures HeldNow() && hand == {} && Took(old(S()), S(), k) && |t[k].rows| == ALL && r <= 0
      ensures t[k].rows[EXITW] == old(t)[k].rows[EXITW]
      ensures r == 0 ==> Procs.Act(View(old(file), old(t)[k]), op, fd, src) == Some(View(file, t[k]))
      ensures r < 0 ==> r == EBADF && (Procs.Act(View(old(file), old(t)[k]), op, fd, src).None? || NoRoom(Rest(S(), k)))
    {
      ghost var s0 := S();
      TookNone(S(), others, own, k);
      r := 0;
      if fd < 0 || fd >= FDS { return EBADF; }
      ViewAt(S(), others, own, k, fd);
      if op == 2 {
        if t[k].rows[fd] >= 0 {
          CloseTook(S(), others, own, k, fd);
          CloseAt(k, fd);
          ghost var s1 := S();
          BitsHolds(S(), others, own, k, t[k].cx - {fd}, t[k].nb);
          Bits(k, t[k].cx - {fd}, t[k].nb);
          TookThen(s0, s1, S(), k);
        }
        return;
      }
      if op != 1 || src < 0 || src >= FDS || t[k].rows[src] < 0 {
        if 0 <= src < FDS { ViewAt(S(), others, own, k, src); }
        return EBADF;
      }
      ViewAt(S(), others, own, k, src);
      var nb := t[k].nb;
      if src != fd {
        nb := SetBit(nb, fd, src in nb);
        var kf := DupOver(k, src, fd);
        if kf < 0 {
          FullFor(S(), k);
          return kf;
        }
      }
      ghost var s1 := S();
      BitsHolds(S(), others, own, k, t[k].cx - {fd}, nb);
      Bits(k, t[k].cx - {fd}, nb);
      TookThen(s0, s1, S(), k);
    }

    method CloseOnExec(k: nat)
      requires HeldNow() && k < |t| && t[k].live && |t[k].rows| == ALL
      modifies this`t, this`open, this`own
      ensures HeldNow() && Took(old(S()), S(), k) && |t[k].rows| == ALL && t[k].rows[EXITW] == old(t)[k].rows[EXITW]
      ensures View(file, t[k]) == (var d := View(old(file), old(t)[k]); Fds(Kept(d.f, d.cx), {}, d.nb))
    {
      ghost var s0 := S();
      TookNone(S(), others, own, k);
      ghost var d := View(file, t[k]);
      ClosedAll(d.f, d.cx);
      var i := 0;
      while i < FDS
        invariant i <= FDS && HeldNow() && hand == s0.hand && Took(s0, S(), k) && |t[k].rows| == ALL && t[k].rows[EXITW] == s0.t[k].rows[EXITW]
        invariant View(file, t[k]) == Fds(Closed(d.f, d.cx, i), d.cx, d.nb)
      {
        ClosedNext(d.f, d.cx, i);
        ViewAt(S(), others, own, k, i);
        if i in t[k].cx && t[k].rows[i] >= 0 {
          ghost var s1 := S();
          CloseTook(S(), others, own, k, i);
          CloseAt(k, i);
          TookThen(s0, s1, S(), k);
        }
        i := i + 1;
      }
      ghost var s1 := S();
      BitsHolds(S(), others, own, k, {}, t[k].nb);
      Bits(k, {}, t[k].nb);
      TookThen(s0, s1, S(), k);
    }

    /** k_proc_spawn, by the process at j: a child at k of the next pid, its descriptors the parent's after the
        actions; or a refusal, with nothing kept. go is what its start answers. */
    method Spawn(j: nat, ops: seq<Op>, go: int) returns (r: int, ghost k: nat)
      requires Valid() && j < |t| && t[j].live && go <= 0
      modifies this
      ensures Valid() && others == old(others) && done == old(done) && j != k && k < |t|
      ensures Beside(old(t), t, k) && SameFiles(old(open), old(file), file) && |old(t)[j].rows| == ALL == |t[k].rows|
      ensures r > 0 ==> r == old(next) && next == r + 1 && t[k].pid == r && t[k].ppid == old(t)[j].pid && t[k].live && t[k].rows[EXITW] == -1
      ensures r > 0 ==> Acts(View(old(file), old(t)[j]), ops, 0) == Some(View(file, t[k]))
      ensures r > 0 ==> open == old(open) + RowSet(t[k].rows) && RowSet(t[k].rows) !! old(open)
      ensures r <= 0 ==> next == old(next) && open == old(open) && t[k].pid == 0 && !t[k].live
      ensures r <= 0 ==> (r == go && r < 0) || (r == EBADF && (Acts(View(old(file), old(t)[j]), ops, 0).None? || NoRoom(open)))
    {
      ghost var t0 := t;
      RowsLong(S(), others, own, j);
      assert t[j].pid != 0 by { assert RecordOk(t, next, done, t[j]); }
      var slot := Begin(t[j].pid, t[j].cx, t[j].nb);
      k := slot;
      assert j != k && t[j] == t0[j];
      r := Birth(slot, j, ops, go, t0);
    }

    method Birth(k: nat, j: nat, ops: seq<Op>, go: int, ghost t0: seq<Proc>) returns (r: int)
      requires HeldNow() && hand == {} && PidsOk(t, next + 1, done) && k < |t| && j < |t| && k != j && t[j].live && go <= 0 && |t[j].rows| == ALL
      requires t[k] == Made(next, t[j].pid, t[j].cx, t[j].nb) && Rest(S(), k) == open && Beside(t0, t, k)
      requires next >= 2 && forall d :: d in done ==> d < next
      modifies this`t, this`open, this`hand, this`own, this`file, this`next
      ensures Valid() && k < |t| && Beside(t0, t, k) && SameFiles(old(open), old(file), file) && |t[k].rows| == ALL
      ensures r > 0 ==> r == old(next) && next == r + 1 && t[k].pid == r && t[k].ppid == old(t)[j].pid && t[k].live && t[k].rows[EXITW] == -1
      ensures r > 0 ==> Acts(View(old(file), old(t)[j]), ops, 0) == Some(View(file, t[k]))
      ensures r > 0 ==> open == old(open) + RowSet(t[k].rows) && RowSet(t[k].rows) !! old(open)
      ensures r <= 0 ==> next == old(next) && open == old(open) && t[k].pid == 0 && !t[k].live
      ensures r <= 0 ==> (r == go && r < 0) || (r == EBADF && (Acts(View(old(file), old(t)[j]), ops, 0).None? || NoRoom(open)))
    {
      ghost var t1 := t;
      r := Dress(k, j, ops, go);
      BesideThen(t0, t1, t, k);
      r := Finish(k, r, t0);
    }

    /** The child's rows, its actions, its start. */
    method Dress(k: nat, j: nat, ops: seq<Op>, go: int) returns (r: int)
      requires HeldNow() && hand == {} && PidsOk(t, next + 1, done) && k < |t| && j < |t| && k != j && t[k].live && t[j].live && go <= 0
      requires t[k].rows == NoRows && t[k].cx == t[j].cx && t[k].nb == t[j].nb && |t[j].rows| == ALL && Rest(S(), k) == open
      modifies this`t, this`open, this`hand, this`own, this`file
      ensures HeldNow() && hand == {} && PidsOk(t, next + 1, done) && Only(old(t), t, k) && |t[k].rows| == ALL && t[k].rows[EXITW] == -1 && r <= 0
      ensures Rest(S(), k) == old(open) && SameFiles(old(open), old(file), file)
      ensures open == old(open) + RowSet(t[k].rows) && RowSet(t[k].rows) !! old(open)
      ensures r == 0 ==> Acts(View(old(file), old(t)[j]), ops, 0) == Some(View(file, t[k]))
      ensures r < 0 ==> r == go || (r == EBADF && (Acts(View(old(file), old(t)[j]), ops, 0).None? || NoRoom(old(open))))
    {
      ghost var s0 := S();
      r := Inherit(k, j);
      if r == 0 {
        ghost var s1 := S();
        r := Act(k, ops);
        TookThen(s0, s1, S(), k);
      }
      if r == 0 { r := go; }
      TookAll(s0, S(), others, own, k);
      OnlyKeeps(s0.t, t, k, next + 1, done);
    }

    /** k_proc_new, the kernel's own at k: the three rows dup'd to it, and past them a new pipe's write end, whose read
        end, wr, is handed out; or a refusal, with nothing kept: a row among the three is closed, or none is left,
        or its start refuses. A row named that was closed may by then be one this opened itself. */
    method New(fds: seq<int>, go: int, ghost f: nat, ghost g: nat) returns (r: int, wr: int, ghost k: nat)
      requires Valid() && |fds| == 3 && go <= 0
      modifies this
      ensures Valid() && done == old(done) && k < |t|
      ensures Beside(old(t), t, k) && SameFiles(old(open), old(file), file) && |t[k].rows| == ALL
      ensures r > 0 ==> r == old(next) && next == r + 1 && t[k].pid == r && t[k].ppid == 1 && t[k].live && t[k].cx == {} && t[k].nb == {}
      ensures r > 0 ==> forall i :: 0 <= i < FDS ==> FileAt(file, t[k].rows[i]) == if i < 3 then FileAt(file, fds[i]) else -1
      ensures r > 0 ==> forall i :: 0 <= i < 3 ==> fds[i] in open && (fds[i] in old(open) ==> FileAt(file, t[k].rows[i]) == FileAt(old(file), fds[i]))
      ensures r > 0 ==> wr !in old(open) && others == old(others) + {wr} && FileAt(file, wr) == f && FileAt(file, t[k].rows[EXITW]) == g
      ensures r > 0 ==> open == old(open) + {wr} + RowSet(t[k].rows) && RowSet(t[k].rows) !! old(open) + {wr}
      ensures r <= 0 ==> next == old(next) && others == old(others) && open == old(open) && t[k].pid == 0 && !t[k].live
      ensures r <= 0 ==> (r == go && r < 0) || ((r == EBADF || r == ENOMEM) && NoRoom(open)) || (r == EBADF && Closed3(fds, open))
    {
      ghost var t0 := t;
      wr := -1;
      var slot := Begin(1, {}, {});
      k := slot;
      ghost var s1 := S();
      r, wr := DressNew(slot, fds, go, f, g);
      BesideThen(t0, s1.t, t, k);
      r := Finish(slot, r, t0);
      if r > 0 {
        Give(wr);
      } else if wr >= 0 {
        Drop(wr);
      }
    }

    /** A row in hand handed out. */
    ghost method Give(r: int)
      requires HeldNow() && r in hand
      modifies this`others, this`hand
      ensures HeldNow() && others == old(others) + {r} && hand == old(hand) - {r}
    {
      others, hand := others + {r}, hand - {r};
    }

    method DressNew(k: nat, fds: seq<int>, go: int, ghost f: nat, ghost g: nat) returns (r: int, wr: int)
      requires HeldNow() && hand == {} && PidsOk(t, next + 1, done) && k < |t| && t[k].live && t[k].rows == NoRows && t[k].cx == {} && t[k].nb == {} && Rest(S(), k) == open
      requires |fds| == 3 && go <= 0
      modifies this`t, this`open, this`hand, this`own, this`file
      ensures HeldNow() && PidsOk(t, next + 1, done) && Only(old(t), t, k) && |t[k].rows| == ALL && r <= 0
      ensures Rest(S(), k) == old(open) && SameFiles(old(open), old(file), file)
      ensures open == old(open) + hand + RowSet(t[k].rows) && RowSet(t[k].rows) !! old(open) + hand
      ensures hand == (if wr >= 0 then {wr} else {}) && (r == 0 ==> wr >= 0) && (wr >= 0 ==> wr !in old(open))
      ensures r == 0 ==> FileAt(file, wr) == f && FileAt(file, t[k].rows[EXITW]) == g && t[k].cx == {} && t[k].nb == {}
      ensures r == 0 ==> forall i :: 0 <= i < FDS ==> FileAt(file, t[k].rows[i]) == if i < 3 then FileAt(file, fds[i]) else -1
      ensures r == 0 ==> forall i :: 0 <= i < 3 ==> fds[i] in open
      ensures r < 0 ==> r == go || ((r == EBADF || r == ENOMEM) && NoRoom(old(open))) || (r == EBADF && Closed3(fds, old(open)))
    {
      ghost var s0 := S();
      RestAll(s0, others, own, k);
      r, wr := ExitPipe(k, f, g);
      if r < 0 {
        TookAll(s0, S(), others, own, k);
        return;
      }
      ghost var s2 := S();
      ghost var fs;
      r, fs := Three(k, fds, wr);
      TookThen(s0, s2, S(), k);
      if r == 0 {
        assert wr in s2.open && t[k].rows[EXITW] in s2.open;
        NewView(s0, s2.file, s2.t[k], S(), fs, k);
      }
      if r == 0 { r := go; }
      TookAll(s0, S(), others, own, k);
      OnlyKeeps(s0.t, t, k, next + 1, done);
    }

    /** Its exit pipe: the write end in place, the read end in hand. */
    method ExitPipe(k: nat, ghost f: nat, ghost g: nat) returns (r: int, wr: int)
      requires HeldNow() && hand == {} && k < |t| && t[k].live && t[k].rows == NoRows
      modifies this`t, this`open, this`hand, this`own, this`file
      ensures HeldNow() && Took(old(S()), S(), k) && SameFiles(old(open), old(file), file)
      ensures r < 0 ==> r == ENOMEM && S() == old(S()) && NoRoom(open) && wr == -1
      ensures r >= 0 ==> r == 0 && hand == {wr} && wr >= 0 && wr !in old(open) && wr in open && |t[k].rows| == ALL && t[k].rows[EXITW] in open
      ensures r >= 0 ==> FileAt(file, wr) == f && FileAt(file, t[k].rows[EXITW]) == g && View(file, t[k]) == View(old(file), old(t)[k])
      ensures r >= 0 ==> old(open) <= open && forall i :: 0 <= i < FDS ==> t[k].rows[i] == -1
    {
      ghost var s0 := S();
      TookNone(S(), others, own, k);
      r := 0;
      wr := -1;
      var ok, a, b := MakeFor(k, f, g);
      if !ok { return ENOMEM, -1; }
      wr := a;
      ghost var s1 := S();
      PutTook(S(), others, own, k, EXITW, b);
      Put(k, EXITW, b);
      TookThen(s0, s1, S(), k);
      assert t[k].rows[EXITW] == b;
    }

    method Three(k: nat, fds: seq<int>, ghost wr: int) returns (r: int, ghost fs: seq<int>)
      requires HeldNow() && hand == {wr} && k < |t| && t[k].live && |t[k].rows| == ALL && forall i :: 0 <= i < FDS ==> t[k].rows[i] == -1
      requires |fds| == 3
      modifies this`t, this`open, this`hand, this`own, this`file
      ensures HeldNow() && Took(old(S()), S(), k) && hand == {wr} && |t[k].rows| == ALL && r <= 0 && |fs| <= 3
      ensures old(open) <= open && SameFiles(old(open), old(file), file)
      ensures r == 0 ==> View(file, t[k]) == ThreeOf(fs, View(old(file), old(t)[k]))
      ensures r == 0 ==> |fs| == 3 && On(fds, fs, open, file)
      ensures r == 0 ==> t[k].rows[EXITW] == old(t)[k].rows[EXITW]
      ensures r < 0 ==> r == EBADF && (Closed3(fds, old(open)) || NoRoom(Rest(S(), k)))
    {
      ghost var s0 := S();
      TookNone(S(), others, own, k);
      var i := 0;
      r := 0;
      fs := [];
      ThreeNone(View(file, t[k]));
      while i < 3
        invariant i <= 3 && HeldNow() && Took(s0, S(), k) && hand == {wr} && |t[k].rows| == ALL && r <= 0
        invariant s0.open <= open && SameFiles(s0.open, s0.file, file) && |fs| <= 3
        invariant r == 0 ==> |fs| == i && On(fds, fs, open, file)
        invariant r == 0 ==> forall x :: i <= x < FDS ==> t[k].rows[x] == -1
        invariant r == 0 ==> View(file, t[k]) == ThreeOf(fs, View(s0.file, s0.t[k]))
        invariant r == 0 ==> t[k].rows[EXITW] == s0.t[k].rows[EXITW]
        invariant r < 0 ==> r == EBADF && (Closed3(fds, s0.open) || NoRoom(Rest(S(), k)))
      {
        if r == 0 {
          ghost var s1 := S();
          r := DupPut(k, i, fds[i]);
          TookThen(s0, s1, S(), k);
          FilesThen(s0.open, s1.open, s0.file, s1.file, file);
          if r == 0 {
            ThreeNext(fs, View(s0.file, s0.t[k]), s1.file[fds[i]]);
            OnNext(fds, fs, s1.open, s1.file, open, file);
            fs := fs + [s1.file[fds[i]]];
          }
        }
        i := i + 1;
      }
    }

    // ----- a process's status

    /** wait4: a dead child's status, delivered once, for its pid is then no one's. */
    method Wait(j: nat, a: int, nohang: bool) returns (r: int, status: int)
      requires Valid() && j < |t| && t[j].live
      modifies this`t, this`done
      ensures Valid() && Waited(old(t), j, a, nohang, r, status, t)
      ensures r > 0 ==> r !in old(done) && done == old(done) + {r}
      ensures r <= 0 ==> done == old(done)
    {
      var kids := false;
      var k := 0;
      status := 0;
      while k < |t|
        invariant k <= |t|
        invariant kids <==> exists i :: 0 <= i < k && IsKid(t, j, a, i)
        invariant forall i :: 0 <= i < k && IsKid(t, j, a, i) ==> t[i].live
      {
        if IsKid(t, j, a, k) {
          if t[k].live {
            kids := true;
          } else {
            assert RecordOk(t, next, done, t[k]);
            status, r := t[k].status, t[k].pid;
            Free(k);
            return;
          }
        }
        k := k + 1;
      }
      r := if !kids then ECHILD else if nohang then 0 else RESTART;
    }

    /** A dead process's slot freed, its status delivered. */
    method Free(k: nat)
      requires Valid() && k < |t| && !t[k].live
      modifies this`t, this`done
      ensures Valid() && t == Freed(old(t), k) && done == if old(t)[k].pid != 0 then old(done) + {old(t)[k].pid} else old(done)
    {
      FreedKeeps(t, k, next, done);
      RecordKeeps(t, own, k, t[k].(pid := 0));
      done := if t[k].pid != 0 then done + {t[k].pid} else done;
      t := Freed(t, k);
    }

    /** k_proc_reap: the kernel's own wait, by pid. */
    method Reap(pid: int) returns (r: int)
      requires Valid()
      modifies this`t, this`done
      ensures Valid() && r == ReapAnswer(old(t), pid) && t == Reaped(old(t), pid)
      ensures done == if r >= 0 && pid != 0 then old(done) + {pid} else old(done)
      ensures r >= 0 && pid != 0 ==> pid !in old(done)
    {
      var k := Find(t, pid);
      if k == |t| { return ECHILD; }
      if t[k].live { return EAGAIN; }
      assert RecordOk(t, next, done, t[k]);
      r := Shell(t[k].status);
      Free(k);
    }
  }
}
