/** The kernel's row table and its pipes (src/inle/kmain.c): rows that are pipe ends are counted by the
    pipe, through pipe, dup, dup3 and close; and what is read is what was written. */
module Pipes {

  type byte = x: nat | x < 256

  /** A closed row; a boot row, which has no close; a twin of one, which has; a pipe's ends. */
  datatype Row = Free | Boot(i: nat) | Twin(i: nat) | ReadEnd(p: nat) | WriteEnd(p: nat)

  /** The counts of its ends, and its bytes: those waiting, and in history those taken and given. */
  datatype Pipe = Pipe(rrefs: nat, wrefs: nat, q: seq<byte>, sent: seq<byte>, got: seq<byte>)

  const BOOT: nat := 3
  const MOST: nat := 0x1_0000

  const EBADF: int := -9
  const ENOMEM: int := -12
  const EINVAL: int := -22

  function Count(rows: seq<Row>, r: Row): (n: nat) {
    if rows == [] then 0 else Count(rows[..|rows| - 1], r) + if rows[|rows| - 1] == r then 1 else 0
  }

  lemma {:induction false} CountSet(rows: seq<Row>, i: nat, x: Row, r: Row)
    requires i < |rows|
    ensures Count(rows[i := x], r) == Count(rows, r) - (if rows[i] == r then 1 else 0) + if x == r then 1 else 0
  {
    var n := |rows| - 1;
    if i < n {
      assert rows[i := x][..n] == rows[..n][i := x];
      CountSet(rows[..n], i, x, r);
    } else {
      assert rows[i := x][..n] == rows[..n];
    }
  }

  lemma {:induction false} CountGrow(rows: seq<Row>, m: nat, r: Row)
    requires |rows| <= m && r != Free
    ensures Count(Grown(rows, m), r) == Count(rows, r)
    decreases m
  {
    var g := Grown(rows, m);
    if |rows| < m {
      assert g[..m - 1] == Grown(rows, m - 1);
      CountGrow(rows, m - 1, r);
    } else {
      assert g == rows;
    }
  }

  lemma {:induction false} CountHas(rows: seq<Row>, r: Row)
    ensures Count(rows, r) > 0 <==> r in rows
  {
    if rows != [] {
      var n := |rows| - 1;
      CountHas(rows[..n], r);
      assert rows == rows[..n] + [rows[n]];
    }
  }

  function Grown(rows: seq<Row>, m: nat): (r: seq<Row>)
    requires |rows| <= m
    ensures |r| == m
  { rows + seq(m - |rows|, i => Free) }

  /** From at on, and past the boot rows, the first row that is free; where none is, a row past the table. */
  function FreeAt(rows: seq<Row>, at: nat): (i: nat)
    ensures i >= at && i >= BOOT
    ensures i < |rows| ==> rows[i] == Free
    ensures forall j :: 0 <= j < |rows| && j < i && j >= at && j >= BOOT ==> rows[j] != Free
    ensures i > |rows| ==> i == at || i == BOOT
    decreases if at < BOOT then 1 else 0, if at < |rows| then |rows| - at else 0
  {
    if at < BOOT then FreeAt(rows, BOOT)
    else if at >= |rows| then at
    else if rows[at] == Free then at
    else FreeAt(rows, at + 1)
  }

  /** A pipe's first k bytes taken; more given. */
  function Taken(x: Pipe, k: nat): (y: Pipe)
    requires k <= |x.q|
  { Pipe(x.rrefs, x.wrefs, x.q[k..], x.sent, x.got + x.q[..k]) }

  function Given(x: Pipe, src: seq<byte>): (y: Pipe) { Pipe(x.rrefs, x.wrefs, x.q + src, x.sent + src, x.got) }

  /** The lowest free row once the one before is taken. */
  lemma NextFree(rows: seq<Row>, g: seq<Row>, x: Row)
    requires BOOT <= |rows| <= |g| && g == Grown(rows, |g|) && FreeAt(rows, 0) < |g| && x != Free
    ensures var r := FreeAt(rows, 0); var w := FreeAt(g[r := x], 0);
            && r < w && (forall i :: BOOT <= i < w && i != r && i < |rows| ==> rows[i] != Free) && (w > |rows| ==> w == r + 1)
  {
    var r := FreeAt(rows, 0);
    var g' := g[r := x];
    var w := FreeAt(g', 0);
    forall i | 0 <= i < |rows| && i != r ensures g'[i] == rows[i] {}
    assert w < |g'| ==> g'[w] == Free;
    assert |rows| <= r + 1 < |g'| ==> g'[r + 1] == Free;
    assert r < |rows| < |g'| ==> g'[|rows|] == Free;
  }

  // ----- the table and its pipes

  /** Every row that is a pipe's end is of a pipe there is; a pipe's counts are its rows, and it is there
      while they are not both zero; what it gave, with what waits, is what it took. */
  ghost predicate Counted(rows: seq<Row>, pipes: map<nat, Pipe>) {
    && (forall i :: 0 <= i < |rows| ==> Ends(rows[i], pipes))
    && (forall p :: p in pipes ==> Fair(rows, p, pipes[p]))
  }

  ghost predicate Ends(r: Row, pipes: map<nat, Pipe>) { r.ReadEnd? || r.WriteEnd? ==> r.p in pipes }

  ghost predicate Fair(rows: seq<Row>, p: nat, x: Pipe) {
    && x.rrefs == Count(rows, ReadEnd(p)) && x.wrefs == Count(rows, WriteEnd(p))
    && (x.rrefs > 0 || x.wrefs > 0) && x.sent == x.got + x.q
  }

  /** A pipe's memory is there just while some row is an end of it. */
  lemma InUse(rows: seq<Row>, pipes: map<nat, Pipe>, p: nat)
    requires Counted(rows, pipes)
    ensures p in pipes <==> ReadEnd(p) in rows || WriteEnd(p) in rows
  {
    if p in pipes {
      assert Fair(rows, p, pipes[p]);
      CountHas(rows, ReadEnd(p));
      CountHas(rows, WriteEnd(p));
    }
  }

  /** A row gone from the table: its pipe counts one less, and goes with its last. */
  function Dropped(pipes: map<nat, Pipe>, r: Row): (q: map<nat, Pipe>) {
    match r
    case ReadEnd(p) => if p in pipes then Less(pipes, p, if pipes[p].rrefs > 0 then pipes[p].(rrefs := pipes[p].rrefs - 1) else pipes[p]) else pipes
    case WriteEnd(p) => if p in pipes then Less(pipes, p, if pipes[p].wrefs > 0 then pipes[p].(wrefs := pipes[p].wrefs - 1) else pipes[p]) else pipes
    case _ => pipes
  }

  function Less(pipes: map<nat, Pipe>, p: nat, x: Pipe): (q: map<nat, Pipe>) {
    if x.rrefs == 0 && x.wrefs == 0 then pipes - {p} else pipes[p := x]
  }

  function Added(pipes: map<nat, Pipe>, r: Row): (q: map<nat, Pipe>) {
    match r
    case ReadEnd(p) => if p in pipes then pipes[p := pipes[p].(rrefs := pipes[p].rrefs + 1)] else pipes
    case WriteEnd(p) => if p in pipes then pipes[p := pipes[p].(wrefs := pipes[p].wrefs + 1)] else pipes
    case _ => pipes
  }

  lemma DropFair(rows: seq<Row>, pipes: map<nat, Pipe>, i: nat, p: nat)
    requires Counted(rows, pipes) && i < |rows| && p in Dropped(pipes, rows[i])
    ensures p in pipes && Fair(rows[i := Free], p, Dropped(pipes, rows[i])[p])
  {
    assert Fair(rows, p, pipes[p]);
    CountSet(rows, i, Free, ReadEnd(p));
    CountSet(rows, i, Free, WriteEnd(p));
  }

  lemma DropEnds(rows: seq<Row>, pipes: map<nat, Pipe>, i: nat, j: nat)
    requires Counted(rows, pipes) && i < |rows| && j < |rows| && j != i
    ensures Ends(rows[j], Dropped(pipes, rows[i]))
  {
    assert Ends(rows[j], pipes);
    if rows[j].ReadEnd? || rows[j].WriteEnd? {
      assert Fair(rows, rows[j].p, pipes[rows[j].p]);
      var rows' := rows[i := Free];
      CountSet(rows, i, Free, rows[j]);
      assert rows'[j] == rows[j];
      CountHas(rows', rows[j]);
    }
  }

  lemma DropCounted(rows: seq<Row>, pipes: map<nat, Pipe>, i: nat)
    requires Counted(rows, pipes) && i < |rows|
    ensures Counted(rows[i := Free], Dropped(pipes, rows[i])) && Dropped(pipes, rows[i]).Keys <= pipes.Keys
  {
    var rows', pipes' := rows[i := Free], Dropped(pipes, rows[i]);
    forall p | p in pipes' ensures p in pipes && Fair(rows', p, pipes'[p]) { DropFair(rows, pipes, i, p); }
    forall j | 0 <= j < |rows'| ensures Ends(rows'[j], pipes') { if j != i { DropEnds(rows, pipes, i, j); } }
  }

  lemma AddCounted(rows: seq<Row>, pipes: map<nat, Pipe>, i: nat, r: Row)
    requires Counted(rows, pipes) && i < |rows| && rows[i] == Free && (r.ReadEnd? || r.WriteEnd? ==> r.p in pipes)
    ensures Counted(rows[i := r], Added(pipes, r)) && Added(pipes, r).Keys == pipes.Keys
  {
    var rows', pipes' := rows[i := r], Added(pipes, r);
    forall j | 0 <= j < |rows'| ensures Ends(rows'[j], pipes') { if j != i { assert Ends(rows[j], pipes); } }
    forall p | p in pipes' ensures Fair(rows', p, pipes'[p]) {
      assert Fair(rows, p, pipes[p]);
      CountSet(rows, i, r, ReadEnd(p));
      CountSet(rows, i, r, WriteEnd(p));
    }
  }

  lemma GrowCounted(rows: seq<Row>, pipes: map<nat, Pipe>, m: nat)
    requires Counted(rows, pipes) && |rows| <= m
    ensures Counted(Grown(rows, m), pipes)
  {
    var rows' := Grown(rows, m);
    forall j | 0 <= j < |rows'| ensures Ends(rows'[j], pipes) { if j < |rows| { assert Ends(rows[j], pipes); } }
    forall p | p in pipes ensures Fair(Grown(rows, m), p, pipes[p]) {
      assert Fair(rows, p, pipes[p]);
      CountGrow(rows, m, ReadEnd(p));
      CountGrow(rows, m, WriteEnd(p));
    }
  }

  /** A row moved: the copy and the retired one are one row still. */
  lemma MoveCounted(rows: seq<Row>, pipes: map<nat, Pipe>, from: nat, to: nat)
    requires Counted(rows, pipes) && from < |rows| && to < |rows| && from != to && !rows[to].ReadEnd? && !rows[to].WriteEnd?
    ensures Counted(rows[to := rows[from]][from := Free], pipes)
  {
    var r := rows[from];
    var rows1 := rows[to := r];
    var rows' := rows1[from := Free];
    forall j | 0 <= j < |rows'| ensures Ends(rows'[j], pipes) { assert Ends(rows[j], pipes) && Ends(r, pipes); }
    forall p | p in pipes ensures Fair(rows', p, pipes[p]) {
      assert Fair(rows, p, pipes[p]);
      CountSet(rows, to, r, ReadEnd(p));
      CountSet(rows, to, r, WriteEnd(p));
      CountSet(rows1, from, Free, ReadEnd(p));
      CountSet(rows1, from, Free, WriteEnd(p));
    }
  }

  /** A dup's row: an end shares its pipe, a boot row's twin can be closed. */
  function Copied(r: Row): (c: Row) { if r.Boot? then Twin(r.i) else r }

  /** What a row reaches: a boot device, or a pipe from one side. */
  datatype Reach = Nothing | Device(i: nat) | Out(p: nat) | In(p: nat)

  function Reaches(r: Row): (d: Reach) {
    match r
    case Free => Nothing
    case Boot(i) => Device(i)
    case Twin(i) => Device(i)
    case ReadEnd(p) => Out(p)
    case WriteEnd(p) => In(p)
  }

  /** A dup reaches what its source does, and has a close. */
  lemma CopyReaches(r: Row)
    ensures Reaches(Copied(r)) == Reaches(r) && !Copied(r).Boot?
  {
  }

  /** An end shared and given up again. */
  lemma AddDrop(rows: seq<Row>, pipes: map<nat, Pipe>, r: Row)
    requires Counted(rows, pipes) && r in rows
    ensures Dropped(Added(pipes, r), Copied(r)) == pipes
  {
    if r.ReadEnd? || r.WriteEnd? { assert Fair(rows, r.p, pipes[r.p]); }
  }

  lemma MovedRows(g: seq<Row>, rows: seq<Row>, i: nat, dst: nat, c: Row)
    requires i < |g| && dst < |g| && g[i] == Free && rows == g[i := c]
    ensures i != dst ==> rows[dst := Free][dst := c][i := Free] == g[dst := c]
    ensures i != dst ==> rows[dst := c][i := Free] == g[dst := c]
    ensures i == dst ==> rows[dst := Free] == g
  {
    assert rows[dst := Free][dst := c] == rows[dst := c];
  }

  lemma GrownTwice(rows: seq<Row>, n: nat, m: nat, i: nat, r: Row)
    requires |rows| <= n <= m && i < n
    ensures Grown(Grown(rows, n)[i := r], m) == Grown(rows, m)[i := r]
  {
  }

  ghost predicate Below(pipes: map<nat, Pipe>, next: nat) { forall p :: p in pipes ==> p < next }

  class Kernel {
    var rows: seq<Row>
    var pipes: map<nat, Pipe>
    var next: nat

    ghost predicate Valid()
      reads this
    {
      BOOT <= |rows| <= MOST && Counted(rows, pipes) && Below(pipes, next)
    }

    constructor ()
      ensures Valid() && rows == [Boot(0), Boot(1), Boot(2)] && pipes == map[]
    {
      rows, pipes, next := [Boot(0), Boot(1), Boot(2)], map[], 0;
    }

    /** k_source_open: the row is there, the table doubled for it if memory allows. */
    method Open(fd: nat, memory: bool) returns (ok: bool)
      requires Valid()
      modifies this`rows
      ensures Valid() && |old(rows)| <= |rows| && rows == Grown(old(rows), |rows|)
      ensures ok <==> fd < MOST && (fd < |old(rows)| || memory)
      ensures ok ==> fd < |rows|
      ensures fd < |old(rows)| || !ok ==> rows == old(rows)
    {
      ok := true;
      assert Grown(rows, |rows|) == rows;
      if fd >= MOST { return false; }
      if fd >= |rows| {
        if !memory { return false; }
        var m := |rows|;
        while m <= fd
          invariant |rows| <= m
        {
          m := 2 * m;
        }
        if m > MOST { m := MOST; }
        GrowCounted(rows, pipes, m);
        rows := Grown(rows, m);
      }
    }

    /** k_row_close: a row with a close gives its end up. */
    method Close(fd: nat)
      requires Valid() && fd < |rows|
      modifies this`rows, this`pipes
      ensures Valid()
      ensures if old(rows)[fd].Boot? then rows == old(rows) && pipes == old(pipes)
              else rows == old(rows)[fd := Free] && pipes == Dropped(old(pipes), old(rows)[fd])
    {
      if !rows[fd].Boot? {
        DropCounted(rows, pipes, fd);
        pipes := Dropped(pipes, rows[fd]);
        rows := rows[fd := Free];
      }
    }

    /** k_dup_row: a copy at the lowest free row from floor on. */
    method DupRow(src: nat, at: nat, memory: bool) returns (fd: int)
      requires Valid()
      modifies this`rows, this`pipes
      ensures Valid() && |old(rows)| <= |rows|
      ensures fd >= 0 ==> src < |old(rows)| && fd < |rows| && Reaches(rows[fd]) == Reaches(old(rows)[src]) != Nothing
      ensures fd >= 0 ==> && src < |old(rows)| && old(rows)[src] != Free && fd == FreeAt(old(rows), at) < |rows|
                          && rows == Grown(old(rows), |rows|)[fd := Copied(old(rows)[src])]
                          && pipes == Added(old(pipes), old(rows)[src])
      ensures fd < 0 ==> fd == -1 && rows == old(rows) && pipes == old(pipes)
      ensures fd < 0 ==> src >= |rows| || rows[src] == Free || FreeAt(rows, at) >= MOST || (FreeAt(rows, at) >= |rows| && !memory)
    {
      if src >= |rows| || rows[src] == Free { return -1; }
      var i := FreeAt(rows, at);
      var ok := Open(i, memory);
      if !ok { return -1; }
      var r := rows[src];
      AddCounted(rows, pipes, i, Copied(r));
      pipes := Added(pipes, r);
      rows := rows[i := Copied(r)];
      fd := i;
    }

    /** k_fd_dup. */
    method Dup(src: nat, at: nat, memory: bool) returns (fd: int)
      requires Valid()
      modifies this`rows, this`pipes
      ensures Valid()
      ensures fd >= 0 ==> src < |old(rows)| && fd < |rows| && Reaches(rows[fd]) == Reaches(old(rows)[src]) != Nothing
      ensures fd >= 0 ==> && src < |old(rows)| && fd == FreeAt(old(rows), at) < |rows|
                          && |old(rows)| <= |rows| && rows == Grown(old(rows), |rows|)[fd := Copied(old(rows)[src])]
                          && pipes == Added(old(pipes), old(rows)[src])
      ensures fd < 0 ==> rows == old(rows) && pipes == old(pipes) && (fd == EINVAL <==> at >= MOST) && (fd == EINVAL || fd == EBADF)
    {
      if at >= MOST { return EINVAL; }
      fd := DupRow(src, at, memory);
      if fd < 0 { fd := EBADF; }
    }

    /** k_fd_dup3: dst closed and made src's copy, through a row of its own. Where dst is that very row, the
        lowest free one, it is closed again and left free, though dst is answered. */
    method Dup3(src: nat, dst: nat, memory: bool, memory2: bool) returns (fd: int)
      requires Valid()
      modifies this`rows, this`pipes
      ensures Valid() && |old(rows)| <= |rows|
      ensures fd >= 0 ==> src < |old(rows)| && dst < |rows| && Reaches(rows[dst]) == if dst != FreeAt(old(rows), 0) then Reaches(old(rows)[src]) else Nothing
      ensures fd >= 0 ==> && fd == dst != src && src < |old(rows)| && dst < |rows|
                          && (rows[dst] == Copied(old(rows)[src]) <==> dst != FreeAt(old(rows), 0))
                          && rows == (if dst != FreeAt(old(rows), 0) then Grown(old(rows), |rows|)[dst := Copied(old(rows)[src])]
                                      else Grown(old(rows), |rows|))
                          && pipes == (if dst != FreeAt(old(rows), 0) then Dropped(Added(old(pipes), old(rows)[src]), Grown(old(rows), |rows|)[dst])
                                       else old(pipes))
      ensures fd < 0 ==> pipes == old(pipes) && rows == Grown(old(rows), |rows|)
    {
      assert Grown(rows, |rows|) == rows;
      if src == dst { return EINVAL; }
      if dst >= MOST { return EBADF; }
      var nfd := DupRow(src, 0, memory);
      if nfd < 0 { return EBADF; }
      ghost var n := |rows|;
      var ok := Open(dst, memory2);
      GrownTwice(old(rows), n, |rows|, nfd, Copied(old(rows)[src]));
      if !ok {
        Undo(nfd, old(rows)[src], old(rows), old(pipes));
        return ENOMEM;
      }
      ghost var rows1 := rows;
      Close(dst);
      Move(nfd, dst);
      fd := dst;
      MovedRows(Grown(old(rows), |rows|), rows1, nfd, dst, Copied(old(rows)[src]));
      if nfd == dst { AddDrop(old(rows), old(pipes), old(rows)[src]); }
    }

    /** The row at nfd to dst, which is closed; its own retires. */
    method Move(nfd: nat, dst: nat)
      requires Valid() && nfd < |rows| && dst < |rows| && !rows[dst].ReadEnd? && !rows[dst].WriteEnd?
      requires nfd == dst ==> rows[dst] == Free
      modifies this`rows
      ensures Valid() && rows == if nfd == dst then old(rows) else old(rows)[dst := old(rows)[nfd]][nfd := Free]
    {
      if nfd != dst { MoveCounted(rows, pipes, nfd, dst); }
      rows := rows[dst := rows[nfd]];
      rows := rows[nfd := Free];
      assert nfd == dst ==> rows == old(rows);
    }

    /** The row a dup made, taken back. */
    method Undo(nfd: nat, ghost r: Row, ghost rows0: seq<Row>, ghost pipes0: map<nat, Pipe>)
      requires Valid() && |rows0| <= |rows| && nfd < |rows| && Counted(rows0, pipes0) && r in rows0 && r != Free
      requires nfd < |rows0| ==> rows0[nfd] == Free
      requires rows == Grown(rows0, |rows|)[nfd := Copied(r)] && pipes == Added(pipes0, r)
      modifies this`rows, this`pipes
      ensures Valid() && pipes == pipes0 && |rows0| <= |rows| && rows == Grown(rows0, |rows|)
    {
      Close(nfd);
      AddDrop(rows0, pipes0, r);
    }

    /** k_fd_pipe. */
    method MakePipe(memory: bool, memory1: bool, memory2: bool) returns (r: int, rfd: nat, wfd: nat)
      requires Valid()
      modifies this
      ensures Valid()
      ensures r == 0 ==> && rfd < |rows| && wfd < |rows| && rfd != wfd && rows[rfd] == ReadEnd(old(next)) && rows[wfd] == WriteEnd(old(next))
                         && rfd == FreeAt(old(rows), 0) < wfd && (forall i :: BOOT <= i < wfd && i != rfd && i < |old(rows)| ==> old(rows)[i] != Free)
                         && (wfd > |old(rows)| ==> wfd == rfd + 1)
                         && pipes == old(pipes)[old(next) := Pipe(1, 1, [], [], [])] && old(next) !in old(pipes)
                         && |old(rows)| <= |rows| && (forall i :: 0 <= i < |old(rows)| && i != rfd && i != wfd ==> rows[i] == old(rows)[i])
      ensures r != 0 ==> r == ENOMEM && pipes == old(pipes) && |old(rows)| <= |rows| && rows == Grown(old(rows), |rows|)
    {
      rfd, wfd := 0, 0;
      assert Grown(rows, |rows|) == rows;
      if !memory { return ENOMEM, 0, 0; }
      rfd := FreeAt(rows, 0);
      var ok := Open(rfd, memory1);
      if !ok { return ENOMEM, 0, 0; }
      NextFree(old(rows), rows, ReadEnd(next));
      wfd := FreeAt(rows[rfd := ReadEnd(next)], 0);
      var ok2 := Open(wfd, memory2);
      if !ok2 { return ENOMEM, 0, 0; }
      r := 0;
      PutEnds(rfd, wfd);
      next := next + 1;
    }

    method PutEnds(rfd: nat, wfd: nat)
      requires Valid() && rfd < |rows| && wfd < |rows| && rfd != wfd && rows[rfd] == Free && rows[wfd] == Free
      modifies this`rows, this`pipes
      ensures Counted(rows, pipes) && rows == old(rows)[rfd := ReadEnd(next)][wfd := WriteEnd(next)]
      ensures pipes == old(pipes)[next := Pipe(1, 1, [], [], [])] && |rows| == |old(rows)|
    {
      ghost var x := Pipe(1, 1, [], [], []);
      var rows1 := rows[rfd := ReadEnd(next)];
      var rows2 := rows1[wfd := WriteEnd(next)];
      ghost var pipes2 := pipes[next := x];
      forall p | p in pipes2 ensures Fair(rows2, p, pipes2[p]) {
        if p != next { assert Fair(rows, p, pipes[p]); }
        CountSet(rows, rfd, ReadEnd(next), ReadEnd(p));
        CountSet(rows, rfd, ReadEnd(next), WriteEnd(p));
        CountSet(rows1, wfd, WriteEnd(next), ReadEnd(p));
        CountSet(rows1, wfd, WriteEnd(next), WriteEnd(p));
        if p == next {
          CountHas(rows, ReadEnd(p));
          CountHas(rows, WriteEnd(p));
        }
      }
      rows, pipes := rows2, pipes[next := Pipe(1, 1, [], [], [])];
    }

    /** A read of up to n into dst: bytes, 0 to park, or -1: the end. tube holds the pipe's bytes. */
    method Read(fd: nat, tube: Tube, dst: array<byte>, n: nat) returns (k: int)
      requires Valid() && fd < |rows| && rows[fd].ReadEnd? && n <= dst.Length && dst != tube.q.buf
      requires rows[fd].p in pipes && tube.Is(pipes[rows[fd].p])
      modifies this`pipes, tube.q`rp, tube.q`wp, dst
      ensures Valid() && rows[fd].p in pipes && tube.Is(pipes[rows[fd].p])
      ensures var p := rows[fd].p; var x := old(pipes)[p]; var a: nat := if n < |x.q| then n else |x.q|;
              && pipes == old(pipes)[p := Taken(x, a)] && dst[..a] == x.q[..a]
              && (k >= 0 ==> k == a) && (k == -1 <==> x.q == [] && WriteEnd(p) !in rows) && k >= -1
    {
      var p := rows[fd].p;
      ghost var x := pipes[p];
      assert Fair(rows, p, x);
      CountHas(rows, WriteEnd(p));
      var wrefs := pipes[p].wrefs;
      var a: nat := if n < |pipes[p].q| then n else |pipes[p].q|;
      TakenFair(rows, pipes, p, a);
      var none := tube.Empty(x);
      var got := tube.Read(dst, n, x);
      pipes := pipes[p := Taken(pipes[p], a)];
      k := if !none then got else if wrefs > 0 then 0 else -1;
    }

    /** A write: all the bytes, or -1 with no reader or no room for them. */
    method Write(fd: nat, src: seq<byte>, tube: Tube, memory: bool) returns (k: int)
      requires Valid() && fd < |rows| && rows[fd].WriteEnd?
      requires rows[fd].p in pipes && tube.Is(pipes[rows[fd].p])
      modifies this`pipes, tube.q`rp, tube.q`wp, tube.q`buf, tube.q.buf
      ensures Valid() && rows[fd].p in pipes && tube.Is(pipes[rows[fd].p])
      ensures var p := rows[fd].p; var x := old(pipes)[p];
              && (k >= 0 ==> k == |src| && pipes == old(pipes)[p := Given(x, src)])
              && (k < 0 ==> k == -1 && pipes == old(pipes))
              && (k == -1 <==> ReadEnd(p) !in rows || old(tube.q.Refuses(|src|, memory)))
    {
      var p := rows[fd].p;
      ghost var x := pipes[p];
      assert Fair(rows, p, x);
      CountHas(rows, ReadEnd(p));
      if pipes[p].rrefs == 0 { return -1; }
      GivenFair(rows, pipes, p, src);
      k := tube.Write(src, memory, x);
      if k == -1 { return; }
      pipes := pipes[p := Given(pipes[p], src)];
    }
  }

  lemma TakenFair(rows: seq<Row>, pipes: map<nat, Pipe>, p: nat, k: nat)
    requires Counted(rows, pipes) && p in pipes && k <= |pipes[p].q|
    ensures Counted(rows, pipes[p := Taken(pipes[p], k)])
  {
    assert Fair(rows, p, pipes[p]);
    TakeDrop(pipes[p].got, pipes[p].q, k);
    Refair(rows, pipes, pipes[p := Taken(pipes[p], k)], p);
  }

  lemma TakenNone(x: Pipe)
    ensures Taken(x, 0) == x
  {
    assert x.q[0..] == x.q && x.got + x.q[..0] == x.got;
  }

  lemma GivenFair(rows: seq<Row>, pipes: map<nat, Pipe>, p: nat, src: seq<byte>)
    requires Counted(rows, pipes) && p in pipes
    ensures Counted(rows, pipes[p := Given(pipes[p], src)])
  {
    assert Fair(rows, p, pipes[p]);
    assert pipes[p].got + pipes[p].q + src == pipes[p].got + (pipes[p].q + src);
    Refair(rows, pipes, pipes[p := Given(pipes[p], src)], p);
  }

  lemma Refair(rows: seq<Row>, pipes: map<nat, Pipe>, pipes': map<nat, Pipe>, p: nat)
    requires Counted(rows, pipes) && p in pipes && p in pipes' && pipes' == pipes[p := pipes'[p]] && Fair(rows, p, pipes'[p])
    ensures Counted(rows, pipes')
  {
    forall r | r in pipes' ensures Fair(rows, r, pipes'[r]) { if r != p { assert Fair(rows, r, pipes[r]); } }
  }

  // ----- the queue in its buffer

  lemma Slices(s: seq<byte>, i: nat, j: nat, a: nat)
    requires i + a <= j <= |s|
    ensures s[i..j][a..] == s[i + a..j] && s[i..j][..a] == s[i..i + a]
  {
  }

  const GRAIN: nat := 4096

  /** The bytes wait from rp up to wp; top is the largest place a byte may have. */
  class Queue {
    var buf: array<byte>
    var rp: nat
    var wp: nat
    const top: nat

    ghost predicate Valid()
      reads this
    { rp <= wp <= buf.Length && (rp == wp ==> rp == 0) }

    ghost function Contents(): (q: seq<byte>)
      reads this, buf
      requires Valid()
    { buf[rp..wp] }

    constructor (top: nat)
      ensures Valid() && Contents() == [] && fresh(buf) && this.top == top
    {
      buf, rp, wp, this.top := new byte[0], 0, 0, top;
    }

    /** q_get. */
    method Get(dst: array<byte>, n: nat) returns (k: nat)
      requires Valid() && n <= dst.Length && dst != buf
      modifies this`rp, this`wp, dst
      ensures Valid() && k == if n < |old(Contents())| then n else |old(Contents())|
      ensures Contents() == old(Contents())[k..] && dst[..k] == old(Contents())[..k]
    {
      var a := wp - rp;
      if a == 0 { return 0; }
      if a > n { a := n; }
      ghost var q := Contents();
      CopyOut(dst, a, q);
      Slices(buf[..], rp, wp, a);
      rp := rp + a;
      if rp == wp { rp, wp := 0, 0; }
      k := a;
    }

    method CopyOut(dst: array<byte>, a: nat, ghost q: seq<byte>)
      requires rp <= wp <= buf.Length && q == buf[rp..wp] && a <= |q| && a <= dst.Length && dst != buf
      modifies dst
      ensures dst[..a] == q[..a]
    {
      var i := 0;
      while i < a
        invariant i <= a
        invariant forall j :: 0 <= j < i ==> dst[j] == q[j]
      {
        assert q[i] == buf[rp + i];
        dst[i] := buf[rp + i];
        i := i + 1;
      }
    }

    /** No room: past the largest place there is, or memory refuses and sliding down leaves too little. */
    predicate Refuses(n: nat, memory: bool)
      reads this
      requires rp <= wp
    { n + wp > top || (!memory && wp - rp + n > buf.Length) }

    /** q_put: room made by sliding down, then by growing; -1 where memory refuses, and then nothing is
        lost. */
    method Put(src: seq<byte>, memory: bool) returns (k: int)
      requires Valid()
      modifies this`rp, this`wp, this`buf, buf
      ensures Valid() && (buf == old(buf) || fresh(buf))
      ensures k == |src| ==> Contents() == old(Contents()) + src
      ensures k != |src| ==> k == -1 && Contents() == old(Contents())
      ensures k == -1 <==> old(Refuses(|src|, memory))
    {
      if |src| + wp > top { return -1; }
      var ok := Fit(|src|, memory);
      if !ok { return -1; }
      Lay(src);
      k := |src|;
    }

    method Lay(src: seq<byte>)
      requires Valid() && wp + |src| <= buf.Length
      modifies this`wp, buf
      ensures Valid() && Contents() == old(Contents()) + src
    {
      ghost var q := Contents();
      var i := 0;
      while i < |src|
        invariant i <= |src| && wp == old(wp)
        invariant buf[rp..wp + i] == q + src[..i]
      {
        buf[wp + i] := src[i];
        assert buf[rp..wp + i + 1] == buf[rp..wp + i] + [src[i]];
        i := i + 1;
      }
      assert src[..i] == src;
      wp := wp + |src|;
    }

    /** Room for n more past wp. */
    method Fit(n: nat, memory: bool) returns (ok: bool)
      requires Valid()
      modifies this`rp, this`wp, this`buf, buf
      ensures Valid() && Contents() == old(Contents()) && (buf == old(buf) || fresh(buf))
      ensures ok ==> wp + n <= buf.Length
      ensures ok <==> memory || old(wp - rp + n <= buf.Length)
    {
      ok := true;
      if wp + n <= buf.Length { return; }
      Slide();
      if wp + n > buf.Length {
        if !memory { return false; }
        var cap := if buf.Length > 0 then buf.Length else GRAIN;
        while cap < wp + n
          invariant cap > 0
          decreases wp + n - cap
        {
          cap := 2 * cap;
        }
        var b := new byte[cap];
        forall i | 0 <= i < wp { b[i] := buf[i]; }
        assert b[..wp] == buf[..wp];
        buf := b;
      }
    }

    /** The waiting bytes to the front. */
    method Slide()
      requires Valid()
      modifies this`rp, this`wp, buf
      ensures Valid() && rp == 0 && Contents() == old(Contents())
    {
      ghost var q := Contents();
      var i, r := 0, rp;
      while i < wp - r
        invariant i <= wp - r && rp == r == old(rp) && wp == old(wp)
        invariant buf[..i] == q[..i] && buf[r + i..wp] == q[i..]
      {
        assert buf[r + i] == q[i..][0] == q[i];
        assert buf[r + i + 1..wp] == buf[r + i..wp][1..] == q[i + 1..];
        buf[i] := buf[r + i];
        i := i + 1;
      }
      wp, rp := wp - rp, 0;
      assert q[..i] == q;
    }
  }

  lemma TakeDrop(g: seq<byte>, q: seq<byte>, k: nat)
    requires k <= |q|
    ensures (g + q[..k]) + q[k..] == g + q
  {
    assert q[..k] + q[k..] == q;
  }

  /** The bytes of a pipe where they lie: the buffer holds those that wait, in order, wherever they have slid or
      grown to, as the row table's reads and writes leave them. */
  class Tube {
    const q: Queue

    ghost predicate Is(x: Pipe)
      reads q, q.buf
    { q.Valid() && x.q == q.Contents() }

    constructor (top: nat)
      ensures fresh(q) && fresh(q.buf) && Is(Pipe(1, 1, [], [], []))
    {
      q := new Queue(top);
    }

    method Empty(ghost x: Pipe) returns (b: bool)
      requires Is(x)
      ensures b <==> x.q == []
    {
      b := q.wp == q.rp;
    }

    /** Kernel.Read's bytes, and what it leaves. */
    method Read(dst: array<byte>, n: nat, ghost x: Pipe) returns (k: nat)
      requires Is(x) && n <= dst.Length && dst != q.buf
      modifies q`rp, q`wp, dst
      ensures k == (if n < |x.q| then n else |x.q|) && dst[..k] == x.q[..k] && Is(Taken(x, k))
    {
      k := q.Get(dst, n);
    }

    /** Kernel.Write's. */
    method Write(src: seq<byte>, memory: bool, ghost x: Pipe) returns (k: int)
      requires Is(x)
      modifies q`rp, q`wp, q`buf, q.buf
      ensures (q.buf == old(q.buf) || fresh(q.buf)) && (k == |src| || k == -1) && (k == -1 <==> old(q.Refuses(|src|, memory)))
      ensures Is(if k == |src| then Given(x, src) else x)
    {
      k := q.Put(src, memory);
    }
  }
}
