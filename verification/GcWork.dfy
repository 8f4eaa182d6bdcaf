/** A pass of src/love/gc.c in place: its state is the struct the driver keeps on its stack, and the loops
    are gc.c's. */
module GcWork {
  import opened GcHeap
  import opened GcEngine
  import opened GcRemember
  import opened GcDrain
  import opened GcPass
  import opened GcPlace
  import opened GcOwed

  ghost predicate FwdGrows(e: Eng, e': Eng) {
    forall a :: a in e.fwd ==> a in e'.fwd && e'.fwd[a] == e.fwd[a]
  }

  /** What no step of a pass changes: the words in all, the places in all, the survivors within theirs. */
  ghost predicate Keeps(c: Cfg, e: Eng, e': Eng) {
    && FwdGrows(e, e') && e.tn <= e'.tn
    && Room(c, e') == Room(c, e) && Places(c, e') == Places(c, e) && Metered(c, e')
  }

  lemma KeepsAll(c: Cfg, e: Eng)
    requires Metered(c, e)
    ensures Keeps(c, e, e)
  {}

  lemma KeepsThen(c: Cfg, e: Eng, e1: Eng, e2: Eng)
    requires Keeps(c, e, e1) && Keeps(c, e1, e2)
    ensures Keeps(c, e, e2)
  {}

  lemma EvacKeeps(c: Cfg, e: Eng, m: Mode, h0: Heap, l: Loc, j: nat)
    requires Tied(c, e, h0) && l in e.heap && Metered(c, e)
    ensures Keeps(c, e, Evac(c, e, m, l, j, |e.heap[l].fields|))
  {
    EvacTakes(c, e, m, h0, l, j, |e.heap[l].fields|);
    EvacTied(c, e, m, h0, l, j, |e.heap[l].fields|);
  }

  /** The hit flag is no part of what is tied or counted. */
  lemma HitFree(c: Cfg, e: Eng, h0: Heap)
    requires Tied(c, e, h0) && Metered(c, e)
    ensures var e0 := e.(hit := false); Tied(c, e0, h0) && Metered(c, e0) && Keeps(c, e, e0)
  {
    var e0 := e.(hit := false);
    assert Traced(c.objs, e0.fwd, e0.heap, h0) && Blocks(c, e0);
  }

  /** Where a pass may start: nothing forwarded yet, every pointer sound, the remembered set complete below
      scan, and all of the tenured block there. */
  ghost predicate Ready(c: Cfg, e: Eng, rs: RemSet, h0: Heap, roots: seq<Word>, scan: nat) {
    && e.fwd == map[] && e.heap == h0 && !e.over && e.sn == 0 && scan <= e.tn
    && Blocks(c, e) && h0.Keys !! c.objs.Keys && Sound(h0 + c.objs, roots)
    && rs.Valid() && Complete(c, h0, rs.rem, scan)
  }

  lemma ReadyTied(c: Cfg, e: Eng, h0: Heap)
    requires e.fwd == map[] && e.heap == h0 && Blocks(c, e)
    ensures Tied(c, e, h0)
  {
    assert forall l :: l in h0 ==> ObjOnWay(e.fwd, h0[l], h0[l]);
  }

  /** A finished pass: all of it scanned. */
  ghost predicate Finished(c: Cfg, e: Eng, h0: Heap) {
    Tied(c, e, h0) && Metered(c, e) && CleanT(c, e, e.tn) && CleanS(c, e, e.sn)
  }

  lemma FinishedHit(c: Cfg, e: Eng, e': Eng, h0: Heap)
    requires Finished(c, e, h0) && SameButHit(e, e')
    ensures Finished(c, e', h0)
  {
    assert Traced(c.objs, e'.fwd, e'.heap, h0) && Blocks(c, e');
  }

  class Pass {
    const c: Cfg
    const hash: Entry -> nat
    ghost const h0: Heap
    var e: Eng
    var rs: RemSet

    /** A pass over c from the heap h outside the from-space. */
    constructor (c: Cfg, hash: Entry -> nat, h: Heap, tn: nat, tused: nat, rs: RemSet)
      ensures this.c == c && this.hash == hash && this.h0 == h && this.rs == rs
      ensures this.e == Eng(map[], h, tn, tused, 0, 0, false, false)
    {
      this.c, this.hash, this.h0, this.rs := c, hash, h, rs;
      this.e := Eng(map[], h, tn, tused, 0, 0, false, false);
    }

    /** gcp. */
    method Meet(m: Mode, w: Word) returns (v: Word)
      modifies this`e
      ensures e == Gcp(c, old(e), m, w) && v == Move(e.fwd, w)
    {
      if c.From(w) && w.loc !in e.fwd { e := Copy(c, e, m, w.loc); }
      v := Move(e.fwd, w);
      if m.inOld && c.InS(v) { e := e.(hit := true); }
    }

    /** evac_data, evac_thread, gen_scan_inplace: the fields of the object at l from j on. */
    method Scan(m: Mode, l: Loc, j: nat)
      requires Tied(c, e, h0) && l in e.heap && Metered(c, e)
      modifies this`e
      ensures e == Evac(c, old(e), m, l, j, |old(e).heap[l].fields|)
      ensures Keeps(c, old(e), e)
    {
      EvacKeeps(c, e, m, h0, l, j);
      ScanFields(m, l, j);
    }

    method ScanFields(m: Mode, l: Loc, j: nat)
      requires Tied(c, e, h0) && l in e.heap
      modifies this`e
      ensures e == Evac(c, old(e), m, l, j, |old(e).heap[l].fields|)
    {
      var n, i := |e.heap[l].fields|, j;
      ghost var last := Evac(c, e, m, l, j, n);
      while i < n
        invariant Tied(c, e, h0) && l in e.heap && |e.heap[l].fields| == n
        invariant Evac(c, e, m, l, i, n) == last
        decreases n - i
      {
        i := ScanOne(m, l, i, n, last);
      }
    }

    method ScanOne(m: Mode, l: Loc, i: nat, n: nat, ghost last: Eng) returns (i': nat)
      requires Tied(c, e, h0) && l in e.heap && i < n == |e.heap[l].fields| && Evac(c, e, m, l, i, n) == last
      modifies this`e
      ensures Tied(c, e, h0) && l in e.heap && |e.heap[l].fields| == n && i' == i + 1 && Evac(c, e, m, l, i', n) == last
    {
      VisitTied(c, e, m, h0, l, i);
      VisitTouches(c, e, m, l, i);
      var w := e.heap[l].fields[i];
      var v := Meet(m, w);
      e := e.(heap := SetField(e.heap, l, i, v));
      i' := i + 1;
    }

    /** One remembered entry: scanned in place, and back in the set just if a survivor is left in it. */
    method WalkOne(t: Entry)
      requires Tied(c, e, h0) && Loc(c.tid, t.at) in e.heap && Metered(c, e) && rs.Valid()
      modifies this`e, this`rs
      ensures e == WalkNext(c, old(e), t) && rs == WalkRem(e, old(rs), t, hash(t) % IX) && Keeps(c, old(e), e)
    {
      HitFree(c, e, h0);
      e := e.(hit := false);
      Scan(Mode(true, false), Loc(c.tid, t.at), t.off);
      if e.hit { rs := Remember(rs, t, hash(t) % IX); }
    }

    /** The remembered set, taken off and walked. */
    method Walk()
      requires Tied(c, e, h0) && Metered(c, e) && rs.Valid()
      requires forall q :: 0 <= q < |rs.rem| ==> Loc(c.tid, rs.rem[q].at) in h0
      modifies this`e, this`rs
      ensures Walking(c, e, rs, h0, old(rs).rem, |old(rs).rem|, old(rs).miss) && Keeps(c, old(e), e)
      ensures Aged(c, old(e), e) && Frugal(c, e.heap, rs, old(rs).miss)
    {
      var rem0 := rs.rem;
      ghost var miss0 := rs.miss;
      WalkStarts(c, e, rs, h0);
      KeepsAll(c, e);
      AgesNone(c, e, e);
      ClearedFrugal(c, e.heap, rs);
      rs := Cleared(rs);
      var i := 0;
      while i < |rem0|
        invariant i <= |rem0| && Walking(c, e, rs, h0, rem0, i, miss0) && Keeps(c, old(e), e)
        invariant Aged(c, old(e), e) && Frugal(c, e.heap, rs, miss0)
      {
        ghost var e1 := e;
        WalkAt(rem0, i, miss0);
        KeepsThen(c, old(e), e1, e);
        AgedThen(c, old(e), e1, e);
        i := i + 1;
      }
    }

    method WalkAt(rem0: seq<Entry>, i: nat, ghost miss0: nat)
      requires Walking(c, e, rs, h0, rem0, i, miss0) && Metered(c, e) && i < |rem0| && Loc(c.tid, rem0[i].at) in h0
      requires Frugal(c, e.heap, rs, miss0)
      modifies this`e, this`rs
      ensures Walking(c, e, rs, h0, rem0, i + 1, miss0) && Keeps(c, old(e), e)
      ensures Aged(c, old(e), e) && Frugal(c, e.heap, rs, miss0)
    {
      WalkFrugal(c, e, rs, h0, rem0[i], hash(rem0[i]) % IX, miss0);
      WalkAged(c, e, h0, rem0[i]);
      WalkStep(c, e, rs, h0, rem0, i, miss0, hash(rem0[i]) % IX);
      WalkOne(rem0[i]);
    }

    /** The roots, each replaced by what it comes to. */
    method Roots(roots: seq<Word>) returns (roots': seq<Word>)
      requires Tied(c, e, h0) && Metered(c, e)
      modifies this`e
      ensures Tied(c, e, h0) && RootsMoved(c, e, roots, roots', |roots|) && Keeps(c, old(e), e)
      ensures Aged(c, old(e), e)
    {
      roots' := roots;
      AgesNone(c, e, e);
      var i := 0;
      while i < |roots|
        invariant Tied(c, e, h0) && Keeps(c, old(e), e) && i <= |roots| && RootsMoved(c, e, roots, roots', i)
        invariant Aged(c, old(e), e)
      {
        ghost var e1 := e;
        roots' := RootOne(roots, roots', i);
        AgedThen(c, old(e), e1, e);
        i := i + 1;
      }
    }

    method RootOne(ghost roots: seq<Word>, roots1: seq<Word>, i: nat) returns (roots2: seq<Word>)
      requires Tied(c, e, h0) && Metered(c, e) && RootsMoved(c, e, roots, roots1, i) && i < |roots|
      modifies this`e
      ensures Tied(c, e, h0) && RootsMoved(c, e, roots, roots2, i + 1) && Keeps(c, old(e), e)
      ensures Aged(c, old(e), e)
    {
      RootAged(c, e, h0, roots1[i]);
      RootStep(c, e, Mode(false, false), roots, roots1, i);
      GcpTied(c, e, Mode(false, false), h0, roots1[i]);
      GcpExtends(c, e, Mode(false, false), roots1[i]);
      GcpTakes(c, e, Mode(false, false), roots1[i]);
      var v := Meet(Mode(false, false), roots1[i]);
      roots2 := roots1[i := v];
    }

    method DrainSurvivorAt(ghost scan: nat, ghost tcp: nat, scp: nat, ghost lot: nat, ghost miss0: nat)
      requires Draining(c, e, rs, h0, scan, tcp, scp) && Metered(c, e) && c.hasS && scp < e.sn && PlacedAt(c, e, scan, tcp, lot)
      requires Frugal(c, e.heap, rs, miss0)
      modifies this`e
      ensures Draining(c, e, rs, h0, scan, tcp, scp + 1) && Keeps(c, old(e), e)
      ensures PlacedAt(c, e, scan, tcp, lot) && (old(e).over ==> e.over) && Frugal(c, e.heap, rs, miss0)
    {
      SurvivorFrugal(c, e, rs, h0, scp, miss0);
      SurvivorPlaced(c, e, rs, h0, scan, tcp, scp, lot);
      DrainSurvivor(c, e, rs, h0, scan, tcp, scp);
      Scan(Mode(false, false), Loc(c.sid, scp), 0);
    }

    method DrainTenuredAt(ghost scan: nat, tcp: nat, ghost scp: nat, ghost lot: nat, ghost miss0: nat)
      requires Draining(c, e, rs, h0, scan, tcp, scp) && Metered(c, e) && tcp < e.tn && PlacedAt(c, e, scan, tcp, lot)
      requires Frugal(c, e.heap, rs, miss0)
      modifies this`e, this`rs
      ensures Draining(c, e, rs, h0, scan, tcp + 1, scp) && Keeps(c, old(e), e)
      ensures PlacedAt(c, e, scan, tcp + 1, lot) && (old(e).over ==> e.over) && Frugal(c, e.heap, rs, miss0)
    {
      TenuredFrugal(c, e, rs, h0, tcp, hash(Entry(tcp, 0)) % IX, miss0);
      TenuredPlaced(c, e, rs, h0, scan, tcp, scp, lot);
      DrainTenured(c, e, rs, h0, scan, tcp, scp, hash(Entry(tcp, 0)) % IX);
      TenuredAt(tcp);
    }

    method TenuredAt(tcp: nat)
      requires Tied(c, e, h0) && Loc(c.tid, tcp) in e.heap && Metered(c, e) && rs.Valid()
      modifies this`e, this`rs
      ensures e == TenuredNext(c, old(e), tcp) && Keeps(c, old(e), e)
      ensures rs == TenuredRem(e, old(rs), tcp, hash(Entry(tcp, 0)) % IX)
    {
      HitFree(c, e, h0);
      e := e.(hit := false);
      Scan(Mode(c.hasS, c.hasS), Loc(c.tid, tcp), 0);
      if e.hit && !e.over { rs := Remember(rs, Entry(tcp, 0), hash(Entry(tcp, 0)) % IX); }
    }

    /** One turn of the drain: the survivors first. */
    method DrainOne(ghost scan: nat, tcp: nat, scp: nat, ghost lot: nat, ghost miss0: nat) returns (tcp': nat, scp': nat)
      requires Draining(c, e, rs, h0, scan, tcp, scp) && Metered(c, e) && PlacedAt(c, e, scan, tcp, lot)
      requires Frugal(c, e.heap, rs, miss0)
      requires (c.hasS && scp < e.sn) || tcp < e.tn
      modifies this`e, this`rs
      ensures Draining(c, e, rs, h0, scan, tcp', scp') && Keeps(c, old(e), e) && tcp' + scp' == tcp + scp + 1
      ensures PlacedAt(c, e, scan, tcp', lot) && (old(e).over ==> e.over) && Frugal(c, e.heap, rs, miss0)
    {
      tcp', scp' := tcp, scp;
      if c.hasS && scp < e.sn {
        DrainSurvivorAt(scan, tcp, scp, lot, miss0);
        scp' := scp + 1;
      } else {
        DrainTenuredAt(scan, tcp, scp, lot, miss0);
        tcp' := tcp + 1;
      }
    }

    /** The drain: each turn one copied object is scanned, of the survivors while there are any. It ends, for every
        object is copied once. */
    method Drain(scan: nat, ghost lot: nat, ghost miss0: nat) returns (ghost scp: nat)
      requires Draining(c, e, rs, h0, scan, scan, 0) && Metered(c, e) && PlacedAt(c, e, scan, scan, lot)
      requires Frugal(c, e.heap, rs, miss0)
      modifies this`e, this`rs
      ensures Draining(c, e, rs, h0, scan, e.tn, scp) && (c.hasS ==> scp == e.sn)
      ensures Keeps(c, old(e), e)
      ensures PlacedAt(c, e, scan, e.tn, lot) && (old(e).over ==> e.over) && Frugal(c, e.heap, rs, miss0)
    {
      var t: nat, s: nat := scan, 0;
      ghost var all := Places(c, e);
      PlacesBound(c, e);
      KeepsAll(c, e);
      while (c.hasS && s < e.sn) || t < e.tn
        invariant Drains(old(e), scan, t, s, lot, miss0)
        invariant t + s <= e.tn + e.sn <= all == Places(c, e)
        decreases all - t - s
      {
        t, s := DrainNext(old(e), scan, t, s, lot, miss0);
        PlacesBound(c, e);
      }
      scp := s;
    }

    /** What the drain keeps, from e0 on. */
    ghost predicate Drains(e0: Eng, scan: nat, t: nat, s: nat, lot: nat, miss0: nat)
      reads this
    {
      Draining(c, e, rs, h0, scan, t, s) && Keeps(c, e0, e) && PlacedAt(c, e, scan, t, lot) && (e0.over ==> e.over) && Frugal(c, e.heap, rs, miss0)
    }

    method DrainNext(ghost e0: Eng, ghost scan: nat, t: nat, s: nat, ghost lot: nat, ghost miss0: nat) returns (t': nat, s': nat)
      requires Drains(e0, scan, t, s, lot, miss0) && ((c.hasS && s < e.sn) || t < e.tn)
      modifies this`e, this`rs
      ensures Drains(e0, scan, t', s', lot, miss0) && t' + s' == t + s + 1
    {
      ghost var e1 := e;
      t', s' := DrainOne(scan, t, s, lot, miss0);
      KeepsThen(c, e0, e1, e);
    }

    /** A pass from its start, with nothing forwarded: the roots, the remembered set, the drain. In a major
        the remembered set is empty and scan is 0. */
    method Run(roots: seq<Word>, scan: nat) returns (roots': seq<Word>, ghost scp: nat)
      requires Ready(c, e, rs, h0, roots, scan) && Metered(c, e)
      modifies this`e, this`rs
      ensures Iso(h0 + c.objs, roots, e.heap, roots', Ends(e, h0))
      ensures Draining(c, e, rs, h0, scan, e.tn, scp) && (c.hasS ==> scp == e.sn)
      ensures Keeps(c, old(e), e)
      ensures PlacedAt(c, e, scan, e.tn, Lot(c, old(e))) && RootsStay(c, e, roots) && Frugal(c, e.heap, rs, old(rs).miss)
    {
      ghost var e0 := e;
      ReadyTied(c, e, h0);
      ghost var rs0 := rs;
      roots' := Roots(roots);
      ghost var e1 := e;
      RootsStayed(c, e0, e1, roots, roots');
      Walk();
      WalkEnds(c, e, rs, h0, rs0.rem, scan, rs0.miss);
      AgedThen(c, e0, e1, e);
      PlacedStarts(c, e0, e, scan);
      ghost var e2 := e;
      scp := Drain(scan, Lot(c, e0), rs0.miss);
      RootsStayOn(c, e1, e2, roots);
      RootsStayOn(c, e2, e, roots);
      RootsKept(c, e1, e, roots, roots', |roots|);
      PassIso(c, e, h0, roots, roots');
    }

    /** The check gc.c makes of a finished pass: a second drive over the roots it left, the remembered
        and both to-spaces. It finds every word moved already: nothing is copied and no word of the heap
        changes. It enters nothing again, past an overflow; and else just where every tenured object from scan
        on that holds a survivor is known to its own probe, or, for the count alone, the set is full. */
    method SecondDrive(roots: seq<Word>, scan: nat) returns (roots': seq<Word>)
      requires Tied(c, e, h0) && Metered(c, e) && CleanT(c, e, e.tn) && CleanS(c, e, e.sn) && scan <= e.tn
      requires rs.Valid() && Within(rs.rem, e.tn)
      requires forall i :: 0 <= i < |roots| ==> PointsIn(roots[i], e.heap.Keys)
      modifies this`e, this`rs
      ensures SameButHit(old(e), e) && roots' == roots && old(rs).rem <= rs.rem && rs.Valid() && old(rs).Valid()
      ensures rs == old(rs) <==> e.over || AllKnown(c, e.heap, hash, old(rs), scan, e.tn)
      ensures |rs.rem| == |old(rs).rem| <==> e.over || |old(rs).rem| == CAP || AllKnown(c, e.heap, hash, old(rs), scan, e.tn)
    {
      ghost var rs0 := rs;
      roots' := RootsAgain(roots);
      var i := 0;
      while i < |rs.rem|
        invariant SameButHit(old(e), e) && i <= |rs.rem| && rs == old(rs)
      {
        Rescan(Mode(false, false), Loc(c.tid, rs.rem[i].at), rs.rem[i].off);
        i := i + 1;
      }
      DrainAgain(scan);
      AgainLeaves(c, e.heap, hash, rs0, scan, e.tn);
      AgainGrows(c, e.heap, hash, rs0, scan, e.tn);
    }

    method RootsAgain(roots: seq<Word>) returns (roots': seq<Word>)
      requires Blocks(c, e) && forall i :: 0 <= i < |roots| ==> PointsIn(roots[i], e.heap.Keys)
      modifies this`e
      ensures SameButHit(old(e), e) && roots' == roots
    {
      roots' := roots;
      var i := 0;
      while i < |roots|
        invariant SameButHit(old(e), e) && i <= |roots| && roots' == roots
      {
        CleanMeets(c, e, Mode(false, false), roots'[i]);
        var v := Meet(Mode(false, false), roots'[i]);
        roots' := roots'[i := v];
        i := i + 1;
      }
    }

    method DrainAgain(scan: nat)
      requires Tied(c, e, h0) && Metered(c, e) && CleanT(c, e, e.tn) && CleanS(c, e, e.sn) && scan <= e.tn
      requires rs.Valid()
      modifies this`e, this`rs
      ensures SameButHit(old(e), e) && rs.Valid() && old(rs).Valid()
      ensures rs == if e.over then old(rs) else Again(c, e.heap, hash, old(rs), scan, e.tn)
    {
      var t: nat, s: nat := scan, 0;
      ghost var rs0 := rs;
      while (c.hasS && s < e.sn) || t < e.tn
        invariant SameButHit(old(e), e) && Finished(c, e, h0) && t <= e.tn && s <= e.sn && rs.Valid()
        invariant e.over ==> rs == rs0
        invariant !e.over ==> Again(c, e.heap, hash, rs, t, e.tn) == Again(c, e.heap, hash, rs0, scan, e.tn)
        decreases e.tn - t + e.sn - s
      {
        t, s := AgainTurn(t, s);
      }
    }

    method AgainTurn(t: nat, s: nat) returns (t': nat, s': nat)
      requires Finished(c, e, h0) && rs.Valid() && t <= e.tn && s <= e.sn && ((c.hasS && s < e.sn) || t < e.tn)
      modifies this`e, this`rs
      ensures SameButHit(old(e), e) && Finished(c, e, h0) && rs.Valid() && t <= t' <= e.tn && s <= s' <= e.sn && t' + s' == t + s + 1
      ensures old(rs).Valid() && (e.over ==> rs == old(rs))
      ensures !e.over ==> Again(c, e.heap, hash, rs, t', e.tn) == Again(c, e.heap, hash, old(rs), t, e.tn)
    {
      ghost var e0 := e;
      t', s' := t, s;
      if c.hasS && s < e.sn {
        Rescan(Mode(false, false), Loc(c.sid, s), 0);
        s' := s + 1;
      } else {
        RescanTenured(t);
        t' := t + 1;
      }
      FinishedHit(c, e0, e, h0);
    }

    method RescanTenured(t: nat)
      requires Finished(c, e, h0) && t < e.tn && rs.Valid()
      modifies this`e, this`rs
      ensures SameButHit(old(e), e) && rs.Valid() && old(rs).Valid()
      ensures rs == if e.over then old(rs) else AgainOne(c, e.heap, hash, old(rs), t)
    {
      ghost var e0 := e.(hit := false);
      FinishedHit(c, e, e0, h0);
      e := e.(hit := false);
      CleanHits(c, e, Mode(c.hasS, c.hasS), Loc(c.tid, t), 0, |e.heap[Loc(c.tid, t)].fields|);
      Rescan(Mode(c.hasS, c.hasS), Loc(c.tid, t), 0);
      if e.hit && !e.over { rs := Remember(rs, Entry(t, 0), hash(Entry(t, 0)) % IX); }
    }

    /** The scan of an object already scanned. */
    method Rescan(m: Mode, l: Loc, j: nat)
      requires Tied(c, e, h0) && Metered(c, e) && l in e.heap && CleanObj(c, e.heap[l])
      modifies this`e
      ensures SameButHit(old(e), e) && e == Evac(c, old(e), m, l, j, |old(e).heap[l].fields|)
    {
      CleanScans(c, e, m, l, j, |e.heap[l].fields|);
      Scan(m, l, j);
    }
  }

  /** A whole pass on values. */
  method RunPass(c: Cfg, hash: Entry -> nat, e0: Eng, rs: RemSet, roots: seq<Word>, scan: nat)
    returns (e: Eng, roots': seq<Word>, rs': RemSet, ghost scp: nat)
    requires Ready(c, e0, rs, e0.heap, roots, scan) && Metered(c, e0)
    requires e0.sused == 0 && !e0.hit
    ensures Iso(e0.heap + c.objs, roots, e.heap, roots', Ends(e, e0.heap))
    ensures Draining(c, e, rs', e0.heap, scan, e.tn, scp)
    ensures Metered(c, e) && Room(c, e) == Room(c, e0)
    ensures PlacedAt(c, e, scan, e.tn, Lot(c, e0)) && RootsStay(c, e, roots) && Frugal(c, e.heap, rs', rs.miss)
  {
    var p := new Pass(c, hash, e0.heap, e0.tn, e0.tused, rs);
    assert p.e == e0;
    roots', scp := p.Run(roots, scan);
    e, rs' := p.e, p.rs;
  }
}
