/** Where a pass of src/love/gc.c puts what it copies: what outlived one minor is tenured by the next; what the nursery
    holds is a survivor once, but where a tenured object is found to name it, or the survivors' block runs out. */
module GcPlace {
  import opened GcHeap
  import opened GcEngine
  import opened GcRemember
  import opened GcDrain
  import opened GcPass

  ghost function YoungOf(c: Cfg): (ks: set<Loc>) { set l | l in c.objs && l.block == NURSERY }

  /** The words the survivors' block holds, and those of the nursery that may still come to it. */
  ghost function Lot(c: Cfg, e: Eng): (n: nat) { e.sused + Words(c.objs, YoungOf(c) - e.fwd.Keys) }

  /** From e to e2: what was forwarded is; what was not of the nursery is tenured; the survivors' block runs out only
      where what may come to it is more than it holds. */
  ghost predicate Ages(c: Cfg, e: Eng, e2: Eng) {
    && Lot(c, e2) <= Lot(c, e) && (e.over ==> e2.over) && (e2.over && !e.over ==> c.hasS && Lot(c, e) > c.scap)
    && (forall a :: a in e.fwd ==> a in e2.fwd && e2.fwd[a] == e.fwd[a])
    && (forall a :: a in e2.fwd && a !in e.fwd ==> a in c.objs && (a.block != NURSERY ==> e2.fwd[a].block == c.tid))
  }

  /** And what was of the nursery is a survivor. */
  ghost predicate Stay(c: Cfg, e: Eng, e2: Eng) {
    c.hasS && !e2.over ==> forall a :: a in e2.fwd && a !in e.fwd && a.block == NURSERY ==> e2.fwd[a].block == c.sid
  }

  lemma AgesNone(c: Cfg, e: Eng, e2: Eng)
    requires e2.fwd == e.fwd && e2.sused == e.sused && e2.over == e.over
    ensures Ages(c, e, e2) && Stay(c, e, e2)
  {
  }

  lemma AgesThen(c: Cfg, e: Eng, e1: Eng, e2: Eng)
    requires Ages(c, e, e1) && Ages(c, e1, e2)
    ensures Ages(c, e, e2) && (Stay(c, e, e1) && Stay(c, e1, e2) ==> Stay(c, e, e2))
  {
  }

  lemma CopyAges(c: Cfg, e: Eng, m: Mode, l: Loc)
    requires l in c.objs && l !in e.fwd && e.fwd.Keys <= c.objs.Keys
    ensures var e2 := Copy(c, e, m, l); Ages(c, e, e2) && (!m.tenuring ==> Stay(c, e, e2))
  {
    var e2 := Copy(c, e, m, l);
    var k, k2 := YoungOf(c) - e.fwd.Keys, YoungOf(c) - e2.fwd.Keys;
    assert k2 == k - {l};
    if l.block == NURSERY {
      WordsMinus(c.objs, k, l);
    } else {
      assert k2 == k;
    }
  }

  lemma GcpAges(c: Cfg, e: Eng, m: Mode, w: Word)
    requires e.fwd.Keys <= c.objs.Keys
    ensures var e2 := Gcp(c, e, m, w); Ages(c, e, e2) && (!m.tenuring ==> Stay(c, e, e2))
    ensures forall a :: a in Gcp(c, e, m, w).fwd && a !in e.fwd ==> w.Ptr? && a == w.loc
  {
    var e1 := Fetch(c, e, m, w);
    if c.From(w) && w.loc !in e.fwd { CopyAges(c, e, m, w.loc); } else { AgesNone(c, e, e1); }
    AgesNone(c, e1, Gcp(c, e, m, w));
    AgesThen(c, e, e1, Gcp(c, e, m, w));
  }

  lemma VisitAges(c: Cfg, e: Eng, m: Mode, l: Loc, j: nat)
    requires e.fwd.Keys <= c.objs.Keys && l in e.heap && j < |e.heap[l].fields|
    ensures var e2 := Visit(c, e, m, l, j); Ages(c, e, e2) && (!m.tenuring ==> Stay(c, e, e2))
  {
    var w := e.heap[l].fields[j];
    var e1 := Gcp(c, e, m, w);
    GcpAges(c, e, m, w);
    AgesNone(c, e1, Visit(c, e, m, l, j));
    AgesThen(c, e, e1, Visit(c, e, m, l, j));
  }

  lemma {:induction false} EvacAges(c: Cfg, e: Eng, m: Mode, h0: Heap, l: Loc, j: nat, n: nat)
    requires Tied(c, e, h0) && l in e.heap
    ensures var e2 := Evac(c, e, m, l, j, n); Ages(c, e, e2) && (!m.tenuring ==> Stay(c, e, e2))
    decreases n - j
  {
    if j < n && j < |e.heap[l].fields| {
      VisitTied(c, e, m, h0, l, j);
      VisitTouches(c, e, m, l, j);
      VisitAges(c, e, m, l, j);
      var e1 := Visit(c, e, m, l, j);
      EvacAges(c, e1, m, h0, l, j + 1, n);
      AgesThen(c, e, e1, Evac(c, e1, m, l, j + 1, n));
    } else {
      AgesNone(c, e, e);
    }
  }

  // ----- who names what a scan copies

  ghost predicate NamesAt(o: Obj, i: nat, p: Loc) { i < |o.fields| && o.fields[i].Ptr? && o.fields[i].loc == p }

  ghost predicate Names(o: Obj, p: Loc) { exists i :: NamesAt(o, i, p) }

  /** What a visit copies, the field visited names after. */
  lemma VisitNames(c: Cfg, e: Eng, m: Mode, h0: Heap, l: Loc, j: nat, a: Loc)
    requires Tied(c, e, h0) && l in e.heap && j < |e.heap[l].fields|
    requires var e1 := Visit(c, e, m, l, j); a in e1.fwd && a !in e.fwd
    ensures var e1 := Visit(c, e, m, l, j); l in e1.heap && NamesAt(e1.heap[l], j, e1.fwd[a])
  {
    var w := e.heap[l].fields[j];
    GcpAges(c, e, m, w);
    GcpExtends(c, e, m, w);
  }

  /** The scan of the rest leaves the field as it was. */
  lemma NamedOn(c: Cfg, e1: Eng, m: Mode, h0: Heap, l: Loc, j: nat, n: nat, a: Loc)
    requires Tied(c, e1, h0) && l in e1.heap && n == |e1.heap[l].fields| && j < n && a in e1.fwd && NamesAt(e1.heap[l], j, e1.fwd[a])
    ensures var e2 := Evac(c, e1, m, l, j + 1, n); l in e2.heap && a in e2.fwd && Names(e2.heap[l], e2.fwd[a])
  {
    var e2 := Evac(c, e1, m, l, j + 1, n);
    EvacTied(c, e1, m, h0, l, j + 1, n);
    EvacScans(c, e1, m, h0, l, j + 1, n);
    assert NamesAt(e2.heap[l], j, e2.fwd[a]);
  }

  lemma VisitWide(c: Cfg, e: Eng, m: Mode, h0: Heap, l: Loc, j: nat)
    requires Tied(c, e, h0) && l in e.heap && j < |e.heap[l].fields|
    ensures var e1 := Visit(c, e, m, l, j); Tied(c, e1, h0) && l in e1.heap && |e1.heap[l].fields| == |e.heap[l].fields|
  {
    VisitTied(c, e, m, h0, l, j);
    VisitTouches(c, e, m, l, j);
  }

  lemma {:induction false} EvacNames(c: Cfg, e: Eng, m: Mode, h0: Heap, l: Loc, j: nat, n: nat, a: Loc)
    requires Tied(c, e, h0) && l in e.heap && n == |e.heap[l].fields| && a !in e.fwd && a in Evac(c, e, m, l, j, n).fwd
    ensures var e2 := Evac(c, e, m, l, j, n); l in e2.heap && Names(e2.heap[l], e2.fwd[a])
    decreases n - j
  {
    if j < n {
      var e1 := Visit(c, e, m, l, j);
      assert Evac(c, e, m, l, j, n) == Evac(c, e1, m, l, j + 1, n);
      VisitWide(c, e, m, h0, l, j);
      if a in e1.fwd {
        VisitNames(c, e, m, h0, l, j, a);
        NamedOn(c, e1, m, h0, l, j, n, a);
      } else {
        EvacNames(c, e1, m, h0, l, j + 1, n, a);
      }
    }
  }

  // ----- what a drain keeps

  /** A tenured object from scan on, scanned before t, names p. */
  ghost predicate NamedBy(c: Cfg, e: Eng, p: Loc, scan: nat, t: nat) {
    exists i :: scan <= i < t && Loc(c.tid, i) in e.heap && Names(e.heap[Loc(c.tid, i)], p)
  }

  /** Of the nursery what was not named so is a survivor. */
  ghost predicate Placed(c: Cfg, e: Eng, scan: nat, t: nat) {
    && (forall a :: a in e.fwd && a.block != NURSERY ==> e.fwd[a].block == c.tid)
    && (c.hasS && !e.over ==> forall a :: a in e.fwd && a.block == NURSERY && e.fwd[a].block != c.sid ==> NamedBy(c, e, e.fwd[a], scan, t))
  }

  /** Objects scanned before t are as they were. */
  lemma NamedStays(c: Cfg, e: Eng, e2: Eng, p: Loc, scan: nat, t: nat, t2: nat)
    requires NamedBy(c, e, p, scan, t) && t <= t2
    requires forall i :: scan <= i < t && Loc(c.tid, i) in e.heap ==> Loc(c.tid, i) in e2.heap && e2.heap[Loc(c.tid, i)] == e.heap[Loc(c.tid, i)]
    ensures NamedBy(c, e2, p, scan, t2)
  {
  }

  /** A scan that leaves the nursery's as survivors. */
  lemma PlacedStay(c: Cfg, e: Eng, e2: Eng, scan: nat, t: nat)
    requires Placed(c, e, scan, t) && Ages(c, e, e2) && Stay(c, e, e2)
    requires forall i :: scan <= i < t && Loc(c.tid, i) in e.heap ==> Loc(c.tid, i) in e2.heap && e2.heap[Loc(c.tid, i)] == e.heap[Loc(c.tid, i)]
    ensures Placed(c, e2, scan, t)
  {
    if c.hasS && !e2.over {
      forall a | a in e2.fwd && a.block == NURSERY && e2.fwd[a].block != c.sid ensures NamedBy(c, e2, e2.fwd[a], scan, t) {
        NamedStays(c, e, e2, e.fwd[a], scan, t, t);
      }
    }
  }

  /** A scan of the tenured object at t. */
  lemma PlacedTenured(c: Cfg, e: Eng, e2: Eng, scan: nat, t: nat)
    requires Placed(c, e, scan, t) && Ages(c, e, e2) && scan <= t && Loc(c.tid, t) in e2.heap
    requires forall i :: scan <= i < t && Loc(c.tid, i) in e.heap ==> Loc(c.tid, i) in e2.heap && e2.heap[Loc(c.tid, i)] == e.heap[Loc(c.tid, i)]
    requires forall a :: a in e2.fwd && a !in e.fwd ==> Names(e2.heap[Loc(c.tid, t)], e2.fwd[a])
    ensures Placed(c, e2, scan, t + 1)
  {
    if c.hasS && !e2.over {
      forall a | a in e2.fwd && a.block == NURSERY && e2.fwd[a].block != c.sid ensures NamedBy(c, e2, e2.fwd[a], scan, t + 1) {
        if a in e.fwd { NamedStays(c, e, e2, e.fwd[a], scan, t, t + 1); }
      }
    }
  }

  // ----- turn by turn

  /** Copies of the nursery's that were no tenuring are survivors. */
  ghost predicate Aged(c: Cfg, e: Eng, e2: Eng) { Ages(c, e, e2) && Stay(c, e, e2) }

  lemma AgedThen(c: Cfg, e: Eng, e1: Eng, e2: Eng)
    requires Aged(c, e, e1) && Aged(c, e1, e2)
    ensures Aged(c, e, e2)
  {
    AgesThen(c, e, e1, e2);
  }

  lemma WalkAged(c: Cfg, e: Eng, h0: Heap, t: Entry)
    requires Tied(c, e, h0) && Loc(c.tid, t.at) in e.heap
    ensures Aged(c, e, WalkNext(c, e, t))
  {
    var e0, l := e.(hit := false), Loc(c.tid, t.at);
    AgesNone(c, e, e0);
    assert Traced(c.objs, e0.fwd, e0.heap, h0) && Blocks(c, e0);
    EvacAges(c, e0, Mode(true, false), h0, l, t.off, |e.heap[l].fields|);
    AgedThen(c, e, e0, WalkNext(c, e, t));
  }

  lemma RootAged(c: Cfg, e: Eng, h0: Heap, w: Word)
    requires Tied(c, e, h0)
    ensures Aged(c, e, Gcp(c, e, Mode(false, false), w))
  {
    GcpAges(c, e, Mode(false, false), w);
  }

  /** What the drain keeps of places: and the survivors' block ran out only of more than it holds. */
  ghost predicate PlacedAt(c: Cfg, e: Eng, scan: nat, t: nat, lot: nat) {
    Placed(c, e, scan, t) && Lot(c, e) <= lot && (e.over ==> c.hasS && lot > c.scap)
  }

  lemma PlacedStarts(c: Cfg, e: Eng, e2: Eng, scan: nat)
    requires e.fwd == map[] && !e.over && Aged(c, e, e2)
    ensures PlacedAt(c, e2, scan, scan, Lot(c, e))
  {
  }

  lemma SurvivorPlaced(c: Cfg, e: Eng, rs: RemSet, h0: Heap, scan: nat, tcp: nat, scp: nat, lot: nat)
    requires Draining(c, e, rs, h0, scan, tcp, scp) && c.hasS && scp < e.sn && PlacedAt(c, e, scan, tcp, lot)
    ensures var e2 := SurvivorNext(c, e, scp); PlacedAt(c, e2, scan, tcp, lot) && (e.over ==> e2.over)
  {
    var l := Loc(c.sid, scp);
    var m, n := Mode(false, false), |e.heap[l].fields|;
    EvacTied(c, e, m, h0, l, 0, n);
    EvacAges(c, e, m, h0, l, 0, n);
    PlacedStay(c, e, Evac(c, e, m, l, 0, n), scan, tcp);
  }

  lemma TenuredPlaced(c: Cfg, e: Eng, rs: RemSet, h0: Heap, scan: nat, tcp: nat, scp: nat, lot: nat)
    requires Draining(c, e, rs, h0, scan, tcp, scp) && tcp < e.tn && PlacedAt(c, e, scan, tcp, lot)
    ensures var e2 := TenuredNext(c, e, tcp); PlacedAt(c, e2, scan, tcp + 1, lot) && (e.over ==> e2.over)
  {
    var e0, l := e.(hit := false), Loc(c.tid, tcp);
    var m, n := Mode(c.hasS, c.hasS), |e.heap[l].fields|;
    assert Traced(c.objs, e0.fwd, e0.heap, h0) && Blocks(c, e0);
    var e2 := Evac(c, e0, m, l, 0, n);
    EvacTied(c, e0, m, h0, l, 0, n);
    EvacAges(c, e0, m, h0, l, 0, n);
    forall a | a in e2.fwd && a !in e.fwd ensures Names(e2.heap[l], e2.fwd[a]) { EvacNames(c, e0, m, h0, l, 0, n, a); }
    AgesNone(c, e, e0);
    AgesThen(c, e, e0, e2);
    PlacedTenured(c, e, e2, scan, tcp);
  }

  /** What of the nursery a root names is a survivor. */
  ghost predicate RootsStay(c: Cfg, e: Eng, roots: seq<Word>) {
    c.hasS && !e.over ==>
      forall i :: 0 <= i < |roots| && c.From(roots[i]) && roots[i].loc.block == NURSERY ==> roots[i].loc in e.fwd && e.fwd[roots[i].loc].block == c.sid
  }

  lemma RootsStayed(c: Cfg, e: Eng, e1: Eng, roots: seq<Word>, roots': seq<Word>)
    requires e.fwd == map[] && Aged(c, e, e1) && RootsMoved(c, e1, roots, roots', |roots|)
    ensures RootsStay(c, e1, roots)
  {
  }

  lemma RootsStayOn(c: Cfg, e: Eng, e2: Eng, roots: seq<Word>)
    requires RootsStay(c, e, roots) && (e.over ==> e2.over) && forall a :: a in e.fwd ==> a in e2.fwd && e2.fwd[a] == e.fwd[a]
    ensures RootsStay(c, e2, roots)
  {
  }
}
