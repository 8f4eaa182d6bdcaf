/** What a pass of src/love/gc.c remembers, and no more: an entry is of a tenured object that holds a survivor, and a
    miss is of a set that is full. */
module GcOwed {
  import opened GcHeap
  import opened GcEngine
  import opened GcRemember
  import opened GcDrain
  import opened GcPass

  /** Of the object at t a word from the entry's on names a survivor. */
  ghost predicate Owed(c: Cfg, h: Heap, t: Entry) {
    var l := Loc(c.tid, t.at);
    l in h && exists j :: t.off <= j < |h[l].fields| && c.InS(h[l].fields[j])
  }

  ghost predicate AllOwed(c: Cfg, h: Heap, rem: seq<Entry>) { forall q :: 0 <= q < |rem| ==> Owed(c, h, rem[q]) }

  /** Misses were miss0 when the set was taken: more only where it is full. */
  ghost predicate Full(rs: RemSet, miss0: nat) { rs.miss >= miss0 && (rs.miss > miss0 ==> |rs.rem| == CAP) }

  ghost predicate Frugal(c: Cfg, h: Heap, rs: RemSet, miss0: nat) { AllOwed(c, h, rs.rem) && Full(rs, miss0) }

  lemma RememberAdds(rs: RemSet, e: Entry, h: nat, miss0: nat)
    requires rs.Valid() && h < IX
    ensures var r := Remember(rs, e, h);
            && (r.rem == rs.rem || r.rem == rs.rem + [e])
            && (Full(rs, miss0) ==> Full(r, miss0))
  {
  }

  lemma OwedStays(c: Cfg, h: Heap, h': Heap, l: Loc, t: Entry)
    requires Owed(c, h, t) && OnlyFrom(c, h, h', l) && forall k :: k in c.objs && c.hasS ==> k.block != c.sid
    ensures Owed(c, h', t)
  {
    var k := Loc(c.tid, t.at);
    var j :| t.off <= j < |h[k].fields| && c.InS(h[k].fields[j]);
    assert h'[k].fields[j] == h[k].fields[j];
  }

  lemma AllOwedStays(c: Cfg, h: Heap, h': Heap, l: Loc, rem: seq<Entry>)
    requires AllOwed(c, h, rem) && OnlyFrom(c, h, h', l) && forall k :: k in c.objs && c.hasS ==> k.block != c.sid
    ensures AllOwed(c, h', rem)
  {
    forall q | 0 <= q < |rem| ensures Owed(c, h', rem[q]) { OwedStays(c, h, h', l, rem[q]); }
  }

  lemma AllOwedNext(c: Cfg, h: Heap, rem: seq<Entry>, rem': seq<Entry>, t: Entry)
    requires AllOwed(c, h, rem) && (rem' == rem || (rem' == rem + [t] && Owed(c, h, t)))
    ensures AllOwed(c, h, rem')
  {
  }

  // ----- a hit is of a survivor

  lemma VisitHits(c: Cfg, e: Eng, m: Mode, h0: Heap, l: Loc, j: nat)
    requires Tied(c, e, h0) && l in e.heap && j < |e.heap[l].fields|
    ensures var e1 := Visit(c, e, m, l, j);
            && Tied(c, e1, h0) && l in e1.heap && |e1.heap[l].fields| == |e.heap[l].fields|
            && (e1.hit ==> e.hit || c.InS(e1.heap[l].fields[j]))
  {
    VisitTied(c, e, m, h0, l, j);
    VisitTouches(c, e, m, l, j);
  }

  /** After a scan of the rest the field is as it was. */
  lemma HitOn(c: Cfg, e1: Eng, m: Mode, h0: Heap, l: Loc, j: nat, n: nat)
    requires Tied(c, e1, h0) && l in e1.heap && n == |e1.heap[l].fields| && j < n && c.InS(e1.heap[l].fields[j])
    ensures var e2 := Evac(c, e1, m, l, j + 1, n); l in e2.heap && |e2.heap[l].fields| == n && c.InS(e2.heap[l].fields[j])
  {
    EvacScans(c, e1, m, h0, l, j + 1, n);
  }

  ghost predicate HitIn(c: Cfg, e: Eng, l: Loc, j: nat) {
    l in e.heap && exists k :: j <= k < |e.heap[l].fields| && c.InS(e.heap[l].fields[k])
  }

  lemma {:induction false} EvacHits(c: Cfg, e: Eng, m: Mode, h0: Heap, l: Loc, j: nat, n: nat)
    requires Tied(c, e, h0) && l in e.heap && n == |e.heap[l].fields|
    ensures var e2 := Evac(c, e, m, l, j, n); e2.hit ==> e.hit || HitIn(c, e2, l, j)
    decreases n - j
  {
    if j < n {
      var e1 := Visit(c, e, m, l, j);
      assert Evac(c, e, m, l, j, n) == Evac(c, e1, m, l, j + 1, n);
      VisitHits(c, e, m, h0, l, j);
      EvacHits(c, e1, m, h0, l, j + 1, n);
      if c.InS(e1.heap[l].fields[j]) { HitOn(c, e1, m, h0, l, j, n); }
    }
  }

  // ----- turn by turn

  /** A scan leaves every word that is not of the from-space. */
  lemma EvacOnlyFrom(c: Cfg, e: Eng, m: Mode, h0: Heap, l: Loc, j: nat)
    requires Tied(c, e, h0) && l in e.heap
    ensures OnlyFrom(c, e.heap, Evac(c, e, m, l, j, |e.heap[l].fields|).heap, l)
  {
    EvacTied(c, e, m, h0, l, j, |e.heap[l].fields|);
    EvacScans(c, e, m, h0, l, j, |e.heap[l].fields|);
  }

  lemma WalkFrugal(c: Cfg, e: Eng, rs: RemSet, h0: Heap, t: Entry, h: nat, miss0: nat)
    requires Tied(c, e, h0) && Loc(c.tid, t.at) in e.heap && rs.Valid() && h < IX && Frugal(c, e.heap, rs, miss0)
    ensures var e' := WalkNext(c, e, t); Frugal(c, e'.heap, WalkRem(e', rs, t, h), miss0)
  {
    var e0, e', l := e.(hit := false), WalkNext(c, e, t), Loc(c.tid, t.at);
    assert Traced(c.objs, e0.fwd, e0.heap, h0) && Blocks(c, e0);
    EvacOnlyFrom(c, e0, Mode(true, false), h0, l, t.off);
    EvacHits(c, e0, Mode(true, false), h0, l, t.off, |e0.heap[l].fields|);
    AllOwedStays(c, e.heap, e'.heap, l, rs.rem);
    RememberAdds(rs, t, h, miss0);
    AllOwedNext(c, e'.heap, rs.rem, WalkRem(e', rs, t, h).rem, t);
  }

  lemma SurvivorFrugal(c: Cfg, e: Eng, rs: RemSet, h0: Heap, scp: nat, miss0: nat)
    requires Tied(c, e, h0) && c.hasS && scp < e.sn && Frugal(c, e.heap, rs, miss0)
    ensures Frugal(c, SurvivorNext(c, e, scp).heap, rs, miss0)
  {
    var l := Loc(c.sid, scp);
    EvacOnlyFrom(c, e, Mode(false, false), h0, l, 0);
    AllOwedStays(c, e.heap, SurvivorNext(c, e, scp).heap, l, rs.rem);
  }

  lemma TenuredFrugal(c: Cfg, e: Eng, rs: RemSet, h0: Heap, tcp: nat, h: nat, miss0: nat)
    requires Tied(c, e, h0) && tcp < e.tn && rs.Valid() && h < IX && Frugal(c, e.heap, rs, miss0)
    ensures var e' := TenuredNext(c, e, tcp); Frugal(c, e'.heap, TenuredRem(e', rs, tcp, h), miss0)
  {
    var e0, e', l := e.(hit := false), TenuredNext(c, e, tcp), Loc(c.tid, tcp);
    var m := Mode(c.hasS, c.hasS);
    assert Traced(c.objs, e0.fwd, e0.heap, h0) && Blocks(c, e0);
    EvacOnlyFrom(c, e0, m, h0, l, 0);
    EvacHits(c, e0, m, h0, l, 0, |e0.heap[l].fields|);
    AllOwedStays(c, e.heap, e'.heap, l, rs.rem);
    RememberAdds(rs, Entry(tcp, 0), h, miss0);
    AllOwedNext(c, e'.heap, rs.rem, TenuredRem(e', rs, tcp, h).rem, Entry(tcp, 0));
  }

  /** Taken off for the walk, the set is empty. */
  lemma ClearedFrugal(c: Cfg, h: Heap, rs: RemSet)
    ensures Frugal(c, h, Cleared(rs), rs.miss)
  {
  }

  /** With no survivors' block nothing is remembered. */
  lemma NoneOwed(c: Cfg, h: Heap, rem: seq<Entry>)
    requires AllOwed(c, h, rem) && !c.hasS
    ensures rem == []
  {
    assert |rem| > 0 ==> !Owed(c, h, rem[0]);
  }
}
