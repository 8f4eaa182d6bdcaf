/** The collector of src/love/gc.c between collections: the heap the program works on, its write barrier,
    and the minor and the major, each of which leaves the program the heap it had. */
module GcCore {
  import opened GcHeap
  import opened GcEngine
  import opened GcRemember
  import opened GcDrain
  import opened GcPass
  import opened GcWork
  import opened GcPlace
  import opened GcOwed

  /** The three live blocks, with the objects and the words in each: the nursery, the survivors, the
      major; and the next block never used. */
  datatype Shape = Shape(nn: nat, nused: nat, svId: nat, svn: nat, svused: nat,
                         majId: nat, mn: nat, mused: nat, next: nat) {
    predicate Young(w: Word) { w.Ptr? && (w.loc.block == NURSERY || w.loc.block == svId) }
    predicate Apart() { NURSERY < svId < next && NURSERY < majId < next && svId != majId }
  }

  ghost predicate Shaped(h: Heap, s: Shape) {
    && s.Apart()
    && forall l :: l in h <==> || (l.block == NURSERY && l.at < s.nn)
                               || (l.block == s.svId && l.at < s.svn)
                               || (l.block == s.majId && l.at < s.mn)
  }

  ghost predicate Counted(h: Heap, s: Shape) {
    && s.nused == Words(h, Of(h, NURSERY))
    && s.svused == Words(h, Of(h, s.svId))
    && s.mused == Words(h, Of(h, s.majId))
  }

  /** Every young pointer in a tenured object is under a remembered entry. */
  ghost predicate AllRemembered(h: Heap, s: Shape, rem: seq<Entry>) {
    forall l, j :: (l in h && l.block == s.majId && 0 <= j < |h[l].fields| && s.Young(h[l].fields[j]))
      ==> Covered(rem, l.at, j)
  }

  /** Either a miss is on record, and the set full, or the remembered set is complete. */
  ghost predicate RemOk(h: Heap, s: Shape, rs: RemSet) {
    rs.Valid() && Within(rs.rem, s.mn) && (rs.miss == 0 ==> AllRemembered(h, s, rs.rem)) && Full(rs, 0)
  }

  ghost predicate CoreOk(h: Heap, roots: seq<Word>, s: Shape, rs: RemSet) {
    Shaped(h, s) && Sound(h, roots) && Counted(h, s) && RemOk(h, s, rs)
  }

  // ----- the program's own steps

  lemma AllocKeeps(h: Heap, roots: seq<Word>, s: Shape, rs: RemSet, o: Obj)
    requires CoreOk(h, roots, s, rs)
    requires forall j :: 0 <= j < |o.fields| ==> PointsIn(o.fields[j], h.Keys)
    ensures Loc(NURSERY, s.nn) !in h
    ensures CoreOk(h[Loc(NURSERY, s.nn) := o], roots, s.(nn := s.nn + 1, nused := s.nused + o.Size()), rs)
  {
    var p := Loc(NURSERY, s.nn);
    WordsPlus(h, p, o, NURSERY);
    WordsPlus(h, p, o, s.svId);
    WordsPlus(h, p, o, s.majId);
  }

  /** A store into word j of the object at l, with the barrier it owes: nothing unless a tenured object
      takes a young pointer; then the object, or for a thread or a scope the cell. */
  function Barrier(h: Heap, s: Shape, rs: RemSet, l: Loc, j: nat, w: Word, cell: bool, hash: Entry -> nat): (r: RemSet)
    requires rs.Valid()
  {
    if s.Young(w) && l.block == s.majId then
      var t := Entry(l.at, if cell then j else 0);
      Remember(rs, t, hash(t) % IX)
    else rs
  }

  /** The barrier adds its entry, or nothing; it adds nothing where none is owed, and misses only with a full set. */
  ghost predicate Barred(s: Shape, rs: RemSet, rs': RemSet, l: Loc, j: nat, w: Word, cell: bool) {
    && (rs'.rem == rs.rem || rs'.rem == rs.rem + [Entry(l.at, if cell then j else 0)])
    && (!s.Young(w) || l.block != s.majId ==> rs' == rs)
    && (rs'.miss != rs.miss ==> rs'.miss == rs.miss + 1 && |rs.rem| == CAP)
  }

  lemma BarrierBars(h: Heap, s: Shape, rs: RemSet, l: Loc, j: nat, w: Word, cell: bool, hash: Entry -> nat)
    requires rs.Valid()
    ensures Barred(s, rs, Barrier(h, s, rs, l, j, w, cell, hash), l, j, w, cell)
  {
  }

  lemma StoreCounted(h: Heap, s: Shape, l: Loc, j: nat, w: Word)
    requires Shaped(h, s) && Counted(h, s)
    ensures Shaped(SetField(h, l, j, w), s) && Counted(SetField(h, l, j, w), s)
  {
    var h' := SetField(h, l, j, w);
    assert Of(h', NURSERY) == Of(h, NURSERY) && Of(h', s.svId) == Of(h, s.svId) && Of(h', s.majId) == Of(h, s.majId);
    WordsSame(h, h', Of(h, NURSERY));
    WordsSame(h, h', Of(h, s.svId));
    WordsSame(h, h', Of(h, s.majId));
  }

  lemma StoreRemembers(h: Heap, s: Shape, rs: RemSet, l: Loc, j: nat, w: Word, cell: bool, hash: Entry -> nat)
    requires Shaped(h, s) && RemOk(h, s, rs) && l in h && j < |h[l].fields|
    ensures RemOk(SetField(h, l, j, w), s, Barrier(h, s, rs, l, j, w, cell, hash))
  {
    var h', rs' := SetField(h, l, j, w), Barrier(h, s, rs, l, j, w, cell, hash);
    if s.Young(w) && l.block == s.majId {
      var t := Entry(l.at, if cell then j else 0);
      RememberCovers(rs, t, hash(t) % IX);
      RememberAdds(rs, t, hash(t) % IX, 0);
    }
    if rs'.miss == 0 {
      forall k, i | k in h' && k.block == s.majId && 0 <= i < |h'[k].fields| && s.Young(h'[k].fields[i])
        ensures Covered(rs'.rem, k.at, i)
      {
        if k != l || i != j { assert h'[k].fields[i] == h[k].fields[i]; }
      }
    }
  }

  lemma StoreSound(h: Heap, roots: seq<Word>, l: Loc, j: nat, w: Word)
    requires Sound(h, roots) && PointsIn(w, h.Keys)
    ensures Sound(SetField(h, l, j, w), roots)
  {
  }

  // ----- a pass's result as a heap

  lemma IsoSound(h: Heap, roots: seq<Word>, h': Heap, roots': seq<Word>, f: map<Loc, Loc>)
    requires Iso(h, roots, h', roots', f)
    ensures Sound(h', roots')
  {
    forall b, j | b in h' && 0 <= j < |h'[b].fields| ensures PointsIn(h'[b].fields[j], h'.Keys) {
      var a :| a in f && f[a] == b;
      assert Moved(f, h[a], h'[b]);
    }
  }

  function OldPart(h: Heap, s: Shape): (r: Heap) { map l | l in h && l.block == s.majId :: h[l] }
  function YoungPart(h: Heap, s: Shape): (r: Heap) { map l | l in h && l.block != s.majId :: h[l] }

  lemma PartsJoin(h: Heap, s: Shape)
    ensures OldPart(h, s) + YoungPart(h, s) == h
  {
    var r := OldPart(h, s) + YoungPart(h, s);
    assert forall l :: l in h ==> l in r && r[l] == h[l];
  }

  // ----- a pass, from a core to a core

  /** The entries lead to every young pointer of the tenured objects below scan. */
  ghost predicate RememberedBelow(h: Heap, s: Shape, rem: seq<Entry>, scan: nat) {
    forall l, j :: (l in h && l.block == s.majId && l.at < scan && 0 <= j < |h[l].fields| && s.Young(h[l].fields[j]))
      ==> Covered(rem, l.at, j)
  }

  /** A minor's pass may start here, walking the tenured objects again from scan up. */
  ghost predicate PassOk(h: Heap, roots: seq<Word>, s: Shape, rs: RemSet, scan: nat) {
    && Shaped(h, s) && Sound(h, roots) && Counted(h, s)
    && rs.Valid() && Within(rs.rem, s.mn) && scan <= s.mn && RememberedBelow(h, s, rs.rem, scan)
  }

  function MinorCfg(h: Heap, s: Shape, hasS: bool, slen: nat): (c: Cfg) {
    Cfg(YoungPart(h, s), s.majId, hasS, s.next, slen)
  }

  function MinorStart(h: Heap, s: Shape): (e: Eng) {
    Eng(map[], OldPart(h, s), s.mn, s.mused, 0, 0, false, false)
  }

  lemma MinorReady(h: Heap, roots: seq<Word>, s: Shape, rs: RemSet, hasS: bool, slen: nat, scan: nat)
    requires PassOk(h, roots, s, rs, scan)
    ensures Ready(MinorCfg(h, s, hasS, slen), MinorStart(h, s), rs, OldPart(h, s), roots, scan)
  {
    assert OldPart(h, s) + YoungPart(h, s) == h;
  }

  lemma MinorMetered(h: Heap, s: Shape, hasS: bool, slen: nat)
    requires Shaped(h, s) && Counted(h, s)
    ensures Metered(MinorCfg(h, s, hasS, slen), MinorStart(h, s))
  {
    var o := OldPart(h, s);
    assert Of(o, s.majId) == Of(h, s.majId) && Of(o, s.next) == {};
    WordsSame(h, o, Of(h, s.majId));
  }

  /** The room a minor can take: the words of the nursery and of the survivors. */
  lemma MinorRoom(h: Heap, s: Shape, hasS: bool, slen: nat)
    requires Shaped(h, s) && Counted(h, s)
    ensures Room(MinorCfg(h, s, hasS, slen), MinorStart(h, s)) == s.mused + s.nused + s.svused
  {
    var y := YoungPart(h, s);
    assert y.Keys - MinorStart(h, s).fwd.Keys == Of(h, NURSERY) + Of(h, s.svId);
    WordsUnion(y, Of(h, NURSERY), Of(h, s.svId));
    WordsSame(h, y, Of(h, NURSERY));
    WordsSame(h, y, Of(h, s.svId));
  }

  /** The core a minor's pass leaves. */
  function MinorShape(s: Shape, e: Eng): (r: Shape) {
    Shape(0, 0, s.next, e.sn, e.sused, s.majId, e.tn, e.tused, s.next + 1)
  }

  lemma MinorShaped(h: Heap, s: Shape, hasS: bool, slen: nat, e: Eng)
    requires Shaped(h, s) && Blocks(MinorCfg(h, s, hasS, slen), e) && Metered(MinorCfg(h, s, hasS, slen), e)
    ensures Shaped(e.heap, MinorShape(s, e)) && Counted(e.heap, MinorShape(s, e))
  {
    assert Of(e.heap, NURSERY) == {};
    if !hasS { assert Of(e.heap, s.next) == {}; }
  }

  /** After the drain: below scan always, and everywhere unless something was missed or ran out. */
  lemma MinorRemembers(h: Heap, s: Shape, hasS: bool, slen: nat, e: Eng, roots': seq<Word>, rs: RemSet, h0: Heap, scan: nat, scp: nat)
    requires s.Apart() && Sound(e.heap, roots')
    requires Draining(MinorCfg(h, s, hasS, slen), e, rs, h0, scan, e.tn, scp)
    ensures RememberedBelow(e.heap, MinorShape(s, e), rs.rem, scan)
    ensures rs.miss == 0 && !e.over ==> AllRemembered(e.heap, MinorShape(s, e), rs.rem)
  {
    var c, s' := MinorCfg(h, s, hasS, slen), MinorShape(s, e);
    forall l, j | l in e.heap && 0 <= j < |e.heap[l].fields| && s'.Young(e.heap[l].fields[j])
      ensures c.InS(e.heap[l].fields[j])
    {
      assert e.heap[l].fields[j].loc in e.heap;
    }
  }

  /** What a minor's pass leaves the core it started from. */
  ghost predicate MinorDone(h: Heap, roots: seq<Word>, s: Shape, hasS: bool, scan: nat,
                            h': Heap, roots': seq<Word>, s': Shape, rs': RemSet, over: bool, f: map<Loc, Loc>) {
    && Iso(h, roots, h', roots', f)
    && MinorLeft(s, hasS, scan, h', roots', s', rs', over)
  }

  ghost predicate MinorLeft(s: Shape, hasS: bool, scan: nat, h': Heap, roots': seq<Word>, s': Shape, rs': RemSet, over: bool) {
    && PassOk(h', roots', s', rs', scan)
    && (rs'.miss == 0 && !over ==> AllRemembered(h', s', rs'.rem))
    && s'.nn == 0 && (!hasS ==> s'.svn == 0)
    && s'.mused + s'.svused <= s.mused + s.nused + s.svused
  }

  lemma MinorLeavesOld(h: Heap, roots: seq<Word>, s: Shape, e: Eng, roots': seq<Word>, f: map<Loc, Loc>, l: Loc)
    requires f == Ends(e, OldPart(h, s)) && Iso(h, roots, e.heap, roots', f)
    requires e.fwd.Keys <= YoungPart(h, s).Keys && l in h && l.block == s.majId
    ensures l in e.heap && e.heap[l].Size() == h[l].Size()
  {
    assert l in OldPart(h, s) && l !in e.fwd && l in f && f[l] == l;
    assert Moved(f, h[l], e.heap[l]);
  }

  ghost predicate OldLeft(h: Heap, s: Shape, h': Heap) {
    forall l :: l in Of(h, s.majId) ==> l in h' && h'[l].Size() == h[l].Size()
  }

  lemma MinorLeavesAll(h: Heap, roots: seq<Word>, s: Shape, e: Eng, roots': seq<Word>, f: map<Loc, Loc>)
    requires f == Ends(e, OldPart(h, s)) && Iso(h, roots, e.heap, roots', f) && e.fwd.Keys <= YoungPart(h, s).Keys
    ensures OldLeft(h, s, e.heap)
  {
    forall l | l in Of(h, s.majId) ensures l in e.heap && e.heap[l].Size() == h[l].Size() { MinorLeavesOld(h, roots, s, e, roots', f, l); }
  }

  /** A minor's major block still holds what it held. */
  lemma MinorGrows(h: Heap, s: Shape, h': Heap)
    requires OldLeft(h, s, h')
    ensures Words(h', Of(h', s.majId)) >= Words(h, Of(h, s.majId))
  {
    var k, k' := Of(h, s.majId), Of(h', s.majId);
    assert k <= k';
    WordsUnion(h', k, k' - k);
    assert k + (k' - k) == k';
    WordsSame(h, h', k);
  }

  lemma MinorEnds(h: Heap, roots: seq<Word>, s: Shape, hasS: bool, slen: nat, scan: nat,
                  e: Eng, roots': seq<Word>, rs': RemSet, f: map<Loc, Loc>, scp: nat)
    requires Shaped(h, s) && Counted(h, s) && Iso(OldPart(h, s) + YoungPart(h, s), roots, e.heap, roots', f)
    requires Draining(MinorCfg(h, s, hasS, slen), e, rs', OldPart(h, s), scan, e.tn, scp)
    requires Metered(MinorCfg(h, s, hasS, slen), e)
    requires Room(MinorCfg(h, s, hasS, slen), e) == Room(MinorCfg(h, s, hasS, slen), MinorStart(h, s))
    ensures MinorDone(h, roots, s, hasS, scan, e.heap, roots', MinorShape(s, e), rs', e.over, f)
  {
    PartsJoin(h, s);
    IsoSound(h, roots, e.heap, roots', f);
    MinorLeaves(h, s, hasS, slen, scan, e, roots', rs', scp);
  }

  lemma MinorLeaves(h: Heap, s: Shape, hasS: bool, slen: nat, scan: nat, e: Eng, roots': seq<Word>, rs': RemSet, scp: nat)
    requires Shaped(h, s) && Counted(h, s) && Sound(e.heap, roots')
    requires Draining(MinorCfg(h, s, hasS, slen), e, rs', OldPart(h, s), scan, e.tn, scp)
    requires Metered(MinorCfg(h, s, hasS, slen), e)
    requires Room(MinorCfg(h, s, hasS, slen), e) == Room(MinorCfg(h, s, hasS, slen), MinorStart(h, s))
    ensures MinorLeft(s, hasS, scan, e.heap, roots', MinorShape(s, e), rs', e.over)
  {
    MinorRoom(h, s, hasS, slen);
    MinorShaped(h, s, hasS, slen, e);
    MinorRemembers(h, s, hasS, slen, e, roots', rs', OldPart(h, s), scan, scp);
  }

  /** Every entry is of a tenured object that holds a young word, there or after. */
  ghost predicate Owing(h: Heap, s: Shape, rem: seq<Entry>) {
    forall q :: 0 <= q < |rem| ==>
      var l := Loc(s.majId, rem[q].at);
      l in h && exists j :: rem[q].off <= j < |h[l].fields| && s.Young(h[l].fields[j])
  }

  /** What a minor's pass remembers, and what it misses. */
  ghost predicate MinorOwes(rs: RemSet, hasS: bool, h': Heap, s': Shape, rs': RemSet) {
    Owing(h', s', rs'.rem) && (!hasS ==> rs'.rem == []) && Full(rs', rs.miss)
  }

  lemma MinorOwed(h: Heap, s: Shape, hasS: bool, slen: nat, e: Eng, rs: RemSet, rs': RemSet)
    requires Frugal(MinorCfg(h, s, hasS, slen), e.heap, rs', rs.miss)
    ensures MinorOwes(rs, hasS, e.heap, MinorShape(s, e), rs')
  {
    var c, s' := MinorCfg(h, s, hasS, slen), MinorShape(s, e);
    if !hasS { NoneOwed(c, e.heap, rs'.rem); }
    forall q | 0 <= q < |rs'.rem|
      ensures var l := Loc(s.majId, rs'.rem[q].at);
              l in e.heap && exists j :: rs'.rem[q].off <= j < |e.heap[l].fields| && s'.Young(e.heap[l].fields[j])
    {
      assert Owed(c, e.heap, rs'.rem[q]);
    }
  }

  /** gen_minor on a core's values. */
  method RunMinor(h: Heap, roots: seq<Word>, s: Shape, rs: RemSet, hash: Entry -> nat, hasS: bool, slen: nat, scan: nat)
    returns (e: Eng, roots': seq<Word>, rs': RemSet, ghost f: map<Loc, Loc>)
    requires PassOk(h, roots, s, rs, scan)
    ensures MinorLeft(s, hasS, scan, e.heap, roots', MinorShape(s, e), rs', e.over)
    ensures MinorDone(h, roots, s, hasS, scan, e.heap, roots', MinorShape(s, e), rs', e.over, f)
    ensures e.tused >= s.mused
    ensures MinorPlaced(h, roots, s, hasS, slen, scan, e.heap, MinorShape(s, e), e.over, f)
    ensures MinorOwes(rs, hasS, e.heap, MinorShape(s, e), rs')
  {
    MinorReady(h, roots, s, rs, hasS, slen, scan);
    MinorMetered(h, s, hasS, slen);
    ghost var scp;
    e, roots', rs', scp := RunPass(MinorCfg(h, s, hasS, slen), hash, MinorStart(h, s), rs, roots, scan);
    f := Ends(e, OldPart(h, s));
    MinorEnds(h, roots, s, hasS, slen, scan, e, roots', rs', f, scp);
    MinorLeavesAll(h, roots, s, e, roots', f);
    MinorGrows(h, s, e.heap);
    MinorPlaces(h, roots, s, hasS, slen, scan, e);
    MinorOwed(h, s, hasS, slen, e, rs, rs');
  }

  // ----- where a minor's pass puts things

  /** A tenured object from scan on names p. */
  ghost predicate MajorNames(h: Heap, s: Shape, p: Loc, scan: nat) {
    exists i :: scan <= i < s.mn && Loc(s.majId, i) in h && Names(h[Loc(s.majId, i)], p)
  }

  /** The tenured stay where they are, and those that were survivors are tenured. With a survivors' block, unless it
      ran out: what of the nursery a root names is in it; and the rest, but what a newly tenured object names, which
      may be tenured with that. It runs out only of more words than it has. */
  ghost predicate MinorPlaced(h: Heap, roots: seq<Word>, s: Shape, hasS: bool, slen: nat, scan: nat,
                              h': Heap, s': Shape, over: bool, f: map<Loc, Loc>) {
    && s'.majId == s.majId
    && (forall l :: l in f && l.block == s.majId ==> f[l] == l)
    && (forall l :: l in f && l.block == s.svId ==> f[l].block == s.majId)
    && (hasS && !over ==> forall i :: 0 <= i < |roots| && roots[i].Ptr? && roots[i].loc.block == NURSERY ==> roots[i].loc in f && f[roots[i].loc].block == s'.svId)
    && (hasS && !over ==> forall l :: l in f && l.block == NURSERY ==> f[l].block == s'.svId || (f[l].block == s'.majId && MajorNames(h', s', f[l], scan)))
    && (over ==> hasS && s.nused > slen)
  }

  lemma MinorLot(h: Heap, s: Shape, hasS: bool, slen: nat)
    requires Shaped(h, s) && Counted(h, s)
    ensures Lot(MinorCfg(h, s, hasS, slen), MinorStart(h, s)) == s.nused
  {
    var c, y := MinorCfg(h, s, hasS, slen), YoungPart(h, s);
    assert YoungOf(c) - MinorStart(h, s).fwd.Keys == Of(h, NURSERY);
    WordsSame(h, y, Of(h, NURSERY));
  }

  /** Where a forward leads there is an object, in one of the two blocks. */
  lemma FwdBlock(c: Cfg, e: Eng, h0: Heap, a: Loc)
    requires Tied(c, e, h0) && a in e.fwd
    ensures e.fwd[a].block == c.tid || (c.hasS && e.fwd[a].block == c.sid)
  {
  }

  lemma MinorPlaces(h: Heap, roots: seq<Word>, s: Shape, hasS: bool, slen: nat, scan: nat, e: Eng)
    requires Shaped(h, s) && Counted(h, s) && Sound(h, roots)
    requires var c := MinorCfg(h, s, hasS, slen);
             Tied(c, e, OldPart(h, s)) && PlacedAt(c, e, scan, e.tn, Lot(c, MinorStart(h, s))) && RootsStay(c, e, roots)
    ensures MinorPlaced(h, roots, s, hasS, slen, scan, e.heap, MinorShape(s, e), e.over, Ends(e, OldPart(h, s)))
  {
    var c, f, s' := MinorCfg(h, s, hasS, slen), Ends(e, OldPart(h, s)), MinorShape(s, e);
    MinorLot(h, s, hasS, slen);
    forall l | l in f && l.block == s.majId ensures f[l] == l { assert l !in e.fwd; }
    forall l | l in f && l.block != s.majId ensures l in e.fwd && f[l] == e.fwd[l] {}
    if hasS && !e.over {
      forall i | 0 <= i < |roots| && roots[i].Ptr? && roots[i].loc.block == NURSERY ensures roots[i].loc in f && f[roots[i].loc].block == s'.svId {
        assert roots[i].loc in h && c.From(roots[i]);
      }
      forall l | l in f && l.block == NURSERY ensures f[l].block == s'.svId || (f[l].block == s'.majId && MajorNames(e.heap, s', f[l], scan)) {
        FwdBlock(c, e, OldPart(h, s), l);
        if f[l].block != c.sid { assert NamedBy(c, e, e.fwd[l], scan, e.tn); }
      }
    }
  }

  // ----- the major

  function MajorCfg(h: Heap, s: Shape): (c: Cfg) { Cfg(h, s.next, false, s.next + 1, 0) }

  const MajorStart: Eng := Eng(map[], map[], 0, 0, 0, 0, false, false)

  /** The survivors' block is kept, empty. */
  function MajorShape(s: Shape, e: Eng): (r: Shape) {
    Shape(0, 0, s.svId, 0, 0, s.next, e.tn, e.tused, s.next + 1)
  }

  lemma MajorReady(h: Heap, roots: seq<Word>, s: Shape, rs: RemSet)
    requires Shaped(h, s) && Sound(h, roots)
    ensures Ready(MajorCfg(h, s), MajorStart, Cleared(rs), map[], roots, 0) && Metered(MajorCfg(h, s), MajorStart)
  {
    var e: Heap := map[];
    assert e + h == h;
    assert Of(e, s.next) == {};
  }

  lemma MajorRoom(h: Heap, s: Shape)
    requires Shaped(h, s) && Counted(h, s)
    ensures Room(MajorCfg(h, s), MajorStart) == s.mused + s.nused + s.svused
  {
    var a, b, d := Of(h, NURSERY), Of(h, s.svId), Of(h, s.majId);
    assert h.Keys - MajorStart.fwd.Keys == a + b + d;
    WordsUnion(h, a + b, d);
    WordsUnion(h, a, b);
  }

  lemma MajorShaped(h: Heap, s: Shape, e: Eng)
    requires Shaped(h, s) && Blocks(MajorCfg(h, s), e) && Metered(MajorCfg(h, s), e)
    ensures Shaped(e.heap, MajorShape(s, e)) && Counted(e.heap, MajorShape(s, e))
  {
    assert Of(e.heap, NURSERY) == {} && Of(e.heap, s.svId) == {};
  }

  /** Nothing is young after a major. */
  lemma NoneYoung(h: Heap, roots: seq<Word>, s: Shape, rem: seq<Entry>)
    requires Shaped(h, s) && Sound(h, roots) && s.nn == 0 && s.svn == 0
    ensures AllRemembered(h, s, rem)
  {
    forall l, j | l in h && 0 <= j < |h[l].fields| ensures !s.Young(h[l].fields[j]) {
      assert PointsIn(h[l].fields[j], h.Keys);
    }
  }

  // ----- the core

  class Collector {
    const hash: Entry -> nat
    var heap: Heap
    var roots: seq<Word>
    var s: Shape
    var rs: RemSet

    ghost predicate Valid()
      reads this
    {
      CoreOk(heap, roots, s, rs)
    }

    constructor (hash: Entry -> nat)
      ensures Valid() && heap == map[] && roots == []
    {
      this.hash := hash;
      heap, roots := map[], [];
      s := Shape(0, 0, 1, 0, 0, 2, 0, 0, 3);
      rs := Cleared(RemSet([], [], 0));
    }

    /** A bump in the nursery. */
    method Alloc(o: Obj) returns (w: Word)
      requires Valid() && forall j :: 0 <= j < |o.fields| ==> PointsIn(o.fields[j], heap.Keys)
      modifies this`heap, this`s
      ensures Valid() && w == Ptr(Loc(NURSERY, old(s).nn), 0) && w.loc !in old(heap) && heap == old(heap)[w.loc := o]
      ensures s == old(s).(nn := old(s).nn + 1, nused := old(s).nused + o.Size())
    {
      AllocKeeps(heap, roots, s, rs, o);
      var l := Loc(NURSERY, s.nn);
      heap := heap[l := o];
      s := s.(nn := s.nn + 1, nused := s.nused + o.Size());
      w := Ptr(l, 0);
    }

    /** Whatever the program does with its roots: words it has. */
    method SetRoots(ws: seq<Word>)
      requires Valid() && forall i :: 0 <= i < |ws| ==> PointsIn(ws[i], heap.Keys)
      modifies this`roots
      ensures Valid() && roots == ws
    {
      roots := ws;
    }

    /** A store with its barrier: gen_wb, or gen_wb_cell for a cell. */
    method Store(l: Loc, j: nat, w: Word, cell: bool)
      requires Valid() && l in heap && j < |heap[l].fields| && PointsIn(w, heap.Keys)
      modifies this`heap, this`rs
      ensures Valid() && heap == SetField(old(heap), l, j, w) && Barred(s, old(rs), rs, l, j, w, cell)
    {
      BarrierBars(heap, s, rs, l, j, w, cell, hash);
      StoreCounted(heap, s, l, j, w);
      StoreRemembers(heap, s, rs, l, j, w, cell, hash);
      StoreSound(heap, roots, l, j, w);
      rs := Barrier(heap, s, rs, l, j, w, cell, hash);
      heap := SetField(heap, l, j, w);
    }

    /** gen_minor: what lives of the nursery goes to a survivors' block of slen words, if there is one; what was
        there from the minor before is tenured. */
    method MinorPass(hasS: bool, slen: nat, scan: nat) returns (over: bool, ghost f: map<Loc, Loc>)
      requires PassOk(heap, roots, s, rs, scan)
      modifies this`heap, this`roots, this`s, this`rs
      ensures MinorDone(old(heap), old(roots), old(s), hasS, scan, heap, roots, s, rs, over, f) && s.mused >= old(s).mused
      ensures MinorPlaced(old(heap), old(roots), old(s), hasS, slen, scan, heap, s, over, f)
      ensures MinorOwes(old(rs), hasS, heap, s, rs)
    {
      var e, roots1, rs1;
      e, roots1, rs1, f := RunMinor(heap, roots, s, rs, hash, hasS, slen, scan);
      heap, roots, s, rs, over := e.heap, roots1, MinorShape(s, e), rs1, e.over;
    }

    /** The minor: once, and where the survivors' block ran out, as over says, once more with none, the tenured of the
        first pass walked again. That leaves nothing young, so no miss of the first pass matters. */
    method Minor(hasS: bool, slen: nat) returns (ghost f: map<Loc, Loc>, ghost over: bool)
      requires Valid() && rs.miss == 0
      modifies this`heap, this`roots, this`s, this`rs
      ensures Valid() && Iso(old(heap), old(roots), heap, roots, f) && s.nn == 0
      ensures s.mused + s.svused <= old(s).mused + old(s).nused + old(s).svused && s.mused >= old(s).mused
      ensures !over ==> MinorPlaced(old(heap), old(roots), old(s), hasS, slen, old(s).mn, heap, s, false, f)
      ensures over ==> hasS && old(s).nused > slen && s.svn == 0 && rs.miss == 0
      ensures Owing(heap, s, rs.rem) && (over ==> rs.rem == [])
    {
      ghost var h, r := heap, roots;
      var scan := s.mn;
      var again;
      again, f := MinorPass(hasS, slen, scan);
      over := again;
      if again {
        ghost var h1, r1, f1 := heap, roots, f;
        ghost var f2;
        var none;
        none, f2 := MinorPass(false, 0, scan);
        IsoThen(h, r, h1, r1, f1, heap, roots, f2);
        f := Then(f1, f2);
        NoneYoung(heap, roots, s, rs.rem);
        rs := rs.(miss := 0);
      }
    }

    /** gen_major: one new block takes all that lives, and nothing is left to remember. */
    method Major() returns (ghost f: map<Loc, Loc>)
      requires Valid()
      modifies this`heap, this`roots, this`s, this`rs
      ensures Valid() && Iso(old(heap), old(roots), heap, roots, f)
      ensures s.nn == 0 && s.svn == 0 && rs.miss == 0 && rs.rem == []
      ensures s.mused <= old(s).mused + old(s).nused + old(s).svused
    {
      ghost var h0: Heap := map[];
      assert h0 + heap == heap;
      MajorReady(heap, roots, s, rs);
      MajorRoom(heap, s);
      ghost var scp;
      var e, roots1, rs1;
      e, roots1, rs1, scp := RunPass(MajorCfg(heap, s), hash, MajorStart, Cleared(rs), roots, 0);
      f := Ends(e, h0);
      IsoSound(heap, roots, e.heap, roots1, f);
      MajorShaped(heap, s, e);
      heap, roots, s := e.heap, roots1, MajorShape(s, e);
      rs := Cleared(rs).(miss := 0);
      NoneYoung(heap, roots, s, rs.rem);
    }

    /** A collection as please_ drives it: a miss forces a major. */
    method Collect(major: bool, hasS: bool, slen: nat) returns (ghost f: map<Loc, Loc>, ghost over: bool)
      requires Valid()
      modifies this`heap, this`roots, this`s, this`rs
      ensures Valid() && Iso(old(heap), old(roots), heap, roots, f) && s.nn == 0
      ensures major || old(rs).miss > 0 ==> s.svn == 0 && rs.rem == [] && rs.miss == 0
      ensures Owing(heap, s, rs.rem)
      ensures !major && old(rs).miss == 0 && !over ==> MinorPlaced(old(heap), old(roots), old(s), hasS, slen, old(s).mn, heap, s, false, f)
      ensures !major && old(rs).miss == 0 && over ==> hasS && old(s).nused > slen && s.svn == 0
    {
      over := false;
      if major || rs.miss > 0 {
        f := Major();
      } else {
        f, over := Minor(hasS, slen);
      }
    }
  }
}
