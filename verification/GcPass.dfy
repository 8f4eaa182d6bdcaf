/** A whole pass of src/love/gc.c: the remembered walk, the roots, and what the drained state comes to. */
module GcPass {
  import opened GcHeap
  import opened GcEngine
  import opened GcRemember
  import opened GcDrain

  // ----- the remembered walk

  /** The walk has taken k of the entries rem0: under each taken nothing is left in the from-space, and
      what names a survivor is remembered again. No room was missed, for no entry is made twice over. */
  ghost predicate Walked(c: Cfg, h: Heap, n: nat, rs: RemSet, rem0: seq<Entry>, k: nat, miss0: nat) {
    && rs.Valid() && rs.miss == miss0
    && |rs.rem| <= k <= |rem0| <= CAP && Within(rs.rem, n)
    && AllTaken(c, h, rs.rem, rem0[..k])
  }

  ghost predicate Walking(c: Cfg, e: Eng, rs: RemSet, h0: Heap, rem0: seq<Entry>, k: nat, miss0: nat) {
    Tied(c, e, h0) && Walked(c, e.heap, e.tn, rs, rem0, k, miss0)
  }

  ghost predicate AllTaken(c: Cfg, h: Heap, rem: seq<Entry>, ts: seq<Entry>) {
    forall q :: 0 <= q < |ts| ==> Taken(c, h, rem, ts[q])
  }

  ghost predicate Taken(c: Cfg, h: Heap, rem: seq<Entry>, t: Entry) {
    var l := Loc(c.tid, t.at);
    && l in h
    && forall j :: t.off <= j < |h[l].fields| ==>
         !c.From(h[l].fields[j]) && (c.InS(h[l].fields[j]) ==> Covered(rem, t.at, j))
  }

  /** Nothing but the object at l, new ones, and of l only words of the from-space. */
  ghost predicate OnlyFrom(c: Cfg, h: Heap, h': Heap, l: Loc) {
    && (forall k :: k in h ==> k in h' && (k != l ==> h'[k] == h[k]))
    && (l in h ==>
          && |h'[l].fields| == |h[l].fields|
          && forall j :: 0 <= j < |h[l].fields| && !c.From(h[l].fields[j]) ==> h'[l].fields[j] == h[l].fields[j])
  }

  lemma TakenKept(c: Cfg, h: Heap, h': Heap, rem: seq<Entry>, rem': seq<Entry>, t: Entry, l: Loc)
    requires Taken(c, h, rem, t) && OnlyFrom(c, h, h', l)
    requires forall i, j :: Covered(rem, i, j) ==> Covered(rem', i, j)
    ensures Taken(c, h', rem', t)
  {
  }

  /** One entry's walk, whatever the scan was. */
  lemma WalkTurn(c: Cfg, h: Heap, h': Heap, rem: seq<Entry>, rem': seq<Entry>, done: seq<Entry>, t: Entry, l: Loc)
    requires AllTaken(c, h, rem, done) && OnlyFrom(c, h, h', l) && Taken(c, h', rem', t)
    requires forall i, j :: Covered(rem, i, j) ==> Covered(rem', i, j)
    ensures AllTaken(c, h', rem', done + [t])
  {
    forall q | 0 <= q < |done| ensures Taken(c, h', rem', done[q]) {
      TakenKept(c, h, h', rem, rem', done[q], l);
    }
  }

  /** The state after an entry's walk. */
  function WalkNext(c: Cfg, e: Eng, t: Entry): (r: Eng) {
    var l := Loc(c.tid, t.at);
    Evac(c, e.(hit := false), Mode(true, false), l, t.off, if l in e.heap then |e.heap[l].fields| else 0)
  }

  function WalkRem(e': Eng, rs: RemSet, t: Entry, h: nat): (r: RemSet)
    requires rs.Valid() && h < IX
  {
    if e'.hit then Remember(rs, t, h) else rs
  }

  lemma WalkScan(c: Cfg, e: Eng, h0: Heap, t: Entry)
    requires Tied(c, e, h0) && Loc(c.tid, t.at) in e.heap
    ensures var e' := WalkNext(c, e, t); var l := Loc(c.tid, t.at);
            && Tied(c, e', h0) && Touches(e.(hit := false), e', l)
            && Scanned(c, Mode(true, false), e.heap[l], e'.heap[l], t.off, |e.heap[l].fields|, e'.hit)
  {
    var l := Loc(c.tid, t.at);
    var n := |e.heap[l].fields|;
    EvacTied(c, e.(hit := false), Mode(true, false), h0, l, t.off, n);
    EvacScans(c, e.(hit := false), Mode(true, false), h0, l, t.off, n);
  }

  lemma WalkRemCovers(e': Eng, rs: RemSet, t: Entry, h: nat, n: nat)
    requires rs.Valid() && h < IX && |rs.rem| < CAP && Within(rs.rem, n) && t.at < n
    ensures var rs' := WalkRem(e', rs, t, h);
            && rs'.Valid() && rs'.miss == rs.miss && |rs'.rem| <= |rs.rem| + 1 && Within(rs'.rem, n)
            && (forall i, j :: Covered(rs.rem, i, j) ==> Covered(rs'.rem, i, j))
            && (e'.hit ==> forall j :: t.off <= j ==> Covered(rs'.rem, t.at, j))
  {
    RememberCovers(rs, t, h);
  }

  /** All that an entry's walk does. */
  ghost predicate EntryWalked(c: Cfg, h: Heap, h': Heap, n': nat, rs: RemSet, rs': RemSet, t: Entry) {
    && OnlyFrom(c, h, h', Loc(c.tid, t.at)) && Taken(c, h', rs'.rem, t)
    && rs'.Valid() && rs'.miss == rs.miss && |rs'.rem| <= |rs.rem| + 1 && Within(rs'.rem, n')
    && (forall i, j :: Covered(rs.rem, i, j) ==> Covered(rs'.rem, i, j))
  }

  lemma WalkEntry(c: Cfg, e: Eng, rs: RemSet, h0: Heap, t: Entry, h: nat)
    requires Tied(c, e, h0) && Loc(c.tid, t.at) in e.heap
    requires rs.Valid() && h < IX && |rs.rem| < CAP && Within(rs.rem, e.tn)
    ensures var e' := WalkNext(c, e, t);
            Tied(c, e', h0) && EntryWalked(c, e.heap, e'.heap, e'.tn, rs, WalkRem(e', rs, t, h), t)
  {
    var e' := WalkNext(c, e, t);
    WalkScan(c, e, h0, t);
    WalkRemCovers(e', rs, t, h, e'.tn);
    ScannedTaken(c, e, e', WalkRem(e', rs, t, h).rem, t);
  }

  lemma WalkedNext(c: Cfg, h: Heap, n: nat, h': Heap, n': nat, rs: RemSet, rs': RemSet, rem0: seq<Entry>, k: nat, miss0: nat)
    requires Walked(c, h, n, rs, rem0, k, miss0) && k < |rem0| && EntryWalked(c, h, h', n', rs, rs', rem0[k])
    ensures Walked(c, h', n', rs', rem0, k + 1, miss0)
  {
    WalkTurn(c, h, h', rs.rem, rs'.rem, rem0[..k], rem0[k], Loc(c.tid, rem0[k].at));
    assert rem0[..k + 1] == rem0[..k] + [rem0[k]];
  }

  lemma WalkStep(c: Cfg, e: Eng, rs: RemSet, h0: Heap, rem0: seq<Entry>, k: nat, miss0: nat, h: nat)
    requires Walking(c, e, rs, h0, rem0, k, miss0) && k < |rem0| && h < IX
    requires Loc(c.tid, rem0[k].at) in e.heap
    ensures var e' := WalkNext(c, e, rem0[k]);
            Walking(c, e', WalkRem(e', rs, rem0[k], h), h0, rem0, k + 1, miss0)
  {
    var e' := WalkNext(c, e, rem0[k]);
    WalkEntry(c, e, rs, h0, rem0[k], h);
    WalkedNext(c, e.heap, e.tn, e'.heap, e'.tn, rs, WalkRem(e', rs, rem0[k], h), rem0, k, miss0);
  }

  lemma WalkStarts(c: Cfg, e: Eng, rs: RemSet, h0: Heap)
    requires Tied(c, e, h0) && rs.Valid()
    ensures Walking(c, e, Cleared(rs), h0, rs.rem, 0, rs.miss)
  {
  }

  lemma ScannedTaken(c: Cfg, e: Eng, e': Eng, rem: seq<Entry>, t: Entry)
    requires var l := Loc(c.tid, t.at);
             && l in e.heap && Touches(e.(hit := false), e', l)
             && Scanned(c, Mode(true, false), e.heap[l], e'.heap[l], t.off, |e.heap[l].fields|, e'.hit)
    requires e'.hit ==> forall j :: t.off <= j ==> Covered(rem, t.at, j)
    ensures Taken(c, e'.heap, rem, t) && OnlyFrom(c, e.heap, e'.heap, Loc(c.tid, t.at))
  {
  }

  /** The remembered set a pass starts with leads to every young pointer of the tenured objects below
      scan; no word names the survivors' block yet. */
  ghost predicate Complete(c: Cfg, h0: Heap, rem0: seq<Entry>, scan: nat) {
    && (forall l, j :: l in h0 && l.at < scan && 0 <= j < |h0[l].fields| && c.From(h0[l].fields[j]) ==>
                         Covered(rem0, l.at, j))
    && (forall l, j :: l in h0 && 0 <= j < |h0[l].fields| ==> !c.InS(h0[l].fields[j]))
    && (forall q :: 0 <= q < |rem0| ==> Loc(c.tid, rem0[q].at) in h0)
  }

  /** A field of an old object after the walk. */
  lemma WalkedField(c: Cfg, e: Eng, rs: RemSet, h0: Heap, rem0: seq<Entry>, scan: nat, miss0: nat, l: Loc, j: nat)
    requires Walking(c, e, rs, h0, rem0, |rem0|, miss0) && Complete(c, h0, rem0, scan)
    requires l in h0 && l in e.heap && l.block == c.tid && l.at < scan && j < |e.heap[l].fields|
    ensures !c.From(e.heap[l].fields[j])
    ensures c.InS(e.heap[l].fields[j]) ==> Covered(rs.rem, l.at, j)
  {
    assert ObjOnWay(e.fwd, h0[l], e.heap[l]);
    var w0, w := h0[l].fields[j], e.heap[l].fields[j];
    assert OnWay(e.fwd, w0, w) && !c.InS(w0);
    if c.From(w0) {
      assert Covered(rem0, l.at, j);
      var q :| 0 <= q < |rem0| && rem0[q].at == l.at && rem0[q].off <= j;
      assert rem0[..|rem0|][q] == rem0[q];
      assert Taken(c, e.heap, rs.rem, rem0[q]);
      assert l == Loc(c.tid, rem0[q].at);
    }
  }

  /** After the walk the drain may start at scan. */
  lemma WalkEnds(c: Cfg, e: Eng, rs: RemSet, h0: Heap, rem0: seq<Entry>, scan: nat, miss0: nat)
    requires Walking(c, e, rs, h0, rem0, |rem0|, miss0) && Complete(c, h0, rem0, scan)
    requires forall l :: l in e.heap && l.block == c.tid && l.at < scan ==> l in h0
    requires scan <= e.tn
    ensures Draining(c, e, rs, h0, scan, scan, 0)
  {
    forall l, j | l in e.heap && l.block == c.tid && l.at < scan && 0 <= j < |e.heap[l].fields|
      ensures !c.From(e.heap[l].fields[j])
      ensures c.InS(e.heap[l].fields[j]) ==> Covered(rs.rem, l.at, j)
    {
      WalkedField(c, e, rs, h0, rem0, scan, miss0, l, j);
    }
  }

  // ----- the roots

  ghost predicate RootsMoved(c: Cfg, e: Eng, roots: seq<Word>, roots': seq<Word>, k: nat) {
    && |roots'| == |roots| && k <= |roots|
    && (forall i :: 0 <= i < k ==> (c.From(roots[i]) ==> roots[i].loc in e.fwd) && roots'[i] == Move(e.fwd, roots[i]))
    && (forall i :: k <= i < |roots| ==> roots'[i] == roots[i])
  }

  lemma RootsKept(c: Cfg, e: Eng, e': Eng, roots: seq<Word>, roots': seq<Word>, k: nat)
    requires RootsMoved(c, e, roots, roots', k) && Blocks(c, e) && Blocks(c, e')
    requires forall a :: a in e.fwd ==> a in e'.fwd && e'.fwd[a] == e.fwd[a]
    ensures RootsMoved(c, e', roots, roots', k)
  {
  }

  lemma RootStep(c: Cfg, e: Eng, m: Mode, roots: seq<Word>, roots': seq<Word>, k: nat)
    requires Blocks(c, e) && RootsMoved(c, e, roots, roots', k) && k < |roots|
    ensures var e' := Gcp(c, e, m, roots'[k]);
            Blocks(c, e') && RootsMoved(c, e', roots, roots'[k := Move(e'.fwd, roots'[k])], k + 1)
  {
    var e' := Gcp(c, e, m, roots'[k]);
    GcpExtends(c, e, m, roots'[k]);
    RootsKept(c, e, e', roots, roots', k);
  }

  // ----- what a drained pass comes to

  /** Where every object that is kept ends up. */
  ghost function Ends(e: Eng, h0: Heap): (f: map<Loc, Loc>) {
    map l | l in h0.Keys + e.fwd.Keys :: if l in e.fwd then e.fwd[l] else l
  }

  /** Every pointer leads to an object. */
  ghost predicate Sound(h: Heap, roots: seq<Word>) {
    && (forall i :: 0 <= i < |roots| ==> PointsIn(roots[i], h.Keys))
    && (forall l, j :: l in h && 0 <= j < |h[l].fields| ==> PointsIn(h[l].fields[j], h.Keys))
  }

  /** One field of a kept object, settled. */
  lemma Settled(c: Cfg, e: Eng, h0: Heap, w0: Word, w: Word)
    requires Tied(c, e, h0) && h0.Keys !! c.objs.Keys
    requires OnWay(e.fwd, w0, w) && !c.From(w) && PointsIn(w0, (h0 + c.objs).Keys)
    ensures PointsIn(w0, Ends(e, h0).Keys) && w == Move(Ends(e, h0), w0)
  {
  }

  lemma SettledObj(c: Cfg, e: Eng, h0: Heap, o0: Obj, o: Obj)
    requires Tied(c, e, h0) && h0.Keys !! c.objs.Keys
    requires ObjOnWay(e.fwd, o0, o) && CleanObj(c, o)
    requires forall j :: 0 <= j < |o0.fields| ==> PointsIn(o0.fields[j], (h0 + c.objs).Keys)
    ensures Moved(Ends(e, h0), o0, o)
    ensures forall j :: 0 <= j < |o0.fields| ==> PointsIn(o0.fields[j], Ends(e, h0).Keys)
  {
    forall j | 0 <= j < |o0.fields|
      ensures PointsIn(o0.fields[j], Ends(e, h0).Keys) && o.fields[j] == Move(Ends(e, h0), o0.fields[j])
    {
      Settled(c, e, h0, o0.fields[j], o.fields[j]);
    }
  }

  /** The heap is what it was, moved. */
  lemma PassIso(c: Cfg, e: Eng, h0: Heap, roots: seq<Word>, roots': seq<Word>)
    requires Tied(c, e, h0) && h0.Keys !! c.objs.Keys && Sound(h0 + c.objs, roots)
    requires CleanT(c, e, e.tn) && CleanS(c, e, e.sn) && RootsMoved(c, e, roots, roots', |roots|)
    ensures Iso(h0 + c.objs, roots, e.heap, roots', Ends(e, h0))
  {
    var f, h := Ends(e, h0), h0 + c.objs;
    forall a | a in f
      ensures f[a] in e.heap && Moved(f, h[a], e.heap[f[a]])
      ensures forall j :: 0 <= j < |h[a].fields| ==> PointsIn(h[a].fields[j], f.Keys)
    {
      assert CleanObj(c, e.heap[f[a]]);
      SettledObj(c, e, h0, h[a], e.heap[f[a]]);
    }
    forall i | 0 <= i < |roots| ensures PointsIn(roots[i], f.Keys) && roots'[i] == Move(f, roots[i]) {
      MoveIsClean(c, e, h0, roots[i]);
      Settled(c, e, h0, roots[i], roots'[i]);
    }
    EndsOnto(c, e, h0);
  }

  lemma EndsOnto(c: Cfg, e: Eng, h0: Heap)
    requires Tied(c, e, h0) && h0.Keys !! c.objs.Keys
    ensures Injective(Ends(e, h0))
    ensures forall b :: b in e.heap ==> b in Ends(e, h0).Values
  {
    var f := Ends(e, h0);
    forall b | b in e.heap ensures b in f.Values {
      if b in h0 {
        assert f[b] == b;
      } else {
        var a :| a in e.fwd && e.fwd[a] == b;
        assert f[a] == b;
      }
    }
  }
}
