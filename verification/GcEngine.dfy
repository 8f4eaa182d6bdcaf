/** One pass of the collector (gcp, the copies, the scans, the drain of src/love/gc.c) on values. */
module GcEngine {
  import opened GcHeap

  /** The nursery's block. */
  const NURSERY: nat := 0

  /** What a pass is over: the from-space; the block the tenured land in; and in a minor the survivors'
      block, of scap words. */
  datatype Cfg = Cfg(objs: Heap, tid: nat, hasS: bool, sid: nat, scap: nat) {
    predicate InS(w: Word) { hasS && w.Ptr? && w.loc.block == sid }
    predicate From(w: Word) { w.Ptr? && w.loc in objs }
  }

  /** inOld: the object scanned is tenured, and a survivor it holds is a hit; tenuring: what it reaches tenures too. */
  datatype Mode = Mode(inOld: bool, tenuring: bool)

  /** A pass under way: the forwards written so far; the heap outside the from-space, tenured objects
      0..tn and survivors 0..sn, with the words each side was given; hit, that a tenured object was left
      with a survivor; over, that the survivors' block ran out. */
  datatype Eng = Eng(fwd: map<Loc, Loc>, heap: Heap, tn: nat, tused: nat, sn: nat, sused: nat, hit: bool, over: bool)

  /** The heap is the places of the two blocks; no block is two; forwards are from-space places. */
  ghost predicate Blocks(c: Cfg, e: Eng) {
    && (forall l :: l in e.heap <==> (l.block == c.tid && l.at < e.tn) || (c.hasS && l.block == c.sid && l.at < e.sn))
    && (c.hasS ==> c.sid != c.tid)
    && (forall l :: l in c.objs ==> l.block != c.tid && (c.hasS ==> l.block != c.sid))
    && e.fwd.Keys <= c.objs.Keys
    && (c.hasS || (e.sn == 0 && e.sused == 0))
  }

  /** Whether a copy goes to the survivors. */
  predicate Stays(c: Cfg, e: Eng, m: Mode, l: Loc)
    requires l in c.objs
  {
    c.hasS && l.block == NURSERY && !m.tenuring && e.sused + c.objs[l].Size() <= c.scap
  }

  /** The place a copy of l gets. */
  function Place(c: Cfg, e: Eng, m: Mode, l: Loc): (r: Loc)
    requires l in c.objs
  {
    if Stays(c, e, m, l) then Loc(c.sid, e.sn) else Loc(c.tid, e.tn)
  }

  /** copy_data, copy_thread: the object to its place, a forward in its stead. */
  function Copy(c: Cfg, e: Eng, m: Mode, l: Loc): (r: Eng)
    requires l in c.objs
  {
    var o, p := c.objs[l], Place(c, e, m, l);
    if Stays(c, e, m, l) then
      Eng(e.fwd[l := p], e.heap[p := o], e.tn, e.tused, e.sn + 1, e.sused + o.Size(), e.hit, e.over)
    else
      Eng(e.fwd[l := p], e.heap[p := o], e.tn + 1, e.tused + o.Size(), e.sn, e.sused, e.hit,
          e.over || (c.hasS && l.block == NURSERY && !m.tenuring))
  }

  /** gcp's own part: the object named is copied if it still lies in the from-space. */
  function Fetch(c: Cfg, e: Eng, m: Mode, w: Word): (r: Eng) {
    if c.From(w) && w.loc !in e.fwd then Copy(c, e, m, w.loc) else e
  }

  /** gcp: the pass after it has met w, which then comes to Move of it; a survivor met in a tenured
      object is a hit. */
  function Gcp(c: Cfg, e: Eng, m: Mode, w: Word): (r: Eng) {
    var e1 := Fetch(c, e, m, w);
    if m.inOld && c.InS(Move(e1.fwd, w)) then e1.(hit := true) else e1
  }

  function SetField(h: Heap, l: Loc, j: nat, w: Word): (r: Heap) {
    if l in h && j < |h[l].fields| then h[l := Obj(h[l].kind, h[l].raw, h[l].fields[j := w])] else h
  }

  /** Field j of the object at l, replaced by what it comes to. */
  function Visit(c: Cfg, e: Eng, m: Mode, l: Loc, j: nat): (r: Eng)
    requires l in e.heap && j < |e.heap[l].fields|
  {
    var w := e.heap[l].fields[j];
    var e1 := Gcp(c, e, m, w);
    e1.(heap := SetField(e1.heap, l, j, Move(e1.fwd, w)))
  }

  /** evac_data, evac_thread, gen_scan_inplace: the fields from j up to n. */
  function Evac(c: Cfg, e: Eng, m: Mode, l: Loc, j: nat, n: nat): (r: Eng)
    decreases n - j
  {
    if j >= n || l !in e.heap || j >= |e.heap[l].fields| then e
    else Evac(c, Visit(c, e, m, l, j), m, l, j + 1, n)
  }

  // ----- what copying keeps

  lemma CopyBlocks(c: Cfg, e: Eng, m: Mode, l: Loc)
    requires Blocks(c, e) && l in c.objs
    ensures Blocks(c, Copy(c, e, m, l)) && Place(c, e, m, l) !in e.heap
  {
  }

  /** The new state only adds: objects, forwards. */
  ghost predicate Extends(e: Eng, e': Eng) {
    && (forall l :: l in e.heap ==> l in e'.heap && e'.heap[l] == e.heap[l])
    && (forall l :: l in e.fwd ==> l in e'.fwd && e'.fwd[l] == e.fwd[l])
    && e.tn <= e'.tn && e.sn <= e'.sn
    && (e.hit ==> e'.hit) && (e.over ==> e'.over)
  }

  lemma CopyExtends(c: Cfg, e: Eng, m: Mode, l: Loc)
    requires Blocks(c, e) && l in c.objs && l !in e.fwd
    ensures Extends(e, Copy(c, e, m, l))
  {
    CopyBlocks(c, e, m, l);
  }

  lemma GcpExtends(c: Cfg, e: Eng, m: Mode, w: Word)
    requires Blocks(c, e)
    ensures Blocks(c, Gcp(c, e, m, w)) && Extends(e, Gcp(c, e, m, w))
    ensures c.From(w) ==> w.loc in Gcp(c, e, m, w).fwd
  {
    if c.From(w) && w.loc !in e.fwd {
      CopyBlocks(c, e, m, w.loc);
      CopyExtends(c, e, m, w.loc);
    }
  }

  // ----- the objects in the heap are the ones they were, on their way

  /** A word that was w0 is w0 still, or what w0 comes to. */
  ghost predicate OnWay(f: map<Loc, Loc>, w0: Word, w: Word) { w == w0 || w == Move(f, w0) }

  ghost predicate ObjOnWay(f: map<Loc, Loc>, o0: Obj, o: Obj) {
    && o.kind == o0.kind && o.raw == o0.raw && |o.fields| == |o0.fields|
    && forall j :: 0 <= j < |o.fields| ==> OnWay(f, o0.fields[j], o.fields[j])
  }

  /** Every copy is of its own from-space object, every object of the heap before, h0, is still itself,
      and the heap holds nothing else. */
  ghost predicate Traced(objs: Heap, fwd: map<Loc, Loc>, heap: Heap, h0: Heap) {
    && Injective(fwd) && fwd.Keys <= objs.Keys
    && (forall a :: a in fwd ==> fwd[a] in heap && fwd[a] !in h0 && ObjOnWay(fwd, objs[a], heap[fwd[a]]))
    && (forall l :: l in h0 ==> l in heap && ObjOnWay(fwd, h0[l], heap[l]))
    && (forall l :: l in heap && l !in h0 ==> l in fwd.Values)
  }

  ghost predicate Tied(c: Cfg, e: Eng, h0: Heap) {
    Blocks(c, e) && Traced(c.objs, e.fwd, e.heap, h0)
  }

  lemma OnWayGrows(f: map<Loc, Loc>, l: Loc, p: Loc, o0: Obj, o: Obj)
    requires l !in f && ObjOnWay(f, o0, o)
    ensures ObjOnWay(f[l := p], o0, o)
  {
  }

  lemma CopyTraced(objs: Heap, fwd: map<Loc, Loc>, heap: Heap, h0: Heap, l: Loc, p: Loc)
    requires Traced(objs, fwd, heap, h0) && l in objs && l !in fwd && p !in heap
    ensures Traced(objs, fwd[l := p], heap[p := objs[l]], h0)
  {
    var f, h := fwd[l := p], heap[p := objs[l]];
    forall a | a in f ensures f[a] in h && f[a] !in h0 && ObjOnWay(f, objs[a], h[f[a]]) {
      if a != l { OnWayGrows(fwd, l, p, objs[a], heap[fwd[a]]); }
    }
    forall k | k in h0 ensures k in h && ObjOnWay(f, h0[k], h[k]) {
      OnWayGrows(fwd, l, p, h0[k], heap[k]);
    }
    forall k | k in h && k !in h0 ensures k in f.Values {
      if k == p {
        assert f[l] == k;
      } else {
        var a :| a in fwd && fwd[a] == k;
        assert f[a] == k;
      }
    }
  }

  lemma CopyTied(c: Cfg, e: Eng, m: Mode, h0: Heap, l: Loc)
    requires Tied(c, e, h0) && l in c.objs && l !in e.fwd
    ensures Tied(c, Copy(c, e, m, l), h0)
  {
    CopyBlocks(c, e, m, l);
    CopyTraced(c.objs, e.fwd, e.heap, h0, l, Place(c, e, m, l));
  }

  lemma GcpTied(c: Cfg, e: Eng, m: Mode, h0: Heap, w: Word)
    requires Tied(c, e, h0)
    ensures Tied(c, Gcp(c, e, m, w), h0)
  {
    if c.From(w) && w.loc !in e.fwd { CopyTied(c, e, m, h0, w.loc); }
  }

  /** What a word comes to, once its object is fetched, is not in the from-space, and comes to itself. */
  lemma MoveIsClean(c: Cfg, e: Eng, h0: Heap, w: Word)
    requires Tied(c, e, h0) && (c.From(w) ==> w.loc in e.fwd)
    ensures !c.From(Move(e.fwd, w)) && Move(e.fwd, Move(e.fwd, w)) == Move(e.fwd, w)
  {
  }

  lemma SetTied(c: Cfg, e: Eng, h0: Heap, l: Loc, j: nat)
    requires Tied(c, e, h0) && l in e.heap && j < |e.heap[l].fields|
    requires var w := e.heap[l].fields[j]; c.From(w) ==> w.loc in e.fwd
    ensures Tied(c, e.(heap := SetField(e.heap, l, j, Move(e.fwd, e.heap[l].fields[j]))), h0)
  {
    var w := e.heap[l].fields[j];
    var v := Move(e.fwd, w);
    var h' := SetField(e.heap, l, j, v);
    var e' := e.(heap := h');
    MoveIsClean(c, e, h0, w);
    if l in h0 {
      SetOnWay(c, e, h0, h0[l], e.heap[l], j);
    }
    forall a | a in e.fwd && e.fwd[a] == l ensures ObjOnWay(e.fwd, c.objs[a], h'[l]) {
      SetOnWay(c, e, h0, c.objs[a], e.heap[l], j);
    }
  }

  lemma SetOnWay(c: Cfg, e: Eng, h0: Heap, o0: Obj, o: Obj, j: nat)
    requires Tied(c, e, h0) && ObjOnWay(e.fwd, o0, o) && j < |o.fields|
    requires c.From(o.fields[j]) ==> o.fields[j].loc in e.fwd
    ensures ObjOnWay(e.fwd, o0, Obj(o.kind, o.raw, o.fields[j := Move(e.fwd, o.fields[j])]))
  {
    MoveIsClean(c, e, h0, o.fields[j]);
    var w0 := o0.fields[j];
    assert OnWay(e.fwd, w0, o.fields[j]);
    if c.From(w0) && w0.loc in e.fwd { MoveIsClean(c, e, h0, w0); }
  }

  // ----- a scan of one object

  /** Nothing but the object at l, and new ones. */
  ghost predicate Touches(e: Eng, e': Eng, l: Loc) {
    && (forall k :: k in e.heap ==> k in e'.heap && (k != l ==> e'.heap[k] == e.heap[k]))
    && (forall a :: a in e.fwd ==> a in e'.fwd && e'.fwd[a] == e.fwd[a])
    && e.tn <= e'.tn && e.sn <= e'.sn
    && (e.hit ==> e'.hit) && (e.over ==> e'.over)
    && (l in e.heap ==> |e'.heap[l].fields| == |e.heap[l].fields|)
  }

  lemma TouchesThen(e: Eng, e1: Eng, e2: Eng, l: Loc)
    requires Touches(e, e1, l) && Touches(e1, e2, l)
    ensures Touches(e, e2, l)
  {
  }

  /** An object's fields from j up to n after a scan: none in the from-space, those that were not there
      before as they were; a survivor among them is a hit in a tenured object. */
  ghost predicate Scanned(c: Cfg, m: Mode, o: Obj, o': Obj, j: nat, n: nat, hit: bool) {
    && |o'.fields| == |o.fields| && n <= |o.fields|
    && (forall k :: 0 <= k < |o.fields| && !(j <= k < n && c.From(o.fields[k])) ==> o'.fields[k] == o.fields[k])
    && (forall k :: j <= k < n ==> !c.From(o'.fields[k]))
    && (m.inOld ==> forall k :: j <= k < n && c.InS(o'.fields[k]) ==> hit)
  }

  lemma ScannedThen(c: Cfg, m: Mode, o: Obj, o1: Obj, o2: Obj, j: nat, n: nat, hit1: bool, hit2: bool)
    requires Scanned(c, m, o, o1, j, j + 1, hit1) && Scanned(c, m, o1, o2, j + 1, n, hit2) && (hit1 ==> hit2) && j < n
    ensures Scanned(c, m, o, o2, j, n, hit2)
  {
    assert o2.fields[j] == o1.fields[j];
  }

  lemma VisitTied(c: Cfg, e: Eng, m: Mode, h0: Heap, l: Loc, j: nat)
    requires Tied(c, e, h0) && l in e.heap && j < |e.heap[l].fields|
    ensures Tied(c, Visit(c, e, m, l, j), h0)
  {
    var w := e.heap[l].fields[j];
    GcpExtends(c, e, m, w);
    GcpTied(c, e, m, h0, w);
    SetTied(c, Gcp(c, e, m, w), h0, l, j);
  }

  lemma VisitTouches(c: Cfg, e: Eng, m: Mode, l: Loc, j: nat)
    requires Blocks(c, e) && l in e.heap && j < |e.heap[l].fields|
    ensures Touches(e, Visit(c, e, m, l, j), l)
  {
    GcpExtends(c, e, m, e.heap[l].fields[j]);
  }

  /** What a word comes to, in the state after it was met. */
  lemma GcpWord(c: Cfg, e: Eng, m: Mode, h0: Heap, w: Word)
    requires Tied(c, e, h0)
    ensures var e1 := Gcp(c, e, m, w); var v := Move(e1.fwd, w);
            !c.From(v) && (!c.From(w) ==> v == w) && (m.inOld && c.InS(v) ==> e1.hit)
  {
    GcpExtends(c, e, m, w);
    GcpTied(c, e, m, h0, w);
    MoveIsClean(c, Gcp(c, e, m, w), h0, w);
  }

  lemma VisitScans(c: Cfg, e: Eng, m: Mode, h0: Heap, l: Loc, j: nat)
    requires Tied(c, e, h0) && l in e.heap && j < |e.heap[l].fields|
    ensures var e' := Visit(c, e, m, l, j);
            l in e'.heap && Scanned(c, m, e.heap[l], e'.heap[l], j, j + 1, e'.hit)
  {
    GcpWord(c, e, m, h0, e.heap[l].fields[j]);
    GcpExtends(c, e, m, e.heap[l].fields[j]);
  }

  lemma {:induction false} EvacTied(c: Cfg, e: Eng, m: Mode, h0: Heap, l: Loc, j: nat, n: nat)
    requires Tied(c, e, h0) && l in e.heap
    ensures Tied(c, Evac(c, e, m, l, j, n), h0) && Touches(e, Evac(c, e, m, l, j, n), l)
    decreases n - j
  {
    if j < n && j < |e.heap[l].fields| {
      VisitTied(c, e, m, h0, l, j);
      VisitTouches(c, e, m, l, j);
      var e1 := Visit(c, e, m, l, j);
      EvacTied(c, e1, m, h0, l, j + 1, n);
      TouchesThen(e, e1, Evac(c, e1, m, l, j + 1, n), l);
    }
  }

  lemma {:induction false} EvacScans(c: Cfg, e: Eng, m: Mode, h0: Heap, l: Loc, j: nat, n: nat)
    requires Tied(c, e, h0) && l in e.heap && n == |e.heap[l].fields|
    ensures var e' := Evac(c, e, m, l, j, n);
            l in e'.heap && Scanned(c, m, e.heap[l], e'.heap[l], j, n, e'.hit)
    decreases n - j
  {
    if j < n {
      VisitTied(c, e, m, h0, l, j);
      VisitScans(c, e, m, h0, l, j);
      var e1 := Visit(c, e, m, l, j);
      EvacScans(c, e1, m, h0, l, j + 1, n);
      EvacTied(c, e1, m, h0, l, j + 1, n);
      var e2 := Evac(c, e1, m, l, j + 1, n);
      ScannedThen(c, m, e.heap[l], e1.heap[l], e2.heap[l], j, n, e1.hit, e2.hit);
    }
  }

  // ----- what a pass takes: places, and words

  /** Objects still to copy and places made: a copy moves one from one side to the other. */
  ghost function Places(c: Cfg, e: Eng): (n: int) { |c.objs| - |e.fwd| + e.tn + e.sn }

  /** The words of the objects at ks. */
  ghost function Words(h: Heap, ks: set<Loc>): (n: nat)
    requires ks <= h.Keys
    decreases |ks|
  {
    if ks == {} then 0 else
      var k :| k in ks;
      h[k].Size() + Words(h, ks - {k})
  }

  lemma {:induction false} WordsMinus(h: Heap, ks: set<Loc>, k: Loc)
    requires ks <= h.Keys && k in ks
    ensures Words(h, ks) == h[k].Size() + Words(h, ks - {k})
    decreases |ks|
  {
    var i :| i in ks && Words(h, ks) == h[i].Size() + Words(h, ks - {i});
    if i != k {
      WordsMinus(h, ks - {i}, k);
      WordsMinus(h, ks - {k}, i);
      assert ks - {i} - {k} == ks - {k} - {i};
    }
  }

  /** The words given out and the words that may still be: a copy moves its own from one to the other. */
  ghost function Room(c: Cfg, e: Eng): (n: nat) {
    e.tused + e.sused + Words(c.objs, c.objs.Keys - e.fwd.Keys)
  }

  lemma {:induction false} WordsUnion(h: Heap, ks: set<Loc>, js: set<Loc>)
    requires ks <= h.Keys && js <= h.Keys && ks !! js
    ensures Words(h, ks + js) == Words(h, ks) + Words(h, js)
    decreases |ks|
  {
    if ks == {} {
      assert ks + js == js;
    } else {
      var k :| k in ks;
      WordsMinus(h, ks, k);
      WordsMinus(h, ks + js, k);
      assert ks + js - {k} == (ks - {k}) + js;
      WordsUnion(h, ks - {k}, js);
    }
  }

  lemma CopyWords(c: Cfg, f: map<Loc, Loc>, l: Loc, p: Loc)
    requires l in c.objs && l !in f
    ensures |f[l := p]| == |f| + 1
    ensures Words(c.objs, c.objs.Keys - f.Keys) == c.objs[l].Size() + Words(c.objs, c.objs.Keys - f[l := p].Keys)
  {
    var k := c.objs.Keys - f.Keys;
    WordsMinus(c.objs, k, l);
    assert c.objs.Keys - f[l := p].Keys == k - {l};
  }

  lemma {:induction false} WordsSame(h: Heap, h': Heap, ks: set<Loc>)
    requires ks <= h.Keys && ks <= h'.Keys && forall k :: k in ks ==> h'[k].Size() == h[k].Size()
    ensures Words(h', ks) == Words(h, ks)
    decreases |ks|
  {
    if ks != {} {
      var k :| k in ks;
      WordsMinus(h, ks, k);
      WordsMinus(h', ks, k);
      WordsSame(h, h', ks - {k});
    }
  }

  /** The places of a block. */
  ghost function Of(h: Heap, b: nat): (ks: set<Loc>) { set l | l in h && l.block == b }

  /** The counts of words are the words of the objects there, and the survivors fit their block. */
  ghost predicate Metered(c: Cfg, e: Eng) {
    && e.tused == Words(e.heap, Of(e.heap, c.tid))
    && (c.hasS ==> e.sused == Words(e.heap, Of(e.heap, c.sid)))
    && e.sused <= c.scap
  }

  lemma WordsPlus(h: Heap, p: Loc, o: Obj, b: nat)
    requires p !in h
    ensures Words(h[p := o], Of(h[p := o], b)) == Words(h, Of(h, b)) + (if p.block == b then o.Size() else 0)
  {
    var h', ks, ks' := h[p := o], Of(h, b), Of(h[p := o], b);
    if p.block == b {
      assert ks' - {p} == ks;
      WordsMinus(h', ks', p);
    } else {
      assert ks' == ks;
    }
    WordsSame(h, h', ks);
  }

  lemma CopyMetered(c: Cfg, e: Eng, m: Mode, l: Loc)
    requires Blocks(c, e) && Metered(c, e) && l in c.objs && l !in e.fwd
    ensures Metered(c, Copy(c, e, m, l))
  {
    CopyBlocks(c, e, m, l);
    var p := Place(c, e, m, l);
    WordsPlus(e.heap, p, c.objs[l], c.tid);
    WordsPlus(e.heap, p, c.objs[l], c.sid);
  }

  lemma SetMetered(c: Cfg, e: Eng, l: Loc, j: nat, w: Word)
    requires Metered(c, e)
    ensures Metered(c, e.(heap := SetField(e.heap, l, j, w)))
  {
    var h' := SetField(e.heap, l, j, w);
    assert Of(h', c.tid) == Of(e.heap, c.tid) && Of(h', c.sid) == Of(e.heap, c.sid);
    WordsSame(e.heap, h', Of(e.heap, c.tid));
    WordsSame(e.heap, h', Of(e.heap, c.sid));
  }

  lemma GcpTakes(c: Cfg, e: Eng, m: Mode, w: Word)
    requires Blocks(c, e) && Metered(c, e)
    ensures var e' := Gcp(c, e, m, w);
            Places(c, e') == Places(c, e) && Room(c, e') == Room(c, e) && Metered(c, e')
  {
    if c.From(w) && w.loc !in e.fwd {
      CopyWords(c, e.fwd, w.loc, Place(c, e, m, w.loc));
      CopyMetered(c, e, m, w.loc);
      CopyTakes(c, e, m, w.loc);
    }
  }

  lemma CopyTakes(c: Cfg, e: Eng, m: Mode, l: Loc)
    requires l in c.objs && l !in e.fwd
    ensures Places(c, Copy(c, e, m, l)) == Places(c, e) && Room(c, Copy(c, e, m, l)) == Room(c, e)
  {
    CopyWords(c, e.fwd, l, Place(c, e, m, l));
  }

  lemma {:induction false} EvacTakes(c: Cfg, e: Eng, m: Mode, h0: Heap, l: Loc, j: nat, n: nat)
    requires Tied(c, e, h0) && l in e.heap && Metered(c, e)
    ensures var e' := Evac(c, e, m, l, j, n);
            Places(c, e') == Places(c, e) && Room(c, e') == Room(c, e) && Metered(c, e')
    decreases n - j
  {
    if j < n && j < |e.heap[l].fields| {
      var w := e.heap[l].fields[j];
      var e1 := Gcp(c, e, m, w);
      GcpTakes(c, e, m, w);
      SetMetered(c, e1, l, j, Move(e1.fwd, w));
      VisitTied(c, e, m, h0, l, j);
      VisitTouches(c, e, m, l, j);
      EvacTakes(c, Visit(c, e, m, l, j), m, h0, l, j + 1, n);
    }
  }

  lemma CardLe<T>(s: set<T>, t: set<T>)
    requires s <= t
    ensures |s| <= |t|
    decreases |s|
  {
    if s != {} {
      var x :| x in s;
      CardLe(s - {x}, t - {x});
    }
  }

  /** Every place made is one of the count's. */
  lemma PlacesBound(c: Cfg, e: Eng)
    requires Blocks(c, e)
    ensures e.tn + e.sn <= Places(c, e)
  {
    CardLe(e.fwd.Keys, c.objs.Keys);
    assert |e.fwd| == |e.fwd.Keys| && |c.objs| == |c.objs.Keys|;
  }
}
