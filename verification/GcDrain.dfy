/** The cheney drain of src/love/gc.c: what every turn of it keeps, as facts about values. */
module GcDrain {
  import opened GcHeap
  import opened GcEngine
  import opened GcRemember

  ghost predicate CleanObj(c: Cfg, o: Obj) {
    forall j :: 0 <= j < |o.fields| ==> !c.From(o.fields[j])
  }

  /** The tenured objects below n hold nothing of the from-space. */
  ghost predicate CleanT(c: Cfg, e: Eng, n: nat) {
    forall l :: l in e.heap && l.block == c.tid && l.at < n ==> CleanObj(c, e.heap[l])
  }

  /** The survivors below n hold nothing of the from-space. */
  ghost predicate CleanS(c: Cfg, e: Eng, n: nat) {
    forall l :: l in e.heap && c.hasS && l.block == c.sid && l.at < n ==> CleanObj(c, e.heap[l])
  }

  /** The tenured objects of lo..hi that hold survivors are remembered, word by word. */
  ghost predicate Remembers(c: Cfg, e: Eng, rem: seq<Entry>, lo: nat, hi: nat) {
    forall l, j ::
      (l in e.heap && l.block == c.tid && lo <= l.at < hi && 0 <= j < |e.heap[l].fields| && c.InS(e.heap[l].fields[j]))
      ==> Covered(rem, l.at, j)
  }

  /** What the drain keeps: scanned up to tcp and scp. Below scan the remembered set is complete; above
      it is while nothing was missed and the survivors' block has not run out. */
  ghost predicate Draining(c: Cfg, e: Eng, rs: RemSet, h0: Heap, scan: nat, tcp: nat, scp: nat) {
    && Tied(c, e, h0) && rs.Valid()
    && scan <= tcp <= e.tn && scp <= e.sn && Within(rs.rem, e.tn)
    && CleanT(c, e, tcp) && CleanS(c, e, scp)
    && Remembers(c, e, rs.rem, 0, scan)
    && (rs.miss == 0 && !e.over ==> Remembers(c, e, rs.rem, scan, tcp))
  }

  // ----- a scan elsewhere changes none of it

  /** The same objects below tenured n and survivor k, but for new ones above. */
  ghost predicate SameT(c: Cfg, e: Eng, e': Eng, n: nat) {
    forall l :: l in e'.heap && l.block == c.tid && l.at < n ==> l in e.heap && e'.heap[l] == e.heap[l]
  }

  ghost predicate SameS(c: Cfg, e: Eng, e': Eng, n: nat) {
    forall l :: l in e'.heap && c.hasS && l.block == c.sid && l.at < n ==> l in e.heap && e'.heap[l] == e.heap[l]
  }

  lemma SameBelow(c: Cfg, e: Eng, e': Eng, k: Loc, n: nat, p: nat)
    requires Blocks(c, e) && Blocks(c, e') && Touches(e, e', k) && n <= e.tn && p <= e.sn
    ensures (k.block == c.tid ==> n <= k.at) ==> SameT(c, e, e', n)
    ensures (c.hasS && k.block == c.sid ==> p <= k.at) ==> SameS(c, e, e', p)
  {
  }

  lemma SameClean(c: Cfg, e: Eng, e': Eng, n: nat, p: nat)
    ensures SameT(c, e, e', n) && CleanT(c, e, n) ==> CleanT(c, e', n)
    ensures SameS(c, e, e', p) && CleanS(c, e, p) ==> CleanS(c, e', p)
  {
  }

  lemma SameRemembers(c: Cfg, e: Eng, e': Eng, rem: seq<Entry>, rem': seq<Entry>, lo: nat, hi: nat, n: nat)
    requires SameT(c, e, e', n) && hi <= n && Remembers(c, e, rem, lo, hi)
    requires forall i, j :: Covered(rem, i, j) ==> Covered(rem', i, j)
    ensures Remembers(c, e', rem', lo, hi)
  {
  }

  lemma OneMoreT(c: Cfg, e: Eng, n: nat)
    requires CleanT(c, e, n) && Loc(c.tid, n) in e.heap && CleanObj(c, e.heap[Loc(c.tid, n)])
    ensures CleanT(c, e, n + 1)
  {
  }

  lemma OneMoreS(c: Cfg, e: Eng, n: nat)
    requires CleanS(c, e, n) && Loc(c.sid, n) in e.heap && CleanObj(c, e.heap[Loc(c.sid, n)])
    ensures CleanS(c, e, n + 1)
  {
  }

  lemma OneMoreRemembered(c: Cfg, e: Eng, rem: seq<Entry>, lo: nat, n: nat)
    requires Remembers(c, e, rem, lo, n)
    requires Loc(c.tid, n) in e.heap
    requires var o := e.heap[Loc(c.tid, n)];
             forall j :: 0 <= j < |o.fields| && c.InS(o.fields[j]) ==> Covered(rem, n, j)
    ensures Remembers(c, e, rem, lo, n + 1)
  {
  }

  /** A survivor scanned. */
  lemma SurvivorTurn(c: Cfg, e: Eng, e': Eng, rs: RemSet, h0: Heap, scan: nat, tcp: nat, scp: nat)
    requires Draining(c, e, rs, h0, scan, tcp, scp) && c.hasS && scp < e.sn
    requires Tied(c, e', h0) && Touches(e, e', Loc(c.sid, scp))
    requires Loc(c.sid, scp) in e'.heap && CleanObj(c, e'.heap[Loc(c.sid, scp)])
    ensures Draining(c, e', rs, h0, scan, tcp, scp + 1)
  {
    SameBelow(c, e, e', Loc(c.sid, scp), tcp, scp);
    SameClean(c, e, e', tcp, scp);
    OneMoreS(c, e', scp);
    SameRemembers(c, e, e', rs.rem, rs.rem, 0, scan, tcp);
    if rs.miss == 0 && !e'.over { SameRemembers(c, e, e', rs.rem, rs.rem, scan, tcp, tcp); }
  }

  /** The state after a survivor's turn. */
  function SurvivorNext(c: Cfg, e: Eng, scp: nat): (r: Eng) {
    var l := Loc(c.sid, scp);
    Evac(c, e, Mode(false, false), l, 0, if l in e.heap then |e.heap[l].fields| else 0)
  }

  lemma DrainSurvivor(c: Cfg, e: Eng, rs: RemSet, h0: Heap, scan: nat, tcp: nat, scp: nat)
    requires Draining(c, e, rs, h0, scan, tcp, scp) && c.hasS && scp < e.sn
    ensures Draining(c, SurvivorNext(c, e, scp), rs, h0, scan, tcp, scp + 1)
  {
    var l := Loc(c.sid, scp);
    var m, n := Mode(false, false), |e.heap[l].fields|;
    EvacTied(c, e, m, h0, l, 0, n);
    EvacScans(c, e, m, h0, l, 0, n);
    SurvivorTurn(c, e, Evac(c, e, m, l, 0, n), rs, h0, scan, tcp, scp);
  }

  /** A tenured object scanned, its place remembered where it was left with a survivor, but past an
      overflow. */
  lemma TenuredTurn(c: Cfg, e: Eng, e': Eng, rs: RemSet, rs': RemSet, h0: Heap, scan: nat, tcp: nat, scp: nat)
    requires Draining(c, e, rs, h0, scan, tcp, scp) && tcp < e.tn
    requires Tied(c, e', h0) && Touches(e, e', Loc(c.tid, tcp))
    requires Loc(c.tid, tcp) in e'.heap && CleanObj(c, e'.heap[Loc(c.tid, tcp)])
    requires Within(rs'.rem, e'.tn)
    requires rs'.Valid() && rs.miss <= rs'.miss && forall i, j :: Covered(rs.rem, i, j) ==> Covered(rs'.rem, i, j)
    requires var o := e'.heap[Loc(c.tid, tcp)];
             rs'.miss == 0 && !e'.over ==>
               forall j :: 0 <= j < |o.fields| && c.InS(o.fields[j]) ==> Covered(rs'.rem, tcp, j)
    ensures Draining(c, e', rs', h0, scan, tcp + 1, scp)
  {
    SameBelow(c, e, e', Loc(c.tid, tcp), tcp, scp);
    SameClean(c, e, e', tcp, scp);
    OneMoreT(c, e', tcp);
    SameRemembers(c, e, e', rs.rem, rs'.rem, 0, scan, tcp);
    if rs'.miss == 0 && !e'.over {
      SameRemembers(c, e, e', rs.rem, rs'.rem, scan, tcp, tcp);
      OneMoreRemembered(c, e', rs'.rem, scan, tcp);
    }
  }

  lemma HitReset(c: Cfg, e: Eng, rs: RemSet, h0: Heap, scan: nat, tcp: nat, scp: nat)
    requires Draining(c, e, rs, h0, scan, tcp, scp)
    ensures Draining(c, e.(hit := false), rs, h0, scan, tcp, scp)
  {
    var e0 := e.(hit := false);
    assert SameT(c, e, e0, tcp) && SameS(c, e, e0, scp);
    SameClean(c, e, e0, tcp, scp);
    SameRemembers(c, e, e0, rs.rem, rs.rem, 0, scan, tcp);
    if rs.miss == 0 && !e.over { SameRemembers(c, e, e0, rs.rem, rs.rem, scan, tcp, tcp); }
  }

  /** The state after a tenured object's turn. */
  function TenuredNext(c: Cfg, e: Eng, tcp: nat): (r: Eng) {
    var l := Loc(c.tid, tcp);
    Evac(c, e.(hit := false), Mode(c.hasS, c.hasS), l, 0, if l in e.heap then |e.heap[l].fields| else 0)
  }

  function TenuredRem(e': Eng, rs: RemSet, tcp: nat, h: nat): (r: RemSet)
    requires rs.Valid() && h < IX
  {
    if e'.hit && !e'.over then Remember(rs, Entry(tcp, 0), h) else rs
  }

  lemma TenuredScan(c: Cfg, e: Eng, h0: Heap, tcp: nat)
    requires Tied(c, e, h0) && Loc(c.tid, tcp) in e.heap
    ensures var e' := TenuredNext(c, e, tcp); var l := Loc(c.tid, tcp);
            && Tied(c, e', h0) && Touches(e.(hit := false), e', l) && CleanObj(c, e'.heap[l])
            && forall j :: 0 <= j < |e'.heap[l].fields| && c.InS(e'.heap[l].fields[j]) ==> e'.hit
  {
    var l := Loc(c.tid, tcp);
    var m, n := Mode(c.hasS, c.hasS), |e.heap[l].fields|;
    EvacTied(c, e.(hit := false), m, h0, l, 0, n);
    EvacScans(c, e.(hit := false), m, h0, l, 0, n);
  }

  lemma TenuredRemCovers(e': Eng, rs: RemSet, tcp: nat, h: nat, n: nat)
    requires rs.Valid() && h < IX && Within(rs.rem, n) && tcp < n
    ensures var rs' := TenuredRem(e', rs, tcp, h);
            && rs'.Valid() && rs.miss <= rs'.miss && Within(rs'.rem, n)
            && (forall i, j :: Covered(rs.rem, i, j) ==> Covered(rs'.rem, i, j))
            && (e'.hit && !e'.over && rs'.miss == 0 ==> forall j :: 0 <= j ==> Covered(rs'.rem, tcp, j))
  {
    RememberCovers(rs, Entry(tcp, 0), h);
  }

  lemma DrainTenured(c: Cfg, e: Eng, rs: RemSet, h0: Heap, scan: nat, tcp: nat, scp: nat, h: nat)
    requires Draining(c, e, rs, h0, scan, tcp, scp) && tcp < e.tn && h < IX
    ensures var e' := TenuredNext(c, e, tcp);
            Draining(c, e', TenuredRem(e', rs, tcp, h), h0, scan, tcp + 1, scp)
  {
    var e' := TenuredNext(c, e, tcp);
    HitReset(c, e, rs, h0, scan, tcp, scp);
    TenuredScan(c, e, h0, tcp);
    TenuredRemCovers(e', rs, tcp, h, e'.tn);
    TenuredTurn(c, e.(hit := false), e', rs, TenuredRem(e', rs, tcp, h), h0, scan, tcp, scp);
  }

  // ----- a second drive

  /** The same pass, but for the flag that a tenured object was left with a survivor. */
  ghost predicate SameButHit(e: Eng, e': Eng) { e' == e.(hit := e'.hit) }

  /** A word outside the from-space comes to itself. */
  lemma CleanMeets(c: Cfg, e: Eng, m: Mode, w: Word)
    requires Blocks(c, e) && !c.From(w)
    ensures SameButHit(e, Gcp(c, e, m, w)) && Move(Gcp(c, e, m, w).fwd, w) == w
  {
  }

  lemma {:induction false} CleanScans(c: Cfg, e: Eng, m: Mode, l: Loc, j: nat, n: nat)
    requires Blocks(c, e) && l in e.heap && CleanObj(c, e.heap[l])
    ensures SameButHit(e, Evac(c, e, m, l, j, n))
    decreases n - j
  {
    if j < n && j < |e.heap[l].fields| {
      var w := e.heap[l].fields[j];
      CleanMeets(c, e, m, w);
      var e1 := Visit(c, e, m, l, j);
      assert e.heap[l].fields[j := w] == e.heap[l].fields;
      assert SetField(e.heap, l, j, w) == e.heap;
      CleanScans(c, e1, m, l, j + 1, n);
    }
  }

  predicate HoldsS(c: Cfg, o: Obj) { exists j :: 0 <= j < |o.fields| && c.InS(o.fields[j]) }

  /** A scan of an object already scanned says whether it holds a survivor. */
  lemma {:induction false} CleanHits(c: Cfg, e: Eng, m: Mode, l: Loc, j: nat, n: nat)
    requires Blocks(c, e) && l in e.heap && CleanObj(c, e.heap[l]) && n == |e.heap[l].fields|
    ensures Evac(c, e, m, l, j, n).hit <==> e.hit || (m.inOld && exists i :: j <= i < n && c.InS(e.heap[l].fields[i]))
    decreases n - j
  {
    if j < n {
      var w := e.heap[l].fields[j];
      CleanMeets(c, e, m, w);
      var e1 := Visit(c, e, m, l, j);
      assert e.heap[l].fields[j := w] == e.heap[l].fields;
      assert SetField(e.heap, l, j, w) == e.heap;
      CleanHits(c, e1, m, l, j + 1, n);
    }
  }

  /** What a drain over scanned objects from t up to n comes to remember. */
  function Again(c: Cfg, h: Heap, hash: Entry -> nat, rs: RemSet, t: nat, n: nat): (r: RemSet)
    requires rs.Valid()
    ensures r.Valid()
    decreases n - t
  {
    if t >= n then rs else Again(c, h, hash, AgainOne(c, h, hash, rs, t), t + 1, n)
  }

  function AgainOne(c: Cfg, h: Heap, hash: Entry -> nat, rs: RemSet, t: nat): (r: RemSet)
    requires rs.Valid()
    ensures r.Valid()
  {
    if Loc(c.tid, t) in h && HoldsS(c, h[Loc(c.tid, t)]) then Remember(rs, Entry(t, 0), hash(Entry(t, 0)) % IX) else rs
  }

  /** Every tenured object of lo..hi that holds a survivor is known to its own probe. */
  ghost predicate AllKnown(c: Cfg, h: Heap, hash: Entry -> nat, rs: RemSet, lo: nat, hi: nat)
    requires rs.Valid()
  {
    forall t :: lo <= t < hi && Loc(c.tid, t) in h && HoldsS(c, h[Loc(c.tid, t)]) ==> Knows(rs, Entry(t, 0), hash)
  }

  lemma {:induction false} AgainGrows(c: Cfg, h: Heap, hash: Entry -> nat, rs: RemSet, t: nat, n: nat)
    requires rs.Valid()
    ensures var r := Again(c, h, hash, rs, t, n); rs.rem <= r.rem && rs.miss <= r.miss
    decreases n - t
  {
    if t < n {
      RememberLeaves(rs, Entry(t, 0), hash(Entry(t, 0)) % IX);
      AgainGrows(c, h, hash, AgainOne(c, h, hash, rs, t), t + 1, n);
    }
  }

  /** It leaves the remembered set as it was just where every such object is known; and the count of entries
      just there, or where the set is full. */
  lemma {:induction false} AgainLeaves(c: Cfg, h: Heap, hash: Entry -> nat, rs: RemSet, t: nat, n: nat)
    requires rs.Valid()
    ensures var r := Again(c, h, hash, rs, t, n);
            && (r == rs <==> AllKnown(c, h, hash, rs, t, n))
            && (|r.rem| == |rs.rem| <==> |rs.rem| == CAP || AllKnown(c, h, hash, rs, t, n))
    decreases n - t
  {
    if t < n {
      var r1 := AgainOne(c, h, hash, rs, t);
      RememberLeaves(rs, Entry(t, 0), hash(Entry(t, 0)) % IX);
      AgainLeaves(c, h, hash, r1, t + 1, n);
      AgainGrows(c, h, hash, r1, t + 1, n);
      if r1 == rs {
        assert AllKnown(c, h, hash, rs, t, n) <==> AllKnown(c, h, hash, rs, t + 1, n);
      } else {
        assert !Knows(rs, Entry(t, 0), hash);
      }
    }
  }
}
