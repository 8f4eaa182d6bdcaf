/** The remembered set of src/love/gc.c: tenured places that may hold young pointers, found again
    through a hash index; a set that is full counts a miss instead. */
module GcRemember {

  /** A tenured object, by its place in the block, and the first of its words that is remembered: an
      object's start, or a thread's or a scope's cell. */
  datatype Entry = Entry(at: nat, off: nat)

  /** LvRemCap, LvRemIx; the probes gen_remember makes; the index's empty mark. */
  const CAP: nat := 16384
  const IX: nat := 65536
  const PROBES: nat := 16
  const NONE: nat := 65535

  datatype RemSet = RemSet(rem: seq<Entry>, ix: seq<nat>, miss: nat) {
    ghost predicate Valid() { |rem| <= CAP && |ix| == IX }
  }

  function Cleared(rs: RemSet): (r: RemSet) {
    RemSet([], seq(IX, i => NONE), rs.miss)
  }

  datatype Found = Known | Free(slot: nat) | Lost

  /** The probe from h with k tries left: the entry itself, a free slot, or neither. */
  function Probe(rs: RemSet, e: Entry, h: nat, k: nat): (r: Found)
    requires rs.Valid() && h < IX
    ensures r.Known? ==> e in rs.rem
    ensures r.Free? ==> r.slot < IX
    decreases k
  {
    if k == 0 then Lost
    else if rs.ix[h] >= |rs.rem| then Free(h)
    else if rs.rem[rs.ix[h]] == e then Known
    else Probe(rs, e, (h + 1) % IX, k - 1)
  }

  /** gen_remember. */
  function Remember(rs: RemSet, e: Entry, h: nat): (r: RemSet)
    requires rs.Valid() && h < IX
    ensures r.Valid()
  { RememberBy(rs, e, h, PROBES) }

  function RememberBy(rs: RemSet, e: Entry, h: nat, k: nat): (r: RemSet)
    requires rs.Valid() && h < IX
    ensures r.Valid()
  {
    match Probe(rs, e, h, k)
    case Known => rs
    case Free(slot) =>
      if |rs.rem| < CAP then RemSet(rs.rem + [e], rs.ix[slot := |rs.rem|], rs.miss) else rs.(miss := rs.miss + 1)
    case Lost =>
      if |rs.rem| < CAP then rs.(rem := rs.rem + [e]) else rs.(miss := rs.miss + 1)
  }

  /** Word j of the tenured object at place i is under some entry. */
  ghost predicate Covered(rem: seq<Entry>, i: nat, j: nat) {
    exists k :: 0 <= k < |rem| && rem[k].at == i && rem[k].off <= j
  }

  /** Every entry is of an object below n. */
  ghost predicate Within(rem: seq<Entry>, n: nat) {
    forall q :: 0 <= q < |rem| ==> rem[q].at < n
  }

  /** The entry is in, perhaps twice, or the set was full and says so. Nothing already in is lost, and no more
      than one entry comes. */
  lemma RememberCovers(rs: RemSet, e: Entry, h: nat)
    requires rs.Valid() && h < IX
    ensures var r := Remember(rs, e, h);
            && rs.rem <= r.rem && |r.rem| <= |rs.rem| + 1 && rs.miss <= r.miss
            && (forall i, j :: Covered(rs.rem, i, j) ==> Covered(r.rem, i, j))
            && (r.miss == rs.miss ==> forall j :: e.off <= j ==> Covered(r.rem, e.at, j))
            && (|rs.rem| < CAP ==> r.miss == rs.miss)
            && (forall n :: Within(rs.rem, n) && e.at < n ==> Within(r.rem, n))
  {
    var r := Remember(rs, e, h);
    forall i, j | Covered(rs.rem, i, j) ensures Covered(r.rem, i, j) {
      var k :| 0 <= k < |rs.rem| && rs.rem[k].at == i && rs.rem[k].off <= j;
      assert r.rem[k] == rs.rem[k];
    }
    if r.miss == rs.miss {
      assert e in r.rem;
      var k :| 0 <= k < |r.rem| && r.rem[k] == e;
      forall j: nat | e.off <= j ensures Covered(r.rem, e.at, j) {
        assert r.rem[k].off <= j;
      }
    }
  }

  // ----- what the probe knows

  /** An entry is known where a probe from its own hash finds it. */
  predicate Knows(rs: RemSet, e: Entry, hash: Entry -> nat)
    requires rs.Valid()
  { Probe(rs, e, hash(e) % IX, PROBES).Known? }

  /** Just a known entry leaves the set as it was; just a known one, or a full set, the count. */
  lemma RememberLeaves(rs: RemSet, e: Entry, h: nat)
    requires rs.Valid() && h < IX
    ensures var r, known := Remember(rs, e, h), Probe(rs, e, h, PROBES).Known?;
            && (r == rs <==> known)
            && (|r.rem| == |rs.rem| <==> known || |rs.rem| == CAP)
            && rs.rem <= r.rem && rs.miss <= r.miss
  {
  }

  /** What the index held is as it was, and the set is larger by no more than it says. */
  ghost predicate Grew(rs: RemSet, r: RemSet) {
    && rs.rem <= r.rem && |r.ix| == |rs.ix|
    && forall i :: 0 <= i < |rs.ix| && rs.ix[i] < |rs.rem| ==> r.ix[i] == rs.ix[i]
  }

  lemma {:induction false} KnownGrows(rs: RemSet, r: RemSet, e: Entry, h: nat, k: nat)
    requires rs.Valid() && r.Valid() && Grew(rs, r) && h < IX && Probe(rs, e, h, k).Known?
    ensures Probe(r, e, h, k).Known?
    decreases k
  {
    if rs.rem[rs.ix[h]] != e { KnownGrows(rs, r, e, (h + 1) % IX, k - 1); }
  }

  lemma {:induction false} FreeKnown(rs: RemSet, e: Entry, h: nat, k: nat, slot: nat)
    requires rs.Valid() && |rs.rem| < CAP && h < IX && Probe(rs, e, h, k) == Free(slot)
    ensures Probe(RemSet(rs.rem + [e], rs.ix[slot := |rs.rem|], rs.miss), e, h, k).Known?
    decreases k
  {
    if rs.ix[h] < |rs.rem| { FreeKnown(rs, e, (h + 1) % IX, k - 1, slot); }
  }

  lemma {:induction false} LostStays(rs: RemSet, r: RemSet, e: Entry, h: nat, k: nat)
    requires rs.Valid() && r.Valid() && Grew(rs, r) && h < IX && Probe(rs, e, h, k).Lost?
    ensures Probe(r, e, h, k).Lost?
    decreases k
  {
    if k > 0 { LostStays(rs, r, e, (h + 1) % IX, k - 1); }
  }

  lemma RememberGrew(rs: RemSet, e: Entry, h: nat, k: nat)
    requires rs.Valid() && h < IX
    ensures Grew(rs, RememberBy(rs, e, h, k))
  {
    if Probe(rs, e, h, k).Free? { FreeIs(rs, e, h, k); }
  }

  lemma {:induction false} FreeIs(rs: RemSet, e: Entry, h: nat, k: nat)
    requires rs.Valid() && h < IX && Probe(rs, e, h, k).Free?
    ensures rs.ix[Probe(rs, e, h, k).slot] >= |rs.rem|
    decreases k
  {
    if rs.ix[h] < |rs.rem| { FreeIs(rs, e, (h + 1) % IX, k - 1); }
  }

  /** An entry once known stays so, whatever is remembered after; and one just remembered is known unless its
      probe ran out of tries or the set was full. */
  lemma RememberKnows(rs: RemSet, e: Entry, h: nat, d: Entry, g: nat, k: nat)
    requires rs.Valid() && h < IX && g < IX
    ensures Probe(rs, d, g, k).Known? ==> Probe(RememberBy(rs, e, h, k), d, g, k).Known?
    ensures Probe(RememberBy(rs, e, h, k), e, h, k).Known?
            <==> Probe(rs, e, h, k).Known? || (Probe(rs, e, h, k).Free? && |rs.rem| < CAP)
  {
    var r := RememberBy(rs, e, h, k);
    RememberGrew(rs, e, h, k);
    if Probe(rs, d, g, k).Known? { KnownGrows(rs, r, d, g, k); }
    match Probe(rs, e, h, k)
    case Known =>
    case Free(slot) =>
      if |rs.rem| < CAP { FreeKnown(rs, e, h, k, slot); } else { SameProbe(rs, r, e, h, k); }
    case Lost =>
      LostStays(rs, r, e, h, k);
  }

  lemma {:induction false} SameProbe(rs: RemSet, r: RemSet, e: Entry, h: nat, k: nat)
    requires rs.Valid() && r.Valid() && h < IX && r.rem == rs.rem && r.ix == rs.ix
    ensures Probe(r, e, h, k) == Probe(rs, e, h, k)
    decreases k
  {
    if k > 0 { SameProbe(rs, r, e, (h + 1) % IX, k - 1); }
  }

  // ----- a crowded index

  /** The places 0..n remembered one after another, all of one hash, by k probes. */
  function Crowd(n: nat, k: nat): (rs: RemSet)
    ensures rs.Valid()
  { if n == 0 then Cleared(RemSet([], [], 0)) else RememberBy(Crowd(n - 1, k), Entry(n - 1, 0), 0, k) }

  lemma {:induction false} ProbeCrowd(rs: RemSet, e: Entry, h: nat, n: nat, k: nat)
    requires rs.Valid() && h <= n <= k && n < IX && |rs.rem| <= NONE
    requires forall i :: 0 <= i < n ==> rs.ix[i] < |rs.rem| && rs.rem[rs.ix[i]] != e
    ensures Probe(rs, e, h, k - h) == Probe(rs, e, n, k - n)
    decreases n - h
  {
    if h < n { ProbeCrowd(rs, e, h + 1, n, k); }
  }

  lemma {:induction false} CrowdIs(n: nat, k: nat)
    requires n <= k < CAP
    ensures var rs := Crowd(n, k);
            && |rs.rem| == n && (forall i :: 0 <= i < n ==> rs.rem[i] == Entry(i, 0) && rs.ix[i] == i)
            && forall i :: n <= i < IX ==> rs.ix[i] == NONE
  {
    if n > 0 {
      CrowdIs(n - 1, k);
      ProbeCrowd(Crowd(n - 1, k), Entry(n - 1, 0), 0, n - 1, k);
    }
  }

  /** Every slot the probe may try is another's: the entry goes in, but not into the index. */
  lemma LostAdds(rs: RemSet, e: Entry, k: nat)
    requires rs.Valid() && |rs.rem| < CAP && k < CAP
    requires forall i :: 0 <= i < k ==> rs.ix[i] < |rs.rem| && rs.rem[rs.ix[i]] != e
    ensures RememberBy(rs, e, 0, k) == rs.(rem := rs.rem + [e])
  {
    ProbeCrowd(rs, e, 0, k, k);
  }

  /** A place past the probes, whose number is k, is in the set but not known: remembered again it is entered
      twice. */
  lemma EnteredTwice(k: nat)
    requires k + 1 < CAP
    ensures var rs, e := Crowd(k + 1, k), Entry(k, 0);
            e in rs.rem && |RememberBy(rs, e, 0, k).rem| == |rs.rem| + 1
  {
    var rs, e := Crowd(k, k), Entry(k, 0);
    CrowdIs(k, k);
    LostAdds(rs, e, k);
    var rs1 := rs.(rem := rs.rem + [e]);
    assert rs1.rem[k] == e;
    LostAdds(rs1, e, k);
  }
}
