/** The first-fit free list of src/inle/ffalloc.h on values. Addresses and lengths are in words, a
    block's header word included; the body starts one word past the header. */
module FreeList {

  datatype Block = Block(at: nat, len: nat) {
    function End(): (e: nat) { at + len }
    predicate Has(x: nat) { at <= x < End() }
  }

  /** The words of a list of blocks. */
  ghost predicate Covers(fl: seq<Block>, x: nat) {
    exists i :: 0 <= i < |fl| && fl[i].Has(x)
  }

  /** Address order, two words at least each, no two touching: maximal runs. */
  ghost predicate Canonical(fl: seq<Block>) {
    && (forall i :: 0 <= i < |fl| ==> fl[i].at > 0 && fl[i].len >= 2)
    && (forall i, j :: 0 <= i < j < |fl| ==> fl[i].End() < fl[j].at)
  }

  // ----- ff_fit

  /** With its header at h a body of n words starts at a multiple of a and lies in t; below h is nothing, or room
      for a block. */
  ghost predicate Placement(t: Block, n: nat, a: nat, h: nat)
    requires a >= 1
  {
    && t.at <= h && h + 1 + n <= t.End()
    && (h + 1) % a == 0
    && h - t.at != 1
  }

  /** Quotient and remainder are the only ones. */
  lemma DivUnique(x: int, a: nat, q: int, r: int)
    requires a >= 1 && x == a * q + r && 0 <= r < a
    ensures x / a == q && x % a == r
  {
    SameQuotient(a, q, r, x / a, x % a);
  }

  lemma SameQuotient(a: nat, q: int, r: int, q': int, r': int)
    requires 0 <= r < a && 0 <= r' < a && a * q + r == a * q' + r'
    ensures q == q' && r == r'
  {
    assert a * (q - q') == r' - r && a * (q' - q) == r - r';
    if q > q' { MulAtLeast(a, q - q'); }
    if q < q' { MulAtLeast(a, q' - q); }
  }

  lemma MulAtLeast(a: nat, d: nat)
    requires d >= 1
    ensures a * d >= a
  {
  }

  function RoundDown(x: int, a: nat): (r: int)
    requires a >= 1
    ensures r % a == 0 && r <= x < r + a
  {
    var q := x / a;
    DivUnique(a * q, a, q, 0);
    a * q
  }

  function RoundUp(x: int, a: nat): (r: int)
    requires a >= 1
    ensures r % a == 0 && r - a < x <= r
  {
    RoundDown(x + a - 1, a)
  }

  /** The header ff_fit answers, 0 where nothing fits. */
  function Fit(t: Block, n: nat, a: nat, top: bool): (h: nat)
    requires a >= 1
  {
    var lo, hi := t.at, t.End();
    if top && hi - lo < n + 1 then 0
    else
      var h0 := if top then RoundDown(hi - n, a) - 1 else RoundUp(lo + 1, a) - 1;
      var h := if h0 - lo != 1 then h0
               else if top then (if a == 1 then lo else h0 - a)
               else h0 + a;
      if lo <= h <= hi && hi - h >= n + 1 then h else 0
  }

  /** Two multiples of a that differ, differ by a at least. */
  lemma Multiples(p: int, q: int, a: nat)
    requires a >= 1 && p % a == 0 && q % a == 0 && p < q
    ensures p + a <= q
  {
    var d := q / a - p / a;
    assert q - p == a * d;
    assert d >= 1;
    MulAtLeast(a, d);
  }

  lemma MultipleShift(p: int, a: nat)
    requires a >= 1 && p % a == 0
    ensures (p - a) % a == 0 && (p + a) % a == 0
  {
    var k := p / a;
    DivUnique(p - a, a, k - 1, 0);
    DivUnique(p + a, a, k + 1, 0);
  }

  /** ff_fit from the top: the highest placement there is, and 0 only where there is none. */
  lemma FitTop(t: Block, n: nat, a: nat, k: nat)
    requires a >= 1 && t.at > 0
    ensures var h := Fit(t, n, a, true);
            && (h != 0 ==> Placement(t, n, a, h))
            && (Placement(t, n, a, k) ==> h != 0 && k <= h)
  {
    var lo, hi := t.at, t.End();
    if hi - lo >= n + 1 {
      var r := RoundDown(hi - n, a);
      MultipleShift(r, a);
      if Placement(t, n, a, k) && k + 1 > r { Multiples(r, k + 1, a); }
      if r - 1 - lo == 1 && Placement(t, n, a, k) && k + 1 < r { Multiples(k + 1, r, a); }
    }
  }

  /** ff_fit from the bottom: the lowest placement there is, and 0 only where there is none. */
  lemma FitBottom(t: Block, n: nat, a: nat, k: nat)
    requires a >= 1 && t.at > 0
    ensures var h := Fit(t, n, a, false);
            && (h != 0 ==> Placement(t, n, a, h))
            && (Placement(t, n, a, k) ==> h != 0 && h <= k)
  {
    var lo := t.at;
    var r := RoundUp(lo + 1, a);
    MultipleShift(r, a);
    if Placement(t, n, a, k) {
      if k + 1 < r { Multiples(k + 1, r, a); }
      if r - 1 - lo == 1 && k + 1 > r { Multiples(r, k + 1, a); }
    }
  }

  // ----- ff_carve

  /** The words an allocation at h takes: a remainder of one word goes with it. */
  function Taken(t: Block, h: nat, n: nat): (u: Block)
    requires t.at <= h && h + n + 1 <= t.End()
    ensures u.at == h && u.len >= n + 1 && u.End() <= t.End()
  {
    var rest := t.End() - h - (n + 1);
    Block(h, if rest < 2 then n + 1 + rest else n + 1)
  }

  /** What is left of t: the words under the block as one run, those over it as another. */
  function Remains(t: Block, h: nat, n: nat): (r: seq<Block>)
    requires t.at <= h && h + n + 1 <= t.End()
  {
    var u := Taken(t, h, n);
    (if h == t.at then [] else [Block(t.at, h - t.at)])
    + (if u.End() == t.End() then [] else [Block(u.End(), t.End() - u.End())])
  }

  function Carve(fl: seq<Block>, i: nat, h: nat, n: nat): (r: seq<Block>)
    requires i < |fl| && fl[i].at <= h && h + n + 1 <= fl[i].End()
  {
    fl[..i] + Remains(fl[i], h, n) + fl[i + 1..]
  }

  lemma RemainsKeep(t: Block, n: nat, a: nat, h: nat)
    requires a >= 1 && n >= 1 && t.at > 0 && Placement(t, n, a, h)
    ensures var r, u := Remains(t, h, n), Taken(t, h, n);
            && Canonical(r)
            && (forall i :: 0 <= i < |r| ==> t.at <= r[i].at && r[i].End() <= t.End())
            && (forall x :: Covers(r, x) <==> t.Has(x) && !u.Has(x))
  {
    var r, u := Remains(t, h, n), Taken(t, h, n);
    forall x: nat | t.Has(x) && !u.Has(x) ensures Covers(r, x) {
      if x < h { assert r[0].Has(x); } else { assert r[|r| - 1].Has(x); }
    }
  }

  lemma CarveKeeps(fl: seq<Block>, i: nat, n: nat, a: nat, h: nat)
    requires Canonical(fl) && i < |fl| && n >= 1 && a >= 1 && Placement(fl[i], n, a, h)
    ensures var r, u := Carve(fl, i, h, n), Taken(fl[i], h, n);
            && Canonical(r)
            && (forall x :: u.Has(x) ==> Covers(fl, x))
            && (forall x :: Covers(r, x) <==> Covers(fl, x) && !u.Has(x))
            && u.len == n + 1 + (if h + n + 2 == fl[i].End() then 1 else 0)
  {
    var t := fl[i];
    var m, u := Remains(t, h, n), Taken(t, h, n);
    RemainsKeep(t, n, a, h);
    Splice(fl, i, m);
    forall x ensures Covers(Carve(fl, i, h, n), x) <==> Covers(fl, x) && !u.Has(x) {
      SpliceCovers(fl, i, m, x);
    }
  }

  /** A block of a canonical list replaced by canonical pieces of itself. */
  lemma Splice(fl: seq<Block>, i: nat, m: seq<Block>)
    requires Canonical(fl) && i < |fl| && Canonical(m)
    requires forall k :: 0 <= k < |m| ==> fl[i].at <= m[k].at && m[k].End() <= fl[i].End()
    ensures Canonical(fl[..i] + m + fl[i + 1..])
  {
    var r := fl[..i] + m + fl[i + 1..];
    forall p, q | 0 <= p < q < |r| ensures r[p].End() < r[q].at {
      if q < i {
        assert r[p] == fl[p] && r[q] == fl[q];
      } else if q < i + |m| {
        assert p < i ==> fl[p].End() < fl[i].at;
      } else {
        var q' := q - |m| + 1;
        assert r[q] == fl[q'] && fl[i].End() < fl[q'].at;
        if p >= i + |m| { assert r[p] == fl[p - |m| + 1]; }
      }
    }
  }

  lemma SpliceCovers(fl: seq<Block>, i: nat, m: seq<Block>, x: nat)
    requires i < |fl|
    ensures Covers(fl[..i] + m + fl[i + 1..], x)
       <==> Covers(fl[..i], x) || Covers(m, x) || Covers(fl[i + 1..], x)
    ensures Covers(fl, x) <==> Covers(fl[..i], x) || fl[i].Has(x) || Covers(fl[i + 1..], x)
    ensures Canonical(fl) && fl[i].Has(x) ==> !Covers(fl[..i], x) && !Covers(fl[i + 1..], x)
  {
    CoversConcat(fl[..i] + m, fl[i + 1..], x);
    CoversConcat(fl[..i], m, x);
    assert fl == fl[..i] + [fl[i]] + fl[i + 1..];
    CoversConcat(fl[..i] + [fl[i]], fl[i + 1..], x);
    CoversConcat(fl[..i], [fl[i]], x);
    assert Covers([fl[i]], x) <==> [fl[i]][0].Has(x);
  }

  lemma CoversConcat(s: seq<Block>, t: seq<Block>, x: nat)
    ensures Covers(s + t, x) <==> Covers(s, x) || Covers(t, x)
  {
    if Covers(s, x) {
      var i :| 0 <= i < |s| && s[i].Has(x);
      assert (s + t)[i].Has(x);
    }
    if Covers(t, x) {
      var i :| 0 <= i < |t| && t[i].Has(x);
      assert (s + t)[|s| + i].Has(x);
    }
  }

  // ----- ff_free

  /** A block put before the list t, one with t's first where they touch. */
  function Push(m: Block, t: seq<Block>): (r: seq<Block>)
    ensures r != [] && r[0].at == m.at
  {
    if t != [] && t[0].at == m.End() then [Block(m.at, m.len + t[0].len)] + t[1..] else [m] + t
  }

  /** The reversed blocks rs put back one by one before p. */
  function PutAll(rs: seq<Block>, p: seq<Block>): (r: seq<Block>)
    decreases |rs|
  {
    if rs == [] then p else PutAll(rs[1..], Push(rs[0], p))
  }

  /** The list under free in two: the blocks passed, nearest first, and the blocks still linked. */
  datatype Split = Split(rs: seq<Block>, t: seq<Block>)

  /** The blocks of t below address at leave it one by one for rs. */
  function Unlink(rs: seq<Block>, t: seq<Block>, at: nat): (s: Split)
    decreases |t|
  {
    if t != [] && t[0].at < at then Unlink([t[0]] + rs, t[1..], at) else Split(rs, t)
  }

  /** ff_free of the block m. */
  function Freed(fl: seq<Block>, m: Block): (r: seq<Block>) {
    var s := Unlink([], fl, m.at);
    PutAll(s.rs, Push(m, s.t))
  }

  lemma PushKeeps(m: Block, t: seq<Block>)
    requires Canonical(t) && m.at > 0 && m.len >= 2 && (t != [] ==> m.End() <= t[0].at)
    ensures Canonical(Push(m, t))
    ensures forall x :: Covers(Push(m, t), x) <==> m.Has(x) || Covers(t, x)
  {
    var r := Push(m, t);
    forall x ensures Covers(r, x) <==> m.Has(x) || Covers(t, x) {
      if t != [] && t[0].at == m.End() {
        assert t == [t[0]] + t[1..];
        CoversCons(t[0], t[1..], x);
        CoversCons(r[0], t[1..], x);
      } else {
        CoversCons(m, t, x);
      }
    }
  }

  /** Blocks in falling address order, none touching the next. */
  ghost predicate Falling(rs: seq<Block>) {
    && (forall i :: 0 <= i < |rs| ==> rs[i].at > 0 && rs[i].len >= 2)
    && (forall i, j :: 0 <= i < j < |rs| ==> rs[j].End() < rs[i].at)
  }

  /** What is still to go back lies below p, its nearest at most touching it. */
  ghost predicate Above(rs: seq<Block>, p: seq<Block>) {
    Falling(rs) && Canonical(p) && (rs != [] && p != [] ==> rs[0].End() <= p[0].at)
  }

  lemma AboveNext(rs: seq<Block>, p: seq<Block>)
    requires Above(rs, p) && rs != []
    ensures Above(rs[1..], Push(rs[0], p))
  {
    PushKeeps(rs[0], p);
    assert forall i :: 1 <= i < |rs| ==> rs[i].End() < rs[0].at;
  }

  lemma AboveCovers(rs: seq<Block>, p: seq<Block>)
    requires Above(rs, p) && rs != []
    ensures forall x :: Covers(rs[1..], x) || Covers(Push(rs[0], p), x) <==> Covers(rs, x) || Covers(p, x)
  {
    PushKeeps(rs[0], p);
    forall x ensures Covers(rs, x) <==> rs[0].Has(x) || Covers(rs[1..], x) {
      assert rs == [rs[0]] + rs[1..];
      CoversCons(rs[0], rs[1..], x);
    }
  }

  lemma {:induction false} PutAllKeeps(rs: seq<Block>, p: seq<Block>)
    requires Above(rs, p)
    ensures Canonical(PutAll(rs, p))
    ensures forall x :: Covers(PutAll(rs, p), x) <==> Covers(rs, x) || Covers(p, x)
    decreases |rs|
  {
    if rs != [] {
      AboveNext(rs, p);
      AboveCovers(rs, p);
      PutAllKeeps(rs[1..], Push(rs[0], p));
    }
  }

  ghost predicate Facing(rs: seq<Block>, t: seq<Block>) {
    Falling(rs) && Canonical(t) && (rs != [] && t != [] ==> rs[0].End() < t[0].at)
  }

  lemma CoversCons(b: Block, s: seq<Block>, x: nat)
    ensures Covers([b] + s, x) <==> b.Has(x) || Covers(s, x)
  {
    CoversConcat([b], s, x);
    assert Covers([b], x) <==> [b][0].Has(x);
  }

  lemma {:induction false} UnlinkKeeps(rs: seq<Block>, t: seq<Block>, at: nat)
    requires Facing(rs, t) && (rs != [] ==> rs[0].at < at)
    ensures var s := Unlink(rs, t, at);
            && Facing(s.rs, s.t)
            && (s.rs != [] ==> s.rs[0].at < at) && (s.t != [] ==> at <= s.t[0].at)
            && forall x :: Covers(s.rs, x) || Covers(s.t, x) <==> Covers(rs, x) || Covers(t, x)
    decreases |t|
  {
    if t != [] && t[0].at < at {
      UnlinkKeeps([t[0]] + rs, t[1..], at);
      forall x ensures Covers([t[0]] + rs, x) || Covers(t[1..], x) <==> Covers(rs, x) || Covers(t, x) {
        CoversCons(t[0], rs, x);
        CoversCons(t[0], t[1..], x);
        assert t == [t[0]] + t[1..];
      }
    }
  }

  /** A block shares no word with any of the list. */
  ghost predicate Off(b: Block, free: seq<Block>) {
    forall i :: 0 <= i < |free| ==> b.End() <= free[i].at || free[i].End() <= b.at
  }

  lemma OffCovers(b: Block, free: seq<Block>)
    requires Canonical(free) && b.len >= 1
    ensures Off(b, free) <==> forall x: nat :: b.Has(x) ==> !Covers(free, x)
  {
    if forall x: nat :: b.Has(x) ==> !Covers(free, x) {
      forall i | 0 <= i < |free| ensures b.End() <= free[i].at || free[i].End() <= b.at {
        assert !(b.Has(b.at) && free[i].Has(b.at));
        assert !(b.Has(free[i].at) && free[i].Has(free[i].at));
      }
    }
  }

  lemma {:induction false} UnlinkOff(b: Block, rs: seq<Block>, t: seq<Block>)
    requires Off(b, rs) && Off(b, t)
    ensures var s := Unlink(rs, t, b.at); Off(b, s.rs) && Off(b, s.t)
    decreases |t|
  {
    if t != [] && t[0].at < b.at { UnlinkOff(b, [t[0]] + rs, t[1..]); }
  }

  /** Where ff_free's second loop starts. */
  lemma UnlinkedAbove(fl: seq<Block>, m: Block)
    requires Canonical(fl) && m.at > 0 && m.len >= 2 && Off(m, fl)
    ensures var s := Unlink([], fl, m.at);
            && Canonical(s.t) && (s.t != [] ==> m.End() <= s.t[0].at)
            && Falling(s.rs) && (s.rs != [] ==> s.rs[0].End() <= m.at)
            && forall x :: Covers(s.rs, x) || Covers(s.t, x) <==> Covers(fl, x)
  {
    UnlinkKeeps([], fl, m.at);
    UnlinkOff(m, [], fl);
  }

  /** Freeing a block none of whose words is free: the list stays the maximal runs, of its words and m's. */
  lemma FreedKeeps(fl: seq<Block>, m: Block)
    requires Canonical(fl) && m.at > 0 && m.len >= 2 && Off(m, fl)
    ensures Canonical(Freed(fl, m))
    ensures forall x :: Covers(Freed(fl, m), x) <==> Covers(fl, x) || m.Has(x)
  {
    var s := Unlink([], fl, m.at);
    UnlinkedAbove(fl, m);
    PushKeeps(m, s.t);
    PutAllKeeps(s.rs, Push(m, s.t));
  }

  // ----- the list is its words

  /** Two lists of maximal runs with the same words are the same list. */
  lemma {:induction false} CanonicalUnique(fl: seq<Block>, gl: seq<Block>)
    requires Canonical(fl) && Canonical(gl)
    requires forall x :: Covers(fl, x) <==> Covers(gl, x)
    ensures fl == gl
    decreases |fl|
  {
    assert forall l: seq<Block> :: Canonical(l) && l != [] ==> l[0].Has(l[0].at);
    assert fl != [] ==> Covers(fl, fl[0].at);
    assert gl != [] ==> Covers(gl, gl[0].at);
    if fl != [] {
      FirstRun(fl, gl);
      FirstRun(gl, fl);
      forall x ensures Covers(fl[1..], x) <==> Covers(gl[1..], x) {
        assert fl == [fl[0]] + fl[1..] && gl == [gl[0]] + gl[1..];
        CoversCons(fl[0], fl[1..], x);
        CoversCons(gl[0], gl[1..], x);
      }
      CanonicalUnique(fl[1..], gl[1..]);
    }
  }

  lemma FirstRun(fl: seq<Block>, gl: seq<Block>)
    requires Canonical(fl) && Canonical(gl) && fl != [] && gl != []
    requires forall x :: Covers(fl, x) <==> Covers(gl, x)
    ensures gl[0].at <= fl[0].at
    ensures fl[0].at == gl[0].at ==> fl[0].len <= gl[0].len
  {
    var f, g := fl[0], gl[0];
    assert f.Has(f.at) && Covers(fl, f.at);
    var i :| 0 <= i < |gl| && gl[i].Has(f.at);
    forall j | 0 <= j < |gl| ensures !gl[j].Has(g.End()) {
      assert j == 0 || gl[0].End() < gl[j].at;
    }
    assert !Covers(gl, g.End()) && !fl[0].Has(g.End());
  }

  /** Freeing what was just allocated gives back the very list, reversal and all. */
  lemma AllocThenFree(fl: seq<Block>, i: nat, n: nat, a: nat, h: nat)
    requires Canonical(fl) && i < |fl| && n >= 1 && a >= 1 && Placement(fl[i], n, a, h)
    ensures Freed(Carve(fl, i, h, n), Taken(fl[i], h, n)) == fl
  {
    var u := Taken(fl[i], h, n);
    CarveKeeps(fl, i, n, a, h);
    OffCovers(u, Carve(fl, i, h, n));
    FreedKeeps(Carve(fl, i, h, n), u);
    CanonicalUnique(Freed(Carve(fl, i, h, n), u), fl);
  }
}
