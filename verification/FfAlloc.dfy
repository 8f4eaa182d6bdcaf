/** The allocator of src/inle/ffalloc.h in place: lengths and links in the words of memory itself, the
    list head a variable. A block's header word is its length; a free block's next word is its link. */
module FfAlloc {
  import opened FreeList

  /** Bodies of this many words or more come off the top: four megabytes of eight-byte words. */
  const FF_BIG: nat := 524288

  /** An allocation that is out: its block's length, and the words and alignment it was asked with. */
  datatype Live = Live(len: nat, n: nat, a: nat)

  ghost predicate InLive(live: map<nat, Live>, x: nat) {
    exists h :: h in live && Block(h, live[h].len).Has(x)
  }

  /** Maximal free runs; live blocks aligned, long enough and apart from the free ones and each other. */
  ghost predicate Sound(free: seq<Block>, live: map<nat, Live>) {
    && Canonical(free)
    && (forall h :: h in live ==> h > 0 && live[h].len >= live[h].n + 1 >= 2 && live[h].a >= 1)
    && (forall h :: h in live ==> (h + 1) % live[h].a == 0)
    && (forall h :: h in live ==> Off(Block(h, live[h].len), free))
    && (forall g, h :: g in live && h in live && g < h ==> g + live[g].len <= h)
  }

  /** Every word of the arena is free or live, and no other is. */
  ghost predicate Conserved(free: seq<Block>, live: map<nat, Live>, arena: iset<nat>) {
    forall x: nat :: x in arena <==> Covers(free, x) || InLive(live, x)
  }

  lemma SoundAlloc(free: seq<Block>, live: map<nat, Live>, i: nat, n: nat, a: nat, h: nat)
    requires Sound(free, live) && i < |free| && n >= 1 && a >= 1 && Placement(free[i], n, a, h)
    ensures h !in live
    ensures Sound(Carve(free, i, h, n), live[h := Live(Taken(free[i], h, n).len, n, a)])
  {
    CarveKeeps(free, i, n, a, h);
    var free', u := Carve(free, i, h, n), Taken(free[i], h, n);
    OffCovers(u, free');
    forall g | g in live ensures Off(Block(g, live[g].len), free') {
      var b := Block(g, live[g].len);
      OffCovers(b, free);
      OffCovers(b, free');
    }
    forall g | g in live ensures g != h && (g < h ==> g + live[g].len <= h) && (h < g ==> h + u.len <= g) {
      assert Off(Block(g, live[g].len), free);
    }
  }

  lemma ConservedAlloc(free: seq<Block>, live: map<nat, Live>, arena: iset<nat>, i: nat, n: nat, a: nat, h: nat)
    requires Conserved(free, live, arena) && h !in live
    requires Canonical(free) && i < |free| && n >= 1 && a >= 1 && Placement(free[i], n, a, h)
    ensures Conserved(Carve(free, i, h, n), live[h := Live(Taken(free[i], h, n).len, n, a)], arena)
  {
    CarveKeeps(free, i, n, a, h);
    var u := Taken(free[i], h, n);
    forall x: nat ensures InLive(live[h := Live(u.len, n, a)], x) <==> InLive(live, x) || u.Has(x) {
      InLiveMore(live, h, Live(u.len, n, a), x);
    }
  }

  lemma InLiveMore(live: map<nat, Live>, h: nat, l: Live, x: nat)
    requires h !in live
    ensures InLive(live[h := l], x) <==> InLive(live, x) || Block(h, l.len).Has(x)
  {
    var live' := live[h := l];
    if InLive(live, x) {
      var g :| g in live && Block(g, live[g].len).Has(x);
      assert g in live' && live'[g] == live[g];
    }
    if Block(h, l.len).Has(x) { assert h in live' && Block(h, live'[h].len).Has(x); }
  }

  lemma SoundFree(free: seq<Block>, live: map<nat, Live>, h: nat)
    requires Sound(free, live) && h in live
    ensures Sound(Freed(free, Block(h, live[h].len)), live - {h})
  {
    var m := Block(h, live[h].len);
    OffCovers(m, free);
    FreedKeeps(free, m);
    forall g | g in live && g != h ensures Off(Block(g, live[g].len), Freed(free, m)) {
      var b := Block(g, live[g].len);
      OffCovers(b, free);
      OffCovers(b, Freed(free, m));
    }
  }

  lemma ConservedFree(free: seq<Block>, live: map<nat, Live>, arena: iset<nat>, h: nat)
    requires Conserved(free, live, arena) && Sound(free, live) && h in live
    ensures Conserved(Freed(free, Block(h, live[h].len)), live - {h}, arena)
  {
    var m := Block(h, live[h].len);
    OffCovers(m, free);
    FreedKeeps(free, m);
    assert live == (live - {h})[h := live[h]];
    forall x: nat ensures InLive(live, x) <==> InLive(live - {h}, x) || m.Has(x) {
      InLiveMore(live - {h}, h, live[h], x);
    }
  }

  lemma SoundDonate(free: seq<Block>, live: map<nat, Live>, m: Block)
    requires Sound(free, live) && m.at > 0 && m.len >= 2 && Off(m, free)
    requires forall h :: h in live ==> h + live[h].len <= m.at || m.End() <= h
    ensures Sound(Freed(free, m), live)
  {
    OffCovers(m, free);
    FreedKeeps(free, m);
    forall g | g in live ensures Off(Block(g, live[g].len), Freed(free, m)) {
      var b := Block(g, live[g].len);
      OffCovers(b, free);
      OffCovers(b, Freed(free, m));
    }
  }

  lemma ConservedDonate(free: seq<Block>, live: map<nat, Live>, arena: iset<nat>, m: Block)
    requires Conserved(free, live, arena) && Canonical(free) && m.at > 0 && m.len >= 2 && Off(m, free)
    ensures Conserved(Freed(free, m), live, iset x: nat | x in arena || m.Has(x))
  {
    FreedKeeps(free, m);
  }

  // ----- every run

  datatype Event = Alloc(i: nat, h: nat, n: nat, a: nat) | Release(h: nat) | Donate(m: Block)

  datatype Ledger = Ledger(free: seq<Block>, live: map<nat, Live>, arena: iset<nat>)

  /** What a call does to the books; its demand on them is that it is one the allocator answers. */
  ghost predicate Next(p: Ledger, e: Event, l: Ledger) {
    match e
    case Alloc(i, h, n, a) =>
      && i < |p.free| && n >= 1 && a >= 1 && Placement(p.free[i], n, a, h)
      && l == Ledger(Carve(p.free, i, h, n), p.live[h := Live(Taken(p.free[i], h, n).len, n, a)], p.arena)
    case Release(h) =>
      h in p.live && l == Ledger(Freed(p.free, Block(h, p.live[h].len)), p.live - {h}, p.arena)
    case Donate(m) =>
      && m.at > 0 && m.len >= 2 && (forall x: nat :: m.Has(x) ==> x !in p.arena)
      && l == Ledger(Freed(p.free, m), p.live, iset x: nat | x in p.arena || m.Has(x))
  }

  /** The books after each call, from an empty allocator. */
  ghost predicate Run(events: seq<Event>, books: seq<Ledger>) {
    && |books| == |events| + 1
    && books[0] == Ledger([], map[], iset{})
    && forall i :: 0 <= i < |events| ==> Next(books[i], events[i], books[i + 1])
  }

  lemma NextKeeps(p: Ledger, e: Event, l: Ledger)
    requires Sound(p.free, p.live) && Conserved(p.free, p.live, p.arena) && Next(p, e, l)
    ensures Sound(l.free, l.live) && Conserved(l.free, l.live, l.arena)
  {
    match e
    case Alloc(i, h, n, a) =>
      SoundAlloc(p.free, p.live, i, n, a, h);
      ConservedAlloc(p.free, p.live, p.arena, i, n, a, h);
    case Release(h) =>
      SoundFree(p.free, p.live, h);
      ConservedFree(p.free, p.live, p.arena, h);
    case Donate(m) =>
      DonateOff(p.free, p.live, p.arena, m);
      SoundDonate(p.free, p.live, m);
      ConservedDonate(p.free, p.live, p.arena, m);
  }

  lemma DonateOff(free: seq<Block>, live: map<nat, Live>, z: iset<nat>, m: Block)
    requires Sound(free, live) && Conserved(free, live, z) && m.len >= 1 && forall x: nat :: m.Has(x) ==> x !in z
    ensures Off(m, free) && forall h :: h in live ==> h + live[h].len <= m.at || m.End() <= h
  {
    OffCovers(m, free);
    forall h | h in live ensures h + live[h].len <= m.at || m.End() <= h {
      var b := Block(h, live[h].len);
      assert b.Has(h) && InLive(live, h);
      if b.Has(m.at) { assert InLive(live, m.at) && m.Has(m.at); }
    }
  }

  /** Over every run the free list is the maximal runs of free words, live blocks are aligned and
      disjoint, and free and live words together are exactly the words donated. */
  lemma {:induction false} EveryRun(events: seq<Event>, books: seq<Ledger>, k: nat)
    requires Run(events, books) && k < |books|
    ensures Sound(books[k].free, books[k].live) && Conserved(books[k].free, books[k].live, books[k].arena)
  {
    if k > 0 {
      EveryRun(events, books, k - 1);
      assert Next(books[k - 1], events[k - 1], books[k - 1 + 1]);
      NextKeeps(books[k - 1], events[k - 1], books[k]);
    }
  }

  // ----- the links in memory

  /** The word a link to list holds, when what follows list is linked by end. */
  function LinkTo(list: seq<Block>, end: nat): (r: nat) { if list == [] then end else list[0].at }

  ghost predicate Laid(m: seq<int>, b: Block, link: nat) {
    b.at > 0 && b.at + 2 <= |m| && m[b.at] == b.len && m[b.at + 1] == link
  }

  /** The blocks of list are laid in memory one linked to the next, the last to end. */
  ghost predicate Chained(m: seq<int>, list: seq<Block>, end: nat)
    decreases |list|
  {
    list == [] || (Laid(m, list[0], LinkTo(list[1..], end)) && Chained(m, list[1..], end))
  }

  /** Neither word of a block of list is x. */
  ghost predicate Clear(list: seq<Block>, x: nat) {
    forall i :: 0 <= i < |list| ==> x != list[i].at && x != list[i].at + 1
  }

  lemma {:induction false} ChainedKeeps(m: seq<int>, m': seq<int>, list: seq<Block>, end: nat)
    requires Chained(m, list, end) && |m'| == |m|
    requires forall x :: 0 <= x < |m| && m'[x] != m[x] ==> Clear(list, x)
    ensures Chained(m', list, end)
    decreases |list|
  {
    if list != [] {
      assert forall x :: Clear(list, x) ==> Clear(list[1..], x) && x != list[0].at && x != list[0].at + 1;
      ChainedKeeps(m, m', list[1..], end);
    }
  }

  lemma {:induction false} ChainedConcat(m: seq<int>, s: seq<Block>, t: seq<Block>, end: nat)
    ensures Chained(m, s + t, end) <==> Chained(m, s, LinkTo(t, end)) && Chained(m, t, end)
    decreases |s|
  {
    if s == [] {
      assert s + t == t;
    } else {
      assert (s + t)[1..] == s[1..] + t;
      ChainedConcat(m, s[1..], t, end);
    }
  }

  /** A chain whose last link is rewritten. */
  lemma {:induction false} Relink(m: seq<int>, m': seq<int>, s: seq<Block>, end: nat, end': nat)
    requires Canonical(s) && s != [] && Chained(m, s, end) && |m'| == |m|
    requires var p := s[|s| - 1].at;
             && p + 1 < |m| && m'[p + 1] == end'
             && forall x :: 0 <= x < |m| && m'[x] != m[x] && x != p + 1 ==> Clear(s, x)
    ensures Chained(m', s, end')
    decreases |s|
  {
    var b, p := s[0], s[|s| - 1].at;
    assert |s| > 1 ==> b.End() < p;
    assert !Clear(s, b.at) && !Clear(s, b.at + 1);
    if |s| > 1 {
      forall x | 0 <= x < |m| && m'[x] != m[x] && x != p + 1 ensures Clear(s[1..], x) {
        assert Clear(s, x);
      }
      Relink(m, m', s[1..], end, end');
    }
  }

  // ----- ff_carve on memory

  /** The words ff_carve writes: the rest above, the gap below or the link to the block, the header. */
  function CarveMem(m: seq<int>, prev: nat, t: Block, h: nat, n: nat): (r: seq<int>)
    requires t.End() <= |m| && t.len >= 2 && t.at <= h && h + 1 + n <= t.End() && h - t.at != 1 && n >= 1
    requires prev + 1 < |m|
    ensures |r| == |m|
  {
    var u := Taken(t, h, n);
    var rest, nx := t.End() - u.End(), m[t.at + 1];
    var m1 := if rest == 0 then m else m[u.End() := rest][u.End() + 1 := nx];
    var nx1 := if rest == 0 then nx else u.End();
    var m2 := if h != t.at then m1[t.at := h - t.at][t.at + 1 := nx1]
              else if prev == 0 then m1 else m1[prev + 1 := nx1];
    m2[h := u.len]
  }

  /** In the middle: what remains of the block is chained to what followed it. */
  lemma CarveMiddle(m: seq<int>, prev: nat, t: Block, h: nat, n: nat)
    requires t.End() <= |m| && t.at > 0 && t.at <= h && h + 1 + n <= t.End() && h - t.at != 1 && n >= 1
    requires prev > 0 ==> prev + 1 < t.at
    requires prev + 1 < |m| && m[t.at + 1] >= 0
    ensures Chained(CarveMem(m, prev, t, h, n), Remains(t, h, n), m[t.at + 1])
    ensures CarveMem(m, prev, t, h, n)[h] == Taken(t, h, n).len
    ensures forall x :: 0 <= x < |m| && !t.Has(x) && (prev == 0 || h != t.at || x != prev + 1) ==>
              CarveMem(m, prev, t, h, n)[x] == m[x]
    ensures h == t.at && prev > 0 ==> CarveMem(m, prev, t, h, n)[prev + 1] == LinkTo(Remains(t, h, n), m[t.at + 1])
  {
    var r, c, end := Remains(t, h, n), CarveMem(m, prev, t, h, n), m[t.at + 1];
    if |r| == 2 {
      assert r[1..] == [r[1]] && r[1..][1..] == [];
      assert Laid(c, r[0], r[1].at) && Laid(c, r[1], end);
      assert Chained(c, r[1..], end);
    } else if |r| == 1 {
      assert r[1..] == [];
      assert Laid(c, r[0], end);
    }
  }

  /** The chain before a replaced middle, its last link rewritten if that is to change. */
  lemma RelinkPrefix(m: seq<int>, c: seq<int>, pre: seq<Block>, from: nat, to: nat)
    requires |c| == |m| && Canonical(pre) && Chained(m, pre, from)
    requires pre != [] ==>
               var p := pre[|pre| - 1].at + 1;
               && p < |m|
               && (from == to || c[p] == to)
               && (forall x :: 0 <= x < |m| && c[x] != m[x] && (from == to || x != p) ==> Clear(pre, x))
    ensures Chained(c, pre, to)
  {
    if pre != [] {
      if from == to { ChainedKeeps(m, c, pre, from); } else { Relink(m, c, pre, from, to); }
    }
  }

  lemma ChainThree(c: seq<int>, pre: seq<Block>, mid: seq<Block>, post: seq<Block>)
    requires Chained(c, post, 0) && Chained(c, mid, LinkTo(post, 0))
    requires Chained(c, pre, LinkTo(mid, LinkTo(post, 0)))
    ensures Chained(c, pre + mid + post, 0)
  {
    var q := mid + post;
    ChainedConcat(c, mid, post, 0);
    assert LinkTo(q, 0) == LinkTo(mid, LinkTo(post, 0)) by { if mid == [] { assert q == post; } }
    ChainedConcat(c, pre, q, 0);
    assert pre + mid + post == pre + q;
  }

  lemma ChainedMid(m: seq<int>, free: seq<Block>, i: nat)
    requires Chained(m, free, 0) && i < |free|
    ensures Chained(m, free[..i], free[i].at) && Chained(m, free[i + 1..], 0)
    ensures Laid(m, free[i], LinkTo(free[i + 1..], 0))
  {
    var t := free[i..];
    assert free == free[..i] + t;
    ChainedConcat(m, free[..i], t, 0);
    assert t[0] == free[i] && t[1..] == free[i + 1..];
  }

  lemma ChainedAt(m: seq<int>, free: seq<Block>, i: nat)
    requires Chained(m, free, 0) && i < |free|
    ensures Chained(m, free[..i], free[i].at) && Chained(m, free[i + 1..], 0)
    ensures Laid(m, free[i], LinkTo(free[i + 1..], 0))
    ensures i > 0 ==> free[i - 1].at + 1 < |m|
  {
    ChainedMid(m, free, i);
    if i > 0 { ChainedLink(m, free, i - 1); }
  }

  /** The address of the i-th block, 0 past the last. */
  function AtOf(free: seq<Block>, i: nat): (r: nat) { if i < |free| then free[i].at else 0 }

  lemma ChainedNext(m: seq<int>, free: seq<Block>, i: nat)
    requires Chained(m, free, 0) && i < |free|
    ensures free[i].at > 0 && free[i].at + 2 <= |m| && m[free[i].at] == free[i].len && m[free[i].at + 1] == AtOf(free, i + 1)
  {
    ChainedMid(m, free, i);
  }

  lemma ChainedLink(m: seq<int>, free: seq<Block>, i: nat)
    requires Chained(m, free, 0) && i < |free|
    ensures free[i].at + 1 < |m|
  {
    ChainedMid(m, free, i);
  }

  /** The words of a block, and the link before it, are apart from the other blocks' words. */
  lemma ClearOutside(free: seq<Block>, i: nat)
    requires Canonical(free) && i < |free|
    ensures forall x :: free[i].Has(x) ==> Clear(free[..i], x) && Clear(free[i + 1..], x)
    ensures i > 0 ==> Clear(free[i + 1..], free[i - 1].at + 1)
  {
    var post := free[i + 1..];
    forall k | 0 <= k < i ensures free[..i][k].End() < free[i].at {}
    forall k | 0 <= k < |post| ensures free[i].End() < post[k].at {}
  }

  lemma CarveChanges(m: seq<int>, free: seq<Block>, i: nat, prev: nat, h: nat, n: nat)
    requires Canonical(free) && i < |free| && free[i].End() <= |m| && n >= 1
    requires prev == (if i == 0 then 0 else free[i - 1].at) && prev + 1 < |m| && m[free[i].at + 1] >= 0
    requires free[i].at <= h && h + 1 + n <= free[i].End() && h - free[i].at != 1
    ensures var c := CarveMem(m, prev, free[i], h, n);
            forall x :: 0 <= x < |m| && c[x] != m[x] ==>
              Clear(free[i + 1..], x) && ((h == free[i].at && x == prev + 1) || Clear(free[..i], x))
  {
    CarveMiddle(m, prev, free[i], h, n);
    ClearOutside(free, i);
  }

  lemma CarveAfter(m: seq<int>, free: seq<Block>, i: nat, prev: nat, h: nat, n: nat)
    requires Canonical(free) && Chained(m, free, 0) && i < |free| && free[i].End() <= |m| && n >= 1
    requires prev == (if i == 0 then 0 else free[i - 1].at) && prev + 1 < |m|
    requires free[i].at <= h && h + 1 + n <= free[i].End() && h - free[i].at != 1
    ensures var c, post := CarveMem(m, prev, free[i], h, n), free[i + 1..];
            Chained(c, post, 0) && Chained(c, Remains(free[i], h, n), LinkTo(post, 0))
  {
    ChainedAt(m, free, i);
    CarveMiddle(m, prev, free[i], h, n);
    CarveChanges(m, free, i, prev, h, n);
    ChainedKeeps(m, CarveMem(m, prev, free[i], h, n), free[i + 1..], 0);
  }

  lemma CarveBefore(m: seq<int>, free: seq<Block>, i: nat, prev: nat, h: nat, n: nat)
    requires Canonical(free) && Chained(m, free, 0) && i < |free| && free[i].End() <= |m| && n >= 1
    requires prev == (if i == 0 then 0 else free[i - 1].at) && prev + 1 < |m|
    requires free[i].at <= h && h + 1 + n <= free[i].End() && h - free[i].at != 1
    ensures Chained(CarveMem(m, prev, free[i], h, n), free[..i], LinkTo(Remains(free[i], h, n), LinkTo(free[i + 1..], 0)))
  {
    ChainedAt(m, free, i);
    CarveMiddle(m, prev, free[i], h, n);
    CarveChanges(m, free, i, prev, h, n);
    RelinkPrefix(m, CarveMem(m, prev, free[i], h, n), free[..i], free[i].at, LinkTo(Remains(free[i], h, n), LinkTo(free[i + 1..], 0)));
  }

  lemma CarveChained(m: seq<int>, free: seq<Block>, i: nat, prev: nat, h: nat, n: nat)
    requires Canonical(free) && Chained(m, free, 0) && i < |free| && free[i].End() <= |m| && n >= 1
    requires prev == (if i == 0 then 0 else free[i - 1].at) && prev + 1 < |m|
    requires free[i].at <= h && h + 1 + n <= free[i].End() && h - free[i].at != 1
    ensures Chained(CarveMem(m, prev, free[i], h, n), Carve(free, i, h, n), 0)
  {
    var t, pre, post := free[i], free[..i], free[i + 1..];
    ChainedAt(m, free, i);
    var c, mid := CarveMem(m, prev, t, h, n), Remains(t, h, n);
    CarveAfter(m, free, i, prev, h, n);
    CarveBefore(m, free, i, prev, h, n);
    ChainThree(c, pre, mid, post);
    assert Carve(free, i, h, n) == pre + mid + post;
  }

  // ----- ff_free on memory

  /** One turn of the first loop: the head of t goes to the front of the reversed list. */
  lemma ReverseStep(m: seq<int>, rs: seq<Block>, t: seq<Block>)
    requires t != [] && Chained(m, t, 0) && Chained(m, rs, 0)
    requires Clear(rs, t[0].at + 1) && Clear(t[1..], t[0].at + 1)
    ensures t[0].at + 2 <= |m| && m[t[0].at + 1] == LinkTo(t[1..], 0)
    ensures var m' := m[t[0].at + 1 := LinkTo(rs, 0)];
            Chained(m', [t[0]] + rs, 0) && Chained(m', t[1..], 0)
  {
    assert ([t[0]] + rs)[1..] == rs;
    var m' := m[t[0].at + 1 := LinkTo(rs, 0)];
    ChainedKeeps(m, m', rs, 0);
    ChainedKeeps(m, m', t[1..], 0);
  }

  /** What the second loop writes to put b before t. */
  function PushMem(m: seq<int>, b: Block, t: seq<Block>): (r: seq<int>)
    requires b.at + 2 <= |m| && (t != [] ==> t[0].at + 2 <= |m|)
    ensures |r| == |m|
  {
    if t != [] && t[0].at == b.End() then m[b.at := b.len + m[t[0].at]][b.at + 1 := m[t[0].at + 1]]
    else m[b.at + 1 := LinkTo(t, 0)]
  }

  lemma PushClear(m: seq<int>, rs: seq<Block>, b: Block, t: seq<Block>)
    requires Canonical(t) && b.len >= 2 && (t != [] ==> b.End() <= t[0].at && t[0].at + 2 <= |m|)
    requires Falling(rs) && (rs != [] ==> rs[0].End() <= b.at) && b.at + 2 <= |m|
    ensures forall x :: 0 <= x < |m| && PushMem(m, b, t)[x] != m[x] ==> Clear(rs, x) && Clear(t, x)
  {
    var c := PushMem(m, b, t);
    assert forall i :: 0 <= i < |t| ==> b.End() <= t[i].at;
    assert forall i :: 0 <= i < |rs| ==> rs[i].End() <= b.at;
    forall x | 0 <= x < |m| && c[x] != m[x] ensures Clear(rs, x) && Clear(t, x) {
      assert x == b.at || x == b.at + 1;
    }
  }

  lemma PushStep(m: seq<int>, rs: seq<Block>, b: Block, t: seq<Block>)
    requires Canonical(t) && b.at > 0 && b.len >= 2 && (t != [] ==> b.End() <= t[0].at)
    requires Falling(rs) && (rs != [] ==> rs[0].End() <= b.at)
    requires b.at + 2 <= |m| && m[b.at] == b.len && Chained(m, rs, 0) && Chained(m, t, 0)
    ensures t != [] ==> t[0].at + 2 <= |m|
    ensures Chained(PushMem(m, b, t), Push(b, t), 0) && Chained(PushMem(m, b, t), rs, 0)
  {
    var c, p := PushMem(m, b, t), Push(b, t);
    PushClear(m, rs, b, t);
    ChainedKeeps(m, c, rs, 0);
    ChainedKeeps(m, c, t, 0);
    if t != [] && t[0].at == b.End() {
      assert p[1..] == t[1..];
    } else {
      assert p[1..] == t;
    }
  }

  /** The header and link words of a list's blocks are all in the zone. */
  ghost predicate Heads(list: seq<Block>, zone: iset<nat>) {
    forall i :: 0 <= i < |list| ==> list[i].at in zone && list[i].at + 1 in zone
  }

  lemma {:induction false} UnlinkHeads(rs: seq<Block>, t: seq<Block>, at: nat, zone: iset<nat>)
    requires Heads(rs, zone) && Heads(t, zone)
    ensures Heads(Unlink(rs, t, at).rs, zone)
    decreases |t|
  {
    if t != [] && t[0].at < at { UnlinkHeads([t[0]] + rs, t[1..], at, zone); }
  }

  lemma FacingClear(rs: seq<Block>, t: seq<Block>)
    requires Facing(rs, t) && t != []
    ensures Clear(rs, t[0].at + 1) && Clear(t[1..], t[0].at + 1) && Facing([t[0]] + rs, t[1..])
  {
    var b, t' := t[0], t[1..];
    forall i | 0 <= i < |t'| ensures b.End() < t'[i].at { assert t'[i] == t[i + 1]; }
    forall i | 0 <= i < |rs| ensures rs[i].End() < b.at { assert rs[0].End() < t[0].at; }
    assert Canonical(t') by {
      forall i, j | 0 <= i < j < |t'| ensures t'[i].End() < t'[j].at {
        assert t'[i] == t[i + 1] && t'[j] == t[j + 1];
      }
    }
  }

  lemma HeadsCovered(free: seq<Block>, zone: iset<nat>)
    requires Canonical(free) && forall x: nat :: Covers(free, x) ==> x in zone
    ensures Heads(free, zone)
  {
    forall i | 0 <= i < |free| ensures free[i].at in zone && free[i].at + 1 in zone {
      assert free[i].Has(free[i].at) && free[i].Has(free[i].at + 1);
    }
  }

  lemma OffAt(b: Block, free: seq<Block>)
    requires b.len >= 1 && Off(b, free)
    ensures !Covers(free, b.at)
  {
  }

  /** Every block ends within size. */
  ghost predicate Within(free: seq<Block>, size: nat) {
    forall i :: 0 <= i < |free| ==> free[i].End() <= size
  }

  lemma WithinCovers(free: seq<Block>, size: nat)
    requires Canonical(free)
    ensures Within(free, size) <==> forall x: nat :: Covers(free, x) ==> x < size
  {
    if forall x: nat :: Covers(free, x) ==> x < size {
      forall i | 0 <= i < |free| ensures free[i].End() <= size {
        assert free[i].Has(free[i].End() - 1);
        assert Covers(free, free[i].End() - 1);
      }
    }
  }

  lemma CarveWithin(free: seq<Block>, i: nat, n: nat, a: nat, h: nat, size: nat)
    requires Canonical(free) && Within(free, size) && i < |free| && n >= 1 && a >= 1 && Placement(free[i], n, a, h)
    ensures Within(Carve(free, i, h, n), size)
  {
    CarveKeeps(free, i, n, a, h);
    WithinCovers(free, size);
    WithinCovers(Carve(free, i, h, n), size);
  }

  lemma FreedWithin(free: seq<Block>, b: Block, size: nat)
    requires Canonical(free) && Within(free, size) && b.at > 0 && b.len >= 2 && Off(b, free) && b.End() <= size
    ensures Within(Freed(free, b), size)
  {
    OffCovers(b, free);
    FreedKeeps(free, b);
    WithinCovers(free, size);
    WithinCovers(Freed(free, b), size);
  }

  // ----- the allocator in place

  /** No placement anywhere in the list. */
  ghost predicate Full(free: seq<Block>, n: nat, a: nat)
    requires a >= 1
  {
    forall i, k: nat :: 0 <= i < |free| ==> !Placement(free[i], n, a, k)
  }

  /** h, in the block at index i, is the lowest placement in the whole list, or for top the highest. */
  ghost predicate Extreme(free: seq<Block>, i: nat, n: nat, a: nat, h: nat, top: bool)
    requires a >= 1
  {
    && i < |free| && Placement(free[i], n, a, h)
    && forall j, k: nat :: 0 <= j < |free| && Placement(free[j], n, a, k) ==> if top then k <= h else h <= k
  }

  lemma SearchExact(free: seq<Block>, n: nat, a: nat, top: bool, at: nat, h: nat)
    requires Canonical(free) && a >= 1
    requires h == 0 ==> forall i :: 0 <= i < |free| ==> Fit(free[i], n, a, top) == 0
    requires h != 0 ==> at < |free| && h == Fit(free[at], n, a, top)
    requires h != 0 && !top ==> forall i :: 0 <= i < at ==> Fit(free[i], n, a, top) == 0
    requires h != 0 && top ==> forall i :: at < i < |free| ==> Fit(free[i], n, a, top) == 0
    ensures h == 0 ==> Full(free, n, a)
    ensures h != 0 ==> Extreme(free, at, n, a, h, top)
  {
    if h != 0 {
      if top { FitTop(free[at], n, a, h); } else { FitBottom(free[at], n, a, h); }
    }
    forall j: nat, k: nat | j < |free| && Placement(free[j], n, a, k)
      ensures h != 0 && if top then k <= h else h <= k
    {
      if top { FitTop(free[j], n, a, k); } else { FitBottom(free[j], n, a, k); }
      assert j == at || j < at || at < j;
    }
  }

  /** Every live block lies in memory, its length in its header. */
  ghost predicate Headed(live: map<nat, Live>, m: seq<int>) {
    forall h :: h in live ==> h < |m| && h + live[h].len <= |m| && m[h] == live[h].len
  }

  ghost function Zone(free: seq<Block>, b: Block): (z: iset<nat>) { iset x: nat | Covers(free, x) || b.Has(x) }

  /** What a free may write is apart from the other blocks' headers. */
  lemma FreeReady(free: seq<Block>, live: map<nat, Live>, h: nat, n: nat)
    requires Sound(free, live) && Within(free, n) && h in live && h + live[h].len <= n
    ensures var b := Block(h, live[h].len);
            && Off(b, free) && Sound(Freed(free, b), live - {h}) && Within(Freed(free, b), n)
            && Heads(free, Zone(free, b)) && b.len >= 2 && b.at > 0 && h in Zone(free, b) && h + 1 in Zone(free, b)
            && forall g :: g in live && g != h ==> g !in Zone(free, b)
  {
    var b := Block(h, live[h].len);
    SoundFree(free, live, h);
    FreedWithin(free, b, n);
    HeadsCovered(free, Zone(free, b));
    forall g | g in live && g != h ensures g !in Zone(free, b) { OffAt(Block(g, live[g].len), free); }
  }

  class Allocator {
    const mem: array<int>
    var fl: nat
    ghost var free: seq<Block>
    ghost var live: map<nat, Live>

    ghost predicate Linked()
      reads this, mem
    {
      Canonical(free) && Chained(mem[..], free, 0) && fl == LinkTo(free, 0)
    }

    ghost predicate Valid()
      reads this, mem
    {
      && Sound(free, live) && Linked()
      && Within(free, mem.Length)
      && Headed(live, mem[..])
    }

    constructor (size: nat)
      ensures Valid() && fresh(mem) && mem.Length == size
      ensures free == [] && live == map[]
    {
      mem := new int[size];
      fl, free, live := 0, [], map[];
    }

    /** The walk of ff_alloc_aligned under a fit, 0 meaning none: the first block that fits, or with top
        the last. prev is the block whose link names the chosen one, 0 for the head. */
    method Search(fit: Block -> nat, top: bool) returns (prev: nat, t: nat, h: nat, ghost at: nat)
      requires Linked()
      ensures h == 0 ==> forall i :: 0 <= i < |free| ==> fit(free[i]) == 0
      ensures h != 0 ==> at < |free| && t == free[at].at && h == fit(free[at])
      ensures h != 0 ==> prev == if at == 0 then 0 else free[at - 1].at
      ensures h != 0 && !top ==> forall i :: 0 <= i < at ==> fit(free[i]) == 0
      ensures h != 0 && top ==> forall i :: at < i < |free| ==> fit(free[i]) == 0
    {
      prev, t, h, at := 0, 0, 0, 0;
      var p, q := 0, fl;
      ghost var i := 0;
      while q != 0
        invariant i <= |free| && q == AtOf(free, i)
        invariant p == if i == 0 then 0 else free[i - 1].at
        invariant h == 0 ==> forall k :: 0 <= k < i ==> fit(free[k]) == 0
        invariant h != 0 ==> at < i && t == free[at].at && h == fit(free[at])
        invariant h != 0 ==> prev == if at == 0 then 0 else free[at - 1].at
        invariant h != 0 ==> top && forall k :: at < k < i ==> fit(free[k]) == 0
        decreases |free| - i
      {
        ChainedNext(mem[..], free, i);
        var x := fit(Block(q, mem[q]));
        if x != 0 {
          prev, t, h, at := p, q, x, i;
          if !top { return; }
        }
        p, q, i := q, mem[q + 1], i + 1;
      }
      assert i == |free|;
    }

    /** ff_carve's writes. */
    method CarveWrites(prev: nat, t: nat, h: nat, n: nat)
      requires t + 1 < mem.Length && mem[t] >= 2 && mem[t + 1] >= 0 && t + mem[t] <= mem.Length && prev + 1 < mem.Length
      requires t <= h && h + 1 + n <= t + mem[t] && h - t != 1 && n >= 1
      modifies this`fl, mem
      ensures mem[..] == CarveMem(old(mem[..]), prev, Block(t, old(mem[t])), h, n)
      ensures fl == if h == t && prev == 0 then LinkTo(Remains(Block(t, old(mem[t])), h, n), old(mem[t + 1])) else old(fl)
    {
      ghost var m := mem[..];
      var nx, hi := mem[t + 1], t + mem[t];
      var w := n + 1;
      var rest := hi - h - w;
      if rest < 2 { w, rest := w + rest, 0; }
      if rest != 0 {
        mem[h + w] := rest;
        mem[h + w + 1] := nx;
        nx := h + w;
        assert mem[..] == m[h + w := rest][h + w + 1 := m[t + 1]];
      }
      ghost var m1 := mem[..];
      if h != t {
        mem[t] := h - t;
        mem[t + 1] := nx;
        assert mem[..] == m1[t := h - t][t + 1 := nx];
      } else if prev == 0 {
        fl := nx;
      } else {
        mem[prev + 1] := nx;
        assert mem[..] == m1[prev + 1 := nx];
      }
      mem[h] := w;
    }

    /** ff_carve: the block at index i, linked from prev, gives up the words from h. */
    method CarveAt(prev: nat, t: nat, h: nat, n: nat, ghost i: nat)
      requires Linked() && i < |free| && t == free[i].at && prev == if i == 0 then 0 else free[i - 1].at
      requires free[i].End() <= mem.Length && n >= 1
      requires t <= h && h + 1 + n <= free[i].End() && h - t != 1
      modifies this`fl, this`free, mem
      ensures free == Carve(old(free), i, h, n) && Chained(mem[..], free, 0) && fl == LinkTo(free, 0)
      ensures mem[h] == Taken(old(free)[i], h, n).len
      ensures forall x :: 0 <= x < mem.Length && !Covers(old(free), x) ==> mem[x] == old(mem[x])
    {
      ghost var m, b := mem[..], free[i];
      ChainedAt(m, free, i);
      CarveMiddle(m, prev, b, h, n);
      CarveChained(m, free, i, prev, h, n);
      CarveWrites(prev, t, h, n);
      CarveHead(i, h, n);
      forall x | 0 <= x < mem.Length && !Covers(free, x) ensures mem[x] == m[x] {
        assert !b.Has(x);
        if i > 0 { assert !free[i - 1].Has(x); }
      }
      free := Carve(free, i, h, n);
    }

    lemma CarveHead(i: nat, h: nat, n: nat)
      requires Canonical(free) && i < |free| && free[i].at <= h && h + 1 + n <= free[i].End()
      ensures LinkTo(Carve(free, i, h, n), 0)
           == if i > 0 then free[0].at else LinkTo(Remains(free[0], h, n), LinkTo(free[1..], 0))
      ensures i == 0 && h != free[0].at ==> LinkTo(Carve(free, i, h, n), 0) == free[0].at
    {
      var r := Remains(free[i], h, n);
      if i == 0 { assert free[..0] + r == r; }
    }

    /** ff_alloc_aligned: 0 for no words or no room; else a body of n words aligned to a, at the lowest
        place there is, a big one at the highest. */
    method AllocAligned(n: nat, a: nat) returns (p: nat, ghost i: nat)
      requires Valid() && a >= 1
      modifies this`fl, this`free, this`live, mem
      ensures Valid()
      ensures p == 0 ==> (n == 0 || Full(old(free), n, a))
      ensures p == 0 ==> free == old(free) && live == old(live) && mem[..] == old(mem[..])
      ensures p != 0 ==> n >= 1 && p - 1 !in old(live) && Extreme(old(free), i, n, a, p - 1, n >= FF_BIG)
      ensures p != 0 ==> free == Carve(old(free), i, p - 1, n)
      ensures p != 0 ==> live == old(live)[p - 1 := Live(Taken(old(free)[i], p - 1, n).len, n, a)]
    {
      if n == 0 { return 0, 0; }
      var prev, t, h;
      prev, t, h, i := Seek(n, a);
      if h == 0 { return 0, 0; }
      Claim(prev, t, h, n, a, i);
      p := h + 1;
    }

    method Seek(n: nat, a: nat) returns (prev: nat, t: nat, h: nat, ghost i: nat)
      requires Valid() && n >= 1 && a >= 1
      ensures h == 0 ==> Full(free, n, a)
      ensures h != 0 ==> i < |free| && t == free[i].at && (prev == if i == 0 then 0 else free[i - 1].at)
      ensures h != 0 ==> Placement(free[i], n, a, h) && Extreme(free, i, n, a, h, n >= FF_BIG)
    {
      var top := n >= FF_BIG;
      prev, t, h, i := Search((b: Block) => Fit(b, n, a, top), top);
      SearchExact(free, n, a, top, i, h);
    }

    method Claim(prev: nat, t: nat, h: nat, n: nat, ghost a: nat, ghost i: nat)
      requires Valid() && i < |free| && t == free[i].at && prev == if i == 0 then 0 else free[i - 1].at
      requires n >= 1 && a >= 1 && Placement(free[i], n, a, h)
      modifies this`fl, this`free, this`live, mem
      ensures Valid() && h !in old(live) && free == Carve(old(free), i, h, n)
      ensures live == old(live)[h := Live(Taken(old(free)[i], h, n).len, n, a)]
    {
      SoundAlloc(free, live, i, n, a, h);
      CarveWithin(free, i, n, a, h, mem.Length);
      ghost var u := Taken(free[i], h, n);
      forall g | g in live ensures !Covers(free, g) {
        OffAt(Block(g, live[g].len), free);
      }
      CarveAt(prev, t, h, n, i);
      live := live[h := Live(u.len, n, a)];
    }

    /** The first loop between two turns: rs passed, t still linked. */
    ghost predicate Passing(r: nat, rs: seq<Block>, t: seq<Block>)
      reads this, mem
    {
      && Facing(rs, t)
      && Chained(mem[..], rs, 0) && r == LinkTo(rs, 0) && Chained(mem[..], t, 0) && fl == LinkTo(t, 0)
    }

    /** One turn of ff_free's first loop. */
    method PassOne(r: nat, m: nat, ghost rs: seq<Block>, ghost t: seq<Block>, ghost zone: iset<nat>)
      returns (r': nat, ghost rs': seq<Block>, ghost t': seq<Block>)
      requires Passing(r, rs, t) && t != [] && t[0].at < m && Heads(t, zone)
      modifies this`fl, mem
      ensures Passing(r', rs', t') && Unlink(rs', t', m) == Unlink(rs, t, m) && |t'| < |t| && Heads(t', zone)
      ensures forall x :: 0 <= x < mem.Length && x !in zone ==> mem[x] == old(mem[x])
    {
      ghost var m0 := mem[..];
      FacingClear(rs, t);
      ReverseStep(m0, rs, t);
      r', rs', t' := fl, [t[0]] + rs, t[1..];
      fl := mem[r' + 1];
      mem[r' + 1] := r;
      assert mem[..] == m0[t[0].at + 1 := LinkTo(rs, 0)];
    }

    /** ff_free's first loop: the blocks below m leave the list for one in the opposite order. */
    method UnlinkBelow(m: nat, ghost zone: iset<nat>) returns (r: nat)
      requires Linked() && Heads(free, zone)
      modifies this`fl, mem
      ensures Passing(r, Unlink([], free, m).rs, Unlink([], free, m).t)
      ensures forall x :: 0 <= x < mem.Length && x !in zone ==> mem[x] == old(mem[x])
    {
      r := 0;
      ghost var rs, t := [], free;
      while fl != 0 && fl < m
        invariant Passing(r, rs, t) && Unlink(rs, t, m) == Unlink([], free, m) && Heads(t, zone)
        invariant forall x :: 0 <= x < mem.Length && x !in zone ==> mem[x] == old(mem[x])
        decreases |t|
      {
        r, rs, t := PassOne(r, m, rs, t, zone);
      }
    }

    /** One turn of ff_free's second loop: m goes before the list, merged with the first where they touch. */
    method PushOne(m: nat, ghost b: Block, ghost rs: seq<Block>, ghost t: seq<Block>)
      requires Canonical(t) && b.len >= 2 && (t != [] ==> b.End() <= t[0].at)
      requires Falling(rs) && (rs != [] ==> rs[0].End() <= b.at)
      requires b.at == m > 0 && m + 2 <= mem.Length && mem[m] == b.len
      requires Chained(mem[..], rs, 0) && Chained(mem[..], t, 0) && fl == LinkTo(t, 0)
      modifies this`fl, mem
      ensures Chained(mem[..], rs, 0) && Chained(mem[..], Push(b, t), 0) && fl == m
      ensures forall x :: 0 <= x < mem.Length && x != m && x != m + 1 ==> mem[x] == old(mem[x])
    {
      ghost var m0 := mem[..];
      PushStep(m0, rs, b, t);
      if fl != m + mem[m] {
        mem[m + 1] := fl;
      } else {
        var f := fl;
        mem[m] := mem[m] + mem[f];
        mem[m + 1] := mem[f + 1];
      }
      fl := m;
      assert mem[..] == PushMem(m0, b, t);
    }

    /** The second loop between two turns: rs still to go back before the list p. */
    ghost predicate Putting(r: nat, rs: seq<Block>, p: seq<Block>)
      reads this, mem
    {
      && Above(rs, p) && p != []
      && Chained(mem[..], rs, 0) && r == LinkTo(rs, 0) && Chained(mem[..], p, 0) && fl == LinkTo(p, 0)
    }

    /** On to the next reversed block, and its turn. */
    method PushNext(r: nat, ghost rs: seq<Block>, ghost p: seq<Block>, ghost zone: iset<nat>)
      returns (r': nat, ghost rs': seq<Block>, ghost p': seq<Block>)
      requires Putting(r, rs, p) && rs != [] && Heads(rs, zone)
      modifies this`fl, mem
      ensures Putting(r', rs', p') && Heads(rs', zone) && |rs'| < |rs| && PutAll(rs', p') == PutAll(rs, p)
      ensures forall x :: 0 <= x < mem.Length && x !in zone ==> mem[x] == old(mem[x])
    {
      AboveNext(rs, p);
      r', rs', p' := mem[r + 1], rs[1..], Push(rs[0], p);
      PushOne(r, rs[0], rs[1..], p);
    }

    /** The rest of ff_free's second loop: the reversed blocks go back; only words of the zone change. */
    method PutBack(r0: nat, ghost rs0: seq<Block>, ghost p0: seq<Block>, ghost zone: iset<nat>)
      requires Putting(r0, rs0, p0) && Heads(rs0, zone)
      modifies this`fl, mem
      ensures Chained(mem[..], PutAll(rs0, p0), 0) && fl == LinkTo(PutAll(rs0, p0), 0)
      ensures forall x :: 0 <= x < mem.Length && x !in zone ==> mem[x] == old(mem[x])
    {
      var r := r0;
      ghost var rs, p := rs0, p0;
      while r != 0
        invariant Putting(r, rs, p) && Heads(rs, zone) && PutAll(rs, p) == PutAll(rs0, p0)
        invariant forall x :: 0 <= x < mem.Length && x !in zone ==> mem[x] == old(mem[x])
        decreases |rs|
      {
        r, rs, p := PushNext(r, rs, p, zone);
      }
    }

    /** ff_free of the block at header h: the list is again the maximal runs, of its words and the block's. */
    method Release(h: nat, ghost b: Block, ghost zone: iset<nat>)
      requires Linked() && b.at == h > 0 && b.len >= 2 && b.End() <= mem.Length && mem[h] == b.len
      requires Off(b, free) && Heads(free, zone) && h in zone && h + 1 in zone
      modifies this`fl, this`free, mem
      ensures free == Freed(old(free), b) && Chained(mem[..], free, 0) && fl == LinkTo(free, 0)
      ensures forall x :: 0 <= x < mem.Length && x !in zone ==> mem[x] == old(mem[x])
    {
      ghost var s := Unlink([], free, h);
      UnlinkedAbove(free, b);
      UnlinkHeads([], free, h, zone);
      PushKeeps(b, s.t);
      assert Heads(free, iset x | x in zone && x != h);
      var r := UnlinkBelow(h, iset x | x in zone && x != h);
      PushOne(h, b, s.rs, s.t);
      PutBack(r, s.rs, Push(b, s.t), zone);
      free := Freed(free, b);
    }

    /** ff_free: nothing for 0; an allocation's words go back. */
    method Free(p: nat)
      requires Valid() && (p != 0 ==> p - 1 in live)
      modifies this`fl, this`free, this`live, mem
      ensures Valid()
      ensures p == 0 ==> free == old(free) && live == old(live)
      ensures p != 0 ==> live == old(live) - {p - 1} && free == Freed(old(free), Block(p - 1, old(live)[p - 1].len))
    {
      if p == 0 { return; }
      ghost var h := p - 1;
      ghost var b := Block(h, live[h].len);
      FreeReady(free, live, h, mem.Length);
      Release(p - 1, b, Zone(free, b));
      live := live - {p - 1};
    }

    /** meminit: a region of fresh words joins the arena as a free block. */
    method Donate(h: nat, len: nat)
      requires Valid() && h > 0 && len >= 2 && h + len <= mem.Length && Off(Block(h, len), free)
      requires forall g :: g in live ==> g + live[g].len <= h || h + len <= g
      modifies this`fl, this`free, mem
      ensures Valid() && free == Freed(old(free), Block(h, len))
    {
      ghost var b := Block(h, len);
      ghost var zone := iset x: nat | Covers(free, x) || b.Has(x);
      SoundDonate(free, live, b);
      FreedWithin(free, b, mem.Length);
      HeadsCovered(free, zone);
      forall g | g in live ensures g !in zone {
        OffAt(Block(g, live[g].len), free);
      }
      ghost var m := mem[..];
      mem[h] := len;
      ChainedKeeps(m, mem[..], free, 0);
      Release(h, b, zone);
    }
  }
}
