/** The sizes src/love/gc.c gives its blocks: every block a major tries holds the worst case, a minor's
    promotion fits, a served request fits, and the nursery grows past its ceiling for a request only. */
module GcSize {
  import opened GcHeap
  import opened GcEngine
  import opened GcPass
  import opened GcCore

  /** What the nursery's ceiling is of the live set, and the room past its survivors a major leaves. */
  const QN: nat := 2
  const QD: nat := 1
  const FN: nat := 2
  const FD: nat := 1
  const SLACK: nat := 16

  function Up(w: nat, step: nat): (t: nat)
    requires step >= 1
  { (w + step - 1) / step * step }

  lemma UpIs(w: nat, step: nat)
    requires step >= 1
    ensures w <= Up(w, step) < w + step
  {
    var q, r := (w + step - 1) / step, (w + step - 1) % step;
    assert w + step - 1 == step * q + r;
    assert q * step == step * q;
  }

  lemma MulMono(a: nat, b: nat, s: nat)
    requires a <= b
    ensures a * s <= b * s
  {
  }

  lemma DivGe(cap: nat, k: nat, s: nat)
    requires s >= 1 && cap >= k * s
    ensures cap / s >= k
  {
    var q, r := cap / s, cap % s;
    assert cap == s * q + r;
    if k > q { MulMono(q + 1, k, s); }
  }

  /** Whole steps of cap still hold what fewer whole steps held. */
  lemma DownHolds(cap: nat, w: nat, step: nat)
    requires step >= 1 && cap >= Up(w, step)
    ensures cap / step * step >= Up(w, step)
  {
    var k := (w + step - 1) / step;
    DivGe(cap, k, step);
    MulMono(k, cap / step, step);
  }

  /** gc_target: the pool for v survivors and a promotion of n. */
  function Target(n: nat, v: nat, step: nat): (t: nat)
    requires step >= 1
  {
    var t := Up(v + v * FN / FD + n + SLACK, step);
    if t < step then step else t
  }

  lemma TargetHolds(n: nat, v: nat, step: nat)
    requires step >= 1
    ensures Target(n, v, step) >= v + n + SLACK
  {
    UpIs(v + v * FN / FD + n + SLACK, step);
  }

  /** gc_ncap: the nursery's ceiling. */
  function Ceiling(live: nat, floor: nat): (c: nat)
    ensures c >= floor
  { var c := live * QN / QD; if c < floor then floor else c }

  /** major_share, at_share. */
  function Share(budget: nat, len: nat): (n: nat) { if budget > len then (budget - len) / 2 else 0 }

  predicate AtShare(budget: nat, pool: nat, step: nat, floor: nat) { budget > 0 && 2 * (pool + step) + floor > budget }

  /** please_'s test: the pool has not the room past what it holds; at its share of the budget, for a nursery
      more. */
  predicate Short(budget: nat, step: nat, floor: nat, len: nat, pool: nat, used: nat, svu: nat, req: nat) {
    pool - used < (if AtShare(budget, pool, step, floor) then 2 * len else len) + svu + req + SLACK
  }

  // ----- a major's block

  /** What a major asks for, memory and the budget aside. */
  function Wish(need: nat, len: nat, req: nat, live: nat, step: nat): (to: nat)
    requires step >= 1
    ensures to >= need + len + req + SLACK && to >= Target(len + req, live, step)
  {
    var hold, prior := need + len + req + SLACK, Target(len + req, live, step);
    UpIs(if hold > prior then hold else prior, step);
    Up(if hold > prior then hold else prior, step)
  }

  /** In whole steps, all that may live. */
  function Tight(need: nat, step: nat): (to: nat)
    requires step >= 1
    ensures to >= need
  { UpIs(need, step); if Up(need, step) < step then step else Up(need, step) }

  /** What of a share is whole steps, where that is more. */
  function Clipped(need: nat, cap: nat, step: nat): (to: nat)
    requires step >= 1
    ensures to >= need
  {
    if cap > Tight(need, step) then
      UpIs(need, step);
      DownHolds(cap, need, step);
      cap / step * step
    else Tight(need, step)
  }

  /** And what it asks for first, within the budget. */
  function Block(need: nat, len: nat, req: nat, live: nat, step: nat, pool: nat, budget: nat): (to: nat)
    requires step >= 1
    ensures need <= to && (to >= Wish(need, len, req, live, step) || budget > 0)
  {
    var wish, cap := Wish(need, len, req, live, step), Share(budget, len);
    if budget == 0 || wish <= cap then wish else
      var to := Clipped(need, cap, step);
      if need <= pool && to < pool then pool else to
  }

  /** The block gen_major gets, trying smaller ones where memory refuses; the sizes it asked for; tight, that
      it is less than it wanted. None is too small for all that may live. */
  method MajorBlock(need: nat, len: nat, req: nat, live: nat, step: nat, pool: nat, budget: nat, grants: nat -> bool)
    returns (ok: bool, to: nat, tight: bool, ghost asked: seq<nat>)
    requires step >= 1
    ensures asked != [] && asked[0] == Block(need, len, req, live, step, pool, budget)
    ensures forall i :: 0 <= i < |asked| ==> asked[i] >= need
    ensures ok ==> to >= need && to == asked[|asked| - 1] && grants(to) && forall i :: 0 <= i < |asked| - 1 ==> !grants(asked[i])
    ensures !ok ==> !grants(need) && forall i :: 0 <= i < |asked| ==> !grants(asked[i])
    ensures var first := Block(need, len, req, live, step, pool, budget);
            && (first > Tight(need, step) && !grants(first) && grants(Tight(need, step)) ==> ok && to == Tight(need, step))
            && (grants(need) ==> ok)
            && (ok && to != first ==> to == need || (to == Tight(need, step) && to < first))
    ensures tight <==> to < Wish(need, len, req, live, step)
  {
    to := Wish(need, len, req, live, step);
    var free, needStep := to, Tight(need, step);
    if budget > 0 {
      var cap := Share(budget, len);
      if to > cap {
        if cap > needStep {
          UpIs(need, step);
          DownHolds(cap, need, step);
          to := cap / step * step;
        } else {
          to := needStep;
        }
        if need <= pool && to < pool { to := pool; }
      }
    }
    asked := [to];
    ok := grants(to);
    if !ok && to > needStep {
      to := needStep;
      asked := asked + [to];
      ok := grants(to);
    }
    if !ok && need < to {
      to := need;
      asked := asked + [to];
      ok := grants(to);
    }
    tight := to < free;
  }

  function PoolOf(to: nat, nr: nat, v: nat, step: nat): (pool: nat)
    requires step >= 1
  { if Target(nr, v, step) > to then to else Target(nr, v, step) }

  /** What of its block a major keeps as its pool, v words being what survived. */
  method MajorPool(to: nat, v: nat, nr: nat, step: nat, tight0: bool) returns (pool: nat, tight: bool)
    requires step >= 1 && v <= to
    ensures v <= pool <= to && (tight0 ==> tight) && (!tight0 ==> (tight <==> Target(nr, v, step) > to))
    ensures !tight ==> pool == Target(nr, v, step) && pool - v >= nr + SLACK
    ensures pool == PoolOf(to, nr, v, step)
  {
    TargetHolds(nr, v, step);
    pool, tight := Target(nr, v, step), tight0;
    if pool > to { pool, tight := to, true; }
  }

  // ----- what the budget is for

  /** A share is the most of which two and the nursery are within the budget. */
  lemma ShareIs(budget: nat, len: nat)
    requires budget > len
    ensures 2 * Share(budget, len) + len <= budget < 2 * (Share(budget, len) + 1) + len
  {
  }

  /** A block, the pool it is copied from and the nursery are within the budget, where what may live and that pool
      are within a share; else the block is no larger than what may live, in whole steps, or than the pool was. */
  lemma BlockFits(need: nat, len: nat, req: nat, live: nat, step: nat, pool: nat, budget: nat)
    requires step >= 1 && budget > len
    ensures var to := Block(need, len, req, live, step, pool, budget);
            && (to <= Share(budget, len) || to == Tight(need, step) || to == pool)
            && (Tight(need, step) <= Share(budget, len) && pool <= Share(budget, len) ==> to + pool + len <= budget)
  {
    var cap := Share(budget, len);
    ShareIs(budget, len);
    DownLess(cap, step);
  }

  lemma DownLess(cap: nat, step: nat)
    requires step >= 1
    ensures cap / step * step <= cap
  {
    assert cap == step * (cap / step) + cap % step;
  }

  /** A pool is at its share just where a step more of it would pass what a nursery at its floor leaves it. */
  lemma AtShareIs(budget: nat, pool: nat, step: nat, floor: nat)
    requires step >= 1
    ensures AtShare(budget, pool, step, floor) <==> budget > 0 && pool + step > Share(budget, floor)
  {
  }

  /** The nursery may be twice what lives, and its floor however little does. */
  lemma CeilingIs(live: nat, floor: nat)
    ensures Ceiling(live, floor) >= 2 * live && Ceiling(live, floor) >= floor && (Ceiling(live, floor) == 2 * live || Ceiling(live, floor) == floor)
  {
  }

  /** The pool for v survivors is room for two more of them, a promotion and the slack, in the fewest whole steps. */
  lemma TargetIs(n: nat, v: nat, step: nat)
    requires step >= 1
    ensures var t := Target(n, v, step);
            && t >= step && t >= 3 * v + n + 16 && (t < 3 * v + n + 16 + step || t == step) && t % step == 0
  {
    UpIs(v + v * FN / FD + n + SLACK, step);
    UpWhole(v + v * FN / FD + n + SLACK, step);
  }

  lemma UpWhole(w: nat, step: nat)
    requires step >= 1
    ensures Up(w, step) % step == 0
  {
    TimesWhole((w + step - 1) / step, step);
  }

  lemma {:induction false} TimesWhole(q: nat, step: nat)
    requires step >= 1
    ensures q * step % step == 0
    decreases q
  {
    if q > 0 {
      TimesWhole(q - 1, step);
      assert q * step == (q - 1) * step + step;
      AddWhole((q - 1) * step, step);
    }
  }

  lemma AddWhole(a: nat, step: nat)
    requires step >= 1 && a % step == 0
    ensures (a + step) % step == 0
  {
    assert a == step * (a / step);
    assert a + step == step * (a / step + 1);
    DivIs(a + step, step, a / step + 1);
  }

  // ----- when a major's pool asks for another

  /** With its ask, a major makes the next collection a minor just when the pool it leaves is not at its share
      of the budget, or has room past the survivors for two nurseries. */
  lemma NextMinor(budget: nat, step: nat, floor: nat, len: nat, req: nat, v: nat, len1: nat, req1: nat)
    requires step >= 1 && len1 <= len && req1 <= req
    ensures var pool := Target(len + req, v, step);
            !Short(budget, step, floor, len1, pool, v, 0, req1)
            <==> !AtShare(budget, pool, step, floor) || pool - v >= 2 * len1 + req1 + SLACK
  {
    TargetHolds(len + req, v, step);
  }

  /** So a live set past half a nursery is enough; and where the pool is at its share and the live set a step
      short of that, and the pool more than one step, it is not. */
  lemma LiveEnough(budget: nat, step: nat, floor: nat, len: nat, req: nat, v: nat, len1: nat, req1: nat)
    requires step >= 1 && len1 <= len && req1 <= req
    ensures var pool := Target(len + req, v, step);
            && (2 * v + len + req >= 2 * len1 + req1 ==> !Short(budget, step, floor, len1, pool, v, 0, req1))
            && (2 * v + len + req + step <= 2 * len1 + req1 && AtShare(budget, pool, step, floor) && pool > step
                ==> Short(budget, step, floor, len1, pool, v, 0, req1))
  {
    TargetHolds(len + req, v, step);
    UpIs(v + v * FN / FD + len + req + SLACK, step);
  }

  /** The pool after n collections in a row, nothing new living and every block granted. */
  function PoolAfter(budget: nat, step: nat, floor: nat, len: nat, req: nat, v: nat, pool: nat, n: nat): (p: nat)
    requires step >= 1 && v <= pool
    ensures p >= v
  {
    if n == 0 then pool else
      var p := PoolAfter(budget, step, floor, len, req, v, pool, n - 1);
      if !Short(budget, step, floor, len, p, v, 0, req) then p else
        var to := Block(v, len, req, v, step, p, budget);
        TargetHolds(len + req, v, step);
        PoolOf(to, len + req, v, step)
  }

  /** Where it is not enough, and a major's block is within the budget, every collection from then on is a
      major that frees nothing, for as long as nothing more lives. */
  lemma {:induction false} Latched(budget: nat, step: nat, floor: nat, len: nat, req: nat, v: nat, n: nat)
    requires step >= 1 && Wish(v, len, req, v, step) <= Share(budget, len)
    ensures var pool := Target(len + req, v, step);
            && v <= pool && PoolAfter(budget, step, floor, len, req, v, pool, n) == pool
            && (Short(budget, step, floor, len, PoolAfter(budget, step, floor, len, req, v, pool, n), v, 0, req)
                <==> AtShare(budget, pool, step, floor) && pool - v < 2 * len + req + SLACK)
  {
    var pool := Target(len + req, v, step);
    TargetHolds(len + req, v, step);
    NextMinor(budget, step, floor, len, req, v, len, req);
    if n > 0 { Latched(budget, step, floor, len, req, v, n - 1); }
  }

  /** A budget of six nurseries does so, with nothing living. */
  lemma LatchedAt(budget: nat, len: nat, n: nat)
    requires budget == 6 * len && len > SLACK
    ensures PoolAfter(budget, len, len, len, 0, 0, 2 * len, n) == 2 * len && Short(budget, len, len, len, 2 * len, 0, 0, 0)
    ensures AtShare(budget, 2 * len, len, len) && Wish(0, len, 0, 0, len) == 2 * len <= Share(budget, len)
  {
    UpTwo(len);
    Latched(budget, len, len, len, 0, 0, n);
  }

  lemma UpTwo(len: nat)
    requires len > SLACK
    ensures Up(len + SLACK, len) == 2 * len && Up(2 * len, len) == 2 * len
  {
    DivIs(len + SLACK + len - 1, len, 2);
    DivIs(2 * len + len - 1, len, 2);
  }

  lemma DivIs(a: nat, s: nat, q: nat)
    requires s >= 1 && q * s <= a < q * s + s
    ensures a / s == q
  {
    DivGe(a, q, s);
    if a / s > q { MulMono(q + 1, a / s, s); }
  }

  // ----- the nursery

  function Pow2(k: nat): (p: nat)
    ensures p >= 1
  { if k == 0 then 1 else 2 * Pow2(k - 1) }

  /** The doublings of the arena that copying over the setpoint asks for: the fewest under which the words
      given out, as often doubled, are up to the words copied. */
  method Doubled(arena0: nat, copied: nat, alloc: nat, ratio: nat) returns (arena: nat, ghost k: nat)
    requires alloc >= 1
    ensures arena == arena0 * Pow2(k) && copied * ratio <= alloc * Pow2(k)
    ensures k > 0 ==> copied * ratio > alloc * Pow2(k - 1)
  {
    arena, k := arena0, 0;
    var wa := alloc;
    while copied * ratio > wa
      invariant wa >= 1 && arena == arena0 * Pow2(k) && wa == alloc * Pow2(k)
      invariant k > 0 ==> copied * ratio > alloc * Pow2(k - 1)
      decreases copied * ratio - wa
    {
      Twice(arena0, Pow2(k));
      Twice(alloc, Pow2(k));
      arena, wa, k := 2 * arena, 2 * wa, k + 1;
    }
  }

  lemma Twice(a: nat, p: nat)
    ensures a * (2 * p) == 2 * (a * p)
  {
  }

  /** What one window of minors has given out and copied, and how many over the setpoint came in a row. */
  datatype Window = Window(alloc: nat, copied: nat, lean: nat)

  /** k doublings of what was given out, made odd, are the fewest that copying has not passed. */
  ghost predicate Fewest(a: nat, c: nat, ratio: nat, k: nat) {
    var odd := a + 1 - a % 2;
    c * ratio <= odd * Pow2(k) && (k > 0 ==> c * ratio > odd * Pow2(k - 1))
  }

  /** What a window that has seen so much and copied so much more comes to, and the nursery it asks for. */
  ghost predicate Steered(w0: Window, seen: nat, copied: nat, len: nat, ratio: nat, w: Window, arena: nat) {
    var a, c := w0.alloc + seen, w0.copied + copied;
    && arena >= len
    && (arena > len ==> w0.lean >= 1 && c * ratio > a && w == Window(0, 0, 0))
    && (c * ratio <= a ==> arena == len && w == if a > 8 * len then Window(0, 0, 0) else Window(a, c, w0.lean))
    && (c * ratio > a && w0.lean == 0 ==> arena == len && w == Window(a, c, 1))
    && (c * ratio > a && w0.lean >= 1 ==> w == Window(0, 0, 0) && exists k :: Fewest(a, c, ratio, k) && arena == len * Pow2(k))
    && (c * ratio > a + 1 && w0.lean >= 1 && len > 0 ==> arena >= 2 * len)
  }

  ghost function Steers(w0: Window, seen: nat, copied: nat, len: nat, ratio: nat): (s: iset<(Window, nat)>) {
    iset w: Window, arena: nat | Steered(w0, seen, copied, len, ratio, w, arena) :: (w, arena)
  }

  /** The nursery's wish past a minor: grown at the second window in a row over the setpoint. */
  method Steer(w0: Window, seen: nat, copied: nat, len: nat, ratio: nat) returns (w: Window, arena: nat)
    ensures (w, arena) in Steers(w0, seen, copied, len, ratio)
  {
    w, arena := Window(w0.alloc + seen, w0.copied + copied, w0.lean), len;
    if w.copied * ratio > w.alloc {
      w := w.(lean := w.lean + 1);
      if w.lean >= 2 {
        ghost var k;
        arena, k := Doubled(len, w.copied, w.alloc + 1 - w.alloc % 2, ratio);
        assert Fewest(w.alloc, w.copied, ratio, k);
        Grows(len, Pow2(k));
        if k > 0 { Grows(2 * len, Pow2(k - 1)); }
        w := Window(0, 0, 0);
      }
    } else if w.alloc > 8 * len {
      w := Window(0, 0, 0);
    }
  }

  lemma Grows(a: nat, p: nat)
    requires p >= 1
    ensures a * p >= a
  {
  }

  /** The budget past twice what lives, and the pool's room where a major was tight, are several such nurseries: more
      of them where the pool is at its share. */
  predicate Affords(n: nat, req0: nat, live: nat, free: nat, budget: nat, share: bool, tight: bool) {
    && (budget > 0 && n > 0 ==> (if share then 8 else 4) * n + 2 * live <= budget)
    && (tight && n > 0 ==> (if share then 2 else 1) * n + req0 + SLACK <= free)
  }

  /** The nursery's size past a collection: what the window asks, under the budget, the pool's room and the
      ceiling, and never under the floor or the request. */
  method Arena(len: nat, wanted: nat, req: nat, req0: nat, live: nat, free: nat, floor: nat, budget: nat, share: bool, tight: bool)
    returns (arena: nat)
    ensures arena >= req && arena >= floor
    ensures arena > len && arena > Ceiling(live, floor) ==> arena == req
    ensures arena > len && arena > req && arena > floor ==> arena + req0 + SLACK <= free
    ensures arena > len && arena > req && arena > floor ==> wanted > len
    ensures arena > req && arena > floor ==> Affords(if arena < len then arena else len, req0, live, free, budget, share, tight)
    ensures arena < len && arena < wanted ==> !Affords(arena + 1, req0, live, free, budget, share, tight)
    ensures wanted > len && Affords(len + 1, req0, live, free, budget, share, tight) ==>
              arena >= len && (arena >= Ceiling(live, floor) || arena + req0 + SLACK >= free)
  {
    arena := wanted;
    if budget > 0 {
      var lv := 2 * live;
      var room := if budget > lv then (budget - lv) / (if share then 8 else 4) else 0;
      if arena > room { arena := room; }
    }
    var fit := if free > req0 + SLACK then free - req0 - SLACK else 0;
    if tight {
      var half := if share then fit / 2 else fit;
      if arena > half { arena := half; }
    }
    if arena > len {
      var c := Ceiling(live, floor);
      var top := if c < fit then c else fit;
      arena := if top > len then top else len;
    }
    if arena < floor { arena := floor; }
    if arena < req { arena := req; }
  }

  /** What a collection asks for: from the words a minor copied, the nursery wanted; and the size then asked of
      memory. */
  datatype Asks = Asks(copied: nat, wanted: nat, size: nat)

  // ----- the whole

  /** A core with its pools: the nursery's, of len words, base of them the core's own and its stack's; the
      major's. And the collections so far, the minors among them. */
  class Store {
    const c: Collector
    const floor: nat
    const step: nat
    const budget: nat
    const ratio: nat
    var len: nat
    var base: nat
    var pool: nat
    var live: nat
    var window: Window
    var gcs: nat
    var minors: nat

    ghost predicate Valid()
      reads this, c
    {
      && c.Valid() && step >= 1 && floor <= len
      && base + c.s.nused <= len && c.s.mused <= pool
    }

    constructor (hash: GcRemember.Entry -> nat, floor: nat, step: nat, budget: nat, ratio: nat, base: nat)
      requires step >= 1
      ensures Valid() && fresh(c) && c.heap == map[] && c.roots == []
    {
      c := new Collector(hash);
      this.floor, this.step, this.budget, this.ratio, this.base := floor, step, budget, ratio, base;
      len, pool, live := base + floor, step, 0;
      window, gcs, minors := Window(0, 0, 0), 0, 0;
      new;
      WordsNone(c.heap);
    }

    /** There is room for req0 words. */
    ghost predicate Served(req0: nat)
      reads this, c
    { Valid() && base + c.s.nused + req0 <= len }

    /** please_'s own test, for a request. */
    ghost predicate MajorNext(req0: nat)
      reads this`len, this`pool, c`s, c`rs
    { c.rs.miss > 0 || Short(budget, step, floor, len, pool, c.s.mused, c.s.svused, req0) }

    /** A bump in the nursery: of the room served, the object's words are gone. */
    method Alloc(o: Obj) returns (w: Word)
      requires Served(o.Size()) && forall j :: 0 <= j < |o.fields| ==> PointsIn(o.fields[j], c.heap.Keys)
      modifies c`heap, c`s
      ensures Valid() && w.Ptr? && w.off == 0 && w.loc !in old(c.heap) && c.heap == old(c.heap)[w.loc := o]
      ensures forall n: nat :: Served(n) <==> old(Served(n + o.Size()))
    {
      w := c.Alloc(o);
    }

    /** please: a collection for req0 words. It leaves the program its heap, and, unless memory refused, the
        words free. major and tight: which it was, and whether the major's block or pool
        is below its wish; over: that a minor's survivors were too many for slen words. */
    method Please(req0: nat, slen: nat, grants: nat -> bool, grow: nat -> bool)
      returns (ok: bool, ghost f: map<Loc, Loc>, ghost major: bool, ghost tight: bool, ghost over: bool, ghost asks: Asks)
      requires Valid()
      modifies this`len, this`pool, this`live, this`window, this`gcs, this`minors, c`heap, c`roots, c`s, c`rs
      ensures Valid() && (ok ==> Served(req0))
      ensures Iso(old(c.heap), old(c.roots), c.heap, c.roots, f)
              || (!ok && c.heap == old(c.heap) && c.roots == old(c.roots))
      ensures major == old(MajorNext(req0)) && (ok ==> gcs == old(gcs) + 1 && minors == old(minors) + if major then 0 else 1)
      ensures ok && major && !tight && len <= old(len) ==>
                forall req1: nat :: req1 <= req0 ==>
                  (!MajorNext(req1) <==> !AtShare(budget, pool, step, floor) || pool - c.s.mused >= 2 * len + req1 + SLACK)
      ensures ok && major && len > old(len) ==> len == req0 + base + base / 4
      ensures !major && !over ==> MinorPlaced(old(c.heap), old(c.roots), old(c.s), slen > 0, slen, old(c.s.mn), c.heap, c.s, false, f)
      ensures !major && over ==> slen > 0 && old(c.s.nused) > slen && c.s.svn == 0
      ensures !major ==> (window, asks.wanted) in Steers(old(window), old(c.s.nused), asks.copied, old(len), ratio)
                         && old(c.s.mused) + asks.copied == c.s.mused + c.s.svused
      ensures !ok && major ==> RefusedMajor(old(c.s.mused + c.s.nused + c.s.svused), grants) || RefusedSize(req0, asks.size, grow)
      ensures !ok && !major ==> RefusedSize(req0, asks.size, grow)
    {
      asks := Asks(0, 0, 0);
      major := MajorNext(req0);
      tight, over := false, false;
      var early := AtShare(budget, pool, step, floor);
      var free := pool - c.s.mused;
      if c.rs.miss > 0 || free < (if early then 2 else 1) * len + c.s.svused + req0 + SLACK {
        ok, f, tight, asks := PleaseMajor(req0, grants, grow);
      } else {
        ok, f, over, asks := PleaseMinor(req0, slen, grow);
      }
    }

    method PleaseMajor(req0: nat, grants: nat -> bool, grow: nat -> bool)
      returns (ok: bool, ghost f: map<Loc, Loc>, tight: bool, ghost asks: Asks)
      requires Valid()
      modifies this`len, this`pool, this`live, this`gcs, c`heap, c`roots, c`s, c`rs
      ensures Valid() && (ok ==> Served(req0))
      ensures Iso(old(c.heap), old(c.roots), c.heap, c.roots, f)
              || (!ok && c.heap == old(c.heap) && c.roots == old(c.roots))
      ensures ok ==> gcs == old(gcs) + 1
      ensures ok && !tight && len <= old(len) ==>
                forall req1: nat :: req1 <= req0 ==>
                  (!MajorNext(req1) <==> !AtShare(budget, pool, step, floor) || pool - c.s.mused >= 2 * len + req1 + SLACK)
      ensures ok && len > old(len) ==> len == req0 + base + base / 4
      ensures !ok ==> RefusedMajor(old(c.s.mused + c.s.nused + c.s.svused), grants) || RefusedSize(req0, asks.size, grow)
    {
      asks := Asks(0, 0, 0);
      ghost var ask;
      ok, tight, f, ask := TakeMajor(req0, grants);
      if ok {
        gcs := gcs + 1;
        ghost var size;
        ok, size := Resize(req0, len, tight, grow);
        asks := Asks(0, 0, size);
      }
    }

    method PleaseMinor(req0: nat, slen: nat, grow: nat -> bool)
      returns (ok: bool, ghost f: map<Loc, Loc>, ghost over: bool, ghost asks: Asks)
      requires Valid() && c.rs.miss == 0 && pool - c.s.mused >= len + c.s.svused + req0 + SLACK
      modifies this`len, this`window, this`gcs, this`minors, c`heap, c`roots, c`s, c`rs
      ensures Valid() && (ok ==> Served(req0)) && Iso(old(c.heap), old(c.roots), c.heap, c.roots, f)
      ensures gcs == old(gcs) + 1 && minors == old(minors) + 1
      ensures !over ==> MinorPlaced(old(c.heap), old(c.roots), old(c.s), slen > 0, slen, old(c.s.mn), c.heap, c.s, false, f)
      ensures over ==> slen > 0 && old(c.s.nused) > slen && c.s.svn == 0
      ensures (window, asks.wanted) in Steers(old(window), old(c.s.nused), asks.copied, old(len), ratio)
      ensures old(c.s.mused) + asks.copied == c.s.mused + c.s.svused
      ensures !ok ==> RefusedSize(req0, asks.size, grow)
    {
      var seen, used := c.s.nused, c.s.mused;
      f, over := TakeMinor(req0, slen);
      minors, gcs := minors + 1, gcs + 1;
      var copied := c.s.mused + c.s.svused - used;
      var wanted := SteerBy(seen, copied);
      ghost var size;
      ok, size := Resize(req0, wanted, false, grow);
      asks := Asks(copied, wanted, size);
    }

    /** No memory for all that might have lived; or more lived than the budget. */
    ghost predicate RefusedMajor(need: nat, grants: nat -> bool)
      reads this, c
    { !grants(need) || (budget > 0 && c.s.mused > budget) }

    /** The nursery is too small for the request, and neither the budget nor memory allows the size for it. */
    ghost predicate RefusedSize(req0: nat, size: nat, grow: nat -> bool)
      reads this
    { len < req0 + base + base / 4 <= size && ((budget > 0 && size > budget) || !grow(size)) }

    /** The major: the live words fit the block, and the pool it leaves. Where it got its ask the pool has room
        for a nursery's promotion again, and the next collection is a minor just when the pool is not at its
        share of the budget or that room is for two. */
    method TakeMajor(req0: nat, grants: nat -> bool) returns (ok: bool, tight: bool, ghost f: map<Loc, Loc>, ghost ask: nat)
      requires Valid()
      modifies this`pool, this`live, c`heap, c`roots, c`s, c`rs
      ensures Valid() && (ok ==> c.s.nused == 0 && c.s.svused == 0 && c.rs.miss == 0)
      ensures Iso(old(c.heap), old(c.roots), c.heap, c.roots, f) || (!ok && c.heap == old(c.heap) && c.roots == old(c.roots))
      ensures ok && budget > 0 ==> c.s.mused <= budget
      ensures ok && !tight ==> pool - c.s.mused >= len + req0 + SLACK && pool == Target(len + req0, c.s.mused, step)
      ensures ok && !tight ==> (!MajorNext(req0) <==> !AtShare(budget, pool, step, floor) || pool - c.s.mused >= 2 * len + req0 + SLACK)
      ensures ok ==> pool <= Target(len + req0, c.s.mused, step) && live == c.s.mused
      ensures ask == old(Block(c.s.mused + c.s.nused + c.s.svused, len, req0, live, step, pool, budget))
      ensures ok && grants(ask) ==> pool == PoolOf(ask, len + req0, c.s.mused, step)
      ensures !ok ==> (budget > 0 && c.s.mused > budget) || !grants(old(c.s.mused + c.s.nused + c.s.svused))
    {
      var to;
      ghost var ask0 := Block(c.s.mused + c.s.nused + c.s.svused, len, req0, live, step, pool, budget);
      ok, to, tight, ask := GetBlock(req0, grants);
      assert ask == ask0;
      if !ok { return false, tight, map[], ask; }
      f := Evacuate();
      tight := LeavePool(to, req0, tight);
      // more live than the budget is a refusal, the heap whole
      if budget > 0 && c.s.mused > budget { return false, tight, f, ask; }
      live := c.s.mused;
    }

    method Evacuate() returns (ghost f: map<Loc, Loc>)
      requires c.Valid()
      modifies c`heap, c`roots, c`s, c`rs
      ensures c.Valid() && Iso(old(c.heap), old(c.roots), c.heap, c.roots, f)
      ensures c.s.nused == 0 && c.s.svused == 0 && c.rs.miss == 0 && c.s.mused <= old(c.s.mused + c.s.nused + c.s.svused)
    {
      f := c.Major();
      NurseryEmpty(c.heap, c.s);
      SurvivorsEmpty(c.heap, c.s);
    }

    /** The pool, when the major is done. */
    method LeavePool(to: nat, req0: nat, tight0: bool) returns (tight: bool)
      requires c.Valid() && step >= 1 && floor <= len && base <= len && c.s.nused == 0 && c.s.svused == 0 && c.rs.miss == 0 && c.s.mused <= to
      modifies this`pool
      ensures Valid() && pool == PoolOf(to, len + req0, c.s.mused, step) && pool <= Target(len + req0, c.s.mused, step) && (tight0 ==> tight)
      ensures !tight ==> pool - c.s.mused >= len + req0 + SLACK && pool == Target(len + req0, c.s.mused, step)
      ensures !tight ==> (!MajorNext(req0) <==> !AtShare(budget, pool, step, floor) || pool - c.s.mused >= 2 * len + req0 + SLACK)
    {
      pool, tight := MajorPool(to, c.s.mused, len + req0, step, tight0);
    }

    method GetBlock(req0: nat, grants: nat -> bool) returns (ok: bool, to: nat, tight: bool, ghost ask: nat)
      requires Valid()
      ensures ask == Block(c.s.mused + c.s.nused + c.s.svused, len, req0, live, step, pool, budget)
      ensures (ok ==> to >= c.s.mused + c.s.nused + c.s.svused && grants(to)) && (grants(ask) ==> ok && to == ask)
      ensures grants(c.s.mused + c.s.nused + c.s.svused) ==> ok
    {
      ghost var asked;
      ok, to, tight, asked := MajorBlock(c.s.mused + c.s.nused + c.s.svused, len, req0, live, step, pool, budget, grants);
      ask := asked[0];
    }

    /** The minor: its promotion is within the room checked for it, with the request's and the slack left. */
    method TakeMinor(req0: nat, slen: nat) returns (ghost f: map<Loc, Loc>, ghost over: bool)
      requires Valid() && c.rs.miss == 0 && pool - c.s.mused >= len + c.s.svused + req0 + SLACK
      modifies c`heap, c`roots, c`s, c`rs
      ensures Valid() && Iso(old(c.heap), old(c.roots), c.heap, c.roots, f) && c.s.nused == 0
      ensures c.s.mused + req0 + SLACK <= pool && c.s.mused + c.s.svused <= old(c.s.mused + c.s.nused + c.s.svused)
      ensures c.s.mused >= old(c.s.mused)
      ensures !over ==> MinorPlaced(old(c.heap), old(c.roots), old(c.s), slen > 0, slen, old(c.s.mn), c.heap, c.s, false, f)
      ensures over ==> slen > 0 && old(c.s.nused) > slen && c.s.svn == 0
    {
      f, over := c.Minor(slen > 0, slen);
      NurseryEmpty(c.heap, c.s);
    }

    /** The window, a minor having seen and copied so much. */
    method SteerBy(seen: nat, copied: nat) returns (wanted: nat)
      modifies this`window
      ensures (window, wanted) in Steers(old(window), seen, copied, len, ratio)
    {
      window, wanted := Steer(window, seen, copied, len, ratio);
    }

    /** The nursery resized; denied, it stays where it still holds the request. */
    method Resize(req0: nat, wanted: nat, tight: bool, grow: nat -> bool) returns (ok: bool, ghost size: nat)
      requires Valid() && c.s.nused == 0
      modifies this`len
      ensures Valid() && (ok ==> Served(req0))
      ensures len > old(len) && len > Ceiling(live, floor) ==> len == req0 + base + base / 4
      ensures len > old(len) ==> wanted > old(len) || len == req0 + base + base / 4
      ensures if size == old(len) || (!(budget > 0 && size > budget) && grow(size)) then ok && len == size
              else len == old(len) && (ok <==> len >= req0 + base + base / 4)
      ensures size >= floor && size >= req0 + base + base / 4
      ensures old(len) > size && wanted > size ==> !Affords(size + 1, req0, live, pool - c.s.mused, budget, AtShare(budget, pool, step, floor), tight)
    {
      var req := req0 + base + base / 4;
      var arena := Arena(len, wanted, req, req0, live, pool - c.s.mused, floor, budget, AtShare(budget, pool, step, floor), tight);
      size := arena;
      if arena == len { return true, size; }
      if (budget == 0 || arena <= budget) && grow(arena) {
        len := arena;
        return true, size;
      }
      ok := len >= req;
    }
  }

  lemma WordsNone(h: Heap)
    requires h == map[]
    ensures forall b :: Of(h, b) == {} && Words(h, Of(h, b)) == 0
  {
    forall b ensures Of(h, b) == {} && Words(h, Of(h, b)) == 0 { assert Of(h, b) == {}; }
  }

  lemma NurseryEmpty(h: Heap, s: Shape)
    requires Shaped(h, s) && Counted(h, s) && s.nn == 0
    ensures s.nused == 0
  {
    assert Of(h, NURSERY) == {};
  }

  lemma SurvivorsEmpty(h: Heap, s: Shape)
    requires Shaped(h, s) && Counted(h, s) && s.svn == 0
    ensures s.svused == 0
  {
    assert Of(h, s.svId) == {};
  }
}
