/** `sortby` (src/love/ev.c): a merge sort that suspends at every comparison. The state that the VM
    keeps on its stack is the fields here; the two object trays are the two arrays. */
module Sortby {
  import opened MergeSpec

  /** sb_pend: nothing asked yet, an answer is awaited, or merged for good. */
  datatype Pend = Fresh | Waiting | Merged

  /** What one step hands back to the VM: a comparison to run, or the sorted elements. */
  datatype Reply<T> = Ask(left: T, right: T) | Answer(sorted: seq<T>)

  function Min(p: nat, q: nat): (r: nat) { if p < q then p else q }

  // ----- one pass as what is left of it, over the tray as a sequence

  /** The pass over s run to its end, with out already put out: the runs s[x..m] and s[y..hi] under
      merge, then the pairs of runs after them. */
  ghost function Finish<T>(le: (T, T) -> bool, out: seq<T>, s: seq<T>, w: nat, x: nat, m: nat, y: nat, hi: nat)
    : (r: seq<T>)
    requires w >= 1 && x <= m <= y <= hi <= |s|
    decreases |s| - hi, m - x + hi - y
  {
    if x < m && (y == hi || le(s[x], s[y])) then Finish(le, out + [s[x]], s, w, x + 1, m, y, hi)
    else if y < hi then Finish(le, out + [s[y]], s, w, x, m, y + 1, hi)
    else if hi < |s| then
      Finish(le, out, s, w, hi, Min(hi + w, |s|), Min(hi + w, |s|), Min(hi + 2 * w, |s|))
    else out
  }

  lemma HeadOut<T>(le: (T, T) -> bool, s: seq<T>, t: seq<T>)
    ensures s != [] && (t == [] || le(s[0], t[0])) ==> Merge(le, s, t) == [s[0]] + Merge(le, s[1..], t)
    ensures t != [] && (s == [] || !le(s[0], t[0])) ==> Merge(le, s, t) == [t[0]] + Merge(le, s, t[1..])
  {
    if t == [] && s != [] { assert s == [s[0]] + s[1..] && Merge(le, s[1..], t) == s[1..]; }
    if s == [] && t != [] { assert t == [t[0]] + t[1..] && Merge(le, s, t[1..]) == t[1..]; }
  }

  lemma PairStarts<T>(le: (T, T) -> bool, s: seq<T>, w: nat, lo: nat)
    requires w >= 1 && lo < |s|
    ensures var m, hi := Min(lo + w, |s|), Min(lo + 2 * w, |s|);
            MergePass(le, s[lo..], w) == Merge(le, s[lo..m], s[m..hi]) + MergePass(le, s[hi..], w)
  {
    var m, hi, t := Min(lo + w, |s|), Min(lo + 2 * w, |s|), s[lo..];
    assert Cut(t, w) == s[lo..m];
    assert Rest(t, w) == s[m..];
    assert Cut(Rest(t, w), w) == s[m..hi];
    assert Rest(Rest(t, w), w) == s[hi..];
  }

  lemma {:induction false} FinishMerges<T>(le: (T, T) -> bool, out: seq<T>, s: seq<T>, w: nat,
                                           x: nat, m: nat, y: nat, hi: nat)
    requires w >= 1 && x <= m <= y <= hi <= |s|
    ensures Finish(le, out, s, w, x, m, y, hi)
         == Finish(le, out + Merge(le, s[x..m], s[y..hi]), s, w, m, m, hi, hi)
    decreases m - x + hi - y
  {
    var l, r := s[x..m], s[y..hi];
    HeadOut(le, l, r);
    if x < m && (y == hi || le(s[x], s[y])) {
      assert l[1..] == s[x + 1..m];
      assert y == hi ==> r == [];
      FinishMerges(le, out + [s[x]], s, w, x + 1, m, y, hi);
      assert out + Merge(le, l, r) == out + [s[x]] + Merge(le, l[1..], r);
    } else if y < hi {
      assert r[1..] == s[y + 1..hi];
      FinishMerges(le, out + [s[y]], s, w, x, m, y + 1, hi);
      assert out + Merge(le, l, r) == out + [s[y]] + Merge(le, l, r[1..]);
    } else {
      assert l == r == [];
      assert out + Merge(le, l, r) == out;
    }
  }

  /** The loop's view of a pass is the specification's. */
  lemma {:induction false} FinishIsPass<T>(le: (T, T) -> bool, out: seq<T>, s: seq<T>, w: nat, m: nat, hi: nat)
    requires w >= 1 && m <= hi <= |s|
    ensures Finish(le, out, s, w, m, m, hi, hi) == out + MergePass(le, s[hi..], w)
    decreases |s| - hi
  {
    if hi < |s| {
      var m', hi' := Min(hi + w, |s|), Min(hi + 2 * w, |s|);
      var g := Merge(le, s[hi..m'], s[m'..hi']);
      FinishMerges(le, out, s, w, hi, m', m', hi');
      FinishIsPass(le, out + g, s, w, m', hi');
      PairStarts(le, s, w, hi);
    } else {
      assert s[hi..] == [];
    }
  }

  /** How often e stands in s[i..j]. */
  ghost function Count<T>(s: seq<T>, i: nat, j: nat, e: T): (r: nat)
    requires i <= j <= |s|
    decreases j - i
  {
    if i == j then 0 else Count(s, i, j - 1, e) + (if s[j - 1] == e then 1 else 0)
  }

  lemma {:induction false} CountSplit<T>(s: seq<T>, i: nat, m: nat, j: nat, e: T)
    requires i <= m <= j <= |s|
    ensures Count(s, i, j, e) == Count(s, i, m, e) + Count(s, m, j, e)
    decreases j - m
  {
    if m < j { CountSplit(s, i, m, j - 1, e); }
  }

  lemma {:induction false} CountPrefix<T>(s: seq<T>, t: seq<T>, j: nat, e: T)
    requires j <= |s| && j <= |t| && forall k :: 0 <= k < j ==> s[k] == t[k]
    ensures Count(s, 0, j, e) == Count(t, 0, j, e)
  {
    if j > 0 { CountPrefix(s, t, j - 1, e); }
  }

  lemma {:induction false} CountIsMultiset<T>(s: seq<T>, j: nat, e: T)
    requires j <= |s|
    ensures Count(s, 0, j, e) == multiset(s[..j])[e]
  {
    if j > 0 {
      CountIsMultiset(s, j - 1, e);
      assert s[..j] == s[..j - 1] + [s[j - 1]];
    }
  }

  /** How often e is put out already or has still to come, whatever the answers. */
  ghost function Tally<T>(out: seq<T>, s: seq<T>, x: nat, m: nat, y: nat, e: T): (r: nat)
    requires x <= m <= y <= |s|
  {
    Count(out, 0, |out|, e) + Count(s, x, m, e) + Count(s, y, |s|, e)
  }

  /** Every element is still there, as often as in the input. */
  ghost predicate Kept<T(!new)>(input: seq<T>, out: seq<T>, s: seq<T>, x: nat, m: nat, y: nat)
    requires x <= m <= y <= |s|
  {
    forall e :: Tally(out, s, x, m, y, e) == multiset(input)[e]
  }

  lemma TallyTakes<T>(out: seq<T>, s: seq<T>, x: nat, m: nat, y: nat, e: T)
    requires x <= m <= y <= |s|
    ensures x < m ==> Tally(out + [s[x]], s, x + 1, m, y, e) == Tally(out, s, x, m, y, e)
    ensures y < |s| ==> Tally(out + [s[y]], s, x, m, y + 1, e) == Tally(out, s, x, m, y, e)
  {
    if x < m {
      CountPrefix(out, out + [s[x]], |out|, e);
      CountSplit(s, x, x + 1, m, e);
    }
    if y < |s| {
      CountPrefix(out, out + [s[y]], |out|, e);
      CountSplit(s, y, y + 1, |s|, e);
    }
  }

  lemma KeptTakes<T(!new)>(input: seq<T>, out: seq<T>, s: seq<T>, x: nat, m: nat, y: nat)
    requires x <= m <= y <= |s| && Kept(input, out, s, x, m, y)
    ensures x < m ==> Kept(input, out + [s[x]], s, x + 1, m, y)
    ensures y < |s| ==> Kept(input, out + [s[y]], s, x, m, y + 1)
  {
    forall e ensures x < m ==> Tally(out + [s[x]], s, x + 1, m, y, e) == multiset(input)[e]
             ensures y < |s| ==> Tally(out + [s[y]], s, x, m, y + 1, e) == multiset(input)[e]
    {
      assert Tally(out, s, x, m, y, e) == multiset(input)[e];
      TallyTakes(out, s, x, m, y, e);
    }
  }

  /** A whole tray with nothing put out, cut anywhere. */
  lemma KeptWhole<T(!new)>(input: seq<T>, s: seq<T>, m: nat)
    requires m <= |s|
    ensures Kept(input, [], s, 0, m, m) <==> multiset(s) == multiset(input)
  {
    forall e ensures Tally([], s, 0, m, m, e) == multiset(s)[e] {
      CountSplit(s, 0, m, |s|, e);
      CountIsMultiset(s, |s|, e);
      assert s[..|s|] == s;
    }
    if Kept(input, [], s, 0, m, m) {
      forall e ensures multiset(s)[e] == multiset(input)[e] {
        assert Tally([], s, 0, m, m, e) == multiset(input)[e];
      }
      assert multiset(s) == multiset(input);
    }
  }

  /** Both runs spent: a pair later cut at m', or the whole put out. */
  lemma KeptNext<T(!new)>(input: seq<T>, out: seq<T>, s: seq<T>, m: nat, hi: nat, m': nat)
    requires m <= hi <= m' <= |s| && Kept(input, out, s, m, m, hi)
    ensures Kept(input, out, s, hi, m', m')
    ensures hi == |s| ==> multiset(out) == multiset(input)
  {
    forall e ensures Tally(out, s, hi, m', m', e) == multiset(input)[e]
             ensures hi == |s| ==> multiset(out)[e] == multiset(input)[e]
    {
      assert Tally(out, s, m, m, hi, e) == multiset(input)[e];
      CountSplit(s, hi, m', |s|, e);
      CountIsMultiset(out, |out|, e);
      assert out[..|out|] == out;
    }
  }

  lemma PassStarts<T>(le: (T, T) -> bool, s: seq<T>, w: nat)
    requires 1 <= w < |s|
    ensures Finish(le, [], s, w, 0, w, w, Min(2 * w, |s|)) == MergePass(le, s, w)
  {
    FinishIsPass(le, [], s, w, 0, 0);
    assert s[0..] == s;
  }

  // ----- the machine on values

  /** The cursors the VM keeps on its stack; the runs under merge are [lo, m) and [m, hi). */
  datatype Cursor = Cursor(n: nat, w: nat, lo: nat, x: nat, m: nat, y: nat, o: nat, hi: nat) {
    predicate Valid() {
      && 1 <= w < n && lo < n
      && lo <= x <= m <= y <= hi
      && m == Min(lo + w, n) && hi == Min(lo + 2 * w, n)
      && o == x + y - m
    }

    /** The pair of runs of v from at. */
    function Pair(at: nat, v: nat): (c: Cursor) {
      var k := Min(at + v, n);
      Cursor(n, v, at, at, k, k, at, Min(at + 2 * v, n))
    }

    function Took(left: bool): (c: Cursor) {
      if left then this.(x := x + 1, o := o + 1) else this.(y := y + 1, o := o + 1)
    }
  }

  /** The trays and the cursors between two comparisons. */
  datatype State<T> = State(a: seq<T>, b: seq<T>, c: Cursor) {
    predicate Valid() { c.Valid() && |a| == |b| == c.n }

    predicate Asks() { c.x < c.m && c.y < c.hi }

    /** The left run's head, or the right's, goes to the other tray. */
    function Take(left: bool): (s: State<T>)
      requires Valid() && (if left then c.x < c.m else c.y < c.hi)
      ensures s.Valid()
    {
      State(a, b[c.o := if left then a[c.x] else a[c.y]], c.Took(left))
    }

    /** Both runs spent: the next pair, or the next pass with the trays swapped and the runs doubled. */
    function Next(): (s: State<T>)
      requires Valid() && c.x == c.m && c.y == c.hi && !Last()
      ensures s.Valid()
    {
      if c.lo + 2 * c.w < c.n then State(a, b, c.Pair(c.lo + 2 * c.w, c.w))
      else State(b, a, c.Pair(0, 2 * c.w))
    }

    /** The pass that is ending leaves one run. */
    predicate Last() { c.lo + 2 * c.w >= c.n && 2 * c.w >= c.n }
  }

  datatype Paused<T> = Asking(s: State<T>) | Done(tray: seq<T>)

  ghost function Said<T>(r: Paused<T>): (q: Reply<T>)
    requires r.Asking? ==> r.s.Valid() && r.s.Asks()
  {
    if r.Done? then Answer(r.tray) else Ask(r.s.a[r.s.c.x], r.s.a[r.s.c.y])
  }

  /** The step's loop: on to the next comparison, or to the end. */
  function Settle<T>(s: State<T>): (r: Paused<T>)
    requires s.Valid()
    ensures r.Asking? ==> r.s.Valid() && r.s.Asks()
    decreases s.c.n - s.c.w, s.c.n - s.c.lo, s.c.n - s.c.o
  {
    if s.Asks() then Asking(s)
    else if s.c.x < s.c.m then Settle(s.Take(true))
    else if s.c.y < s.c.hi then Settle(s.Take(false))
    else if s.Last() then Done(s.b)
    else Settle(s.Next())
  }

  function Setup<T>(list: seq<T>, zero: T): (s: State<T>)
    requires |list| >= 2
    ensures s.Valid()
  {
    State(list, seq(|list|, i => zero), Cursor(|list|, 1, 0, 0, 1, 1, 0, 2))
  }

  /** The machine fed the answers in turn; once it is done it reads no more of them. */
  function Fed<T>(r: Paused<T>, answers: seq<bool>): (q: Paused<T>)
    requires r.Asking? ==> r.s.Valid() && r.s.Asks()
    ensures q.Asking? ==> q.s.Valid() && q.s.Asks()
    decreases |answers|
  {
    if r.Done? || answers == [] then r
    else Fed(Settle(r.s.Take(answers[0])), answers[1..])
  }

  // ----- whatever the answers: nothing lost, and a bound on the comparisons

  ghost predicate Keeps<T(!new)>(input: seq<T>, s: State<T>)
    requires s.Valid()
  {
    Kept(input, s.b[..s.c.o], s.a, s.c.x, s.c.m, s.c.y)
  }

  lemma TakeKeeps<T(!new)>(input: seq<T>, s: State<T>, left: bool)
    requires s.Valid() && (if left then s.c.x < s.c.m else s.c.y < s.c.hi) && Keeps(input, s)
    ensures Keeps(input, s.Take(left))
  {
    KeptTakes(input, s.b[..s.c.o], s.a, s.c.x, s.c.m, s.c.y);
    var t := s.Take(left);
    assert t.b[..t.c.o] == s.b[..s.c.o] + [if left then s.a[s.c.x] else s.a[s.c.y]];
  }

  lemma NextKeeps<T(!new)>(input: seq<T>, s: State<T>)
    requires s.Valid() && s.c.x == s.c.m && s.c.y == s.c.hi && Keeps(input, s)
    ensures s.c.hi == s.c.n ==> multiset(s.b) == multiset(input)
    ensures !s.Last() ==> Keeps(input, s.Next())
  {
    var c, out := s.c, s.b[..s.c.o];
    KeptNext(input, out, s.a, c.m, c.hi, Min(c.hi + c.w, c.n));
    if c.hi == c.n {
      assert out == s.b;
      if !s.Last() {
        KeptWhole(input, s.b, Min(2 * c.w, c.n));
        assert s.Next().b[..0] == [];
      }
    }
  }

  /** The passes done and the elements put out: what bounds the comparisons. */
  ghost function Work(c: Cursor, pass: nat): (k: nat) { pass * c.n + c.o }

  lemma {:induction false} SettleKeeps<T(!new)>(input: seq<T>, s: State<T>, pass: nat) returns (pass': nat)
    requires s.Valid() && s.c.w == Pow2(pass) && Keeps(input, s)
    ensures var r := Settle(s);
            if r.Done? then multiset(r.tray) == multiset(input) && Work(s.c, pass) <= s.c.n * CeilLog2(s.c.n)
            else Keeps(input, r.s) && r.s.c.w == Pow2(pass') && r.s.c.n == s.c.n && Work(s.c, pass) <= Work(r.s.c, pass')
    decreases s.c.n - s.c.w, s.c.n - s.c.lo, s.c.n - s.c.o
  {
    pass' := pass;
    if s.Asks() {
    } else if s.c.x < s.c.m {
      TakeKeeps(input, s, true);
      pass' := SettleKeeps(input, s.Take(true), pass);
    } else if s.c.y < s.c.hi {
      TakeKeeps(input, s, false);
      pass' := SettleKeeps(input, s.Take(false), pass);
    } else {
      NextKeeps(input, s);
      Pow2Below(pass, s.c.n);
      if s.Last() {
        WorkBound(s.c, pass);
      } else if s.c.lo + 2 * s.c.w < s.c.n {
        pass' := SettleKeeps(input, s.Next(), pass);
      } else {
        pass' := SettleKeeps(input, s.Next(), pass + 1);
      }
    }
  }

  lemma MulMono(p: nat, q: nat, n: nat)
    requires p <= q
    ensures p * n <= q * n
  {
  }

  lemma WorkBound(c: Cursor, pass: nat)
    requires c.o <= c.n && pass < CeilLog2(c.n)
    ensures Work(c, pass) <= c.n * CeilLog2(c.n)
  {
    MulMono(pass + 1, CeilLog2(c.n), c.n);
  }

  /** Any answers whatever: at most n * ceil(log2 n) of them are asked for, and what comes out is a
      permutation of what went in. */
  lemma {:induction false} AnyAnswers<T(!new)>(input: seq<T>, r: Paused<T>, pass: nat, asked: nat, answers: seq<bool>)
    requires r.Asking? ==> r.s.Valid() && r.s.Asks() && Keeps(input, r.s) && r.s.c.w == Pow2(pass)
    requires r.Asking? ==> r.s.c.n == |input| && asked <= Work(r.s.c, pass)
    requires r.Done? ==> multiset(r.tray) == multiset(input) && asked <= |input| * CeilLog2(|input|)
    ensures var q := Fed(r, answers);
            if q.Done? then multiset(q.tray) == multiset(input) else asked + |answers| < |input| * CeilLog2(|input|)
    decreases |answers|
  {
    if r.Done? {
    } else if answers == [] {
      Pow2Below(pass, r.s.c.n);
      WorkBound(r.s.c.(o := r.s.c.o + 1), pass);
    } else {
      var t := r.s.Take(answers[0]);
      TakeKeeps(input, r.s, answers[0]);
      var pass' := SettleKeeps(input, t, pass);
      AnyAnswers(input, Settle(t), pass', asked + 1, answers[1..]);
    }
  }

  /** The whole of it, from the setup on. */
  lemma AnyAnswersSort<T(!new)>(list: seq<T>, zero: T, answers: seq<bool>)
    requires |list| >= 2
    ensures var q := Fed(Settle(Setup(list, zero)), answers);
            if q.Done? then multiset(q.tray) == multiset(list) else |answers| < |list| * CeilLog2(|list|)
  {
    var s := Setup(list, zero);
    assert s.b[..0] == [];
    KeptWhole(list, list, 1);
    var pass := SettleKeeps(list, s, 0);
    AnyAnswers(list, Settle(s), pass, 0, answers);
  }

  // ----- answers from a comparator: the specification's sort

  /** Under le's answers this pass puts out the specification's pass. */
  ghost function PassEnd<T>(le: (T, T) -> bool, s: State<T>): (r: seq<T>)
    requires s.Valid()
  {
    Finish(le, s.b[..s.c.o], s.a, s.c.w, s.c.x, s.c.m, s.c.y, s.c.hi)
  }

  lemma TakeOnCourse<T>(le: (T, T) -> bool, s: State<T>, left: bool)
    requires s.Valid() && (if left then s.c.x < s.c.m else s.c.y < s.c.hi)
    requires s.Asks() ==> left == le(s.a[s.c.x], s.a[s.c.y])
    ensures PassEnd(le, s.Take(left)) == PassEnd(le, s)
  {
    var t := s.Take(left);
    assert t.b[..t.c.o] == s.b[..s.c.o] + [if left then s.a[s.c.x] else s.a[s.c.y]];
  }

  lemma NextOnCourse<T>(le: (T, T) -> bool, s: State<T>)
    requires s.Valid() && s.c.x == s.c.m && s.c.y == s.c.hi
    ensures s.c.hi == s.c.n ==> PassEnd(le, s) == s.b
    ensures s.c.hi < s.c.n ==> PassEnd(le, s.Next()) == PassEnd(le, s)
    ensures s.c.hi == s.c.n && !s.Last() ==> PassEnd(le, s.Next()) == MergePass(le, s.b, 2 * s.c.w)
  {
    if s.c.hi == s.c.n {
      assert s.b[..s.c.o] == s.b;
      if !s.Last() {
        assert s.Next().b[..0] == [];
        PassStarts(le, s.b, 2 * s.c.w);
      }
    }
  }

  lemma {:induction false} SettleOnCourse<T>(le: (T, T) -> bool, s: State<T>, target: seq<T>)
    requires s.Valid() && MergeAll(le, PassEnd(le, s), 2 * s.c.w) == target
    ensures var r := Settle(s);
            if r.Done? then r.tray == target
            else MergeAll(le, PassEnd(le, r.s), 2 * r.s.c.w) == target
    decreases s.c.n - s.c.w, s.c.n - s.c.lo, s.c.n - s.c.o
  {
    if s.Asks() {
    } else if s.c.x < s.c.m {
      TakeOnCourse(le, s, true);
      SettleOnCourse(le, s.Take(true), target);
    } else if s.c.y < s.c.hi {
      TakeOnCourse(le, s, false);
      SettleOnCourse(le, s.Take(false), target);
    } else {
      NextOnCourse(le, s);
      if !s.Last() { SettleOnCourse(le, s.Next(), target); }
    }
  }

  /** The answers are le's on the pairs that are asked about. */
  ghost predicate Honest<T>(le: (T, T) -> bool, r: Paused<T>, answers: seq<bool>)
    requires r.Asking? ==> r.s.Valid() && r.s.Asks()
    decreases |answers|
  {
    r.Done? || answers == [] ||
    (answers[0] == le(r.s.a[r.s.c.x], r.s.a[r.s.c.y])
     && Honest(le, Settle(r.s.Take(answers[0])), answers[1..]))
  }

  lemma {:induction false} HonestOnCourse<T>(le: (T, T) -> bool, r: Paused<T>, answers: seq<bool>, target: seq<T>)
    requires r.Asking? ==> r.s.Valid() && r.s.Asks() && MergeAll(le, PassEnd(le, r.s), 2 * r.s.c.w) == target
    requires r.Done? ==> r.tray == target
    requires Honest(le, r, answers)
    ensures var q := Fed(r, answers); q.Done? ==> q.tray == target
    decreases |answers|
  {
    if r.Asking? && answers != [] {
      var t := r.s.Take(answers[0]);
      TakeOnCourse(le, r.s, answers[0]);
      SettleOnCourse(le, t, target);
      HonestOnCourse(le, Settle(t), answers[1..], target);
    }
  }

  lemma SetupOnCourse<T>(le: (T, T) -> bool, list: seq<T>, zero: T)
    requires |list| >= 2
    ensures MergeAll(le, PassEnd(le, Setup(list, zero)), 2) == MergeAll(le, list, 1)
  {
    assert Setup(list, zero).b[..0] == [];
    PassStarts(le, list, 1);
  }

  /** A comparator's answers, so many that no more is asked: the tray is the specification's sort. */
  lemma HonestSort<T>(le: (T, T) -> bool, list: seq<T>, zero: T, answers: seq<bool>)
    requires |list| >= 2 && Honest(le, Settle(Setup(list, zero)), answers)
    ensures var q := Fed(Settle(Setup(list, zero)), answers); q.Done? ==> q.tray == MergeAll(le, list, 1)
  {
    var target := MergeAll(le, list, 1);
    SetupOnCourse(le, list, zero);
    SettleOnCourse(le, Setup(list, zero), target);
    HonestOnCourse(le, Settle(Setup(list, zero)), answers, target);
  }

  /** A total preorder, yes on ties: that sort is the stable one. */
  lemma SortIsStable<T(!new)>(le: (T, T) -> bool, list: seq<T>)
    requires TotalPreorder(le)
    ensures StableSortOf(le, list, MergeAll(le, list, 1))
  {
    UnitRuns(le, list);
    MergeAllStable(le, list, 1);
  }

  // ----- the machine in place

  class Sorter<T(0,!new)> {
    var a: array<T>
    var b: array<T>
    var c: Cursor
    var pend: Pend

    ghost predicate Valid()
      reads this, a, b
    {
      && a != b && a.Length == b.Length == c.n >= 1
      && (pend.Merged? || c.Valid())
      && (pend.Waiting? ==> c.x < c.m && c.y < c.hi)
    }

    ghost function Now(): (s: State<T>)
      reads this, a, b
    {
      State(a[..], b[..], c)
    }

    /** Where the machine stands: what the next step finds. */
    ghost function Standing(): (r: Paused<T>)
      reads this, a, b
      requires Valid()
    {
      match pend
      case Fresh => Settle(Now())
      case Waiting => Asking(Now())
      case Merged => Done(a[..])
    }

    /** sortby_setup: the list into the first tray, the second cleared, the first pair of runs. */
    constructor (list: seq<T>, zero: T)
      requires |list| >= 2
      ensures Valid() && fresh(a) && fresh(b) && pend == Fresh
      ensures Standing() == Settle(Setup(list, zero))
    {
      a := new T[|list|](i requires 0 <= i < |list| => list[i]);
      b := new T[|list|](i => zero);
      c, pend := Cursor(|list|, 1, 0, 0, 1, 1, 0, 2), Fresh;
      new;
      assert Now() == Setup(list, zero);
    }

    ghost predicate InPass()
      reads this, a, b
    {
      a != b && a.Length == b.Length == c.n && c.Valid()
    }

    method Take(left: bool)
      requires InPass() && (if left then c.x < c.m else c.y < c.hi)
      modifies this`c, b
      ensures InPass() && c == old(c).Took(left) && Now() == old(Now()).Take(left)
    {
      b[c.o] := if left then a[c.x] else a[c.y];
      c := c.Took(left);
    }

    /** Both runs spent. */
    method Next() returns (done: bool)
      requires InPass() && c.x == c.m && c.y == c.hi
      modifies this`a, this`b, this`c
      ensures {a, b} == old({a, b}) && c.n == old(c).n && done == old(Now().Last())
      ensures done ==> a != b && a.Length == b.Length == c.n && a[..] == old(b[..])
      ensures !done ==> InPass() && Now() == old(Now()).Next()
    {
      var lo, w := c.lo + 2 * c.w, c.w;
      if lo >= c.n {
        a, b := b, a;
        if 2 * w >= c.n { return true; }
        lo, w := 0, 2 * w;
      }
      c := c.Pair(lo, w);
      done := false;
    }

    /** The step's loop, from wherever the pass stands. */
    method Run() returns (r: Reply<T>)
      requires InPass()
      modifies this, a, b
      ensures Valid() && {a, b} == old({a, b}) && pend != Fresh
      ensures Standing() == Settle(old(Now())) && r == Said(Standing())
    {
      ghost var end := Settle(Now());
      while !(c.x < c.m && c.y < c.hi)
        invariant InPass() && {a, b} == old({a, b}) && Settle(Now()) == end
        decreases c.n - c.w, c.n - c.lo, c.n - c.o
      {
        if c.x < c.m {
          Take(true);
        } else if c.y < c.hi {
          Take(false);
        } else {
          var done := Next();
          if done {
            pend := Merged;
            return Answer(a[..]);
          }
        }
      }
      pend := Waiting;
      r := Ask(a[c.x], a[c.y]);
    }

    /** sortby_step. Entered fresh it reads no answer; waiting, it takes one; merged, it answers again. */
    method Step(ans: bool) returns (r: Reply<T>)
      requires Valid()
      modifies this, a, b
      ensures Valid() && {a, b} == old({a, b}) && pend != Fresh
      ensures Standing() == if old(pend) == Waiting then Settle(old(Now()).Take(ans)) else old(Standing())
      ensures r == Said(Standing())
    {
      if pend == Merged {
        return Answer(a[..]);
      }
      if pend == Waiting {
        Take(ans);
      }
      r := Run();
    }
  }

  lemma {:induction false} FedMore<T>(le: (T, T) -> bool, r: Paused<T>, answers: seq<bool>, ans: bool)
    requires r.Asking? ==> r.s.Valid() && r.s.Asks()
    requires Honest(le, r, answers) && Fed(r, answers).Asking?
    requires var q := Fed(r, answers).s; ans == le(q.a[q.c.x], q.a[q.c.y])
    ensures Fed(r, answers + [ans]) == Settle(Fed(r, answers).s.Take(ans))
    ensures Honest(le, r, answers + [ans])
    decreases |answers|
  {
    if answers != [] {
      assert (answers + [ans])[1..] == answers[1..] + [ans];
      FedMore(le, Settle(r.s.Take(answers[0])), answers[1..], ans);
    } else {
      assert answers + [ans] == [ans] && [ans][1..] == [];
    }
  }

  /** What the answers of a comparator come to once nothing more is asked. */
  lemma SortEnds<T(!new)>(le: (T, T) -> bool, list: seq<T>, zero: T, answers: seq<bool>)
    requires |list| >= 2 && Honest(le, Settle(Setup(list, zero)), answers)
    ensures var q := Fed(Settle(Setup(list, zero)), answers);
            if q.Asking? then |answers| < |list| * CeilLog2(|list|)
            else multiset(q.tray) == multiset(list) && (TotalPreorder(le) ==> StableSortOf(le, list, q.tray))
  {
    AnyAnswersSort(list, zero, answers);
    HonestSort(le, list, zero, answers);
    if TotalPreorder(le) { SortIsStable(le, list); }
  }

  /** `sortby` as a whole, the comparator called for every answer; a list under two is itself. */
  method Sort<T(0,!new)>(le: (T, T) -> bool, list: seq<T>, zero: T) returns (sorted: seq<T>)
    ensures multiset(sorted) == multiset(list)
    ensures TotalPreorder(le) ==> StableSortOf(le, list, sorted)
  {
    if |list| < 2 {
      SortIsItself(le, list);
      return list;
    }
    var m := new Sorter<T>(list, zero);
    ghost var r0 := Settle(Setup(list, zero));
    ghost var answers: seq<bool> := [];
    var reply := m.Step(false);
    while reply.Ask?
      invariant m.Valid() && fresh(m) && fresh(m.a) && fresh(m.b) && m.pend != Fresh
      invariant Fed(r0, answers) == m.Standing() && Honest(le, r0, answers) && reply == Said(m.Standing())
      decreases |list| * CeilLog2(|list|) - |answers|
    {
      SortEnds(le, list, zero, answers);
      var ans := le(reply.left, reply.right);
      FedMore(le, r0, answers, ans);
      answers := answers + [ans];
      reply := m.Step(ans);
    }
    SortEnds(le, list, zero, answers);
    sorted := reply.sorted;
  }

  lemma SortIsItself<T(!new)>(le: (T, T) -> bool, list: seq<T>)
    requires |list| < 2
    ensures StableSortOf(le, list, list)
  {
  }
}
