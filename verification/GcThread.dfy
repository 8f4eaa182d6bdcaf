/** A thread's copy in src/love/gc.c word by word: forwards at every word of it, so that a pointer into its middle
    comes to the middle of its copy. */
module GcThread {

  /** A word: no pointer; an address; a terminator, with the address of its thread's first word. */
  datatype Cell = Num(n: int) | At(a: nat) | Tag(head: nat)

  /** A pass's to-space, and the words of it given out. */
  datatype To = To(lo: nat, hi: nat, top: nat) {
    predicate Valid() { lo <= top <= hi }
    /** moved: the word is a forward of this pass. */
    predicate Moved(w: Cell) { w.At? && lo <= w.a < hi }
  }

  /** A thread of n words at h, its terminator past them, none of it moved. */
  ghost predicate Whole(m: seq<Cell>, h: nat, n: nat, to: To) {
    h + n < |m| && m[h + n] == Tag(h) && forall i :: h <= i < h + n ==> !m[i].Tag? && !to.Moved(m[i])
  }

  /** Its words are forwards to their own copies, from d on, and the copy is a thread of as many. */
  ghost predicate Gone(m: seq<Cell>, h: nat, n: nat, to: To, d: nat) {
    && h + n < |m| && d + n < |m| && to.lo <= d && d + n < to.top
    && (forall i :: h <= i < h + n ==> m[i] == At(d + (i - h)))
    && m[d + n] == Tag(d)
  }

  /** The n words at d are those that were at h. */
  ghost predicate Copied(m0: seq<Cell>, m: seq<Cell>, h: nat, d: nat, n: nat) {
    h + n <= |m0| && d + n <= |m| && forall i :: d <= i < d + n ==> m[i] == m0[h + (i - d)]
  }

  /** Outside the to-space not yet given out. */
  ghost predicate Clear(m: seq<Cell>, h: nat, n: nat, to: To) {
    to.Valid() && to.hi <= |m| && (h + n < to.top || to.hi <= h)
  }

  /** ttag: forward to the terminator. */
  method Terminator(m: array<Cell>, x: nat, ghost h: nat, ghost n: nat, ghost to: To) returns (t: nat)
    requires Whole(m[..], h, n, to) && h <= x <= h + n
    ensures t == h + n
  {
    t := x;
    while !m[t].Tag?
      invariant x <= t <= h + n
      decreases h + n - t
    {
      assert m[..][t] == m[t];
      t := t + 1;
    }
  }

  /** The words up to s are forwards and copied, the rest and the terminator as they were, and nothing else
      changed. */
  ghost predicate Partway(m0: seq<Cell>, m: seq<Cell>, h: nat, n: nat, s: nat, d0: nat) {
    && |m| == |m0| && h <= s <= h + n < |m| && d0 + n < |m| && (h + n < d0 || d0 + n < h)
    && (forall i :: h <= i < s ==> m[i] == At(d0 + (i - h)))
    && (forall i :: d0 <= i < d0 + (s - h) ==> m[i] == m0[h + (i - d0)])
    && (forall i :: 0 <= i < |m| && !(h <= i < s) && !(d0 <= i < d0 + (s - h)) ==> m[i] == m0[i])
  }

  lemma PartwayStep(m0: seq<Cell>, m: seq<Cell>, h: nat, n: nat, s: nat, d0: nat)
    requires Partway(m0, m, h, n, s, d0) && s < h + n
    ensures var d := d0 + (s - h); Partway(m0, m[d := m[s]][s := At(d)], h, n, s + 1, d0)
  {
  }

  lemma PartwayEnds(m0: seq<Cell>, m: seq<Cell>, h: nat, n: nat, to: To)
    requires Partway(m0, m, h, n, h + n, to.top) && to.Valid()
    ensures var m', top := m[to.top + n := Tag(to.top)], to.top + n + 1;
            && Gone(m', h, n, to.(top := top), to.top) && Copied(m0, m', h, to.top, n)
            && forall i :: 0 <= i < |m| && !(h <= i < h + n) && !(to.top <= i < top) ==> m'[i] == m0[i]
  {
  }

  method CopyWord(m: array<Cell>, s: nat, d: nat, ghost m0: seq<Cell>, ghost h: nat, ghost n: nat) returns (s': nat, d': nat)
    requires h <= s < h + n && d >= s - h && Partway(m0, m[..], h, n, s, d - (s - h))
    modifies m
    ensures s' == s + 1 && d' == d + 1 && Partway(m0, m[..], h, n, s', d - (s - h))
  {
    PartwayStep(m0, m[..], h, n, s, d - (s - h));
    m[d] := m[s];
    m[s] := At(d);
    s', d' := s + 1, d + 1;
  }

  /** From the head, word by word, up to the terminator. */
  method CopyWords(m: array<Cell>, ini: nat, d0: nat, ghost h: nat, ghost n: nat) returns (d: nat)
    requires ini == h && Partway(m[..], m[..], h, n, h, d0) && m[h + n].Tag? && forall i :: h <= i < h + n ==> !m[i].Tag?
    modifies m
    ensures d == d0 + n && Partway(old(m[..]), m[..], h, n, h + n, d0)
  {
    ghost var m0 := m[..];
    var s := ini;
    d := d0;
    while !m[s].Tag?
      invariant h <= s <= h + n && d == d0 + (s - h) && Partway(m0, m[..], h, n, s, d0)
      invariant m[h + n] == m0[h + n] && (s < h + n ==> m[s] == m0[s] && !m0[s].Tag?)
      decreases h + n - s
    {
      s, d := CopyWord(m, s, d, m0, h, n);
      PartwayAt(m0, m[..], h, n, s, d0);
    }
  }

  lemma PartwayAt(m0: seq<Cell>, m: seq<Cell>, h: nat, n: nat, s: nat, d0: nat)
    requires Partway(m0, m, h, n, s, d0)
    ensures s < h + n ==> m[s] == m0[s]
    ensures m[h + n] == m0[h + n]
  {
  }

  /** copy_thread, from a pointer to any word of it: the words in the next free ones, each a forward after, the
      terminator made anew with the copy's head; and the pointer's own place in the copy. */
  method CopyThread(m: array<Cell>, src: nat, to: To, ghost h: nat, ghost n: nat) returns (r: nat, top: nat)
    requires Whole(m[..], h, n, to) && h <= src < h + n && Clear(m[..], h, n, to) && to.top + n < to.hi
    modifies m
    ensures top == to.top + n + 1 && r == to.top + (src - h) && Gone(m[..], h, n, to.(top := top), to.top)
    ensures Copied(old(m[..]), m[..], h, to.top, n)
    ensures forall i :: 0 <= i < m.Length && !(h <= i < h + n) && !(to.top <= i < top) ==> m[i] == old(m[i])
  {
    var t := Terminator(m, src, h, n, to);
    var ini := m[t].head;
    assert m[..][h + n] == m[h + n];
    ghost var m0 := m[..];
    assert Partway(m0, m[..], h, n, h, to.top);
    var d := CopyWords(m, ini, to.top, h, n);
    PartwayEnds(m0, m[..], h, n, to);
    m[d] := Tag(to.top);
    r, top := to.top + (src - ini), d + 1;
  }

  /** gcp of a word of the thread: whatever words of it were met before, it comes to its own place in the one
      copy, which is made at the first. */
  method Meet(m: array<Cell>, x: nat, to: To, ghost h: nat, ghost n: nat, ghost d: nat) returns (r: nat, to': To)
    requires h <= x < h + n && Clear(m[..], h, n, to)
    requires Gone(m[..], h, n, to, d) || (Whole(m[..], h, n, to) && d == to.top && to.top + n < to.hi)
    modifies m
    ensures Gone(m[..], h, n, to', d) && r == d + (x - h) && to'.Valid() && Clear(m[..], h, n, to')
    ensures old(Gone(m[..], h, n, to, d)) ==> to' == to && m[..] == old(m[..])
    ensures !old(Gone(m[..], h, n, to, d)) ==> to' == to.(top := to.top + n + 1)
                                               && Copied(old(m[..]), m[..], h, d, n)
  {
    var w := m[x];
    to' := to;
    assert w == m[..][x] && m[..][h + (x - h)] == w;
    if to.Moved(w) { return w.a, to; }
    var top;
    r, top := CopyThread(m, x, to, h, n);
    to' := to.(top := top);
  }
}
