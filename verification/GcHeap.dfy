/** The heap the collector of src/love/gc.c works on. An object is a kind, the words the collector never
    reads, and the words it does; a word is an immediate or a pointer to an object with an offset into
    it, since a thread is pointed into. An object lives in a block, at a place in the order it was bumped. */
module GcHeap {

  datatype Loc = Loc(block: nat, at: nat)

  datatype Word = Charm(n: int) | Ptr(loc: Loc, off: nat)

  datatype Obj = Obj(kind: nat, raw: seq<int>, fields: seq<Word>) {
    /** In words: the head, or a thread's terminator, and the rest. */
    function Size(): (n: nat)
      ensures n >= 1
    { 1 + |raw| + |fields| }
  }

  type Heap = map<Loc, Obj>

  predicate PointsIn(w: Word, locs: set<Loc>) { w.Ptr? ==> w.loc in locs }

  // ----- moving a heap along a map of places

  function Move(f: map<Loc, Loc>, w: Word): (r: Word) {
    if w.Ptr? && w.loc in f then Ptr(f[w.loc], w.off) else w
  }

  ghost predicate Moved(f: map<Loc, Loc>, o: Obj, o': Obj) {
    && o'.kind == o.kind && o'.raw == o.raw && |o'.fields| == |o.fields|
    && forall j :: 0 <= j < |o.fields| ==> o'.fields[j] == Move(f, o.fields[j])
  }

  ghost predicate Injective(f: map<Loc, Loc>) {
    forall a, b :: a in f && b in f && f[a] == f[b] ==> a == b
  }

  /** Every pointer of h at the places of f, and every root, leads to a place of f. */
  ghost predicate Closed(h: Heap, roots: seq<Word>, f: map<Loc, Loc>) {
    && f.Keys <= h.Keys
    && (forall i :: 0 <= i < |roots| ==> PointsIn(roots[i], f.Keys))
    && (forall a, j :: a in f && 0 <= j < |h[a].fields| ==> PointsIn(h[a].fields[j], f.Keys))
  }

  /** h' with roots' is what h with roots holds, moved along f: the same kinds and payloads, sharing,
      cycles and offsets; and h' holds nothing else. */
  ghost predicate Iso(h: Heap, roots: seq<Word>, h': Heap, roots': seq<Word>, f: map<Loc, Loc>) {
    && Closed(h, roots, f) && Injective(f)
    && |roots'| == |roots| && (forall i :: 0 <= i < |roots| ==> roots'[i] == Move(f, roots[i]))
    && (forall a :: a in f ==> f[a] in h' && Moved(f, h[a], h'[f[a]]))
    && (forall b :: b in h' ==> b in f.Values)
  }

  function Then(f: map<Loc, Loc>, g: map<Loc, Loc>): (r: map<Loc, Loc>) {
    map a | a in f && f[a] in g :: g[f[a]]
  }

  lemma MoveThen(f: map<Loc, Loc>, g: map<Loc, Loc>, w: Word)
    requires PointsIn(w, f.Keys) && PointsIn(Move(f, w), g.Keys)
    ensures PointsIn(w, Then(f, g).Keys) && Move(Then(f, g), w) == Move(g, Move(f, w))
  {
  }

  /** Two collections in a row. The first's result may hold more than the second keeps. */
  lemma IsoThen(h: Heap, roots: seq<Word>, h1: Heap, roots1: seq<Word>, f: map<Loc, Loc>,
                h2: Heap, roots2: seq<Word>, g: map<Loc, Loc>)
    requires Iso(h, roots, h1, roots1, f) && Iso(h1, roots1, h2, roots2, g)
    ensures Iso(h, roots, h2, roots2, Then(f, g))
  {
    var k := Then(f, g);
    forall i | 0 <= i < |roots| ensures PointsIn(roots[i], k.Keys) && roots2[i] == Move(k, roots[i]) {
      assert roots1[i] == Move(f, roots[i]) && roots2[i] == Move(g, roots1[i]);
      MoveThen(f, g, roots[i]);
    }
    forall a, j | a in k && 0 <= j < |h[a].fields|
      ensures PointsIn(h[a].fields[j], k.Keys)
      ensures |h2[k[a]].fields| == |h[a].fields| && h2[k[a]].fields[j] == Move(k, h[a].fields[j])
    {
      ThenField(h, h1, h2, f, g, a, j);
    }
    forall a | a in k ensures k[a] in h2 && Moved(k, h[a], h2[k[a]]) {
      assert Moved(f, h[a], h1[f[a]]) && Moved(g, h1[f[a]], h2[g[f[a]]]);
    }
    forall b | b in h2 ensures b in k.Values {
      var m :| m in g && g[m] == b;
      assert m in h1;
      var a :| a in f && f[a] == m;
      assert a in k && k[a] == b;
    }
  }

  lemma ThenField(h: Heap, h1: Heap, h2: Heap, f: map<Loc, Loc>, g: map<Loc, Loc>, a: Loc, j: nat)
    requires a in f && a in h && f[a] in h1 && f[a] in g && g[f[a]] in h2
    requires Moved(f, h[a], h1[f[a]]) && Moved(g, h1[f[a]], h2[g[f[a]]])
    requires j < |h[a].fields|
    requires PointsIn(h[a].fields[j], f.Keys) && PointsIn(h1[f[a]].fields[j], g.Keys)
    ensures PointsIn(h[a].fields[j], Then(f, g).Keys)
    ensures h2[g[f[a]]].fields[j] == Move(Then(f, g), h[a].fields[j])
  {
    MoveThen(f, g, h[a].fields[j]);
  }

  // ----- what a program sees

  /** The word reached from w along a path of field numbers; the offset of a pointer is not stepped over. */
  ghost function Follow(h: Heap, w: Word, path: seq<nat>): (r: Word)
    decreases |path|
  {
    if path == [] || w.Charm? || w.loc !in h || path[0] >= |h[w.loc].fields| then w
    else Follow(h, h[w.loc].fields[path[0]], path[1..])
  }

  /** Along every path from a root the program reads the same thing before and after: the same
      immediates, the same shapes, and pointers equal after exactly where they were equal before. */
  lemma {:induction false} SameView(h: Heap, roots: seq<Word>, h': Heap, roots': seq<Word>, f: map<Loc, Loc>,
                                    w: Word, path: seq<nat>)
    requires Iso(h, roots, h', roots', f) && PointsIn(w, f.Keys)
    ensures PointsIn(Follow(h, w, path), f.Keys)
    ensures Follow(h', Move(f, w), path) == Move(f, Follow(h, w, path))
    ensures var x := Follow(h, w, path); x.Ptr? ==> x.loc in h && f[x.loc] in h' && Moved(f, h[x.loc], h'[f[x.loc]])
    decreases |path|
  {
    if path != [] && w.Ptr? && path[0] < |h[w.loc].fields| {
      assert Moved(f, h[w.loc], h'[f[w.loc]]);
      SameView(h, roots, h', roots', f, h[w.loc].fields[path[0]], path[1..]);
    } else if w.Ptr? {
      assert Moved(f, h[w.loc], h'[f[w.loc]]);
    }
  }

  /** Two paths from words the program has lead to the same word, object and place in it, after just where they
      did before: what was shared is, and nothing else. */
  lemma SameSharing(h: Heap, roots: seq<Word>, h': Heap, roots': seq<Word>, f: map<Loc, Loc>,
                    v: Word, vs: seq<nat>, w: Word, ws: seq<nat>)
    requires Iso(h, roots, h', roots', f) && PointsIn(v, f.Keys) && PointsIn(w, f.Keys)
    ensures Follow(h', Move(f, v), vs) == Follow(h', Move(f, w), ws) <==> Follow(h, v, vs) == Follow(h, w, ws)
  {
    SameView(h, roots, h', roots', f, v, vs);
    SameView(h, roots, h', roots', f, w, ws);
  }
}
