/** Mark and sweep.

Marking writes one bit into each flags word it reaches and nothing else; the sweep
rebuilds the chain and buckets what was not reached. Instances are traced
conservatively, so every result is stated under the one hypothesis that makes that
licence safe: what looks like an object in an instance's words, or among the roots, is
the start of a live one. Of every other reference that is an invariant of the heap. */
module Collector {
  import opened Layout
  import opened Heap

  // ----- a heap with some objects marked -------------------------------------------------

  function MarkedWord(ws: seq<u64>, owner: seq<Owner>, marked: set<u64>, i: nat): u64
    requires i < |ws| <= |owner|
  {
    if owner[i].ChunkAt? && owner[i].o in marked && i == owner[i].o / 8 + 2 then WithMark(ws[i]) else ws[i]
  }

  /** `ws` is `ws0` with exactly the objects of `marked` marked, bit for bit. */
  ghost predicate MarkView(ws0: seq<u64>, ws: seq<u64>, owner: seq<Owner>, marked: set<u64>) {
    && |ws| == |ws0| <= |owner|
    && forall i :: 0 <= i < |ws0| ==> ws[i] == MarkedWord(ws0, owner, marked, i)
  }

  /** What a marked heap shows of a chunk. */
  lemma MarkViewReads(ws0: seq<u64>, ws: seq<u64>, owner: seq<Owner>, chunks: map<u64, Chunk>, regions: map<u64, nat>,
                      marked: set<u64>, o: u64)
    requires Extents(ws0, owner, chunks, regions) && MarkView(ws0, ws, owner, marked) && o in chunks
    ensures Link(ws, o) == Link(ws0, o) && TypeWord(ws, o) == TypeWord(ws0, o) && Len(ws, o) == Len(ws0, o)
    ensures Flags(ws, o) == if o in marked then WithMark(Flags(ws0, o)) else Flags(ws0, o)
    ensures forall i :: 0 <= i < chunks[o].len ==> Data(ws, o, i) == Data(ws0, o, i)
  {
    var c, h := chunks[o], o / 8;
    assert InExtent(h, o, c) && InExtent(h + 1, o, c) && InExtent(h + 2, o, c) && InExtent(h + 3, o, c);
    forall i | 0 <= i < c.len ensures Data(ws, o, i) == Data(ws0, o, i) {
      assert InExtent(h + META_LEN + i, o, c);
    }
  }

  /** Marking changes no answer to "does the collector follow this word?". */
  lemma FollowedKept(ws0: seq<u64>, ws: seq<u64>, owner: seq<Owner>, marked: set<u64>, w: u64)
    requires MarkView(ws0, ws, owner, marked)
    ensures Followed(ws, w) <==> Followed(ws0, w)
  {
    if Plausible(ws0, w) { MarkRidesAlone(ws0[w / 8 + 2]); }
  }

  lemma {:induction false} DataWordsKept(ws: seq<u64>, ws': seq<u64>, o: u64, lo: nat, hi: nat)
    requires lo <= hi && |ws'| == |ws| && forall i :: lo <= i < hi ==> Data(ws', o, i) == Data(ws, o, i)
    ensures DataWords(ws', o, lo, hi) == DataWords(ws, o, lo, hi)
    ensures PlausibleWords(ws', o, lo, hi) == PlausibleWords(ws, o, lo, hi)
    decreases hi - lo
  {
    if lo < hi { DataWordsKept(ws, ws', o, lo + 1, hi); }
  }

  /** An object whose kind, length, type and data read as before has the same edges. */
  lemma EdgesKept(ws: seq<u64>, ws': seq<u64>, o: u64, c: Chunk)
    requires |ws'| == |ws| && Header(ws, o, c)
    requires Kind(Flags(ws', o)) == Kind(Flags(ws, o)) && Len(ws', o) == Len(ws, o)
    requires TypeWord(ws', o) == TypeWord(ws, o)
    requires forall i :: 0 <= i < c.len ==> Data(ws', o, i) == Data(ws, o, i)
    ensures Edges(ws', o) == Edges(ws, o)
  {
    DataWordsKept(ws, ws', o, 0, c.len);
  }

  /** Everything the collector can follow from `roots` is a live object's start. */
  ghost predicate HitsAreObjects(ws: seq<u64>, roots: seq<u64>, chain: seq<u64>) {
    forall w :: Reachable(ws, roots, w) ==> w in chain
  }

  /** What only looks like a reference, a root or a word of an instance, is a live object
      if the collector follows it. */
  ghost predicate Guesses(ws: seq<u64>, chunks: map<u64, Chunk>, roots: seq<u64>, chain: seq<u64>) {
    && (forall r :: r in roots && Followed(ws, r) ==> r in chain)
    && forall o, i :: o in chain && o in chunks && Kind(Flags(ws, o)) == INSTANCE && 0 <= i < chunks[o].len ==>
      (Followed(ws, Data(ws, o, i)) ==> Data(ws, o, i) in chain)
  }

  lemma {:induction false} DataWordsAre(ws: seq<u64>, o: u64, lo: nat, hi: nat, e: u64)
    requires e in DataWords(ws, o, lo, hi) || e in PlausibleWords(ws, o, lo, hi)
    ensures exists i :: lo <= i < hi && e == Data(ws, o, i)
    decreases hi - lo
  {
    if lo < hi && e != Data(ws, o, lo) { DataWordsAre(ws, o, lo + 1, hi, e); }
  }

  /** An edge of a live object is its type, a reference slot or a word of an instance. */
  lemma EdgeIs(ws: seq<u64>, o: u64, c: Chunk, e: u64) returns (i: nat)
    requires Header(ws, o, c) && e in Edges(ws, o)
    ensures e == TypeWord(ws, o) ||
            (i < c.len && e == Data(ws, o, i) && (Kind(Flags(ws, o)) != INSTANCE ==> SlotIsRef(Kind(Flags(ws, o)), i)))
  {
    var k := Kind(Flags(ws, o));
    i := 0;
    if e != TypeWord(ws, o) {
      assert e in KindEdges(ws, o);
      if k == FALSE || k == INSTANCE {
        DataWordsAre(ws, o, 0, c.len, e);
        i :| 0 <= i < c.len && e == Data(ws, o, i);
      } else {
        i := if SlotIsRef(k, 0) && e == Data(ws, o, 0) then 0 else if SlotIsRef(k, 1) && e == Data(ws, o, 1) then 1
          else 2;
      }
    }
  }

  /** A followed edge of a live object is a live object. */
  lemma EdgeIsLive(ws: seq<u64>, chunks: map<u64, Chunk>, roots: seq<u64>, chain: seq<u64>, o: u64, e: u64)
    requires Headers(ws, chunks, chain) && LiveRefs(ws, chunks, chain) && Guesses(ws, chunks, roots, chain)
    requires o in chain && e in Edges(ws, o) && Followed(ws, e)
    ensures e in chain
  {
    var i := EdgeIs(ws, o, chunks[o], e);
  }

  /** On a heap whose references are live, only the guesses need be right. */
  lemma HitsFollow(ws: seq<u64>, chunks: map<u64, Chunk>, roots: seq<u64>, chain: seq<u64>)
    requires Headers(ws, chunks, chain) && LiveRefs(ws, chunks, chain) && Guesses(ws, chunks, roots, chain)
    ensures HitsAreObjects(ws, roots, chain)
  {
    forall w | Reachable(ws, roots, w) ensures w in chain {
      var p :| IsPath(ws, roots, p) && p[|p| - 1] == w;
      forall o, e | o in Elements(chain) && e in Edges(ws, o) && Followed(ws, e) ensures e in Elements(chain) {
        EdgeIsLive(ws, chunks, roots, chain, o, e);
      }
      ClosedHoldsReachable(ws, roots, Elements(chain), p);
    }
  }

  // ----- marking ----------------------------------------------------------------------------

  /** What has been marked so far, and what still waits, between them hold all that
      the roots and the marked objects refer to. */
  ghost predicate Frontier(ws0: seq<u64>, roots: seq<u64>, marked: set<u64>, stack: seq<u64>) {
    && (forall o :: o in marked ==> Reachable(ws0, roots, o))
    && (forall w :: w in stack && Followed(ws0, w) ==> Reachable(ws0, roots, w))
    && (forall r :: r in roots && Followed(ws0, r) ==> r in marked || r in stack)
    && (forall o, e :: o in marked && e in Edges(ws0, o) && Followed(ws0, e) ==> e in marked || e in stack)
  }

  lemma FrontierDrops(ws0: seq<u64>, roots: seq<u64>, marked: set<u64>, stack: seq<u64>)
    requires stack != [] && Frontier(ws0, roots, marked, stack)
    requires var w := stack[|stack| - 1]; !Followed(ws0, w) || w in marked
    ensures Frontier(ws0, roots, marked, stack[..|stack| - 1])
  {
    var w, rest := stack[|stack| - 1], stack[..|stack| - 1];
    assert stack == rest + [w];
  }

  lemma FrontierMoves(ws0: seq<u64>, roots: seq<u64>, marked: set<u64>, stack: seq<u64>)
    requires stack != [] && Frontier(ws0, roots, marked, stack) && Followed(ws0, stack[|stack| - 1])
    ensures var w := stack[|stack| - 1];
            Frontier(ws0, roots, marked + {w}, stack[..|stack| - 1] + Edges(ws0, w))
  {
    var w, rest := stack[|stack| - 1], stack[..|stack| - 1];
    assert stack == rest + [w];
    forall e | e in Edges(ws0, w) && Followed(ws0, e) ensures Reachable(ws0, roots, e) {
      ReachEdge(ws0, roots, w, e);
    }
  }

  /** An empty stack leaves exactly the reachable objects marked. */
  lemma FrontierDone(ws0: seq<u64>, roots: seq<u64>, marked: set<u64>)
    requires Frontier(ws0, roots, marked, [])
    ensures forall w :: Reachable(ws0, roots, w) <==> w in marked
  {
    forall w | Reachable(ws0, roots, w) ensures w in marked {
      var p :| IsPath(ws0, roots, p) && p[|p| - 1] == w;
      ClosedHoldsReachable(ws0, roots, marked, p);
    }
  }

  lemma MarkViewGrows(ws0: seq<u64>, ws: seq<u64>, owner: seq<Owner>, chunks: map<u64, Chunk>, regions: map<u64, nat>,
                      marked: set<u64>, o: u64)
    requires Extents(ws0, owner, chunks, regions) && MarkView(ws0, ws, owner, marked) && o in chunks && o !in marked
    ensures MarkView(ws0, SetWord(ws, o / 8 + 2, WithMark(Flags(ws, o))), owner, marked + {o})
  {
    var i := o / 8 + 2;
    assert InExtent(i, o, chunks[o]) && owner[i] == ChunkAt(o);
    var ws' := SetWord(ws, i, WithMark(Flags(ws, o)));
    forall j | 0 <= j < |ws0| ensures ws'[j] == MarkedWord(ws0, owner, marked + {o}, j) {
      if j != i { assert ws'[j] == ws[j]; }
    }
  }

  method PushData(h: Objects, o: u64, n: nat, stack0: seq<u64>) returns (stack: seq<u64>)
    ensures stack == stack0 + DataWords(h.words, o, 0, n)
  {
    stack := stack0;
    var i := 0;
    while i < n
      invariant 0 <= i <= n
      invariant stack + DataWords(h.words, o, i, n) == stack0 + DataWords(h.words, o, 0, n)
    {
      stack := stack + [Data(h.words, o, i)];
      i := i + 1;
    }
  }

  /** A conservative walk: only plausible object addresses are pushed. */
  method PushPlausible(h: Objects, o: u64, n: nat, stack0: seq<u64>) returns (stack: seq<u64>)
    ensures stack == stack0 + PlausibleWords(h.words, o, 0, n)
  {
    stack := stack0;
    var i := 0;
    while i < n
      invariant 0 <= i <= n
      invariant stack + PlausibleWords(h.words, o, i, n) == stack0 + PlausibleWords(h.words, o, 0, n)
    {
      var w := Data(h.words, o, i);
      if Plausible(h.words, w) {
        stack := stack + [w];
      }
      i := i + 1;
    }
  }

  /** Push what an object of each kind refers to: its type, then its data's references. */
  method PushEdges(h: Objects, o: u64, stack0: seq<u64>) returns (stack: seq<u64>)
    ensures stack == stack0 + Edges(h.words, o)
  {
    stack := stack0;
    var ty := TypeWord(h.words, o);
    if ty != 0 {
      stack := stack + [ty];
    }
    stack := PushKindEdges(h, o, stack);
  }

  method PushKindEdges(h: Objects, o: u64, stack0: seq<u64>) returns (stack: seq<u64>)
    ensures stack == stack0 + KindEdges(h.words, o)
  {
    var k, n := Kind(Flags(h.words, o)), Len(h.words, o);
    if k == PAIR || k == SPAIR || k == ITER {
      stack := stack0 + [Data(h.words, o, 0), Data(h.words, o, 1)];
    } else if k == FN || k == OP || k == WRAP {
      stack := stack0 + [Data(h.words, o, 1)];
    } else if k == ENV {
      stack := stack0 + [Data(h.words, o, 0)];
    } else if k == ENVH {
      stack := stack0 + [Data(h.words, o, 0), Data(h.words, o, 1), Data(h.words, o, 2)];
    } else if k == FALSE && ExtentOk(h.words, o, n) {
      stack := PushData(h, o, n, stack0);
    } else if k == BUF {
      stack := stack0 + [Data(h.words, o, 1), Data(h.words, o, 2)];
    } else if k == INSTANCE && ExtentOk(h.words, o, n) {
      stack := PushPlausible(h, o, n, stack0);
    } else {
      stack := stack0;
    }
  }

  ghost function Elements(s: seq<u64>): set<u64> { set x | x in s }

  /** MARKING IS EXACT: the objects marked are the reachable ones, and no other bit of
      the heap changes. */
  method Mark(h: Objects, roots: seq<u64>) returns (ghost marked: set<u64>)
    requires h.Valid() && h.RefsLive() && Guesses(h.words, h.chunks, roots, h.chain)
    modifies h`words
    ensures forall w :: w in marked <==> Reachable(old(h.words), roots, w)
    ensures marked <= Elements(h.chain)
    ensures MarkView(old(h.words), h.words, h.owner, marked)
  {
    ghost var ws0 := h.words;
    HitsFollow(ws0, h.chunks, roots, h.chain);
    var stack := roots;
    marked := {};
    assert Frontier(ws0, roots, marked, stack) by {
      forall r | r in roots && Followed(ws0, r) ensures Reachable(ws0, roots, r) { ReachRoot(ws0, roots, r); }
    }
    while stack != []
      invariant MarkView(ws0, h.words, h.owner, marked)
      invariant Frontier(ws0, roots, marked, stack)
      invariant marked <= Elements(h.chain)
      decreases Elements(h.chain) - marked, |stack|
    {
      var o := stack[|stack| - 1];
      FollowedKept(ws0, h.words, h.owner, marked, o);
      if o in h.chunks { MarkViewReads(ws0, h.words, h.owner, h.chunks, h.regions, marked, o); }
      if o == 0 || !Plausible(h.words, o) || Marked(Flags(h.words, o)) {
        SkipIsSound(h, ws0, roots, marked, stack);
        FrontierDrops(ws0, roots, marked, stack);
        stack := stack[..|stack| - 1];
        continue;
      }
      if !HasMagic(Flags(h.words, o)) {
        FrontierDrops(ws0, roots, marked, stack);
        stack := stack[..|stack| - 1];
        continue;
      }
      assert Reachable(ws0, roots, o) && o in h.chain;
      MarkRidesAlone(Flags(ws0, o));
      MarkViewGrows(ws0, h.words, h.owner, h.chunks, h.regions, marked, o);
      FrontierMoves(ws0, roots, marked, stack);
      h.words := SetWord(h.words, o / 8 + 2, WithMark(Flags(h.words, o)));
      marked := marked + {o};
      MarkViewReads(ws0, h.words, h.owner, h.chunks, h.regions, marked, o);
      EdgesKept(ws0, h.words, o, h.chunks[o]);
      stack := PushEdges(h, o, stack[..|stack| - 1]);
    }
    FrontierDone(ws0, roots, marked);
  }

  /** A word passed over was marked already, or is nothing the collector follows. */
  lemma SkipIsSound(h: Objects, ws0: seq<u64>, roots: seq<u64>, marked: set<u64>, stack: seq<u64>)
    requires Extents(ws0, h.owner, h.chunks, h.regions) && Unmarked(ws0, h.chain) && Headers(ws0, h.chunks, h.chain)
    requires MarkView(ws0, h.words, h.owner, marked) && HitsAreObjects(ws0, roots, h.chain)
    requires stack != [] && Frontier(ws0, roots, marked, stack)
    requires var o := stack[|stack| - 1]; o == 0 || !Plausible(h.words, o) || Marked(Flags(h.words, o))
    ensures var o := stack[|stack| - 1]; !Followed(ws0, o) || o in marked
  {
    var o := stack[|stack| - 1];
    if Followed(ws0, o) {
      assert Reachable(ws0, roots, o) && o in h.chain;
      MarkViewReads(ws0, h.words, h.owner, h.chunks, h.regions, marked, o);
    }
  }

  // ----- sweeping ---------------------------------------------------------------------------

  /** A word part-way through the sweep, links of objects already passed aside. */
  function SweptWord(ws0: seq<u64>, owner: seq<Owner>, done: set<u64>, marked: set<u64>, i: nat): u64
    requires i < |ws0| <= |owner|
  {
    if owner[i].ChunkAt? && i == owner[i].o / 8 + 2 then
      var o := owner[i].o;
      if o in done then (if o in marked then ws0[i] else FREED)
      else if o in marked then WithMark(ws0[i]) else ws0[i]
    else ws0[i]
  }

  predicate LinkOf(owner: seq<Owner>, s: set<u64>, i: nat)
    requires i < |owner|
  {
    owner[i].ChunkAt? && owner[i].o in s && i == owner[i].o / 8
  }

  /** `ws` is `ws0` with the objects of `done` swept and the rest of `marked` still
      marked; the chain links of survivors apart, nothing else differs. */
  ghost predicate PartSwept(ws0: seq<u64>, ws: seq<u64>, owner: seq<Owner>, done: set<u64>, marked: set<u64>) {
    && |ws| == |ws0| <= |owner|
    && forall i :: 0 <= i < |ws0| && !LinkOf(owner, done * marked, i) ==>
      ws[i] == SweptWord(ws0, owner, done, marked, i)
  }

  lemma PartSweptReads(ws0: seq<u64>, ws: seq<u64>, owner: seq<Owner>, chunks: map<u64, Chunk>, regions: map<u64, nat>,
                       done: set<u64>, marked: set<u64>, o: u64)
    requires Extents(ws0, owner, chunks, regions) && PartSwept(ws0, ws, owner, done, marked) && o in chunks
    ensures o !in done * marked ==> Link(ws, o) == Link(ws0, o)
    ensures TypeWord(ws, o) == TypeWord(ws0, o) && Len(ws, o) == Len(ws0, o)
    ensures Flags(ws, o) == if o in done then (if o in marked then Flags(ws0, o) else FREED)
                            else if o in marked then WithMark(Flags(ws0, o)) else Flags(ws0, o)
    ensures forall i :: 0 <= i < chunks[o].len ==> Data(ws, o, i) == Data(ws0, o, i)
  {
    var c, h := chunks[o], o / 8;
    assert InExtent(h, o, c) && InExtent(h + 1, o, c) && InExtent(h + 2, o, c) && InExtent(h + 3, o, c);
    forall i | 0 <= i < c.len ensures Data(ws, o, i) == Data(ws0, o, i) {
      assert InExtent(h + META_LEN + i, o, c);
    }
  }

  /** Clear a survivor's mark and thread it on the chain being rebuilt. */
  lemma KeepStep(ws0: seq<u64>, ws: seq<u64>, owner: seq<Owner>, chunks: map<u64, Chunk>, regions: map<u64, nat>,
                 done: set<u64>, marked: set<u64>, o: u64, kept: u64)
    requires Extents(ws0, owner, chunks, regions) && PartSwept(ws0, ws, owner, done, marked)
    requires o in chunks && o !in done && o in marked && !Marked(Flags(ws0, o))
    ensures var ws' := SetWord(SetWord(ws, o / 8 + 2, NoMark(Flags(ws, o))), o / 8, kept);
            && PartSwept(ws0, ws', owner, done + {o}, marked) && Link(ws', o) == kept
            && forall p :: p in chunks && p != o ==> Link(ws', p) == Link(ws, p)
  {
    var i := o / 8;
    assert InExtent(i, o, chunks[o]) && InExtent(i + 2, o, chunks[o]);
    PartSweptReads(ws0, ws, owner, chunks, regions, done, marked, o);
    MarkRidesAlone(Flags(ws0, o));
    var ws' := SetWord(SetWord(ws, i + 2, NoMark(Flags(ws, o))), i, kept);
    forall j | 0 <= j < |ws0| && !LinkOf(owner, (done + {o}) * marked, j)
      ensures ws'[j] == SweptWord(ws0, owner, done + {o}, marked, j)
    {
      if j != i + 2 { assert ws'[j] == ws[j] && !LinkOf(owner, done * marked, j); }
    }
    forall p | p in chunks && p != o ensures Link(ws', p) == Link(ws, p) {
      assert InExtent(p / 8, p, chunks[p]) && owner[p / 8] == ChunkAt(p);
    }
  }

  /** Stamp a dead object freed. */
  lemma FreeStep(ws0: seq<u64>, ws: seq<u64>, owner: seq<Owner>, chunks: map<u64, Chunk>, regions: map<u64, nat>,
                 done: set<u64>, marked: set<u64>, o: u64)
    requires Extents(ws0, owner, chunks, regions) && PartSwept(ws0, ws, owner, done, marked)
    requires o in chunks && o !in done && o !in marked
    ensures var ws' := SetWord(ws, o / 8 + 2, FREED);
            && PartSwept(ws0, ws', owner, done + {o}, marked)
            && forall p :: p in chunks ==> Link(ws', p) == Link(ws, p)
  {
    var i := o / 8 + 2;
    assert InExtent(i, o, chunks[o]);
    var ws' := SetWord(ws, i, FREED);
    forall j | 0 <= j < |ws0| && !LinkOf(owner, (done + {o}) * marked, j)
      ensures ws'[j] == SweptWord(ws0, owner, done + {o}, marked, j)
    {
      if j != i { assert ws'[j] == ws[j] && !LinkOf(owner, done * marked, j); }
    }
    forall p | p in chunks ensures Link(ws', p) == Link(ws, p) {
      assert InExtent(p / 8, p, chunks[p]) && owner[p / 8] == ChunkAt(p);
    }
  }

  /** The free list part-way through: `dead` tells what belongs on it. */
  ghost predicate FreeHolds(free: map<nat, seq<u64>>, chunks: map<u64, Chunk>, dead: set<u64>) {
    && (forall k, i :: k in free && 0 <= i < |free[k]| ==>
          free[k][i] in dead && free[k][i] in chunks && Key(chunks[free[k][i]]) == k)
    && (forall k :: k in free ==> Distinct(free[k]))
    && (forall o {:trigger Waits(free, chunks[o], o)} :: o in dead && o in chunks ==> Waits(free, chunks[o], o))
  }

  lemma FreeAdds(free: map<nat, seq<u64>>, chunks: map<u64, Chunk>, dead: set<u64>, o: u64)
    requires FreeHolds(free, chunks, dead) && o in chunks && o !in dead
    ensures var k := Key(chunks[o]);
            FreeHolds(free[k := (if k in free then free[k] else []) + [o]], chunks, dead + {o})
  {
    var k := Key(chunks[o]);
    var b := if k in free then free[k] else [];
    var free' := free[k := b + [o]];
    forall i | 0 <= i < |b| ensures b[i] in dead {}
    forall p | p in dead + {o} && p in chunks ensures Waits(free', chunks[p], p) {
      if p != o { assert Waits(free, chunks[p], p); }
    }
  }

  /** The sweep after `i` objects of the old chain. */
  ghost predicate Sweeping(ws0: seq<u64>, ws: seq<u64>, free: map<nat, seq<u64>>, head: u64, kept: seq<u64>,
                           chain0: seq<u64>, i: nat, owner: seq<Owner>, chunks: map<u64, Chunk>, marked: set<u64>)
    requires i <= |chain0|
  {
    var done := Elements(chain0[..i]);
    && PartSwept(ws0, ws, owner, done, marked)
    && Threaded(ws, head, kept) && Distinct(kept) && Elements(kept) == done * marked
    && FreeHolds(free, chunks, (chunks.Keys - Elements(chain0)) + (done - marked))
  }

  lemma OneMore(chain: seq<u64>, i: nat)
    requires i < |chain| && Distinct(chain)
    ensures chain[i] !in Elements(chain[..i]) && Elements(chain[..i + 1]) == Elements(chain[..i]) + {chain[i]}
  {
    assert chain[..i + 1] == chain[..i] + [chain[i]];
  }

  lemma SweepKeeps(ws0: seq<u64>, ws: seq<u64>, free: map<nat, seq<u64>>, head: u64, kept: seq<u64>,
                   chain0: seq<u64>, i: nat, owner: seq<Owner>, chunks: map<u64, Chunk>, regions: map<u64, nat>,
                   marked: set<u64>)
    requires Extents(ws0, owner, chunks, regions) && Distinct(chain0) && Elements(chain0) <= chunks.Keys
    requires Unmarked(ws0, chain0)
    requires i < |chain0| && Sweeping(ws0, ws, free, head, kept, chain0, i, owner, chunks, marked)
    requires chain0[i] in marked
    ensures var o := chain0[i];
            Sweeping(ws0, SetWord(SetWord(ws, o / 8 + 2, NoMark(Flags(ws, o))), o / 8, head), free, o, [o] + kept,
                     chain0, i + 1, owner, chunks, marked)
  {
    var o := chain0[i];
    var done := Elements(chain0[..i]);
    OneMore(chain0, i);
    assert o in Elements(chain0);
    KeepStep(ws0, ws, owner, chunks, regions, done, marked, o, head);
    var ws' := SetWord(SetWord(ws, o / 8 + 2, NoMark(Flags(ws, o))), o / 8, head);
    forall p | p in kept ensures Link(ws', p) == Link(ws, p) {
      assert p in Elements(kept) && p in done && p in Elements(chain0);
    }
    ThreadedGrows(ws, ws', head, kept, o);
    assert o !in Elements(kept);
    assert done + {o} - marked == done - marked;
    assert Elements([o] + kept) == {o} + Elements(kept);
  }

  lemma SweepFrees(ws0: seq<u64>, ws: seq<u64>, free: map<nat, seq<u64>>, head: u64, kept: seq<u64>,
                   chain0: seq<u64>, i: nat, owner: seq<Owner>, chunks: map<u64, Chunk>, regions: map<u64, nat>,
                   marked: set<u64>)
    requires Extents(ws0, owner, chunks, regions) && Distinct(chain0) && Elements(chain0) <= chunks.Keys
    requires i < |chain0| && Sweeping(ws0, ws, free, head, kept, chain0, i, owner, chunks, marked)
    requires chain0[i] !in marked
    ensures var o := chain0[i];
            var k := Key(chunks[o]);
            var bucket := (if k in free then free[k] else []) + [o];
            Sweeping(ws0, SetWord(ws, o / 8 + 2, FREED), free[k := bucket], head, kept,
                     chain0, i + 1, owner, chunks, marked)
  {
    var o := chain0[i];
    var done := Elements(chain0[..i]);
    var dead := (chunks.Keys - Elements(chain0)) + (done - marked);
    OneMore(chain0, i);
    assert o in Elements(chain0) && o !in dead;
    FreeStep(ws0, ws, owner, chunks, regions, done, marked, o);
    FreeAdds(free, chunks, dead, o);
    assert dead + {o} == (chunks.Keys - Elements(chain0)) + (done + {o} - marked);
    assert (done + {o}) * marked == done * marked;
    var ws' := SetWord(ws, o / 8 + 2, FREED);
    forall j | 0 <= j < |kept| ensures Link(ws', kept[j]) == After(kept, j) {
      assert kept[j] in Elements(kept) && kept[j] in done && kept[j] in Elements(chain0);
    }
  }

  /** The invariant at the end of the chain is the heap's own. */
  lemma SweepDone(ws0: seq<u64>, ws: seq<u64>, free: map<nat, seq<u64>>, head: u64, kept: seq<u64>,
                  chain0: seq<u64>, owner: seq<Owner>, chunks: map<u64, Chunk>, regions: map<u64, nat>,
                  marked: set<u64>)
    requires Extents(ws0, owner, chunks, regions) && Headers(ws0, chunks, chain0) && Unmarked(ws0, chain0)
    requires marked <= Elements(chain0) <= chunks.Keys
    requires forall o :: o in chunks && o !in chain0 ==> Flags(ws0, o) == FREED
    requires Sweeping(ws0, ws, free, head, kept, chain0, |chain0|, owner, chunks, marked)
    ensures ShapeOf(ws, head, |kept|, free, owner, chunks, regions, kept)
    ensures Unmarked(ws, kept) && Elements(kept) == marked
  {
    assert chain0[..|chain0|] == chain0;
    var done := Elements(chain0);
    assert done * marked == marked;
    forall o | o in chunks
      ensures Len(ws, o) == Len(ws0, o)
      ensures o in marked ==> Flags(ws, o) == Flags(ws0, o)
      ensures o !in marked ==> Flags(ws, o) == FREED
    {
      PartSweptReads(ws0, ws, owner, chunks, regions, done, marked, o);
    }
    forall o | o in kept ensures o in chunks && Header(ws, o, chunks[o]) && !Marked(Flags(ws, o)) {
      assert o in Elements(kept) && o in chain0;
    }
    assert Headers(ws, chunks, kept) && Unmarked(ws, kept);
    SweepBuckets(ws, free, kept, chunks, done, marked);
  }

  lemma SweepBuckets(ws: seq<u64>, free: map<nat, seq<u64>>, kept: seq<u64>, chunks: map<u64, Chunk>, all: set<u64>,
                     marked: set<u64>)
    requires FreeHolds(free, chunks, (chunks.Keys - all) + (all - marked)) && Elements(kept) == marked <= all
    requires forall o :: o in chunks && o !in marked ==> Flags(ws, o) == FREED
    ensures Buckets(ws, free, chunks, kept) && Accounted(free, chunks, kept)
  {
    forall k, i | k in free && 0 <= i < |free[k]|
      ensures var o := free[k][i]; o in chunks && Key(chunks[o]) == k && o !in kept && Flags(ws, o) == FREED
    {
      var o := free[k][i];
      assert o in (chunks.Keys - all) + (all - marked) && o !in Elements(kept);
    }
    forall o | o in chunks && o !in kept ensures Waits(free, chunks[o], o) {
      assert o !in Elements(kept);
      assert o in (chunks.Keys - all) + (all - marked);
    }
  }

  lemma SweepStarts(ws0: seq<u64>, ws: seq<u64>, free: map<nat, seq<u64>>, chain0: seq<u64>, owner: seq<Owner>,
                    chunks: map<u64, Chunk>, marked: set<u64>)
    requires MarkView(ws0, ws, owner, marked) && Buckets(ws0, free, chunks, chain0) && Accounted(free, chunks, chain0)
    ensures Sweeping(ws0, ws, free, 0, [], chain0, 0, owner, chunks, marked)
  {
    assert chain0[..0] == [];
    forall k, i | k in free && 0 <= i < |free[k]|
      ensures free[k][i] in chunks.Keys - Elements(chain0) && Key(chunks[free[k][i]]) == k
    {}
  }

  /** What the sweep reads off the next object of the old chain. */
  lemma SweepReads(ws0: seq<u64>, ws: seq<u64>, head0: u64, chain0: seq<u64>, i: nat, owner: seq<Owner>,
                   chunks: map<u64, Chunk>, regions: map<u64, nat>, marked: set<u64>)
    requires Extents(ws0, owner, chunks, regions) && Distinct(chain0) && Headers(ws0, chunks, chain0)
    requires Unmarked(ws0, chain0) && Threaded(ws0, head0, chain0)
    requires i < |chain0| && PartSwept(ws0, ws, owner, Elements(chain0[..i]), marked)
    ensures var o := chain0[i];
            && o != 0 && Link(ws, o) == After(chain0, i)
            && (Marked(Flags(ws, o)) <==> o in marked)
            && Len(ws, o) * 256 + MetaCount(Flags(ws, o)) == Key(chunks[o])
  {
    var o := chain0[i];
    assert o in chain0;
    OneMore(chain0, i);
    PartSweptReads(ws0, ws, owner, chunks, regions, Elements(chain0[..i]), marked, o);
    MarkRidesAlone(Flags(ws0, o));
  }

  /** A survivor: clear its mark, put it on the chain being rebuilt. */
  method KeepOne(h: Objects, at: u64, kept: u64, ghost ws0: seq<u64>, ghost chain0: seq<u64>, ghost i: nat,
                 ghost keptChain: seq<u64>, ghost marked: set<u64>)
    requires Extents(ws0, h.owner, h.chunks, h.regions) && Distinct(chain0) && Elements(chain0) <= h.chunks.Keys
    requires Unmarked(ws0, chain0)
    requires i < |chain0| && at == chain0[i] && at in marked
    requires Sweeping(ws0, h.words, h.free, kept, keptChain, chain0, i, h.owner, h.chunks, marked)
    modifies h`words
    ensures Sweeping(ws0, h.words, h.free, at, [at] + keptChain, chain0, i + 1, h.owner, h.chunks, marked)
  {
    SweepKeeps(ws0, h.words, h.free, kept, keptChain, chain0, i, h.owner, h.chunks, h.regions, marked);
    h.words := SetWord(SetWord(h.words, at / 8 + 2, NoMark(Flags(h.words, at))), at / 8, kept);
  }

  /** A dead object: its flags say freed, and its chunk joins the bucket of its size. */
  method FreeOne(h: Objects, at: u64, k: nat, ghost kept: u64, ghost ws0: seq<u64>, ghost chain0: seq<u64>,
                 ghost i: nat,
                 ghost keptChain: seq<u64>, ghost marked: set<u64>)
    requires Extents(ws0, h.owner, h.chunks, h.regions) && Distinct(chain0) && Elements(chain0) <= h.chunks.Keys
    requires i < |chain0| && at == chain0[i] && at !in marked && k == Key(h.chunks[at])
    requires Sweeping(ws0, h.words, h.free, kept, keptChain, chain0, i, h.owner, h.chunks, marked)
    modifies h`words, h`free
    ensures Sweeping(ws0, h.words, h.free, kept, keptChain, chain0, i + 1, h.owner, h.chunks, marked)
  {
    SweepFrees(ws0, h.words, h.free, kept, keptChain, chain0, i, h.owner, h.chunks, h.regions, marked);
    h.words := SetWord(h.words, at / 8 + 2, FREED);
    h.free := h.free[k := (if k in h.free then h.free[k] else []) + [at]];
  }

  /** One object of the old chain: kept at the front of the new one, or freed. */
  method SweepOne(h: Objects, at: u64, kept: u64, ghost ws0: seq<u64>, ghost i: nat, ghost keptChain: seq<u64>,
                  ghost marked: set<u64>)
    returns (next: u64, gone: bool, kept': u64, ghost keptChain': seq<u64>)
    requires Extents(ws0, h.owner, h.chunks, h.regions) && Headers(ws0, h.chunks, h.chain)
    requires Threaded(ws0, h.heapChain, h.chain)
    requires Distinct(h.chain) && Elements(h.chain) <= h.chunks.Keys && Unmarked(ws0, h.chain)
    requires i < |h.chain| && at == h.chain[i]
    requires Sweeping(ws0, h.words, h.free, kept, keptChain, h.chain, i, h.owner, h.chunks, marked)
    modifies h`words, h`free
    ensures next == After(h.chain, i) && |keptChain'| == if gone then |keptChain| else |keptChain| + 1
    ensures Sweeping(ws0, h.words, h.free, kept', keptChain', h.chain, i + 1, h.owner, h.chunks, marked)
  {
    SweepReads(ws0, h.words, h.heapChain, h.chain, i, h.owner, h.chunks, h.regions, marked);
    next := Link(h.words, at);
    gone := !Marked(Flags(h.words, at));
    if gone {
      var k := Len(h.words, at) * 256 + MetaCount(Flags(h.words, at));
      FreeOne(h, at, k, kept, ws0, h.chain, i, keptChain, marked);
      kept', keptChain' := kept, keptChain;
    } else {
      KeepOne(h, at, kept, ws0, h.chain, i, keptChain, marked);
      kept', keptChain' := at, [at] + keptChain;
    }
  }

  /** Walk the old chain, rebuilding it as it goes. */
  method SweepChain(h: Objects, ghost ws0: seq<u64>, ghost marked: set<u64>)
    returns (freed: nat, kept: u64, ghost keptChain: seq<u64>)
    requires ShapeOf(ws0, h.heapChain, h.live, h.free, h.owner, h.chunks, h.regions, h.chain) && Unmarked(ws0, h.chain)
    requires MarkView(ws0, h.words, h.owner, marked)
    modifies h`words, h`free
    ensures freed + |keptChain| == |h.chain|
    ensures Sweeping(ws0, h.words, h.free, kept, keptChain, h.chain, |h.chain|, h.owner, h.chunks, marked)
  {
    freed, kept, keptChain := 0, 0, [];
    var at := h.heapChain;
    ghost var i := 0;
    SweepStarts(ws0, h.words, h.free, h.chain, h.owner, h.chunks, marked);
    ChainNonNil(ws0, h.owner, h.chunks, h.regions, h.chain);
    while at != 0
      invariant 0 <= i <= |h.chain|
      invariant at == if i < |h.chain| then h.chain[i] else 0
      invariant Sweeping(ws0, h.words, h.free, kept, keptChain, h.chain, i, h.owner, h.chunks, marked)
      invariant freed + |keptChain| == i
      decreases |h.chain| - i
    {
      var next, gone;
      next, gone, kept, keptChain := SweepOne(h, at, kept, ws0, i, keptChain, marked);
      if gone { freed := freed + 1; }
      at, i := next, i + 1;
    }
  }

  lemma WaitingAreStamped(ws: seq<u64>, free: map<nat, seq<u64>>, chunks: map<u64, Chunk>, chain: seq<u64>)
    requires Buckets(ws, free, chunks, chain) && Accounted(free, chunks, chain)
    ensures forall o :: o in chunks && o !in chain ==> Flags(ws, o) == FREED
  {
    forall o | o in chunks && o !in chain ensures Flags(ws, o) == FREED { assert Waits(free, chunks[o], o); }
  }

  /** Reclaim every unmarked object. `ws0` is the heap before it was marked. */
  method Sweep(h: Objects, ghost ws0: seq<u64>, ghost marked: set<u64>) returns (freed: nat)
    requires ShapeOf(ws0, h.heapChain, h.live, h.free, h.owner, h.chunks, h.regions, h.chain) && Unmarked(ws0, h.chain)
    requires MarkView(ws0, h.words, h.owner, marked) && marked <= Elements(h.chain)
    modifies h`words, h`free, h`heapChain, h`live, h`chain
    ensures h.Valid()
    ensures Elements(h.chain) == marked && freed == |old(h.chain)| - |h.chain|
    ensures PartSwept(ws0, h.words, h.owner, Elements(old(h.chain)), marked)
  {
    ChainNonNil(ws0, h.owner, h.chunks, h.regions, h.chain);
    WaitingAreStamped(ws0, h.free, h.chunks, h.chain);
    var kept;
    ghost var keptChain;
    freed, kept, keptChain := SweepChain(h, ws0, marked);
    SweepDone(ws0, h.words, h.free, kept, keptChain, h.chain, h.owner, h.chunks, h.regions, marked);
    assert h.chain[..|h.chain|] == h.chain;
    Rechain(h, kept, h.live - freed, keptChain);
  }

  /** Install the rebuilt chain. */
  method Rechain(h: Objects, head: u64, live: nat, ghost chain': seq<u64>)
    requires ShapeOf(h.words, head, live, h.free, h.owner, h.chunks, h.regions, chain') && Unmarked(h.words, chain')
    modifies h`heapChain, h`live, h`chain
    ensures h.Valid() && h.chain == chain'
  {
    h.heapChain, h.live, h.chain := head, live, chain';
  }

  lemma ChainNonNil(ws: seq<u64>, owner: seq<Owner>, chunks: map<u64, Chunk>, regions: map<u64, nat>, chain: seq<u64>)
    requires Extents(ws, owner, chunks, regions) && Headers(ws, chunks, chain)
    ensures Elements(chain) <= chunks.Keys && forall i :: 0 <= i < |chain| ==> chain[i] != 0
  {
    forall i | 0 <= i < |chain| ensures chain[i] != 0 {
      assert chain[i] in chunks && chain[i] / 8 >= 1;
    }
  }

  // ----- the collection ---------------------------------------------------------------------

  /** What a survivor keeps: everything but its place on the chain. */
  ghost predicate Survives(ws0: seq<u64>, ws: seq<u64>, o: u64, c: Chunk) {
    && TypeWord(ws, o) == TypeWord(ws0, o) && Flags(ws, o) == Flags(ws0, o) && Len(ws, o) == Len(ws0, o)
    && forall i :: 0 <= i < c.len ==> Data(ws, o, i) == Data(ws0, o, i)
  }

  /** The heap after a sweep, read from outside. */
  ghost predicate Swept(ws0: seq<u64>, ws: seq<u64>, owner: seq<Owner>, chunks: map<u64, Chunk>, chain0: seq<u64>,
                        chain: seq<u64>) {
    && PartSwept(ws0, ws, owner, Elements(chain0), Elements(chain))
    && (forall o :: o in chain ==> o in chunks && Survives(ws0, ws, o, chunks[o]))
    && (forall o :: o in chain0 && o !in chain ==> Flags(ws, o) == FREED)
  }

  /** A word followed after the sweep was followed before it. */
  lemma NothingNewFollowed(ws0: seq<u64>, ws: seq<u64>, owner: seq<Owner>, chunks: map<u64, Chunk>,
                           regions: map<u64, nat>,
                           head: u64, chain0: seq<u64>, chain: seq<u64>, w: u64)
    requires Extents(ws0, owner, chunks, regions) && Elements(chain) <= Elements(chain0) <= chunks.Keys
    requires PartSwept(ws0, ws, owner, Elements(chain0), Elements(chain)) && Threaded(ws, head, chain)
    requires Followed(ws, w)
    ensures Followed(ws0, w)
  {
    forall i | 0 <= i < |ws| && LinkOf(owner, Elements(chain0) * Elements(chain), i) ensures !HasMagic(ws[i]) {
      LinkHasNoMagic(ws, owner, chunks, head, chain, i);
    }
  }

  /** A chain link is an address, too small to carry the magic bit. */
  lemma LinkHasNoMagic(ws: seq<u64>, owner: seq<Owner>, chunks: map<u64, Chunk>, head: u64, chain: seq<u64>, i: nat)
    requires |ws| <= |owner| && |ws| <= PINNED_WORDS && Threaded(ws, head, chain) && Elements(chain) <= chunks.Keys
    requires forall o :: o in chunks ==> o / 8 < |ws|
    requires i < |ws| && LinkOf(owner, Elements(chain), i)
    ensures !HasMagic(ws[i])
  {
    var j :| 0 <= j < |chain| && chain[j] == owner[i].o;
    assert ws[i] == After(chain, j);
    if j + 1 < |chain| {
      assert chain[j + 1] in Elements(chain);
    }
  }

  lemma {:induction false} PathsKept(ws0: seq<u64>, ws: seq<u64>, owner: seq<Owner>, chunks: map<u64, Chunk>,
                                     regions: map<u64, nat>,
                                     head: u64, chain0: seq<u64>, chain: seq<u64>, roots: seq<u64>, p: seq<u64>)
    requires Extents(ws0, owner, chunks, regions) && Elements(chain) <= Elements(chain0) <= chunks.Keys
    requires Headers(ws0, chunks, chain0) && Swept(ws0, ws, owner, chunks, chain0, chain) && Threaded(ws, head, chain)
    requires forall w :: w in chain <==> Reachable(ws0, roots, w)
    ensures IsPath(ws0, roots, p) <==> IsPath(ws, roots, p)
    ensures IsPath(ws0, roots, p) ==> p[|p| - 1] in chain
    decreases |p|
  {
    if p == [] { return; }
    var last := p[|p| - 1];
    var q := p[..|p| - 1];
    if IsPath(ws0, roots, p) { assert Reachable(ws0, roots, last); }
    if Followed(ws, last) { NothingNewFollowed(ws0, ws, owner, chunks, regions, head, chain0, chain, last); }
    if |p| == 1 {
      if IsPath(ws, roots, p) { ReachRoot(ws0, roots, last); }
    } else {
      PathsKept(ws0, ws, owner, chunks, regions, head, chain0, chain, roots, q);
      PathStep(ws0, roots, p);
      PathStep(ws, roots, p);
      if IsPath(ws0, roots, q) {
        var o := q[|q| - 1];
        assert o in chain && o in Elements(chain) && o in Elements(chain0);
        EdgesKept(ws0, ws, o, chunks[o]);
        if IsPath(ws, roots, p) { ReachEdge(ws0, roots, o, last) by { assert Reachable(ws0, roots, o); } }
      }
    }
  }

  /** A path is a shorter path and one more followed edge. */
  lemma PathStep(ws: seq<u64>, roots: seq<u64>, p: seq<u64>)
    requires |p| >= 2
    ensures var q := p[..|p| - 1];
            IsPath(ws, roots, p) <==>
              IsPath(ws, roots, q) && Followed(ws, p[|p| - 1]) && p[|p| - 1] in Edges(ws, q[|q| - 1])
  {
    var q := p[..|p| - 1];
    if IsPath(ws, roots, q) && Followed(ws, p[|p| - 1]) && p[|p| - 1] in Edges(ws, q[|q| - 1]) {
      forall i | 0 <= i < |p| ensures Followed(ws, p[i]) && (i > 0 ==> p[i] in Edges(ws, p[i - 1])) {
        if i < |q| { assert q[i] == p[i]; if i > 0 { assert q[i - 1] == p[i - 1]; } }
      }
    }
  }

  /** Reachability from the same roots is the same after the sweep. */
  lemma ReachabilityKept(ws0: seq<u64>, ws: seq<u64>, owner: seq<Owner>, chunks: map<u64, Chunk>,
                         regions: map<u64, nat>,
                         head: u64, chain0: seq<u64>, chain: seq<u64>, roots: seq<u64>)
    requires Extents(ws0, owner, chunks, regions) && Elements(chain) <= Elements(chain0) <= chunks.Keys
    requires Headers(ws0, chunks, chain0) && Swept(ws0, ws, owner, chunks, chain0, chain) && Threaded(ws, head, chain)
    requires forall w :: w in chain <==> Reachable(ws0, roots, w)
    ensures forall w :: w in chain <==> Reachable(ws, roots, w)
  {
    forall w ensures Reachable(ws0, roots, w) <==> Reachable(ws, roots, w) {
      if p :| IsPath(ws0, roots, p) && p[|p| - 1] == w {
        PathsKept(ws0, ws, owner, chunks, regions, head, chain0, chain, roots, p);
        assert IsPath(ws, roots, p);
      }
      if p :| IsPath(ws, roots, p) && p[|p| - 1] == w {
        PathsKept(ws0, ws, owner, chunks, regions, head, chain0, chain, roots, p);
        assert IsPath(ws0, roots, p);
      }
    }
  }

  lemma SweptFrom(ws0: seq<u64>, ws: seq<u64>, owner: seq<Owner>, chunks: map<u64, Chunk>, regions: map<u64, nat>,
                  chain0: seq<u64>, chain: seq<u64>)
    requires Extents(ws0, owner, chunks, regions) && Elements(chain) <= Elements(chain0) <= chunks.Keys
    requires PartSwept(ws0, ws, owner, Elements(chain0), Elements(chain))
    ensures Swept(ws0, ws, owner, chunks, chain0, chain)
  {
    forall o | o in chain0
      ensures o in chain ==> Survives(ws0, ws, o, chunks[o])
      ensures o !in chain ==> Flags(ws, o) == FREED
    {
      assert o in Elements(chain0) && (o in chain <==> o in Elements(chain));
      PartSweptReads(ws0, ws, owner, chunks, regions, Elements(chain0), Elements(chain), o);
    }
    forall o | o in chain ensures o in chunks && Survives(ws0, ws, o, chunks[o]) {
      assert o in Elements(chain);
    }
  }

  /** COLLECTION IS SAFE AND COMPLETE. The objects left on the chain are exactly those
      reachable from the roots; each keeps its address, type, kind, flags, length and
      data; every other object is stamped freed and waits on the free list (the heap
      is valid again, every mark clear); and what is reachable from those roots has
      not changed. */
  method Collect(h: Objects, roots: seq<u64>) returns (freed: nat)
    requires h.Valid() && h.RefsLive() && Guesses(h.words, h.chunks, roots, h.chain)
    modifies h`words, h`free, h`heapChain, h`live, h`chain
    ensures h.Valid() && freed == |old(h.chain)| - |h.chain|
    ensures h.RefsLive() && Guesses(h.words, h.chunks, roots, h.chain)
    ensures forall o :: o in h.chain <==> Reachable(old(h.words), roots, o)
    ensures forall o :: o in h.chain <==> Reachable(h.words, roots, o)
    ensures Elements(h.chain) <= Elements(old(h.chain))
    ensures Swept(old(h.words), h.words, h.owner, h.chunks, old(h.chain), h.chain)
  {
    ghost var ws0, chain0 := h.words, h.chain;
    ghost var marked := Mark(h, roots);
    freed := Sweep(h, ws0, marked);
    forall o ensures o in h.chain <==> Reachable(ws0, roots, o) {
      assert o in h.chain <==> o in Elements(h.chain);
    }
    ChainNonNil(ws0, h.owner, h.chunks, h.regions, chain0);
    SweptFrom(ws0, h.words, h.owner, h.chunks, h.regions, chain0, h.chain);
    ReachabilityKept(ws0, h.words, h.owner, h.chunks, h.regions, h.heapChain, chain0, h.chain, roots);
    RefsSurvive(ws0, h.words, h.chunks, chain0, h.chain, roots);
    GuessesSurvive(h.words, h.chunks, h.chain, roots);
  }

  /** What a survivor refers to is reached through it. */
  lemma RefsSurvive(ws0: seq<u64>, ws: seq<u64>, chunks: map<u64, Chunk>, chain0: seq<u64>, chain: seq<u64>,
                    roots: seq<u64>)
    requires Headers(ws0, chunks, chain0) && LiveRefs(ws0, chunks, chain0) && Elements(chain) <= Elements(chain0)
    requires forall o :: o in chain ==> o in chunks && Survives(ws0, ws, o, chunks[o])
    requires forall o :: o in chain <==> Reachable(ws0, roots, o)
    requires forall o :: o in chain0 ==> Followed(ws0, o) && ExtentOk(ws0, o, chunks[o].len)
    ensures LiveRefs(ws, chunks, chain)
  {
    forall o | o in chain ensures ObjRefs(ws, o, chunks[o], chain) {
      assert o in Elements(chain);
      ObjRefsSurvive(ws0, ws, o, chunks[o], chain0, chain, roots);
    }
  }

  lemma ObjRefsSurvive(ws0: seq<u64>, ws: seq<u64>, o: u64, c: Chunk, chain0: seq<u64>, chain: seq<u64>,
                       roots: seq<u64>)
    requires Header(ws0, o, c) && ObjRefs(ws0, o, c, chain0) && Survives(ws0, ws, o, c) && ExtentOk(ws0, o, c.len)
    requires o in chain && (forall p :: p in chain <==> Reachable(ws0, roots, p))
    requires forall p :: p in chain0 ==> Followed(ws0, p)
    ensures ObjRefs(ws, o, c, chain)
  {
    if TypeWord(ws0, o) != 0 { ReachEdge(ws0, roots, o, TypeWord(ws0, o)); }
    forall i | 0 <= i < c.len && SlotIsRef(Kind(Flags(ws0, o)), i) && Data(ws0, o, i) != 0
      ensures Data(ws0, o, i) in chain
    {
      SlotIsEdge(ws0, o, c, i);
      ReachEdge(ws0, roots, o, Data(ws0, o, i));
    }
  }

  lemma {:induction false} DataWordsHave(ws: seq<u64>, o: u64, lo: nat, hi: nat, i: nat)
    requires lo <= i < hi
    ensures Data(ws, o, i) in DataWords(ws, o, lo, hi)
    ensures Plausible(ws, Data(ws, o, i)) ==> Data(ws, o, i) in PlausibleWords(ws, o, lo, hi)
    decreases hi - lo
  {
    if lo < i { DataWordsHave(ws, o, lo + 1, hi, i); }
  }

  /** A reference slot, and a plausible word of an instance, is an edge. */
  lemma SlotIsEdge(ws: seq<u64>, o: u64, c: Chunk, i: nat)
    requires Header(ws, o, c) && i < c.len && ExtentOk(ws, o, c.len)
    requires SlotIsRef(Kind(Flags(ws, o)), i) || (Kind(Flags(ws, o)) == INSTANCE && Plausible(ws, Data(ws, o, i)))
    ensures Data(ws, o, i) in Edges(ws, o)
  {
    var k := Kind(Flags(ws, o));
    if k == FALSE || k == INSTANCE {
      DataWordsHave(ws, o, 0, c.len, i);
    } else {
      var refs := KindEdges(ws, o);
      assert refs[if k == FN || k == OP || k == WRAP || k == BUF then i - 1 else i] == Data(ws, o, i);
    }
  }

  lemma GuessesSurvive(ws: seq<u64>, chunks: map<u64, Chunk>, chain: seq<u64>, roots: seq<u64>)
    requires Headers(ws, chunks, chain) && forall o :: o in chain ==> ExtentOk(ws, o, chunks[o].len)
    requires forall o :: o in chain <==> Reachable(ws, roots, o)
    ensures Guesses(ws, chunks, roots, chain)
  {
    forall r | r in roots && Followed(ws, r) ensures r in chain { ReachRoot(ws, roots, r); }
    forall o, i | o in chain && Kind(Flags(ws, o)) == INSTANCE && 0 <= i < chunks[o].len && Followed(ws, Data(ws, o, i))
      ensures Data(ws, o, i) in chain
    {
      SlotIsEdge(ws, o, chunks[o], i);
      ReachEdge(ws, roots, o, Data(ws, o, i));
    }
  }

  /** A second collection from the same roots frees nothing. */
  method CollectTwice(h: Objects, roots: seq<u64>) returns (first: nat, second: nat)
    requires h.Valid() && h.RefsLive() && Guesses(h.words, h.chunks, roots, h.chain)
    modifies h`words, h`free, h`heapChain, h`live, h`chain
    ensures h.Valid() && second == 0
    ensures forall o :: o in h.chain <==> Reachable(old(h.words), roots, o)
  {
    first := Collect(h, roots);
    ghost var c1 := h.chain;
    second := Collect(h, roots);
    SameElementsSameLength(c1, h.chain);
  }

  lemma {:induction false} SameElementsSameLength(a: seq<u64>, b: seq<u64>)
    requires Distinct(a) && Distinct(b) && forall x :: x in a <==> x in b
    ensures |a| == |b|
  {
    CountDistinct(a);
    CountDistinct(b);
    assert Elements(a) == Elements(b);
  }

  lemma {:induction false} CountDistinct(a: seq<u64>)
    requires Distinct(a)
    ensures |Elements(a)| == |a|
  {
    if a != [] {
      CountDistinct(a[1..]);
      assert Elements(a) == {a[0]} + Elements(a[1..]);
    }
  }
}
