/** The allocator: object cells in one growing vector of words.

Every object is threaded on a chain through its first
header word; a swept object's chunk is kept for an allocation of its exact data length
and meta room, and nothing ever moves. */
module Heap {
  import opened Options
  import opened Layout

  /** Which block a word belongs to. One owner a word: blocks cannot overlap. */
  datatype Owner = Nobody | ChunkAt(o: u64) | RegionAt(r: u64)

  /** The room carved for an object: meta words before its header, data words after. */
  datatype Chunk = Chunk(meta: nat, len: nat)

  function Key(c: Chunk): nat { c.len * 256 + c.meta }

  /** How many data slots an object of a kind must have for its references. */
  function SlotsFor(kind: int): nat {
    if kind == PAIR || kind == SPAIR || kind == ITER || kind == FN || kind == OP || kind == WRAP then 2
    else if kind == ENV then 1
    else if kind == ENVH || kind == BUF then 3
    else 0
  }

  // ----- the shape of a heap ------------------------------------------------------------

  predicate InExtent(i: int, o: u64, c: Chunk) { o / 8 - c.meta <= i < o / 8 + META_LEN + c.len }

  /** Every chunk and byte region lies inside the vector and owns all its words. */
  ghost predicate Extents(ws: seq<u64>, owner: seq<Owner>, chunks: map<u64, Chunk>, regions: map<u64, nat>) {
    && 1 <= |ws| == |owner| <= PINNED_WORDS
    && owner[0] == Nobody
    && (forall o :: o in chunks ==>
          && o % 8 == 0 && chunks[o].meta <= MAX_META
          && o / 8 - chunks[o].meta >= 1 && o / 8 + META_LEN + chunks[o].len <= |ws|)
    && (forall o, i :: o in chunks && InExtent(i, o, chunks[o]) ==> owner[i] == ChunkAt(o))
    && (forall r :: r in regions ==> r % 8 == 0 && r >= 8 && regions[r] >= 1 && r / 8 + regions[r] <= |ws|)
    && (forall r, i :: r in regions && r / 8 <= i < r / 8 + regions[r] ==> owner[i] == RegionAt(r))
  }

  /** No word is inside two blocks. */
  lemma Disjoint(ws: seq<u64>, owner: seq<Owner>, chunks: map<u64, Chunk>, regions: map<u64, nat>, o: u64, p: u64,
                 i: int)
    requires Extents(ws, owner, chunks, regions)
    requires o in chunks && InExtent(i, o, chunks[o])
    ensures p in chunks && p != o ==> !InExtent(i, p, chunks[p])
    ensures p in regions ==> !(p / 8 <= i < p / 8 + regions[p])
  {
    assert owner[i] == ChunkAt(o);
  }

  /** A key names one length and one meta room. */
  lemma KeyNamesChunk(c: Chunk, d: Chunk)
    requires c.meta <= MAX_META && d.meta <= MAX_META && Key(c) == Key(d)
    ensures c == d
  {}

  predicate Distinct<T(==)>(s: seq<T>) { forall i, j :: 0 <= i < j < |s| ==> s[i] != s[j] }

  /** The chain, threaded through word 0 of each header, nil-terminated. */
  predicate Threaded(ws: seq<u64>, head: u64, chain: seq<u64>) {
    && head == (if chain == [] then 0 else chain[0])
    && forall i {:trigger After(chain, i)} :: 0 <= i < |chain| ==> Link(ws, chain[i]) == After(chain, i)
  }

  function After(chain: seq<u64>, i: nat): u64 { if i + 1 < |chain| then chain[i + 1] else 0 }

  /** A live object's header describes its chunk. */
  predicate Header(ws: seq<u64>, o: u64, c: Chunk) {
    var f := Flags(ws, o);
    && HasMagic(f) && MetaCount(f) == c.meta && Len(ws, o) == c.len
    && SlotsFor(Kind(f)) <= c.len
  }

  ghost predicate Buckets(ws: seq<u64>, free: map<nat, seq<u64>>, chunks: map<u64, Chunk>, chain: seq<u64>) {
    && (forall k, i :: k in free && 0 <= i < |free[k]| ==>
          var o := free[k][i];
          o in chunks && Key(chunks[o]) == k && o !in chain && Flags(ws, o) == FREED)
    && (forall k :: k in free ==> Distinct(free[k]))
  }

  /** The whole bookkeeping of a heap. */
  ghost predicate ShapeOf(ws: seq<u64>, head: u64, live: nat, free: map<nat, seq<u64>>, owner: seq<Owner>,
                          chunks: map<u64, Chunk>, regions: map<u64, nat>, chain: seq<u64>) {
    && Extents(ws, owner, chunks, regions)
    && Distinct(chain)
    && Headers(ws, chunks, chain)
    && Threaded(ws, head, chain)
    && live == |chain|
    && Buckets(ws, free, chunks, chain)
    && Accounted(free, chunks, chain)
  }

  ghost predicate Headers(ws: seq<u64>, chunks: map<u64, Chunk>, chain: seq<u64>) {
    forall o :: o in chain ==> o in chunks && Header(ws, o, chunks[o])
  }

  /** Does data slot `i` of an object of a kind hold a reference? The words of an instance
      may be anything. */
  predicate SlotIsRef(kind: int, i: nat) {
    if kind == PAIR || kind == SPAIR || kind == ITER then i < 2
    else if kind == FN || kind == OP || kind == WRAP then i == 1
    else if kind == ENV then i == 0
    else if kind == ENVH then i < 3
    else if kind == BUF then i == 1 || i == 2
    else kind == FALSE
  }

  /** The type and the reference slots of an object are each nil or a live object. */
  ghost predicate ObjRefs(ws: seq<u64>, o: u64, c: Chunk, chain: seq<u64>) {
    && (TypeWord(ws, o) != 0 ==> TypeWord(ws, o) in chain)
    && forall i :: 0 <= i < c.len && SlotIsRef(Kind(Flags(ws, o)), i) && Data(ws, o, i) != 0 ==> Data(ws, o, i) in chain
  }

  /** Every live object's are. */
  ghost predicate LiveRefs(ws: seq<u64>, chunks: map<u64, Chunk>, chain: seq<u64>) {
    forall o :: o in chain ==> o in chunks && ObjRefs(ws, o, chunks[o], chain)
  }

  lemma ObjRefsKept(ws: seq<u64>, ws': seq<u64>, o: u64, c: Chunk, chain: seq<u64>, chain': seq<u64>)
    requires ObjRefs(ws, o, c, chain) && forall p :: p in chain ==> p in chain'
    requires TypeWord(ws', o) == TypeWord(ws, o) && Flags(ws', o) == Flags(ws, o)
    requires forall i :: 0 <= i < c.len ==> Data(ws', o, i) == Data(ws, o, i)
    ensures ObjRefs(ws', o, c, chain')
  {}

  /** A new object, its type live, refers to nothing else. */
  lemma RefsGrow(ws: seq<u64>, ws': seq<u64>, owner: seq<Owner>, chunks: map<u64, Chunk>, regions: map<u64, nat>,
                 chain: seq<u64>, head: u64, o: u64, kind: int, n: nat, ty: u64, meta: nat)
    requires Extents(ws, owner, chunks, regions) && LiveRefs(ws, chunks, chain) && (ty != 0 ==> ty in chain)
    requires IsKind(kind) && meta <= MAX_META && o !in chain && Prepared(ws, ws', owner, head, o, kind, n, ty, meta)
    ensures LiveRefs(ws', chunks[o := Chunk(meta, n)], [o] + chain)
  {
    forall p | p in chain ensures ObjRefs(ws', p, chunks[p], [o] + chain) {
      BlockFramed(ws, ws', owner, chunks, regions, o, p);
      ObjRefsKept(ws, ws', p, chunks[p], chain, [o] + chain);
    }
  }

  /** A byte region holds no references. */
  lemma RefsStay(ws: seq<u64>, ws': seq<u64>, owner: seq<Owner>, chunks: map<u64, Chunk>, regions: map<u64, nat>,
                 chain: seq<u64>)
    requires Extents(ws, owner, chunks, regions) && LiveRefs(ws, chunks, chain) && ws <= ws'
    ensures LiveRefs(ws', chunks, chain)
  {
    forall p | p in chain ensures ObjRefs(ws', p, chunks[p], chain) {
      assert p / 8 + META_LEN + chunks[p].len <= |ws|;
      ObjRefsKept(ws, ws', p, chunks[p], chain, chain);
    }
  }

  /** A reference slot takes nil or a live object; any other slot takes any word. */
  lemma RefsWritten(ws: seq<u64>, owner: seq<Owner>, chunks: map<u64, Chunk>, regions: map<u64, nat>, chain: seq<u64>,
                    o: u64, i: nat, v: u64)
    requires Extents(ws, owner, chunks, regions) && LiveRefs(ws, chunks, chain) && o in chain && i < chunks[o].len
    requires SlotIsRef(Kind(Flags(ws, o)), i) && v != 0 ==> v in chain
    ensures LiveRefs(SetWord(ws, o / 8 + META_LEN + i, v), chunks, chain)
  {
    var ws' := SetWord(ws, o / 8 + META_LEN + i, v);
    forall p | p in chain ensures ObjRefs(ws', p, chunks[p], chain) {
      SlotFramed(ws, owner, chunks, regions, o, i, v, p);
    }
  }

  /** Every chunk is live or waiting in its bucket. */
  ghost predicate Accounted(free: map<nat, seq<u64>>, chunks: map<u64, Chunk>, chain: seq<u64>) {
    forall o {:trigger Waits(free, chunks[o], o)} :: o in chunks && o !in chain ==> Waits(free, chunks[o], o)
  }

  ghost predicate Waits(free: map<nat, seq<u64>>, c: Chunk, o: u64) { Key(c) in free && o in free[Key(c)] }

  ghost predicate Unmarked(ws: seq<u64>, chain: seq<u64>) {
    forall o :: o in chain ==> !Marked(Flags(ws, o))
  }

  /** `ws'` differs from `ws` only inside the block of `o`. */
  ghost predicate AgreeOff(ws: seq<u64>, ws': seq<u64>, owner: seq<Owner>, o: u64) {
    && |ws| <= |ws'| && |ws| <= |owner|
    && forall i :: 0 <= i < |ws| && owner[i] != ChunkAt(o) ==> ws'[i] == ws[i]
  }

  /** What is written in one block is not seen in another's header or data. */
  lemma BlockFramed(ws: seq<u64>, ws': seq<u64>, owner: seq<Owner>, chunks: map<u64, Chunk>, regions: map<u64, nat>,
                    o: u64, p: u64)
    requires Extents(ws, owner, chunks, regions) && AgreeOff(ws, ws', owner, o)
    requires p in chunks && p != o
    ensures Link(ws', p) == Link(ws, p) && TypeWord(ws', p) == TypeWord(ws, p)
    ensures Flags(ws', p) == Flags(ws, p) && Len(ws', p) == Len(ws, p)
    ensures forall i :: 0 <= i < chunks[p].len ==> Data(ws', p, i) == Data(ws, p, i)
  {
    var c := chunks[p];
    assert InExtent(p / 8, p, c) && InExtent(p / 8 + 1, p, c) && InExtent(p / 8 + 2, p, c) && InExtent(p / 8 + 3, p, c);
    forall i | 0 <= i < c.len ensures Data(ws', p, i) == Data(ws, p, i) {
      assert InExtent(p / 8 + META_LEN + i, p, c);
    }
  }

  /** Every header but one block's reads as it did. */
  ghost predicate HeadersKept(ws: seq<u64>, ws': seq<u64>, s: set<u64>) {
    forall p :: p in s ==> Link(ws', p) == Link(ws, p) && Flags(ws', p) == Flags(ws, p) && Len(ws', p) == Len(ws, p)
  }

  lemma BlocksFramed(ws: seq<u64>, ws': seq<u64>, owner: seq<Owner>, chunks: map<u64, Chunk>, regions: map<u64, nat>,
                     o: u64)
    requires Extents(ws, owner, chunks, regions) && AgreeOff(ws, ws', owner, o)
    ensures HeadersKept(ws, ws', chunks.Keys - {o})
  {
    forall p | p in chunks.Keys - {o}
      ensures Link(ws', p) == Link(ws, p) && Flags(ws', p) == Flags(ws, p) && Len(ws', p) == Len(ws, p)
    {
      BlockFramed(ws, ws', owner, chunks, regions, o, p);
    }
  }

  lemma ThreadedGrows(ws: seq<u64>, ws': seq<u64>, head: u64, chain: seq<u64>, o: u64)
    requires Threaded(ws, head, chain) && Link(ws', o) == head
    requires forall p :: p in chain ==> Link(ws', p) == Link(ws, p)
    ensures Threaded(ws', o, [o] + chain)
  {
    var chain' := [o] + chain;
    forall i | 0 <= i < |chain'| ensures Link(ws', chain'[i]) == After(chain', i) {
      if i > 0 {
        var p := chain[i - 1];
        assert chain'[i] == p && p in chain;
        assert Link(ws, p) == After(chain, i - 1);
      }
    }
  }

  lemma BucketsGrowChain(ws: seq<u64>, ws': seq<u64>, free: map<nat, seq<u64>>, chunks: map<u64, Chunk>,
                         chunks': map<u64, Chunk>, chain: seq<u64>, o: u64)
    requires Buckets(ws, free, chunks, chain)
    requires forall k :: k in free ==> o !in free[k]
    requires forall p :: p in chunks && p != o ==>
        p in chunks' && chunks'[p] == chunks[p] && Flags(ws', p) == Flags(ws, p)
    ensures Buckets(ws', free, chunks', [o] + chain)
  {
    forall k, i | k in free && 0 <= i < |free[k]|
      ensures var p := free[k][i]; p in chunks' && Key(chunks'[p]) == k && p !in [o] + chain && Flags(ws', p) == FREED
    {
      var p := free[k][i];
      assert p in free[k];
      assert p in chunks && Key(chunks[p]) == k && p !in chain && Flags(ws, p) == FREED;
    }
  }

  /** What taking a chunk leaves of the free list. */
  ghost predicate Taken(free: map<nat, seq<u64>>, free': map<nat, seq<u64>>, k: nat, o: u64) {
    && k in free && free'.Keys == free.Keys
    && o !in free'[k] && free[k] == free'[k] + [o]
    && forall k' :: k' in free && k' != k ==> free'[k'] == free[k']
  }

  /** Handing a free chunk out again. */
  lemma ReuseKeepsShape(ws: seq<u64>, ws': seq<u64>, head: u64, live: nat, free: map<nat, seq<u64>>,
                        free': map<nat, seq<u64>>,
                        owner: seq<Owner>, chunks: map<u64, Chunk>, regions: map<u64, nat>, chain: seq<u64>, o: u64)
    requires ShapeOf(ws, head, live, free, owner, chunks, regions, chain)
    requires o in chunks && o !in chain && |ws'| == |ws| && AgreeOff(ws, ws', owner, o)
    requires Header(ws', o, chunks[o]) && Link(ws', o) == head
    requires Buckets(ws, free', chunks, chain) && Taken(free, free', Key(chunks[o]), o)
    ensures ShapeOf(ws', o, live + 1, free', owner, chunks, regions, [o] + chain)
  {
    BlocksFramed(ws, ws', owner, chunks, regions, o);
    ThreadedGrows(ws, ws', head, chain, o);
    forall k | k in free' ensures o !in free'[k] {
      if i :| 0 <= i < |free'[k]| && free'[k][i] == o { assert Key(chunks[o]) == k; }
    }
    BucketsGrowChain(ws, ws', free', chunks, chunks, chain, o);
    forall p | p in chunks && p !in [o] + chain
      ensures Waits(free', chunks[p], p)
    {
      assert Waits(free, chunks[p], p);
    }
  }

  /** The owners of a vector grown by one block. */
  ghost function Grown(owner: seq<Owner>, k: nat, who: Owner): (r: seq<Owner>)
    ensures owner <= r && |r| == |owner| + k
    ensures forall i :: |owner| <= i < |r| ==> r[i] == who
  {
    owner + seq(k, _ => who)
  }

  lemma CarveFramed(ws: seq<u64>, ws': seq<u64>, owner: seq<Owner>, chunks: map<u64, Chunk>, regions: map<u64, nat>)
    requires Extents(ws, owner, chunks, regions) && ws <= ws'
    ensures HeadersKept(ws, ws', chunks.Keys)
  {
    forall p | p in chunks
      ensures Link(ws', p) == Link(ws, p) && Flags(ws', p) == Flags(ws, p) && Len(ws', p) == Len(ws, p)
    {
      assert p / 8 + META_LEN + chunks[p].len <= |ws|;
    }
  }

  lemma HeadersGrow(ws: seq<u64>, ws': seq<u64>, chunks: map<u64, Chunk>, chain: seq<u64>, o: u64, c: Chunk)
    requires Headers(ws, chunks, chain) && Header(ws', o, c) && o !in chunks
    requires HeadersKept(ws, ws', chunks.Keys)
    ensures Headers(ws', chunks[o := c], [o] + chain)
  {
    forall p | p in [o] + chain ensures p in chunks[o := c] && Header(ws', p, chunks[o := c][p]) {
      if p != o { assert p in chain && p in chunks.Keys; }
    }
  }

  lemma AccountedGrows(free: map<nat, seq<u64>>, chunks: map<u64, Chunk>, chain: seq<u64>, o: u64, c: Chunk)
    requires Accounted(free, chunks, chain)
    ensures Accounted(free, chunks[o := c], [o] + chain)
  {
    var chunks' := chunks[o := c];
    forall p | p in chunks' && p !in [o] + chain ensures Waits(free, chunks'[p], p) {
      assert p != o && p in chunks && p !in chain;
      assert Waits(free, chunks[p], p);
    }
  }

  /** Carving a fresh chunk at the frontier. */
  lemma CarveKeepsShape(ws: seq<u64>, ws': seq<u64>, head: u64, live: nat, free: map<nat, seq<u64>>,
                        owner: seq<Owner>, chunks: map<u64, Chunk>, regions: map<u64, nat>, chain: seq<u64>, o: u64,
                        c: Chunk)
    requires ShapeOf(ws, head, live, free, owner, chunks, regions, chain)
    requires ws <= ws' && |ws'| == |ws| + c.meta + META_LEN + c.len <= PINNED_WORDS
    requires o % 8 == 0 && o / 8 == |ws| + c.meta && c.meta <= MAX_META
    requires Header(ws', o, c) && Link(ws', o) == head
    ensures o !in chunks
    ensures ShapeOf(ws', o, live + 1, free, Grown(owner, c.meta + META_LEN + c.len, ChunkAt(o)), chunks[o := c],
        regions, [o] + chain)
  {
    assert forall p :: p in chunks ==> p / 8 + META_LEN + chunks[p].len <= |ws|;
    CarveKeepsExtents(ws, ws', owner, Grown(owner, c.meta + META_LEN + c.len, ChunkAt(o)), chunks, regions, o, c);
    CarveFramed(ws, ws', owner, chunks, regions);
    ThreadedGrows(ws, ws', head, chain, o);
    HeadersGrow(ws, ws', chunks, chain, o, c);
    AccountedGrows(free, chunks, chain, o, c);
    forall k, i | k in free && 0 <= i < |free[k]| ensures free[k][i] != o {
      assert free[k][i] in chunks;
    }
    BucketsGrowChain(ws, ws', free, chunks, chunks[o := c], chain, o);
  }

  lemma CarveKeepsExtents(ws: seq<u64>, ws': seq<u64>, owner: seq<Owner>, owner': seq<Owner>, chunks: map<u64, Chunk>,
                          regions: map<u64, nat>, o: u64, c: Chunk)
    requires Extents(ws, owner, chunks, regions) && o !in chunks
    requires ws <= ws' && |ws'| == |ws| + c.meta + META_LEN + c.len <= PINNED_WORDS
    requires o % 8 == 0 && o / 8 == |ws| + c.meta && c.meta <= MAX_META
    requires owner <= owner' && |owner'| == |ws'| && forall i :: |ws| <= i < |ws'| ==> owner'[i] == ChunkAt(o)
    ensures Extents(ws', owner', chunks[o := c], regions)
  {
    var chunks' := chunks[o := c];
    forall p, i | p in chunks' && InExtent(i, p, chunks'[p]) ensures owner'[i] == ChunkAt(p) {
      if p != o { assert InExtent(i, p, chunks[p]) && owner[i] == ChunkAt(p); }
    }
    forall r, i | r in regions && r / 8 <= i < r / 8 + regions[r] ensures owner'[i] == RegionAt(r) {
      assert owner[i] == RegionAt(r);
    }
  }

  /** A byte region at the frontier. */
  lemma RegionKeepsShape(ws: seq<u64>, ws': seq<u64>, head: u64, live: nat, free: map<nat, seq<u64>>,
                         owner: seq<Owner>, chunks: map<u64, Chunk>, regions: map<u64, nat>, chain: seq<u64>, r: u64,
                         k: nat)
    requires ShapeOf(ws, head, live, free, owner, chunks, regions, chain)
    requires ws <= ws' && |ws'| == |ws| + k <= PINNED_WORDS && r == 8 * |ws| && k >= 1
    ensures r !in regions
    ensures HeadersKept(ws, ws', chunks.Keys)
    ensures ShapeOf(ws', head, live, free, Grown(owner, k, RegionAt(r)), chunks, regions[r := k], chain)
  {
    var owner', regions' := Grown(owner, k, RegionAt(r)), regions[r := k];
    CarveFramed(ws, ws', owner, chunks, regions);
    RegionKeepsExtents(ws, ws', owner, chunks, regions, r, k);
    forall i | 0 <= i < |chain| ensures Link(ws', chain[i]) == After(chain, i) {
      assert chain[i] in chain && chain[i] in chunks.Keys;
    }
    forall f, i | f in free && 0 <= i < |free[f]|
      ensures var p := free[f][i]; p in chunks && Key(chunks[p]) == f && p !in chain && Flags(ws', p) == FREED
    {
      assert free[f][i] in chunks.Keys;
    }
  }

  lemma RegionKeepsExtents(ws: seq<u64>, ws': seq<u64>, owner: seq<Owner>, chunks: map<u64, Chunk>,
                           regions: map<u64, nat>, r: u64, k: nat)
    requires Extents(ws, owner, chunks, regions)
    requires ws <= ws' && |ws'| == |ws| + k <= PINNED_WORDS && r == 8 * |ws| && k >= 1
    ensures r !in regions
    ensures Extents(ws', Grown(owner, k, RegionAt(r)), chunks, regions[r := k])
  {
    var owner', regions' := Grown(owner, k, RegionAt(r)), regions[r := k];
    assert forall q :: q in regions ==> q / 8 + regions[q] <= |ws|;
    forall p, i | p in chunks && InExtent(i, p, chunks[p]) ensures owner'[i] == ChunkAt(p) {
      assert owner[i] == ChunkAt(p);
    }
    forall q, i | q in regions' && q / 8 <= i < q / 8 + regions'[q] ensures owner'[i] == RegionAt(q) {
      if q != r { assert owner[i] == RegionAt(q); }
    }
  }

  /** A data slot is in no header, and in no other object's data. */
  lemma SlotFramed(ws: seq<u64>, owner: seq<Owner>, chunks: map<u64, Chunk>, regions: map<u64, nat>, o: u64, i: nat,
                   v: u64, p: u64)
    requires Extents(ws, owner, chunks, regions) && o in chunks && i < chunks[o].len && p in chunks
    ensures var ws' := SetWord(ws, o / 8 + META_LEN + i, v);
            && Link(ws', p) == Link(ws, p) && TypeWord(ws', p) == TypeWord(ws, p)
            && Flags(ws', p) == Flags(ws, p) && Len(ws', p) == Len(ws, p)
            && forall j :: 0 <= j < chunks[p].len ==> Data(ws', p, j) == if p == o && j == i then v else Data(ws, p, j)
  {
    var at, ws' := o / 8 + META_LEN + i, SetWord(ws, o / 8 + META_LEN + i, v);
    assert InExtent(at, o, chunks[o]) && owner[at] == ChunkAt(o);
    if p != o {
      assert AgreeOff(ws, ws', owner, o);
      BlockFramed(ws, ws', owner, chunks, regions, o, p);
    }
  }

  lemma SlotKeepsShape(ws: seq<u64>, head: u64, live: nat, free: map<nat, seq<u64>>, owner: seq<Owner>,
                       chunks: map<u64, Chunk>, regions: map<u64, nat>, chain: seq<u64>, o: u64, i: nat, v: u64)
    requires ShapeOf(ws, head, live, free, owner, chunks, regions, chain) && o in chunks && i < chunks[o].len
    ensures var ws' := SetWord(ws, o / 8 + META_LEN + i, v);
            ShapeOf(ws', head, live, free, owner, chunks, regions, chain) && (Unmarked(ws, chain) ==>
              Unmarked(ws', chain))
  {
    var ws' := SetWord(ws, o / 8 + META_LEN + i, v);
    forall p | p in chunks
      ensures Link(ws', p) == Link(ws, p) && Flags(ws', p) == Flags(ws, p) && Len(ws', p) == Len(ws, p)
    {
      SlotFramed(ws, owner, chunks, regions, o, i, v, p);
    }
    forall j | 0 <= j < |chain| ensures Link(ws', chain[j]) == After(chain, j) {
      assert chain[j] in chain;
    }
    forall k, j | k in free && 0 <= j < |free[k]|
      ensures var p := free[k][j]; p in chunks && Key(chunks[p]) == k && p !in chain && Flags(ws', p) == FREED
    {
      assert free[k][j] in chunks;
    }
  }

  lemma UnmarkedGrows(ws: seq<u64>, ws': seq<u64>, chain: seq<u64>, o: u64)
    requires Unmarked(ws, chain) && !Marked(Flags(ws', o))
    requires forall p :: p in chain ==> Flags(ws', p) == Flags(ws, p)
    ensures Unmarked(ws', [o] + chain)
  {}

  /** A block newly handed out: linked to the old head, stored flags, nil data, and
      nothing else in the vector disturbed. */
  ghost predicate Prepared(ws: seq<u64>, ws': seq<u64>, owner: seq<Owner>, head: u64, o: u64, kind: int, n: nat,
                           ty: u64, meta: nat)
    requires IsKind(kind) && meta <= MAX_META
  {
    && AgreeOff(ws, ws', owner, o)
    && Link(ws', o) == head && TypeWord(ws', o) == ty && Flags(ws', o) == Stored(kind, meta) && Len(ws', o) == n
    && forall i :: 0 <= i < n ==> Data(ws', o, i) == 0
  }

  class Objects {
    var words: seq<u64>
    var heapChain: u64
    var live: nat
    var free: map<nat, seq<u64>>
    ghost var owner: seq<Owner>
    ghost var chunks: map<u64, Chunk>
    ghost var regions: map<u64, nat>
    /** The live objects, newest first. */
    ghost var chain: seq<u64>

    ghost predicate Shaped()
      reads this
    {
      ShapeOf(words, heapChain, live, free, owner, chunks, regions, chain)
    }

    /** Well-formed, with every mark clear: the state between collections. */
    ghost predicate Valid()
      reads this
    {
      Shaped() && Unmarked(words, chain)
    }

    /** Every type and reference slot of a live object is nil or a live object. */
    ghost predicate RefsLive()
      reads this
    {
      LiveRefs(words, chunks, chain)
    }

    /** Nil, or a live object. */
    ghost predicate IsRef(v: u64)
      reads this
    {
      v != 0 ==> v in chain
    }

    constructor ()
      ensures Valid() && RefsLive() && chain == [] && chunks == map[] && regions == map[]
    {
      words, heapChain, live, free := [0], 0, 0, map[];
      owner, chunks, regions, chain := [Nobody], map[], map[], [];
    }

    // ----- allocation ---------------------------------------------------------------------

    /** A free chunk of exactly this data length and meta room, if one waits. */
    method TakeFree(n: nat, meta: nat) returns (r: Option<u64>)
      requires Buckets(words, free, chunks, chain) && meta <= MAX_META
      requires forall o :: o in chunks ==> chunks[o].meta <= MAX_META
      modifies `free
      ensures Buckets(words, free, chunks, chain)
      ensures r.None? ==> free == old(free)
      ensures r.Some? ==>
                && r.value in chunks && chunks[r.value] == Chunk(meta, n) && r.value !in chain
                && Taken(old(free), free, Key(Chunk(meta, n)), r.value)
    {
      var k := Key(Chunk(meta, n));
      if k in free && free[k] != [] {
        var bucket := free[k];
        var o := bucket[|bucket| - 1];
        r := Some(o);
        assert Key(chunks[o]) == k;
        KeyNamesChunk(chunks[o], Chunk(meta, n));
        free := free[k := bucket[..|bucket| - 1]];
        assert Distinct(bucket);
      } else {
        r := None;
      }
    }

    /** A header plus `n` nil data words, for an object of this kind and type. None
        when the pinned reservation is exhausted, where the engine stops. */
    method Alloc(kind: int, n: nat, ty: u64, meta: nat) returns (r: Option<u64>)
      requires Valid() && IsKind(kind) && SlotsFor(kind) <= n && meta <= MAX_META
      modifies this
      ensures Valid() && regions == old(regions)
      ensures r.None? ==> words == old(words) && chain == old(chain) && chunks == old(chunks) && owner == old(owner)
      ensures r.Some? ==> Allocated(r.value, kind, n, ty, meta)
      ensures old(RefsLive() && IsRef(ty)) ==> RefsLive()
    {
      r := TakeFree(n, meta);
      if r.Some? {
        AllocFree(r.value, kind, n, ty, meta, old(free));
      } else if |words| + meta + META_LEN + n <= PINNED_WORDS {
        var o := AllocFresh(kind, n, ty, meta);
        r := Some(o);
      }
      if r.Some? && old(RefsLive() && IsRef(ty)) {
        RefsGrow(old(words), words, old(owner), old(chunks), regions, old(chain), old(heapChain), r.value, kind, n, ty,
          meta);
      }
    }

    /** `o` is new on the chain, is what was asked for, and nothing else moved. */
    twostate predicate Allocated(o: u64, kind: int, n: nat, ty: u64, meta: nat)
      requires IsKind(kind) && meta <= MAX_META
      reads this
    {
      && chain == [o] + old(chain) && o !in old(chain)
      && o in chunks && chunks == old(chunks)[o := Chunk(meta, n)]
      && old(owner) <= owner
      && Prepared(old(words), words, old(owner), old(heapChain), o, kind, n, ty, meta)
    }

    method AllocFree(o: u64, kind: int, n: nat, ty: u64, meta: nat, ghost free0: map<nat, seq<u64>>)
      requires IsKind(kind) && SlotsFor(kind) <= n && meta <= MAX_META
      requires ShapeOf(words, heapChain, live, free0, owner, chunks, regions, chain) && Unmarked(words, chain)
      requires o in chunks && chunks[o] == Chunk(meta, n) && o !in chain
      requires Buckets(words, free, chunks, chain) && Taken(free0, free, Key(chunks[o]), o)
      modifies `words, `heapChain, `live, `chain, `owner, `chunks
      ensures Shaped()
      ensures Unmarked(words, chain)
      ensures Allocated(o, kind, n, ty, meta)
    {
      StoredReads(kind, meta);
      Reuse(o, kind, n, ty, meta);
      ReuseKeepsShape(old(words), words, heapChain, live, free0, free, owner, chunks, regions, chain, o);
      BlocksFramed(old(words), words, owner, chunks, regions, o);
      UnmarkedGrows(old(words), words, chain, o);
      Thread(o, owner, chunks);
    }

    method AllocFresh(kind: int, n: nat, ty: u64, meta: nat) returns (o: u64)
      requires Valid() && IsKind(kind) && SlotsFor(kind) <= n && meta <= MAX_META
      requires |words| + meta + META_LEN + n <= PINNED_WORDS
      modifies `words, `heapChain, `live, `chain, `owner, `chunks
      ensures Shaped()
      ensures Unmarked(words, chain)
      ensures Allocated(o, kind, n, ty, meta)
    {
      StoredReads(kind, meta);
      o := Carve(kind, n, ty, meta);
      CarveKeepsShape(old(words), words, heapChain, live, free, owner, chunks, regions, chain, o, Chunk(meta, n));
      CarveFramed(old(words), words, owner, chunks, regions);
      UnmarkedGrows(old(words), words, chain, o);
      Thread(o, Grown(owner, meta + META_LEN + n, ChunkAt(o)), chunks[o := Chunk(meta, n)]);
    }

    /** Thread `o` on the chain, with the ghost owners and chunks that now hold. */
    method Thread(o: u64, ghost owner': seq<Owner>, ghost chunks': map<u64, Chunk>)
      requires ShapeOf(words, o, live + 1, free, owner', chunks', regions, [o] + chain)
      requires Unmarked(words, [o] + chain)
      modifies `heapChain, `live, `chain, `owner, `chunks
      ensures Valid()
      ensures heapChain == o && live == old(live) + 1 && chain == [o] + old(chain) && owner == owner'
      ensures chunks == chunks'
    {
      heapChain, live, chain, owner, chunks := o, live + 1, [o] + chain, owner', chunks';
    }

    method Reuse(o: u64, kind: int, n: nat, ty: u64, meta: nat)
      requires IsKind(kind) && meta <= MAX_META
      requires Extents(words, owner, chunks, regions) && o in chunks && chunks[o] == Chunk(meta, n)
      modifies `words
      ensures |words| == |old(words)| && Prepared(old(words), words, owner, heapChain, o, kind, n, ty, meta)
    {
      WriteHeader(o, ty, Stored(kind, meta), n);
      ClearData(o, n);
    }

    /** Write the link, type, flags and length of a chunk. */
    method WriteHeader(o: u64, ty: u64, flags: u64, n: nat)
      requires Extents(words, owner, chunks, regions) && o in chunks && n == chunks[o].len
      modifies `words
      ensures |words| == |old(words)| && AgreeOff(old(words), words, owner, o)
      ensures Link(words, o) == heapChain && TypeWord(words, o) == ty && Flags(words, o) == flags && Len(words, o) == n
    {
      assert forall i :: o / 8 <= i < o / 8 + META_LEN ==> InExtent(i, o, chunks[o]) && owner[i] == ChunkAt(o);
      words := SetWord(words, o / 8, heapChain);
      words := SetWord(words, o / 8 + 1, ty);
      words := SetWord(words, o / 8 + 2, flags);
      words := SetWord(words, o / 8 + 3, n);
    }

    method ClearData(o: u64, n: nat)
      requires Extents(words, owner, chunks, regions) && o in chunks && n == chunks[o].len
      modifies `words
      ensures |words| == |old(words)| && AgreeOff(old(words), words, owner, o)
      ensures Link(words, o) == Link(old(words), o) && TypeWord(words, o) == TypeWord(old(words), o)
      ensures Flags(words, o) == Flags(old(words), o) && Len(words, o) == Len(old(words), o)
      ensures forall i :: 0 <= i < n ==> Data(words, o, i) == 0
    {
      var base := o / 8 + META_LEN;
      assert forall i :: base <= i < base + n ==> InExtent(i, o, chunks[o]) && owner[i] == ChunkAt(o);
      var i := base;
      while i < base + n
        invariant base <= i <= base + n && |words| == |old(words)|
        invariant forall j :: 0 <= j < |words| && !(base <= j < i) ==> words[j] == old(words)[j]
        invariant forall j :: base <= j < i ==> words[j] == 0
      {
        words := SetWord(words, i, 0);
        i := i + 1;
      }
    }

    method PushZeros(k: nat)
      requires |words| + k <= PINNED_WORDS
      modifies `words
      ensures words == old(words) + seq(k, _ => 0)
    {
      for i := 0 to k
        invariant words == old(words) + seq(i, _ => 0)
      {
        words := words + [0];
      }
    }

    /** A chunk at the frontier: meta words, header, data. */
    method Carve(kind: int, n: nat, ty: u64, meta: nat) returns (o: u64)
      requires IsKind(kind) && meta <= MAX_META && |words| == |owner|
      requires 1 <= |words| && |words| + meta + META_LEN + n <= PINNED_WORDS
      modifies `words
      ensures o % 8 == 0 && o / 8 == |old(words)| + meta
      ensures old(words) <= words && |words| == |old(words)| + meta + META_LEN + n
      ensures Prepared(old(words), words, owner, heapChain, o, kind, n, ty, meta)
    {
      PushZeros(meta);
      o := 8 * |words|;
      var len: u64 := n;
      words := words + [heapChain, ty, Stored(kind, meta), len];
      PushZeros(n);
    }

    /** A run of zeroed bytes, at least one word. Never freed, and no part of it is
        ever handed out as an object. */
    method AllocBytes(n: nat) returns (r: Option<u64>)
      requires Valid()
      modifies `words, `owner, `regions
      ensures Valid()
      ensures r.None? ==> words == old(words) && owner == old(owner) && regions == old(regions)
      ensures r.Some? ==>
                var k := if n == 0 then 1 else (n + 7) / 8;
                && r.value == 8 * |old(words)| && r.value !in old(regions)
                && words == old(words) + seq(k, _ => 0)
                && regions == old(regions)[r.value := k]
      ensures old(RefsLive()) ==> RefsLive()
    {
      if |words| + n / 8 + 2 > PINNED_WORDS {
        return None;
      }
      var start: u64 := 8 * |words|;
      var k := if n == 0 then 1 else (n + 7) / 8;
      PushZeros(k);
      RegionKeepsShape(old(words), words, heapChain, live, free, owner, chunks, regions, chain, start, k);
      owner, regions := Grown(owner, k, RegionAt(start)), regions[start := k];
      if old(RefsLive()) { RefsStay(old(words), words, old(owner), chunks, old(regions), chain); }
      r := Some(start);
    }

    /** Write one data slot of a live object. */
    method SetData(o: u64, i: nat, v: u64)
      requires Valid() && o in chain && i < chunks[o].len
      modifies `words
      ensures Valid() && words == SetWord(old(words), o / 8 + META_LEN + i, v)
      ensures old(RefsLive() && (SlotIsRef(Kind(Flags(words, o)), i) ==> IsRef(v))) ==> RefsLive()
    {
      if RefsLive() && (SlotIsRef(Kind(Flags(words, o)), i) ==> IsRef(v)) {
        RefsWritten(words, owner, chunks, regions, chain, o, i, v);
      }
      SlotKeepsShape(words, heapChain, live, free, owner, chunks, regions, chain, o, i, v);
      words := SetWord(words, o / 8 + META_LEN + i, v);
    }
  }
}
