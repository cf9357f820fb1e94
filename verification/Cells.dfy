/** The live objects as values: kind and data, by address.

The heap's operations read through this view are map operations. It is how the
environment code is stated without a word of layout: allocating adds an object,
writing a slot changes one, collecting drops the unreachable. */
module Cells {
  import opened Options
  import opened Layout
  import opened Heap
  import opened Collector

  datatype ObjView = ObjView(kind: nat, data: seq<u64>)

  type View = map<u64, ObjView>

  ghost function Slots(ws: seq<u64>, o: u64, n: nat): seq<u64> { seq(n, i requires 0 <= i < n => Data(ws, o, i)) }

  ghost function Look(ws: seq<u64>, o: u64, c: Chunk): ObjView { ObjView(Kind(Flags(ws, o)), Slots(ws, o, c.len)) }

  ghost function ViewAt(ws: seq<u64>, chunks: map<u64, Chunk>, chain: seq<u64>): View {
    map o | o in chain && o in chunks :: Look(ws, o, chunks[o])
  }

  ghost function ViewOf(h: Objects): View
    reads h
  {
    ViewAt(h.words, h.chunks, h.chain)
  }

  function Zeros(n: nat): seq<u64> { seq(n, _ => 0) }

  function With(o: ObjView, i: nat, v: u64): ObjView
    requires i < |o.data|
  {
    o.(data := o.data[i := v])
  }

  /** Every object there was is there still. */
  twostate predicate Kept(h: Objects)
    reads h
  {
    forall o :: o in old(h.chain) ==> o in h.chain
  }

  /** What a reference slot shows is a reference. */
  lemma SlotRef(h: Objects, o: u64, i: nat)
    requires h.Valid() && h.RefsLive() && o in ViewOf(h) && i < |ViewOf(h)[o].data| && SlotIsRef(ViewOf(h)[o].kind, i)
    ensures h.IsRef(ViewOf(h)[o].data[i])
  {
    assert ViewOf(h)[o].data[i] == Data(h.words, o, i);
  }

  method NewObj(h: Objects, kind: int, n: nat, ty: u64, meta: nat) returns (r: Option<u64>)
    requires h.Valid() && IsKind(kind) && SlotsFor(kind) <= n && meta <= MAX_META
    modifies h
    ensures h.Valid()
    ensures r.None? ==> ViewOf(h) == old(ViewOf(h))
    ensures r.Some? ==>
              && r.value != 0 && r.value !in old(ViewOf(h))
              && ViewOf(h) == old(ViewOf(h))[r.value := ObjView(kind, Zeros(n))]
    ensures Kept(h) && (r.Some? ==> r.value in h.chain)
    ensures old(h.RefsLive() && h.IsRef(ty)) ==> h.RefsLive()
  {
    r := h.Alloc(kind, n, ty, meta);
    if r.Some? {
      NewLooks(old(h.words), h.words, old(h.owner), old(h.chunks), old(h.regions), old(h.chain), old(h.heapChain),
        r.value, kind, n, ty, meta);
    }
  }

  lemma NewLooks(ws: seq<u64>, ws': seq<u64>, owner: seq<Owner>, chunks: map<u64, Chunk>, regions: map<u64, nat>,
                 chain: seq<u64>,
                 head: u64, o: u64, kind: int, n: nat, ty: u64, meta: nat)
    requires Extents(ws, owner, chunks, regions) && Headers(ws, chunks, chain) && o !in chain
    requires IsKind(kind) && meta <= MAX_META && Prepared(ws, ws', owner, head, o, kind, n, ty, meta)
    ensures ViewAt(ws', chunks[o := Chunk(meta, n)], [o] + chain)
        == ViewAt(ws, chunks, chain)[o := ObjView(kind, Zeros(n))]
  {
    StoredReads(kind, meta);
    assert Look(ws', o, Chunk(meta, n)) == ObjView(kind, Zeros(n));
    forall p | p in chain ensures Look(ws', p, chunks[p]) == Look(ws, p, chunks[p]) {
      BlockFramed(ws, ws', owner, chunks, regions, o, p);
    }
  }

  method SetSlot(h: Objects, o: u64, i: nat, v: u64)
    requires h.Valid() && o in ViewOf(h) && i < |ViewOf(h)[o].data|
    modifies h`words
    ensures h.Valid() && ViewOf(h) == Wrote(old(ViewOf(h)), o, i, v)
    ensures old(h.RefsLive() && (SlotIsRef(ViewOf(h)[o].kind, i) ==> h.IsRef(v))) ==> h.RefsLive()
  {
    h.SetData(o, i, v);
    SlotLooks(old(h.words), h.owner, h.chunks, h.regions, h.chain, o, i, v);
  }

  lemma SlotLooks(ws: seq<u64>, owner: seq<Owner>, chunks: map<u64, Chunk>, regions: map<u64, nat>, chain: seq<u64>,
                  o: u64, i: nat, v: u64)
    requires Extents(ws, owner, chunks, regions) && Headers(ws, chunks, chain) && o in chain && i < chunks[o].len
    ensures var ws' := SetWord(ws, o / 8 + META_LEN + i, v);
            && Headers(ws', chunks, chain)
            && var view := ViewAt(ws, chunks, chain);
               ViewAt(ws', chunks, chain) == view[o := With(view[o], i, v)]
  {
    var ws' := SetWord(ws, o / 8 + META_LEN + i, v);
    forall p | p in chain
      ensures Header(ws', p, chunks[p])
      ensures Look(ws', p, chunks[p]) == if p == o then With(Look(ws, p, chunks[p]), i, v) else Look(ws, p, chunks[p])
    {
      SlotFramed(ws, owner, chunks, regions, o, i, v, p);
    }
  }

  /** A fresh pair cell, or None when the reservation is full. */
  method NewSpair(h: Objects, a: u64, b: u64, ty: u64, meta: nat) returns (r: Option<u64>)
    requires h.Valid() && meta <= MAX_META
    modifies h
    ensures h.Valid()
    ensures r.Some? ==>
              && r.value != 0 && r.value !in old(ViewOf(h))
              && ViewOf(h) == old(ViewOf(h))[r.value := ObjView(SPAIR, [a, b])]
    ensures Kept(h) && (r.Some? ==> r.value in h.chain)
    ensures old(h.RefsLive() && h.IsRef(ty) && h.IsRef(a) && h.IsRef(b)) ==> h.RefsLive()
  {
    r := NewObj(h, SPAIR, 2, ty, meta);
    if r.Some? {
      TwoWritten(old(ViewOf(h)), r.value, SPAIR, a, b);
      SetSlot(h, r.value, 0, a);
      SetSlot(h, r.value, 1, b);
    }
  }

  function Wrote(view: View, o: u64, i: nat, v: u64): View
    requires o in view && i < |view[o].data|
  {
    view[o := With(view[o], i, v)]
  }

  lemma TwoWritten(view: View, o: u64, kind: nat, a: u64, b: u64)
    ensures Wrote(Wrote(view[o := ObjView(kind, Zeros(2))], o, 0, a), o, 1, b) == view[o := ObjView(kind, [a, b])]
  {
    assert Zeros(2)[0 := a][1 := b] == [a, b];
  }

  lemma ThreeWritten(view: View, o: u64, kind: nat, a: u64, b: u64, c: u64)
    ensures Wrote(Wrote(Wrote(view[o := ObjView(kind, Zeros(3))], o, 0, a), o, 1, b), o, 2, c)
        == view[o := ObjView(kind, [a, b, c])]
  {
    assert Zeros(3)[0 := a][1 := b][2 := c] == [a, b, c];
  }

  /** A fresh environment holder. */
  method NewHolder(h: Objects, a: u64, b: u64, c: u64, ty: u64, meta: nat) returns (r: Option<u64>)
    requires h.Valid() && meta <= MAX_META
    modifies h
    ensures h.Valid()
    ensures r.Some? ==>
              && r.value != 0 && r.value !in old(ViewOf(h))
              && ViewOf(h) == old(ViewOf(h))[r.value := ObjView(ENVH, [a, b, c])]
    ensures Kept(h) && (r.Some? ==> r.value in h.chain)
    ensures old(h.RefsLive() && h.IsRef(ty) && h.IsRef(a) && h.IsRef(b) && h.IsRef(c)) ==> h.RefsLive()
  {
    r := NewObj(h, ENVH, 3, ty, meta);
    if r.Some? {
      ThreeWritten(old(ViewOf(h)), r.value, ENVH, a, b, c);
      SetSlot(h, r.value, 0, a);
      SetSlot(h, r.value, 1, b);
      SetSlot(h, r.value, 2, c);
    }
  }

  /** The objects after `(name . value)` is consed on the chain of `holder`. */
  function ConsedView(view: View, holder: u64, name: u64, value: u64, pair: u64, cell: u64): View
    requires holder in view && |view[holder].data| == 3 && pair !in view && cell !in view
  {
    Wrote(view[pair := ObjView(SPAIR, [name, value])][cell := ObjView(SPAIR, [pair, view[holder].data[0]])], holder, 0,
      cell)
  }

  /** Cons `(name . value)` on a holder's chain: two fresh spairs, then the head. */
  method ConsBinding(h: Objects, holder: u64, name: u64, value: u64, ty: u64, meta: nat)
    returns (r: Option<u64>, cell: u64)
    requires h.Valid() && meta <= MAX_META && holder in ViewOf(h) && |ViewOf(h)[holder].data| == 3
    modifies h
    ensures h.Valid()
    ensures r.Some? ==>
              && r.value != 0 && cell != 0 && r.value != cell && r.value !in old(ViewOf(h)) && cell !in old(ViewOf(h))
              && ViewOf(h) == ConsedView(old(ViewOf(h)), holder, name, value, r.value, cell)
    ensures r.Some? ==> Kept(h)
    ensures r.Some? && old(h.RefsLive() && h.IsRef(ty) && h.IsRef(name) && h.IsRef(value)) ==>
              (old(ViewOf(h)[holder].kind == ENVH) ==> h.RefsLive())
  {
    cell := 0;
    r := NewSpair(h, name, value, ty, meta);
    if r.None? { return; }
    var c := ConsOn(h, holder, r.value, ty, meta);
    if c.None? { return None, 0; }
    cell := c.value;
  }

  /** Cons a pair already made on a holder's chain. */
  method ConsOn(h: Objects, holder: u64, pair: u64, ty: u64, meta: nat) returns (r: Option<u64>)
    requires h.Valid() && meta <= MAX_META && holder in ViewOf(h) && |ViewOf(h)[holder].data| == 3
    modifies h
    ensures h.Valid()
    ensures r.Some? ==>
              && r.value != 0 && r.value !in old(ViewOf(h)) && Kept(h)
              && ViewOf(h) == Wrote(old(ViewOf(h))[r.value := ObjView(SPAIR, [pair, old(ViewOf(h))[holder].data[0]])],
                                holder, 0, r.value)
    ensures old(h.RefsLive() && h.IsRef(ty) && h.IsRef(pair) && ViewOf(h)[holder].kind == ENVH) && r.Some? ==>
        h.RefsLive()
  {
    if h.RefsLive() && ViewOf(h)[holder].kind == ENVH { SlotRef(h, holder, 0); }
    var head := GetSlot(h, holder, 0);
    r := NewSpair(h, pair, head, ty, meta);
    if r.Some? { SetSlot(h, holder, 0, r.value); }
  }

  /** The objects after a fresh tree node `(binding . (nil . nil))` is written into a
      slot. */
  function HungView(view: View, at: u64, i: nat, binding: u64, node: u64, kids: u64): View
    requires at in view && i < |view[at].data| && node !in view && kids !in view
  {
    Wrote(view[kids := ObjView(SPAIR, [0, 0])][node := ObjView(SPAIR, [binding, kids])], at, i, node)
  }

  method HangNode(h: Objects, at: u64, i: nat, binding: u64, ty: u64, meta: nat) returns (r: Option<u64>, kids: u64)
    requires h.Valid() && meta <= MAX_META && at in ViewOf(h) && i < |ViewOf(h)[at].data|
    modifies h
    ensures h.Valid()
    ensures r.Some? ==>
              && r.value != 0 && kids != 0 && r.value != kids && r.value !in old(ViewOf(h)) && kids !in old(ViewOf(h))
              && ViewOf(h) == HungView(old(ViewOf(h)), at, i, binding, r.value, kids)
    ensures old(h.RefsLive() && h.IsRef(ty) && h.IsRef(binding)) && r.Some? ==> h.RefsLive()
    ensures r.Some? ==> Kept(h)
  {
    kids := 0;
    var k := NewSpair(h, 0, 0, ty, meta);
    if k.None? { return None, 0; }
    kids := k.value;
    r := NewSpair(h, binding, kids, ty, meta);
    if r.Some? { SetSlot(h, at, i, r.value); }
  }

  method GetSlot(h: Objects, o: u64, i: nat) returns (v: u64)
    requires h.Valid() && o in ViewOf(h) && i < |ViewOf(h)[o].data|
    ensures v == ViewOf(h)[o].data[i]
  {
    assert o in h.chunks && o / 8 >= 1;
    v := Data(h.words, o, i);
  }

  /** The data slots whose references keep an object's targets live. */
  function RefSlots(kind: nat): nat {
    if kind == PAIR || kind == SPAIR then 2 else if kind == ENVH then 3 else 0
  }

  /** `view'` keeps what it keeps of `view` unchanged, and everything that refers to. */
  ghost predicate ClosedPart(view: View, view': View) {
    && (forall o :: o in view' ==> o in view && view'[o] == view[o])
    && (forall o, i :: o in view' && 0 <= i < RefSlots(view'[o].kind) && i < |view'[o].data| ==>
          (view'[o].data[i] in view ==> view'[o].data[i] in view'))
  }

  /** Its flags word says that the chunk is on a free list. */
  predicate IsFreed(ws: seq<u64>, o: u64) { Flags(ws, o) == FREED }

  method CollectCells(h: Objects, roots: seq<u64>) returns (freed: nat)
    requires h.Valid() && h.RefsLive() && Guesses(h.words, h.chunks, roots, h.chain)
    modifies h`words, h`free, h`heapChain, h`live, h`chain
    ensures h.RefsLive() && Guesses(h.words, h.chunks, roots, h.chain)
    ensures h.Valid() && ClosedPart(old(ViewOf(h)), ViewOf(h))
    ensures forall r :: r in roots && r in old(ViewOf(h)) ==> r in ViewOf(h)
    ensures forall o :: o in old(ViewOf(h)) ==> (IsFreed(h.words, o) <==> o !in ViewOf(h))
  {
    ghost var ws0, chain0 := h.words, h.chain;
    LiveIsFollowed(ws0, h.owner, h.chunks, h.regions, chain0);
    freed := Collect(h, roots);
    CollectedView(ws0, h.words, h.owner, h.chunks, h.regions, chain0, h.chain, roots);
    forall r | r in roots && r in chain0 ensures r in h.chain { ReachRoot(ws0, roots, r); }
  }

  lemma LiveIsFollowed(ws: seq<u64>, owner: seq<Owner>, chunks: map<u64, Chunk>, regions: map<u64, nat>,
                       chain: seq<u64>)
    requires Extents(ws, owner, chunks, regions) && Headers(ws, chunks, chain)
    ensures forall o :: o in chain ==> Followed(ws, o)
  {}

  lemma CollectedView(ws0: seq<u64>, ws: seq<u64>, owner: seq<Owner>, chunks: map<u64, Chunk>, regions: map<u64, nat>,
                      chain0: seq<u64>, chain: seq<u64>, roots: seq<u64>)
    requires Extents(ws0, owner, chunks, regions) && Headers(ws0, chunks, chain0) && Elements(chain) <= Elements(chain0)
    requires Swept(ws0, ws, owner, chunks, chain0, chain)
    requires forall o :: o in chain <==> Reachable(ws0, roots, o)
    ensures forall o :: o in chain ==> o in chain0 && Look(ws, o, chunks[o]) == Look(ws0, o, chunks[o])
    ensures forall o :: o in chain0 ==> (IsFreed(ws, o) <==> o !in chain)
    ensures forall o, i :: o in chain && 0 <= i < RefSlots(Kind(Flags(ws0, o))) && i < chunks[o].len ==>
              (Data(ws0, o, i) in chain0 ==> Data(ws0, o, i) in chain)
  {
    forall o | o in chain ensures o in chain0 && Look(ws, o, chunks[o]) == Look(ws0, o, chunks[o]) {
      assert o in Elements(chain);
      assert Survives(ws0, ws, o, chunks[o]);
    }
    forall o | o in chain0 ensures IsFreed(ws, o) <==> o !in chain {
      FreedIsBare();
      assert HasMagic(Flags(ws0, o));
      assert o in chain ==> Survives(ws0, ws, o, chunks[o]);
    }
    forall o, i | o in chain && 0 <= i < RefSlots(Kind(Flags(ws0, o))) && i < chunks[o].len && Data(ws0, o, i) in chain0
      ensures Data(ws0, o, i) in chain
    {
      RefReached(ws0, owner, chunks, regions, chain0, roots, o, i);
    }
  }

  lemma RefReached(ws0: seq<u64>, owner: seq<Owner>, chunks: map<u64, Chunk>, regions: map<u64, nat>, chain0: seq<u64>,
                   roots: seq<u64>, o: u64, i: nat)
    requires Extents(ws0, owner, chunks, regions) && Headers(ws0, chunks, chain0)
    requires Reachable(ws0, roots, o) && i < RefSlots(Kind(Flags(ws0, o))) && Data(ws0, o, i) in chain0
    ensures Reachable(ws0, roots, Data(ws0, o, i))
  {
    var e := Data(ws0, o, i);
    LiveIsFollowed(ws0, owner, chunks, regions, chain0);
    assert KindEdges(ws0, o)[i] == e;
    assert e in Edges(ws0, o);
    ReachEdge(ws0, roots, o, e);
  }
}
