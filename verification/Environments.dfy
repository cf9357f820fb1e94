/** Environments over the heap: bind, look up, rebind and collect, with the shadow
index of large frames and the base's global tree kept in step with the chains.

Every method answers about the chains; that the faster views agree with them in
every reachable state is `Valid`. An allocation beyond the pinned reservation aborts
the engine: such an operation answers None or false and nothing is claimed after it. */
module Environments {
  import opened Options
  import opened Layout
  import opened Heap
  import opened Collector
  import opened Cells
  import opened Frames
  import opened GlobalTree
  import opened EnvSteps

  /** The longest chain without an index. */
  const INDEX_AT := 16

  class Envs {
    const heap: Objects
    /** The shadow maps of large frames, keyed by holder address. */
    var index: map<u64, map<u64, u64>>
    var made: nat
    /** Meta words prepended to an allocation. */
    var metaExtra: nat
    /** The type objects stamped on cells and holders. */
    const cellType: u64
    const holderType: u64
    ghost var env: Env

    constructor (h: Objects, ct: u64, ht: u64)
      requires h.Valid()
      ensures Valid() && heap == h && env == NONE
      ensures h.RefsLive() && h.IsRef(ct) && h.IsRef(ht) ==> Traced()
    {
      heap, cellType, holderType := h, ct, ht;
      index, made, metaExtra, env := map[], 0, 0, NONE;
      new;
      NilIsNoObject();
    }

    ghost function View(): View
      reads heap
    {
      ViewOf(heap)
    }

    ghost predicate Ready(s: Env, idx: map<u64, map<u64, u64>>, missing: set<u64>)
      reads this`metaExtra, heap
    {
      heap.Valid() && metaExtra <= MAX_META && Sound(View(), s, idx, missing)
    }

    /** The chains are sound, every index is its chain's map, and every base's global tree
        is an ordered view of its root frame's pairs. */
    ghost predicate Valid()
      reads this, heap
    {
      Ready(env, index, {})
    }

    /** Every reference of a live object is nil or a live object, the types included. */
    ghost predicate Traced()
      reads heap
    {
      heap.RefsLive() && heap.IsRef(cellType) && heap.IsRef(holderType)
    }

    /** The objects of `chain` are there, and references are live if they were. */
    ghost predicate Tracked(chain: seq<u64>, live: bool)
      reads heap
    {
      (forall o :: o in chain ==> o in heap.chain) && (live ==> Traced())
    }

    /** No object is gone, and references stay live if `a` and `b` were. */
    twostate predicate Tracks(a: u64, b: u64)
      reads heap
    {
      Tracked(old(heap.chain), old(Traced() && heap.IsRef(a) && heap.IsRef(b)))
    }

    lemma NilIsNoObject()
      requires heap.Valid()
      ensures 0 !in View()
    {
      assert forall o :: o in heap.chain ==> o in heap.chunks && o / 8 >= 1;
    }

    /** The ghost state is now `s`. */
    ghost method Become(s: Env, idx: map<u64, map<u64, u64>>, missing: set<u64>)
      requires Ready(s, idx, missing)
      modifies `env
      ensures Ready(env, idx, missing) && env == s && View() == old(View())
    {
      env := s;
    }

    // ----- reading -----------------------------------------------------------------------

    ghost predicate Chains()
      reads this, heap
    {
      heap.Valid() && FramesOk(View(), env.frames, env.roles)
    }

    lemma FrameShown(h: u64)
      requires Chains() && h in env.frames
      ensures FrameOk(View(), h, env.frames[h])
    {}

    /** The cell `n` steps of `rest` along a base's spine. */
    method CellAt(base: u64, n: nat, ghost h: u64) returns (at: u64)
      requires heap.Valid() && h in env.bases && SpineOk(View(), env.roles, h, env.bases[h])
      requires base == env.bases[h].spine[0] && n < ROUTES
      ensures at == env.bases[h].spine[n]
    {
      at := base;
      for i := 0 to n
        invariant at == env.bases[h].spine[i]
      {
        assert SpineCellOk(View(), env.roles, h, env.bases[h].spine, i);
        at := GetSlot(heap, at, 1);
      }
    }

    /** The head of a frame's chain. */
    method Head(h: u64) returns (at: u64)
      requires Chains() && h in env.frames
      ensures at == HeadOf(env.frames[h].cells)
    {
      FrameShown(h);
      at := GetSlot(heap, h, 0);
    }

    /** A frame's parent holder, nil for a root. */
    method ParentOf(h: u64) returns (p: u64)
      requires Chains() && h in env.frames
      ensures p == env.frames[h].parent && ParentOk(env.frames, h)
    {
      FrameShown(h);
      assert ParentOk(env.frames, h);
      p := GetSlot(heap, h, 1);
    }

    method BaseOf(h: u64) returns (b: u64)
      requires Chains() && h in env.frames
      ensures b == env.frames[h].base
    {
      FrameShown(h);
      b := GetSlot(heap, h, 2);
    }

    /** One cell of a chain: its binding and the next cell. */
    method CellParts(h: u64, at: u64, ghost n: nat) returns (pair: u64, next: u64)
      requires Chains() && h in env.frames && n < |env.frames[h].cells| && at == env.frames[h].cells[n]
      ensures n < |env.frames[h].pairs| && pair == env.frames[h].pairs[n] && next == After(env.frames[h].cells, n)
      ensures IsSpair(View(), pair)
    {
      FrameShown(h);
      assert LinkOk(View(), env.frames[h], n);
      pair := GetSlot(heap, at, 0);
      next := GetSlot(heap, at, 1);
    }

    lemma CellsNonNil(h: u64)
      requires Chains() && h in env.frames
      ensures forall i :: 0 <= i < |env.frames[h].cells| ==> env.frames[h].cells[i] != 0
      ensures |env.frames[h].cells| == |env.frames[h].pairs|
    {
      FrameShown(h);
    }

    /** How many bindings a chain holds. */
    method ChainLen(h: u64) returns (n: nat)
      requires Chains() && h in env.frames
      ensures n == |env.frames[h].pairs|
    {
      ghost var cells := env.frames[h].cells;
      n := 0;
      CellsNonNil(h);
      var at := Head(h);
      while at != 0
        invariant n <= |cells| && at == (if n < |cells| then cells[n] else 0)
        decreases |cells| - n
      {
        var pair;
        pair, at := CellParts(h, at, n);
        n := n + 1;
      }
    }

    /** A frame's own cell for `name`, its parents apart: through the index when there is
        one, else down the chain. Either way it is what a scan finds. */
    method FindInFrame(h: u64, name: u64) returns (r: Option<u64>)
      requires Valid() && h in env.frames
      ensures r == Scan(View(), env.frames[h].pairs, name)
    {
      ghost var pairs, cells := env.frames[h].pairs, env.frames[h].cells;
      CellsNonNil(h);
      if h in index {
        MapIsScan(View(), pairs, name);
        return if name in index[h] then Some(index[h][name]) else None;
      }
      var at := Head(h);
      ghost var n := 0;
      while at != 0
        invariant n <= |cells| && at == (if n < |cells| then cells[n] else 0)
        invariant Scan(View(), pairs, name) == Scan(View(), pairs[n..], name)
        decreases |cells| - n
      {
        var pair, next := CellParts(h, at, n);
        var key := GetSlot(heap, pair, 0);
        assert pairs[n..][1..] == pairs[n + 1..];
        if key == name { return Some(pair); }
        at := next;
        n := n + 1;
      }
      r := None;
    }

    /** The map of a chain: the newest cell of a name is kept. */
    method MapOfChain(h: u64) returns (m: map<u64, u64>)
      requires Chains() && h in env.frames
      ensures m == MapOf(View(), env.frames[h].pairs)
    {
      ghost var view, pairs, cells := View(), env.frames[h].pairs, env.frames[h].cells;
      CellsNonNil(h);
      m := map[];
      var at := Head(h);
      ghost var n := 0;
      while at != 0
        invariant n <= |cells| && at == (if n < |cells| then cells[n] else 0)
        invariant m == MapOf(view, pairs[..n])
        decreases |cells| - n
      {
        var pair, next := CellParts(h, at, n);
        var key := GetSlot(heap, pair, 0);
        MapTakes(view, pairs, n);
        if key !in m { m := m[key := pair]; }
        at := next;
        n := n + 1;
      }
      AllTaken(pairs);
    }

    /** LOOKUP IS THE CHAIN WALK. Whatever indexes exist, the answer is that of a scan
        of each chain out through the parents. */
    method Lookup(h: u64, name: u64) returns (r: Option<u64>)
      requires Valid() && h in env.frames
      ensures r == ChainLookup(View(), env.frames, h, name) && Means(View(), env.frames, h, name, r)
    {
      LookupMeans(View(), env.frames, h, name);
      var at := h;
      while true
        invariant at in env.frames
        invariant ChainLookup(View(), env.frames, h, name) == ChainLookup(View(), env.frames, at, name)
        decreases env.frames[at].rank
      {
        var found := FindInFrame(at, name);
        if found.Some? {
          PairIsCell(at, name, found.value);
          var v := GetSlot(heap, found.value, 1);
          return Some(v);
        }
        var up := ParentOf(at);
        if up == 0 { return None; }
        at := up;
      }
    }

    lemma PairIsCell(h: u64, name: u64, p: u64)
      requires Chains() && h in env.frames && Scan(View(), env.frames[h].pairs, name) == Some(p)
      ensures IsSpair(View(), p)
    {
      ScanMember(View(), env.frames[h].pairs, name);
      FrameShown(h);
    }

    // ----- rebinding -----------------------------------------------------------------------

    /** Write the value of a name bound in this frame. */
    method WriteValue(h: u64, name: u64, p: u64, v: u64)
      requires Valid() && h in env.frames && Scan(View(), env.frames[h].pairs, name) == Some(p)
      modifies heap`words
      ensures Valid() && Rebound(old(View()), env, View(), env, h, name, v)
      ensures Tracks(v, 0)
    {
      ghost var view := View();
      PairIsCell(h, name, p);
      SetSlot(heap, p, 1, v);
      WriteStep(view, View(), env, index, h, name, p, v);
    }

    /** Walk out from `h` to the innermost frame binding `name`: that frame and its
        cell. */
    method FindHome(h: u64, name: u64) returns (at: u64, found: Option<u64>)
      requires Valid() && h in env.frames
      ensures at in env.frames && found == Scan(View(), env.frames[at].pairs, name)
      ensures HomeOf(View(), env.frames, h, name) == if found.Some? then Some(at) else None
    {
      at := h;
      found := FindInFrame(at, name);
      while found.None?
        invariant at in env.frames && HomeOf(View(), env.frames, h, name) == HomeOf(View(), env.frames, at, name)
        invariant found == Scan(View(), env.frames[at].pairs, name)
        decreases env.frames[at].rank
      {
        var up := ParentOf(at);
        if up == 0 { return; }
        at := up;
        found := FindInFrame(at, name);
      }
    }

    /** `home` is the nearest frame out from `h` that binds `name`. */
    ghost predicate Nearest(h: u64, name: u64, home: u64)
      requires heap.Valid()
      reads this`env, heap
    {
      exists i: nat :: FirstAt(View(), env.frames, h, name, i) && Ancestor(env.frames, h, i) == Some(home)
    }

    /** Change an existing binding, or answer false: the
        innermost frame out from `h` that binds it takes the value, no other binding of
        any frame changes. */
    method SetExisting(h: u64, name: u64, v: u64) returns (ok: bool)
      requires Valid() && h in env.frames
      modifies heap`words
      ensures Valid() && ok == old(HomeOf(View(), env.frames, h, name)).Some?
      ensures !ok ==> View() == old(View())
      ensures ok ==> Rebound(old(View()), env, View(), env, old(HomeOf(View(), env.frames, h, name)).value, name, v)
      ensures if ok then old(Nearest(h, name, HomeOf(View(), env.frames, h, name).value))
              else old(Means(View(), env.frames, h, name, None))
      ensures Tracks(v, 0)
    {
      ghost var i := WalkIsNearest(View(), env.frames, h, name);
      var at, found := FindHome(h, name);
      if found.None? { return false; }
      WriteValue(at, name, found.value, v);
      ok := true;
    }

    // ----- new frames and bindings -----------------------------------------------------------

    /** Make a root frame; a base is stamped on it later. */
    method PushRoot() returns (r: Option<u64>)
      requires Valid()
      modifies this, heap
      ensures r.Some? ==> Valid() && Pushed(old(View()), old(env), View(), env, r.value, 0, 0)
      ensures r.Some? ==> Tracks(0, 0)
    {
      r := Make(0, 0);
    }

    /** Make a frame below `parent`; it inherits the base its parent has. */
    method Push(parent: u64) returns (r: Option<u64>)
      requires Valid() && parent in env.frames
      modifies this, heap
      ensures r.Some? ==>
          Valid() && Pushed(old(View()), old(env), View(), env, r.value, parent, old(env.frames[parent].base))
      ensures r.Some? ==> Tracks(0, 0)
    {
      FrameShown(parent);
      if Traced() { SlotRef(heap, parent, 2); }
      var base := BaseOf(parent);
      r := Make(parent, base);
    }

    method Make(parent: u64, base: u64) returns (r: Option<u64>)
      requires Valid() && (parent == 0 ==> base == 0)
      requires parent != 0 ==> parent in env.frames
      modifies this, heap
      ensures r.Some? ==> Valid() && Pushed(old(View()), old(env), View(), env, r.value, parent, base)
      ensures r.Some? ==> Tracks(parent, base)
    {
      ghost var f := Frame([], [], parent, base, if parent == 0 then 0 else env.frames[parent].rank + 1);
      r := Carve(f, parent, base);
      if r.Some? { Count(PushedEnv(env, r.value, f)); }
    }

    /** Count a frame made. */
    method Count(ghost s: Env)
      requires Ready(s, index, {})
      modifies `env, `made
      ensures Valid() && env == s && View() == old(View()) && made == old(made) + 1
    {
      made, env := made + 1, s;
    }

    /** The holder object of a new frame. */
    method Carve(ghost f: Frame, parent: u64, base: u64) returns (r: Option<u64>)
      requires Valid() && f.cells == [] && f.pairs == [] && f.parent == parent && f.base == base
      requires parent == 0 ==> base == 0
      requires parent != 0 ==> parent in env.frames && env.frames[parent].rank < f.rank
      modifies heap
      ensures r.Some? ==> Ready(PushedEnv(env, r.value, f), index, {})
      ensures r.Some? ==> Pushed(old(View()), env, View(), PushedEnv(env, r.value, f), r.value, parent, base)
      ensures r.Some? ==> Tracks(parent, base)
    {
      ghost var view := View();
      r := NewHolder(heap, 0, parent, base, holderType, metaExtra);
      if r.Some? {
        PushStep(view, View(), env, index, r.value, f);
        PushBinds(view, View(), env, r.value, f);
      }
    }

    /** What is asked of binding `name` to `value` in a frame that does not bind it, the
        state before, its live objects and whether all references were live held aside. */
    ghost predicate Fresh(h: u64, name: u64, value: u64, view: View, was: Env, chain: seq<u64>, live: bool)
      reads this`env, heap
    {
      && heap.Valid() && h in env.frames && Scan(View(), env.frames[h].pairs, name).None?
      && view == View() && was == env && chain == heap.chain
      && live == (Traced() && heap.IsRef(name) && heap.IsRef(value))
    }

    /** Cons `(name . value)` on the chain of a frame that does not bind `name`. */
    method Cons(h: u64, name: u64, value: u64, ghost view: View, ghost was: Env, ghost chain: seq<u64>,
                ghost live: bool)
      returns (r: Option<u64>)
      requires Valid() && Fresh(h, name, value, view, was, chain, live)
      modifies `env, heap
      ensures r.Some? ==>
                && h in env.frames && r.value in env.frames[h].pairs
                && Ready(env, CaughtUp(index, h, name, r.value), Unmirrored(env, h, r.value))
                && Rebound(view, was, View(), env, h, name, value) && Tracked(chain, live)
    {
      var cell;
      FrameShown(h);
      r, cell := ConsBinding(heap, h, name, value, cellType, metaExtra);
      if r.Some? {
        ConsedHeap(view, env, h, name, value, r.value, cell);
        ConsStep(view, View(), env, index, h, name, value, r.value, cell);
        ConsBinds(view, View(), env, h, name, value, r.value, cell);
        Become(ConsedEnv(env, h, r.value, cell), CaughtUp(index, h, name, r.value), Unmirrored(env, h, r.value));
      }
    }

    // ----- the global tree -------------------------------------------------------------------

    /** The descent is at a node of the tree from which it ends where a descent from the
        top does. */
    ghost predicate Descending(h: u64, whole: Tree, t: Tree, at: u64, key: u64)
      requires heap.Valid()
      reads this`env, heap
    {
      && t.Node? && whole.Node? && at == t.node && TreeOk(View(), env.roles, h, t)
      && Attach(whole, key) == Attach(t, key) && Find(whole, key) == Find(t, key)
    }

    /** One node of the tree: its binding, the binding's name and the kids cell. */
    method NodeParts(at: u64, ghost h: u64, ghost whole: Tree, ghost t: Tree, ghost key: u64)
      returns (name: u64, kids: u64)
      requires heap.Valid() && Descending(h, whole, t, at, key)
      ensures name == t.key && kids == t.kids && kids in View()
      ensures View()[kids] == ObjView(SPAIR, [Ptr(t.left), Ptr(t.right)])
    {
      assert NodeOk(View(), env.roles, h, t);
      var b := GetSlot(heap, at, 0);
      name := GetSlot(heap, b, 0);
      kids := GetSlot(heap, at, 1);
    }

    /** Descend by address from the top node: to the node of that name, or to the empty
        side of a kids cell where it would go. */
    method Descend(top: u64, key: u64, ghost h: u64, ghost whole: Tree) returns (there: bool, spot: u64, left: bool)
      requires heap.Valid() && TreeOk(View(), env.roles, h, whole) && whole.Node? && top == whole.node
      ensures there <==> Find(whole, key).Some?
      ensures !there ==> Attach(whole, key) == Some((spot, left))
    {
      var at := top;
      ghost var t := whole;
      there, spot, left := false, 0, true;
      while true
        invariant Descending(h, whole, t, at, key)
        decreases t
      {
        var name, kids := NodeParts(at, h, whole, t, key);
        if name == key { return true, 0, left; }
        left := key < name;
        var child := GetSlot(heap, kids, if left then 0 else 1);
        TreePtr(h, t);
        DescentStep(t, key);
        if child == 0 { return false, kids, left; }
        at := child;
        t := if left then t.left else t.right;
        assert TreeOk(View(), env.roles, h, t);
      }
    }

    /** Put one binding of a root frame in its base's global tree: hang a new node at the
        empty side the descent finds, or leave a name already mirrored alone. */
    method TreeInsert(base: u64, pair: u64, ghost h: u64, ghost idx: map<u64, map<u64, u64>>, ghost missing: set<u64>)
      returns (ok: bool)
      requires Ready(env, idx, missing) && h in env.bases && BaseOk(View(), env, h, missing)
      requires base == env.bases[h].spine[0] && pair in env.frames[h].pairs
      modifies `env, heap
      ensures ok ==> Ready(env, idx, missing - {pair})
      ensures ok ==>
          SameBindings(old(View()), old(env), View(), env) && OthersStand(old(View()), old(env), View(), env, {})
      ensures ok ==> Tracks(0, 0)
    {
      var key := GetName(h, pair);
      var spot, top := TopOf(base, h, missing);
      var left := true;
      if top != 0 {
        var there;
        there, spot, left := Descend(top, key, h, env.bases[h].tree);
        if there {
          MirroredAlready(View(), env, idx, missing, h, pair, key);
          return true;
        }
      }
      ok := Hang(spot, left, pair, key, h, idx, missing);
    }

    /** The name a frame's pair binds. */
    method GetName(ghost h: u64, pair: u64) returns (key: u64)
      requires Chains() && h in env.frames && pair in env.frames[h].pairs
      ensures key == Name(View(), pair)
    {
      RootPair(View(), env, h, pair);
      key := GetSlot(heap, pair, 0);
    }

    /** The tree route's cell, and the tree's top node. */
    method TopOf(base: u64, ghost h: u64, ghost missing: set<u64>) returns (spot: u64, top: u64)
      requires heap.Valid() && h in env.bases && BaseOk(View(), env, h, missing) && base == env.bases[h].spine[0]
      ensures |env.bases[h].spine| == ROUTES && spot == env.bases[h].spine[TREE_ROUTE] && top == Ptr(env.bases[h].tree)
      ensures top == 0 <==> env.bases[h].tree.Leaf?
    {
      spot := CellAt(base, TREE_ROUTE, h);
      assert SpineCellOk(View(), env.roles, h, env.bases[h].spine, TREE_ROUTE);
      top := GetSlot(heap, spot, 0);
    }

    lemma TreePtr(h: u64, t: Tree)
      requires heap.Valid() && TreeOk(View(), env.roles, h, t) && t.Node?
      ensures Ptr(t.left) == 0 <==> t.left.Leaf?
      ensures Ptr(t.right) == 0 <==> t.right.Leaf?
    {}

    method Hang(at: u64, left: bool, pair: u64, key: u64, ghost h: u64, ghost idx: map<u64, map<u64, u64>>,
                ghost missing: set<u64>)
      returns (ok: bool)
      requires Ready(env, idx, missing) && Wanted(View(), env, h, at, left, pair, key)
      modifies `env, heap
      ensures ok ==> Ready(env, idx, missing - {pair})
      ensures ok ==>
          SameBindings(old(View()), old(env), View(), env) && OthersStand(old(View()), old(env), View(), env, {})
      ensures ok ==> Tracks(pair, 0)
    {
      assert BaseOk(View(), env, h, missing);
      SpotThere(View(), env.roles, h, env.bases[h], key, at, left);
      ghost var g;
      ok, g := HangOn(at, left, pair, key, h, idx, missing);
      if ok { Become(HungEnv(env, g), idx, missing - {pair}); }
    }

    method HangOn(at: u64, left: bool, pair: u64, ghost key: u64, ghost h: u64, ghost idx: map<u64, map<u64, u64>>,
                  ghost missing: set<u64>)
      returns (ok: bool, ghost g: Graft)
      requires Ready(env, idx, missing) && Wanted(View(), env, h, at, left, pair, key)
      requires at in View() && |View()[at].data| == 2
      modifies heap
      ensures g.root == h && ok ==>
                && Ready(HungEnv(env, g), idx, missing - {pair})
                && SameBindings(old(View()), env, View(), HungEnv(env, g))
                && OthersStand(old(View()), env, View(), HungEnv(env, g), {})
      ensures g.root == h
      ensures ok ==> Tracks(pair, 0)
    {
      ghost var view := View();
      var node, kids := HangNode(heap, at, if left then 0 else 1, pair, cellType, metaExtra);
      ok := node.Some?;
      g := Graft(h, at, left, pair, key, if ok then node.value else 0, kids);
      if ok { HangKeeps(view, View(), env, idx, missing, g); }
    }

    // ----- bind ------------------------------------------------------------------------------

    /** BIND. In this frame `name` now has `value`; no other binding of any frame
        changed. Rebinding a name already there updates its cell, so the chain does not
        grow. */
    method Bind(h: u64, name: u64, value: u64) returns (ok: bool)
      requires Valid() && h in env.frames
      modifies this, heap
      ensures ok ==> Valid() && Rebound(old(View()), old(env), View(), env, h, name, value)
      ensures ok && old(Scan(View(), env.frames[h].pairs, name)).Some? ==> env == old(env)
      ensures ok ==> Tracks(name, value)
    {
      var found := FindInFrame(h, name);
      if found.Some? {
        WriteValue(h, name, found.value, value);
        return true;
      }
      ok := BindNew(h, name, value, View(), env, heap.chain, Traced() && heap.IsRef(name) && heap.IsRef(value));
    }

    method BindNew(h: u64, name: u64, value: u64, ghost view: View, ghost was: Env, ghost chain: seq<u64>,
                   ghost live: bool)
      returns (ok: bool)
      requires Valid() && Fresh(h, name, value, view, was, chain, live)
      modifies `env, `index, heap
      ensures ok ==> Valid() && Rebound(view, was, View(), env, h, name, value) && Tracked(chain, live)
    {
      var r := Cons(h, name, value, view, was, chain, live);
      if r.None? { return false; }
      ok := MirrorNew(h, r.value, name, value, view, was, chain, live);
    }

    /** Mirroring and indexing a binding just made leaves it and every other as they are. */
    method MirrorNew(h: u64, pair: u64, name: u64, ghost value: u64, ghost view: View, ghost was: Env,
                     ghost chain: seq<u64>, ghost live: bool) returns (ok: bool)
      requires h in env.frames && pair in env.frames[h].pairs
      requires Ready(env, CaughtUp(index, h, name, pair), Unmirrored(env, h, pair))
      requires Rebound(view, was, View(), env, h, name, value) && Tracked(chain, live)
      modifies `env, `index, heap
      ensures ok ==> Valid() && Rebound(view, was, View(), env, h, name, value) && Tracked(chain, live)
    {
      ghost var view1, env1 := View(), env;
      ok := MirrorIndexed(h, pair, name);
      if ok { ReboundStands(view, was, view1, env1, View(), env, h, name, value); }
    }

    method MirrorIndexed(h: u64, pair: u64, name: u64) returns (ok: bool)
      requires h in env.frames && pair in env.frames[h].pairs
      requires Ready(env, CaughtUp(index, h, name, pair), Unmirrored(env, h, pair))
      modifies `env, `index, heap
      ensures ok ==> Valid() && Tracks(0, 0)
      ensures ok ==>
          SameBindings(old(View()), old(env), View(), env) && OthersStand(old(View()), old(env), View(), env, {})
    {
      ok := Mirror(h, pair, CaughtUp(index, h, name, pair));
      if ok { IndexIt(h, name, pair); }
    }

    /** Bring the index in step with a chain that gained a cell. */
    method IndexIt(h: u64, name: u64, pair: u64)
      requires h in env.frames && Ready(env, CaughtUp(index, h, name, pair), {})
      modifies `index
      ensures Valid()
    {
      index := Indexed(h, name, pair);
    }

    /** A root frame with a base has each new binding put in the tree; others have not. */
    method Mirror(h: u64, pair: u64, ghost idx: map<u64, map<u64, u64>>) returns (ok: bool)
      requires h in env.frames && Ready(env, idx, Unmirrored(env, h, pair)) && pair in env.frames[h].pairs
      modifies `env, heap
      ensures ok ==> Ready(env, idx, {})
      ensures ok ==>
          SameBindings(old(View()), old(env), View(), env) && OthersStand(old(View()), old(env), View(), env, {})
      ensures ok ==> Tracks(0, 0)
    {
      RootIsBased(View(), env, idx, Unmirrored(env, h, pair), h);
      var up := ParentOf(h);
      var base := BaseOf(h);
      ok := true;
      if up == 0 && base != 0 {
        assert {pair} - {pair} == {};
        assert BaseOk(View(), env, h, {pair});
        ok := TreeInsert(base, pair, h, idx, {pair});
      } else {
        NothingChanged(View(), env);
      }
    }

    /** The index in step with a chain that gained a cell: its map gains the cell, or is
        built once the chain has outgrown a scan. */
    method Indexed(h: u64, name: u64, pair: u64) returns (idx: map<u64, map<u64, u64>>)
      requires h in env.frames && Ready(env, CaughtUp(index, h, name, pair), {})
      ensures Ready(env, idx, {})
    {
      idx := index;
      if h in index {
        var m: map<u64, u64> := index[h][name := pair];
        idx := index[h := m];
      } else {
        var n := ChainLen(h);
        if n > INDEX_AT {
          var m := MapOfChain(h);
          IndexBuilt(View(), env, index, h, m);
          idx := index[h := m];
        }
      }
    }

    // ----- the base ----------------------------------------------------------------------------

    /** Stamp a root frame with its base, and mirror the bindings made before any base
        existed into the base's tree. No frame's bindings change. */
    method SetBase(h: u64, base: u64, ghost spine: seq<u64>) returns (ok: bool)
      requires Valid() && h !in env.bases && h in env.frames && env.frames[h].parent == 0
      requires BaseBuilt(View(), env.roles, spine) && base == spine[0]
      modifies `env, heap
      ensures ok ==> Valid() && Gained(old(env), env, h, spine) && BindingsStand(old(View()), old(env), View(), env)
      ensures ok ==> OthersStand(old(View()), old(env), View(), env, Elements(spine))
      ensures ok ==> Tracks(0, 0)
    {
      Stamp(h, base, spine);
      ghost var view, was, missing := View(), env, Elements(env.frames[h].pairs);
      ok := Backfill(h, base, missing);
      if ok {
        StampedStands(old(View()), old(env), view, was, View(), env, Elements(spine));
        GainedStands(old(env), was, env, h, spine);
      }
    }

    /** The base in the frame's holder, and none of the frame's bindings mirrored yet. */
    method Stamp(h: u64, base: u64, ghost spine: seq<u64>)
      requires Valid() && h !in env.bases && h in env.frames && env.frames[h].parent == 0
      requires BaseBuilt(View(), env.roles, spine) && base == spine[0]
      modifies `env, heap
      ensures h in env.frames && Filled(env, h, View(), env, 0, Elements(env.frames[h].pairs))
      ensures Gained(old(env), env, h, spine) && BindingsStand(old(View()), old(env), View(), env)
      ensures OthersStand(old(View()), old(env), View(), env, Elements(spine))
      ensures Tracks(0, 0)
    {
      WriteBase(h, base, spine);
      Become(StampedEnv(env, h, spine), index, Elements(env.frames[h].pairs));
      NothingFilled(h);
    }

    lemma NothingFilled(h: u64)
      requires h in env.frames && h in env.bases && |env.bases[h].spine| == ROUTES
      requires Ready(env, index, Elements(env.frames[h].pairs))
      ensures Filled(env, h, View(), env, 0, Elements(env.frames[h].pairs))
    {
      NothingChanged(View(), env);
      assert SpineStands(env, env, h);
    }

    method WriteBase(h: u64, base: u64, ghost spine: seq<u64>)
      requires Valid() && h !in env.bases && h in env.frames && env.frames[h].parent == 0
      requires BaseBuilt(View(), env.roles, spine) && base == spine[0]
      modifies heap
      ensures Ready(StampedEnv(env, h, spine), index, Elements(env.frames[h].pairs))
      ensures Gained(env, StampedEnv(env, h, spine), h, spine)
      ensures BindingsStand(old(View()), env, View(), StampedEnv(env, h, spine))
      ensures OthersStand(old(View()), env, View(), StampedEnv(env, h, spine), Elements(spine))
      ensures Tracks(0, 0)
    {
      ghost var view := View();
      FrameShown(h);
      assert CellBuilt(view, env.roles, spine, 0);
      SetSlot(heap, h, 2, base);
      assert Tracks(0, 0);
      StampStep(view, View(), env, index, h, spine);
    }

    // ----- building a base ---------------------------------------------------------------------

    /** A base's spine: one empty cell a route, made back to front. */
    method BuildSpine() returns (r: Option<u64>, ghost spine: seq<u64>)
      requires Valid()
      modifies heap
      ensures r.Some? ==> Valid() && BaseBuilt(View(), env.roles, spine) && r.value == spine[0]
      ensures r.Some? ==> SameBindings(old(View()), env, View(), env) && OthersStand(old(View()), env, View(), env, {})
      ensures r.Some? ==> Elements(spine) !! old(View()).Keys
      ensures r.Some? ==> Tracks(0, 0)
    {
      ghost var view := View();
      NoCells();
      var at := 0;
      spine := [];
      for n := 0 to ROUTES
        invariant |spine| == n && Building(at, spine, view) && Tracks(0, 0)
      {
        var c := SpineCell(at, spine, view);
        if c.None? { return None, []; }
        spine := [c.value] + spine;
        at := c.value;
      }
      SpineIsBase(View(), env.roles, spine);
      r := Some(at);
    }

    ghost predicate Building(at: u64, cells: seq<u64>, view: View)
      reads this, heap
    {
      && Valid() && at == HeadOf(cells) && SpineBuilt(View(), env.roles, cells)
      && SameBindings(view, env, View(), env) && OthersStand(view, env, View(), env, {})
      && view.Keys <= View().Keys && Elements(cells) !! view.Keys
    }

    lemma NoCells()
      requires Valid()
      ensures Building(0, [], View())
    {}

    /** One more empty cell in front. */
    method SpineCell(at: u64, ghost cells: seq<u64>, ghost view: View) returns (r: Option<u64>)
      requires Building(at, cells, view)
      modifies heap
      ensures r.Some? ==> Building(r.value, [r.value] + cells, view)
      ensures r.Some? ==> Tracks(0, 0)
    {
      ghost var view1 := View();
      r := AllocSpair(at);
      if r.Some? {
        SpineGrows(view1, View(), env.roles, cells, r.value);
        assert Elements([r.value] + cells) == {r.value} + Elements(cells);
        SameStands(view, env, view1, env, View(), env);
      }
    }

    /** A spair that is no part of any environment. */
    method AllocSpair(rest: u64) returns (r: Option<u64>)
      requires Valid()
      modifies heap
      ensures r.Some? ==> Valid() && r.value !in env.roles && r.value !in old(View())
      ensures r.Some? ==> View() == old(View())[r.value := ObjView(SPAIR, [0, rest])]
      ensures r.Some? ==> SameBindings(old(View()), env, View(), env) && OthersStand(old(View()), env, View(), env, {})
      ensures r.Some? ==> Tracks(rest, 0)
    {
      ghost var view := View();
      r := AllocOther(SPAIR, 2, cellType);
      if r.Some? {
        ghost var view1 := View();
        SetOther(r.value, 1, rest);
        SpairMade(view, view1, View(), env, r.value, rest);
      }
    }

    /** Is everything the rows name or bind live? */
    ghost predicate RowsLive(rows: seq<(u64, u64)>)
      reads heap
    {
      forall n :: 0 <= n < |rows| ==> heap.IsRef(rows[n].0) && heap.IsRef(rows[n].1)
    }

    /** MAKE A BASE: a root frame with the instruction rows bound, a spine, and the frame
        stamped with it. The frame binds exactly what the rows give, the last row of a
        name standing, and the global tree mirrors it; every other frame, every other base and
        every object outside the environments stands. */
    method MakeBase(rows: seq<(u64, u64)>) returns (r: Option<u64>)
      requires Valid()
      modifies this, heap
      ensures r.Some? ==>
                && Valid() && NewRoot(old(View()), old(env), View(), env, r.value, rows)
                && r.value in env.bases && env.bases.Keys == old(env).bases.Keys + {r.value}
      ensures r.Some? && old(Traced() && RowsLive(rows)) ==> Traced()
    {
      ghost var view, was, index0, live := View(), env, index, Traced() && RowsLive(rows);
      r := PushRoot();
      if r.None? { return; }
      PushedIsNew(view, was, index0, View(), env, r.value);
      var ok := BindRows(r.value, rows, view, was, live);
      if !ok { return None; }
      AllTaken(rows);
      ghost var view1, env1 := View(), env;
      ok := GiveBase(r.value);
      if !ok { return None; }
      assert live ==> Traced();
      RootStamped(view, was, view1, env1, View(), env, r.value, rows);
    }

    /** The first `n` rows are bound in a new root frame. */
    ghost predicate RowsBound(h: u64, rows: seq<(u64, u64)>, n: nat, view: View, was: Env, live: bool)
      requires n <= |rows|
      reads this, heap
    {
      && Valid() && env.bases.Keys == was.bases.Keys && NewRoot(view, was, View(), env, h, rows[..n])
      && (live ==> Traced() && RowsLive(rows))
    }

    /** Bind the rows in a new root frame, in order. */
    method BindRows(h: u64, rows: seq<(u64, u64)>, ghost view: View, ghost was: Env, ghost live: bool)
      returns (ok: bool)
      requires RowsBound(h, rows, 0, view, was, live)
      modifies this, heap
      ensures ok ==> RowsBound(h, rows, |rows|, view, was, live)
    {
      ok := true;
      for n := 0 to |rows|
        invariant RowsBound(h, rows, n, view, was, live)
      {
        ok := BindRow(h, rows, n, view, was, live);
        if !ok { return; }
      }
      ok := true;
    }

    method BindRow(h: u64, rows: seq<(u64, u64)>, n: nat, ghost view: View, ghost was: Env, ghost live: bool)
      returns (ok: bool)
      requires n < |rows| && RowsBound(h, rows, n, view, was, live)
      modifies this, heap
      ensures ok ==> RowsBound(h, rows, n + 1, view, was, live)
    {
      ghost var view1, env1 := View(), env;
      ok := Bind(h, rows[n].0, rows[n].1);
      if ok { RowBound(view, was, view1, env1, View(), env, h, rows, n); }
    }

    method GiveBase(h: u64) returns (ok: bool)
      requires Valid() && h !in env.bases && h in env.frames && env.frames[h].parent == 0
      modifies `env, heap
      ensures ok ==> Valid() && BindingsStand(old(View()), old(env), View(), env)
      ensures ok ==> OthersStand(old(View()), old(env), View(), env, {}) && SpinesStand(old(env), env)
      ensures ok ==> h in env.bases && env.bases.Keys == old(env).bases.Keys + {h}
      ensures ok ==> Tracks(0, 0)
    {
      ghost var view := View();
      var base, spine := BuildSpine();
      if base.None? { return false; }
      ghost var view1 := View();
      ok := SetBase(h, base.value, spine);
      if ok {
        BuiltStands(view, view1, old(env), View(), env);
        OthersSpared(view, old(env), view1, View(), env, Elements(spine));
      }
    }

    lemma BuiltStands(view: View, view1: View, s: Env, view2: View, s2: Env)
      requires SameBindings(view, s, view1, s) && BindingsStand(view1, s, view2, s2)
      ensures BindingsStand(view, s, view2, s2)
    {
      forall g, other | g in s.frames ensures Binds(view2, s2, g, other) == Binds(view, s, g, other) {
        assert Binds(view1, s, g, other) == Binds(view, s, g, other);
      }
    }

    /** How far a backfill is: the cells before `n` are mirrored. */
    ghost predicate Filled(s: Env, h: u64, view: View, was: Env, n: nat, left: set<u64>)
      reads this, heap
    {
      && Ready(s, index, left) && SameBindings(view, was, View(), s) && OthersStand(view, was, View(), s, {})
      && SpineStands(was, s, h) && h in s.frames && |s.bases[h].spine| == ROUTES
      && n <= |s.frames[h].pairs| && forall p :: p in left ==> p in s.frames[h].pairs[n..]
    }

    /** Mirror one cell of the root chain and step to the next. */
    method FillStep(h: u64, at: u64, base: u64, ghost n: nat, ghost left: set<u64>, ghost view: View, ghost was: Env)
      returns (ok: bool, next: u64)
      requires Filled(env, h, view, was, n, left) && base == env.bases[h].spine[0]
      requires n < |env.frames[h].cells| && at == env.frames[h].cells[n]
      modifies `env, heap
      ensures |old(env).frames[h].pairs| == |old(env).frames[h].cells| && next == After(old(env).frames[h].cells, n)
      ensures ok ==> Filled(env, h, view, was, n + 1, left - {old(env).frames[h].pairs[n]})
      ensures ok ==> Tracks(0, 0)
    {
      ghost var view1, env1 := View(), env;
      var pair;
      CellsNonNil(h);
      pair, next := CellParts(h, at, n);
      assert BaseOk(View(), env, h, left);
      ok := TreeInsert(base, pair, h, index, left);
      if ok {
        assert SpineStands(env1, env, h);
        SameStands(view, was, view1, env1, View(), env);
        LeftShrinks(env.frames[h].pairs, n, left);
      }
    }

    /** Mirror a root chain cell by cell. */
    method Backfill(h: u64, base: u64, ghost missing: set<u64>) returns (ok: bool)
      requires Filled(env, h, View(), env, 0, missing) && base == env.bases[h].spine[0]
      modifies `env, heap
      ensures ok ==> Valid() && SameBindings(old(View()), old(env), View(), env)
      ensures ok ==> OthersStand(old(View()), old(env), View(), env, {})
      ensures ok ==> Tracks(0, 0)
    {
      ghost var view, was, left, n := View(), env, missing, 0;
      CellsNonNil(h);
      var at := Head(h);
      while at != 0
        invariant Filled(env, h, view, was, n, left) && env.frames == was.frames && Tracks(0, 0)
        invariant n <= |was.frames[h].cells| && at == (if n < |was.frames[h].cells| then was.frames[h].cells[n] else 0)
        decreases |was.frames[h].cells| - n
      {
        ok, at := FillStep(h, at, base, n, left, view, was);
        if !ok { return; }
        left := left - {was.frames[h].pairs[n]};
        n := n + 1;
      }
      ok := true;
      assert left == {};
    }

    /** Write one of a base's other slots. */
    method SetRoute(base: u64, n: nat, v: u64, ghost h: u64)
      requires Valid() && h in env.bases && base == HeadOf(env.bases[h].spine) && n < ROUTES && n != TREE_ROUTE
      modifies heap`words
      ensures Valid() && SameBindings(old(View()), env, View(), env) && OthersStand(old(View()), env, View(), env, {})
      ensures Tracks(v, 0)
    {
      ghost var view := View();
      assert BaseOk(view, env, h, {});
      var c := CellAt(base, n, h);
      RouteStep(view, env, index, h, n, v);
      SetSlot(heap, c, 0, v);
    }

    // ----- everything else on the heap -----------------------------------------------------------

    /** Allocate any other object: no binding changes, even at a recycled address. */
    method AllocOther(kind: int, n: nat, ty: u64) returns (r: Option<u64>)
      requires Valid() && IsKind(kind) && SlotsFor(kind) <= n
      modifies heap
      ensures r.Some? ==> Valid() && r.value !in env.roles && SameBindings(old(View()), env, View(), env)
      ensures r.Some? ==> r.value !in old(View()) && View() == old(View())[r.value := ObjView(kind, Zeros(n))]
      ensures r.Some? ==> Tracks(ty, 0)
    {
      ghost var view := View();
      NilIsNoObject();
      r := NewObj(heap, kind, n, ty, metaExtra);
      if r.Some? { ElsewhereStep(view, View(), env, index, {}, {}); }
    }

    /** Write a slot of an object that is no part of any environment. */
    method SetOther(o: u64, i: nat, v: u64)
      requires Valid() && o in View() && i < |View()[o].data| && o !in env.roles
      modifies heap`words
      ensures Valid() && View() == Wrote(old(View()), o, i, v) && SameBindings(old(View()), env, View(), env)
      ensures Tracks(if SlotIsRef(old(View())[o].kind, i) then v else 0, 0)
    {
      ghost var view := View();
      SetSlot(heap, o, i, v);
      ElsewhereStep(view, View(), env, index, {}, {o});
    }

    /** A COLLECTION KEEPS EVERY VIEW HONEST. Each surviving frame binds what it bound;
        dead holders leave the index, so a recycled address starts with none; every rooted
        frame survives, and a root frame that survives keeps its base. */
    method Collect(roots: seq<u64>) returns (freed: nat)
      requires Valid() && heap.RefsLive() && Guesses(heap.words, heap.chunks, roots, heap.chain)
      modifies this, heap
      ensures heap.RefsLive() && Guesses(heap.words, heap.chunks, roots, heap.chain)
      ensures old(Traced()) && cellType in roots && holderType in roots ==> Traced()
      ensures Valid() && Collected(old(View()), old(env), View(), env)
      ensures forall r :: r in roots && r in old(env.frames) ==> r in env.frames
      ensures ClosedPart(old(View()), View()) && env.roles.Keys <= old(env.roles.Keys)
      ensures forall r :: r in roots && r in old(View()) ==> r in View()
      ensures forall h :: h in index ==> h in old(index) && h in View()
    {
      ghost var was, index0 := env, index;
      freed := Reclaim(roots);
      Purge();
      Become(AliveEnv(was, View()), index, {});
    }

    method Reclaim(roots: seq<u64>) returns (freed: nat)
      requires Valid() && heap.RefsLive() && Guesses(heap.words, heap.chunks, roots, heap.chain)
      modifies heap
      ensures heap.RefsLive() && Guesses(heap.words, heap.chunks, roots, heap.chain)
      ensures Ready(AliveEnv(env, View()), Alive(index, View()), {})
      ensures Collected(old(View()), env, View(), AliveEnv(env, View()))
      ensures forall r :: r in roots && r in old(View()) ==> r in View()
      ensures ClosedPart(old(View()), View()) && forall h :: h in env.frames ==> h in old(View())
      ensures forall h :: h in index ==> (IsFreed(heap.words, h) <==> h !in View())
    {
      ghost var view := View();
      freed := CollectCells(heap, roots);
      FramesThere(view);
      CollectStep(view, View(), env, index);
      CollectBinds(view, View(), env);
    }

    lemma FramesThere(view: View)
      requires Sound(view, env, index, {})
      ensures forall h :: h in env.frames ==> h in view
    {
      forall h | h in env.frames ensures h in view { assert FrameOk(view, h, env.frames[h]); }
    }

    /** Drop the entries of dead holders, told by the flags word of each key. */
    method Purge()
      requires forall h :: h in index ==> (IsFreed(heap.words, h) <==> h !in View())
      modifies `index
      ensures index == Alive(old(index), View())
    {
      index := map h | h in index && !IsFreed(heap.words, h) :: index[h];
    }
  }
}
