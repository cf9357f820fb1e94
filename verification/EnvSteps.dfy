/** The ghost state of the environments, what makes it sound over the objects, and the
step of each operation on it: what it keeps and what the frames bind after it. */
module EnvSteps {
  import opened Options
  import opened Layout
  import opened Heap
  import opened Collector
  import opened Cells
  import opened Frames
  import opened GlobalTree

  /** Cells on a base's spine, and the one holding the global tree. */
  const ROUTES := 26
  const TREE_ROUTE := 25
  /** Bounds outside every symbol address. */
  const LOW := -1
  const HIGH := 0x1_0000_0000_0000_0000

  /** A base: the cells of its spine, and its global tree. */
  datatype Base = Base(spine: seq<u64>, tree: Tree)

  /** Every frame made, what each object is, and the base of each root frame that has
      one. */
  datatype Env = Env(frames: map<u64, Frame>, roles: map<u64, Role>, bases: map<u64, Base>)

  const NONE := Env(map[], map[], map[])

  ghost predicate SpineCellOk(view: View, roles: map<u64, Role>, root: u64, spine: seq<u64>, i: nat)
    requires i < |spine|
  {
    var c := spine[i];
    && c in view && view[c].kind == SPAIR && |view[c].data| == 2 && view[c].data[1] == After(spine, i)
    && c in roles && roles[c] == SpineCell(root)
  }

  /** A base's spine of cells, the tree route's cell holding the tree. */
  ghost predicate SpineOk(view: View, roles: map<u64, Role>, root: u64, b: Base) {
    && |b.spine| == ROUTES
    && (forall i :: 0 <= i < |b.spine| ==> SpineCellOk(view, roles, root, b.spine, i))
    && SpineCellOk(view, roles, root, b.spine, TREE_ROUTE) && view[b.spine[TREE_ROUTE]].data[0] == Ptr(b.tree)
  }

  /** The tree's pairs are the frame's, the `missing` ones apart. */
  ghost predicate Mirrors(pairs: seq<u64>, t: Tree, missing: set<u64>) {
    (forall p :: p in Pairs(t) ==> p in pairs) && (forall p :: p in pairs ==> p in Pairs(t) || p in missing)
  }

  ghost predicate TreeSound(view: View, roles: map<u64, Role>, root: u64, t: Tree) {
    TreeOk(view, roles, root, t) && Ordered(t, LOW, HIGH)
  }

  /** A root frame and its base: the global tree is an ordered view of the frame's pairs. */
  ghost predicate BaseOk(view: View, s: Env, h: u64, missing: set<u64>)
    requires h in s.bases
  {
    && h in s.frames && s.frames[h].parent == 0
    && SpineOk(view, s.roles, h, s.bases[h]) && s.frames[h].base == s.bases[h].spine[0]
    && TreeSound(view, s.roles, h, s.bases[h].tree) && Mirrors(s.frames[h].pairs, s.bases[h].tree, missing)
  }

  /** Only a root frame that was given a base serves one of its own. */
  ghost predicate RootsBased(s: Env) {
    forall h :: h in s.frames && s.frames[h].parent == 0 && s.frames[h].base != 0 ==> h in s.bases
  }

  ghost predicate EachBaseOk(view: View, s: Env, missing: set<u64>) {
    forall h {:trigger BaseOk(view, s, h, missing)} :: h in s.bases ==> BaseOk(view, s, h, missing)
  }

  ghost predicate GlobalOk(view: View, s: Env, missing: set<u64>) { RootsBased(s) && EachBaseOk(view, s, missing) }

  /** The chains are sound, every index is its chain's map, and every global tree is an
      ordered view of its root frame's pairs. */
  ghost predicate Sound(view: View, s: Env, index: map<u64, map<u64, u64>>, missing: set<u64>) {
    FramesOk(view, s.frames, s.roles) && IndexOk(view, s.frames, index) && GlobalOk(view, s, missing)
  }

  /** What one frame binds a name to. */
  ghost function Binds(view: View, s: Env, h: u64, name: u64): Option<u64>
    requires h in s.frames
  {
    Bound(view, s.frames, h, name)
  }

  /** If `o` had no part in any environment, it has none now and is unchanged. */
  ghost predicate OtherStands(view: View, s: Env, view': View, s': Env, o: u64) {
    o in view && o !in s.roles ==> o !in s'.roles && o in view' && view'[o] == view[o]
  }

  /** Objects that are no part of an environment stand, those in `taken` apart. */
  ghost predicate OthersStand(view: View, s: Env, view': View, s': Env, taken: set<u64>) {
    forall o :: o !in taken ==> OtherStands(view, s, view', s', o)
  }

  ghost predicate SpineStands(s: Env, s': Env, h: u64) {
    h in s.bases && h in s'.bases && s'.bases[h].spine == s.bases[h].spine
  }

  /** The same roots have bases, at the same spines. */
  ghost predicate BasesStand(s: Env, s': Env) {
    s'.bases.Keys == s.bases.Keys && forall h {:trigger SpineStands(s, s', h)} :: h in s.bases ==> SpineStands(s, s', h)
  }

  lemma BasesCompose(s: Env, s1: Env, s2: Env)
    requires BasesStand(s, s1) && BasesStand(s1, s2)
    ensures BasesStand(s, s2)
  {
    forall h | h in s.bases ensures SpineStands(s, s2, h) { assert SpineStands(s, s1, h) && SpineStands(s1, s2, h); }
  }

  /** The new state binds as the old did, but `h` binds `name` to `v`; other objects
      stand. */
  ghost predicate Rebound(view: View, s: Env, view': View, s': Env, h: u64, name: u64, v: u64) {
    && OthersStand(view, s, view', s', {}) && BasesStand(s, s')
    && s'.frames.Keys == s.frames.Keys
    && (forall g :: g in s.frames ==> s'.frames[g].parent == s.frames[g].parent)
    && (forall g, other :: g in s.frames ==>
          Binds(view', s', g, other) == if g == h && other == name then Some(v) else Binds(view, s, g, other))
  }

  /** A NAME JUST BOUND MEANS ITS VALUE, in the frame it was bound in and from every frame
      that reaches that one before another frame that binds it. */
  lemma BoundMeans(view: View, s: Env, view': View, s': Env, h: u64, name: u64, v: u64, g: u64, i: nat)
    requires Rebound(view, s, view', s', h, name, v) && ParentsOk(s.frames) && ParentsOk(s'.frames)
    requires g in s.frames && h in s.frames && Ancestor(s.frames, g, i) == Some(h)
    requires forall j :: 0 <= j < i ==> !BoundAt(view, s.frames, g, name, j) && Ancestor(s.frames, g, j) != Some(h)
    ensures ChainLookup(view', s'.frames, g, name) == Some(v)
  {
    forall j: nat ensures Ancestor(s'.frames, g, j) == Ancestor(s.frames, g, j) {
      SameAncestors(s.frames, s'.frames, g, j);
    }
    assert Binds(view', s', h, name) == Some(v);
    forall j | 0 <= j < i ensures !BoundAt(view', s'.frames, g, name, j) {
      var a := Ancestor(s.frames, g, j);
      if a.Some? { assert Binds(view', s', a.value, name) == Binds(view, s, a.value, name); }
    }
    assert FirstAt(view', s'.frames, g, name, i);
    LookupMeans(view', s'.frames, g, name);
    MeansOnce(view', s'.frames, g, name, ChainLookup(view', s'.frames, g, name), Some(v));
  }

  lemma {:induction false} SameAncestors(frames: map<u64, Frame>, frames': map<u64, Frame>, h: u64, i: nat)
    requires frames'.Keys == frames.Keys && forall g :: g in frames ==> frames'[g].parent == frames[g].parent
    ensures Ancestor(frames', h, i) == Ancestor(frames, h, i)
    decreases i
  {
    assert forall g :: g in frames <==> g in frames'.Keys;
    if i > 0 { SameAncestors(frames, frames', h, i - 1); }
  }

  /** The frames and the bases are the same and bind the same. */
  ghost predicate SameBindings(view: View, s: Env, view': View, s': Env) {
    && s'.frames == s.frames && BasesStand(s, s')
    && forall g, other :: g in s.frames ==> Binds(view', s', g, other) == Binds(view, s, g, other)
  }

  lemma OthersCompose(view: View, s: Env, view1: View, s1: Env, view2: View, s2: Env, taken: set<u64>)
    requires OthersStand(view, s, view1, s1, taken) && OthersStand(view1, s1, view2, s2, {})
    ensures OthersStand(view, s, view2, s2, taken)
  {
    forall o | o !in taken ensures OtherStands(view, s, view2, s2, o) {
      assert OtherStands(view, s, view1, s1, o) && OtherStands(view1, s1, view2, s2, o);
    }
  }

  /** What is taken second was not there at first. */
  lemma OthersSpared(view: View, s: Env, view1: View, view2: View, s2: Env, taken: set<u64>)
    requires OthersStand(view, s, view1, s, {}) && OthersStand(view1, s, view2, s2, taken) && taken !! view.Keys
    ensures OthersStand(view, s, view2, s2, {})
  {
    forall o ensures OtherStands(view, s, view2, s2, o) {
      assert OtherStands(view, s, view1, s, o);
      if o in view { assert o !in taken && OtherStands(view1, s, view2, s2, o); }
    }
  }

  lemma ReboundStands(view: View, s: Env, view1: View, s1: Env, view2: View, s2: Env, h: u64, name: u64, v: u64)
    requires Rebound(view, s, view1, s1, h, name, v) && SameBindings(view1, s1, view2, s2)
    requires OthersStand(view1, s1, view2, s2, {})
    ensures Rebound(view, s, view2, s2, h, name, v)
  {
    OthersCompose(view, s, view1, s1, view2, s2, {});
    BasesCompose(s, s1, s2);
    forall g, other | g in s.frames
      ensures Binds(view2, s2, g, other) == if g == h && other == name then Some(v) else Binds(view, s, g, other)
    {
      assert Binds(view2, s2, g, other) == Binds(view1, s1, g, other);
    }
  }

  lemma SameStands(view: View, s: Env, view1: View, s1: Env, view2: View, s2: Env)
    requires SameBindings(view, s, view1, s1) && SameBindings(view1, s1, view2, s2)
    requires OthersStand(view, s, view1, s1, {}) && OthersStand(view1, s1, view2, s2, {})
    ensures SameBindings(view, s, view2, s2) && OthersStand(view, s, view2, s2, {})
  {
    OthersCompose(view, s, view1, s1, view2, s2, {});
    BasesCompose(s, s1, s2);
    forall g, other | g in s.frames ensures Binds(view2, s2, g, other) == Binds(view, s, g, other) {
      assert Binds(view2, s2, g, other) == Binds(view1, s1, g, other);
    }
  }

  lemma NothingChanged(view: View, s: Env)
    ensures SameBindings(view, s, view, s) && OthersStand(view, s, view, s, {})
  {
    assert forall h :: h in s.bases ==> SpineStands(s, s, h);
  }

  lemma StampedStands(view: View, s: Env, view1: View, s1: Env, view2: View, s2: Env, taken: set<u64>)
    requires BindingsStand(view, s, view1, s1) && SameBindings(view1, s1, view2, s2)
    requires OthersStand(view, s, view1, s1, taken) && OthersStand(view1, s1, view2, s2, {})
    ensures BindingsStand(view, s, view2, s2) && OthersStand(view, s, view2, s2, taken)
  {
    OthersCompose(view, s, view1, s1, view2, s2, taken);
    forall g, other | g in s.frames ensures Binds(view2, s2, g, other) == Binds(view, s, g, other) {
      assert Binds(view2, s2, g, other) == Binds(view1, s1, g, other);
    }
  }

  lemma LeftShrinks(pairs: seq<u64>, n: nat, left: set<u64>)
    requires n < |pairs| && forall p :: p in left ==> p in pairs[n..]
    ensures forall p :: p in left - {pairs[n]} ==> p in pairs[n + 1..]
  {
    forall p | p in left - {pairs[n]} ensures p in pairs[n + 1..] {
      var i :| n <= i < |pairs| && pairs[i] == p;
      assert pairs[n + 1..][i - n - 1] == p;
    }
  }

  /** A root frame with a base is told by its holder's own slots. */
  lemma RootIsBased(view: View, s: Env, index: map<u64, map<u64, u64>>, missing: set<u64>, h: u64)
    requires Sound(view, s, index, missing) && h in s.frames
    ensures h in s.bases <==> s.frames[h].parent == 0 && s.frames[h].base != 0
    ensures h in s.bases ==> |s.bases[h].spine| == ROUTES && s.frames[h].base == s.bases[h].spine[0]
  {
    assert FrameOk(view, h, s.frames[h]);
    if h in s.bases {
      assert BaseOk(view, s, h, missing);
      assert SpineCellOk(view, s.roles, h, s.bases[h].spine, 0);
    }
  }

  lemma IndexBuilt(view: View, s: Env, index: map<u64, map<u64, u64>>, h: u64, m: map<u64, u64>)
    requires Sound(view, s, index, {}) && h in s.frames && m == MapOf(view, s.frames[h].pairs)
    ensures Sound(view, s, index[h := m], {})
  {}

  // ----- writes and allocations elsewhere ---------------------------------------------------

  /** A change that touches no cell of a base keeps it, as long as its frame's pairs are
      still the tree's, the ones now missing apart. */
  lemma BaseKept(view: View, view': View, s: Env, s': Env, h: u64, missing: set<u64>, missing': set<u64>, off: set<u64>)
    requires h in s.bases && BaseOk(view, s, h, missing) && RolesKept(view, view', s.roles, off)
    requires forall o :: o in s.roles ==> o in s'.roles && s'.roles[o] == s.roles[o]
    requires forall o :: o in off && o in s.roles ==>
        s.roles[o].Holder? || ((s.roles[o].SpineCell? || s.roles[o].TreeKids?) && s.roles[o].root != h)
    requires h in s'.bases && s'.bases[h] == s.bases[h] && h in s'.frames
    requires s'.frames[h].parent == s.frames[h].parent && s'.frames[h].base == s.frames[h].base
    requires Mirrors(s'.frames[h].pairs, s.bases[h].tree, missing')
    ensures BaseOk(view', s', h, missing')
  {
    var b := s.bases[h];
    TreeKept(view, view', s.roles, s'.roles, off, h, b.tree, LOW, HIGH);
    forall i | 0 <= i < |b.spine| ensures SpineCellOk(view', s'.roles, h, b.spine, i) {
      assert SpineCellOk(view, s.roles, h, b.spine, i);
    }
    assert SpineCellOk(view, s.roles, h, b.spine, TREE_ROUTE);
  }

  /** A change outside the trees and the spines keeps the bases. */
  lemma GlobalKept(view: View, view': View, s: Env, s': Env, missing: set<u64>, off: set<u64>)
    requires GlobalOk(view, s, missing) && RolesKept(view, view', s.roles, off)
    requires s'.frames == s.frames && s'.bases == s.bases
    requires forall o :: o in s.roles ==> o in s'.roles && s'.roles[o] == s.roles[o]
    requires forall o :: o in off && o in s.roles ==> s.roles[o].Holder?
    ensures GlobalOk(view', s', missing)
  {
    forall h | h in s'.bases ensures BaseOk(view', s', h, missing) {
      assert BaseOk(view, s, h, missing);
      BaseKept(view, view', s, s', h, missing, missing, off);
    }
  }

  /** Bindings whose cells are untouched stand. */
  lemma BindingsKept(view: View, view': View, s: Env, off: set<u64>)
    requires FramesOk(view, s.frames, s.roles) && Extends(view, view', off)
    requires forall o :: o in off && o in s.roles ==> !s.roles[o].CellOf? && !s.roles[o].PairOf?
    ensures SameBindings(view, s, view', s)
  {
    ExtendsKeeps(view, view', s.roles, off);
    forall g, other | g in s.frames ensures Binds(view', s, g, other) == Binds(view, s, g, other) {
      var pairs := s.frames[g].pairs;
      FrameKept(view, view', s.frames, s.roles, off, g);
      ScanKept(view, view', pairs, other);
      ScanMember(view, pairs, other);
      var q := Scan(view, pairs, other);
      if q.Some? {
        var j :| 0 <= j < |pairs| && pairs[j] == q.value;
        assert q.value in s.roles && s.roles[q.value] == PairOf(g);
      }
    }
  }

  /** An allocation elsewhere, or a write to an object with no role, keeps everything. */
  lemma ElsewhereStep(view: View, view': View, s: Env, index: map<u64, map<u64, u64>>, missing: set<u64>, off: set<u64>)
    requires Sound(view, s, index, missing) && Extends(view, view', off) && off !! s.roles.Keys
    ensures Sound(view', s, index, missing) && SameBindings(view, s, view', s)
  {
    ExtendsKeeps(view, view', s.roles, off);
    FramesKept(view, view', s.frames, s.roles, index, off);
    GlobalKept(view, view', s, s, missing, off);
    BindingsKept(view, view', s, off);
  }

  /** A spair made in two steps: all zero, then its second slot. */
  lemma SpairMade(view: View, view1: View, view2: View, s: Env, o: u64, rest: u64)
    requires SameBindings(view, s, view1, s) && SameBindings(view1, s, view2, s) && o !in view
    requires view1 == view[o := ObjView(SPAIR, Zeros(2))] && view2 == Wrote(view1, o, 1, rest)
    ensures view2 == view[o := ObjView(SPAIR, [0, rest])]
    ensures SameBindings(view, s, view2, s) && OthersStand(view, s, view2, s, {})
  {
    assert Zeros(2)[1 := rest] == [0, rest];
    BasesCompose(s, s, s);
    forall g, other | g in s.frames ensures Binds(view2, s, g, other) == Binds(view, s, g, other) {
      assert Binds(view2, s, g, other) == Binds(view1, s, g, other);
    }
  }

  /** A write to another route's cell keeps everything: the tree hangs off its own. */
  lemma RouteStep(view: View, s: Env, index: map<u64, map<u64, u64>>, h: u64, n: nat, v: u64)
    requires Sound(view, s, index, {}) && h in s.bases && n < ROUTES && n != TREE_ROUTE
    ensures n < |s.bases[h].spine|
    ensures var c := s.bases[h].spine[n];
            && c in view && |view[c].data| == 2
            && Sound(Wrote(view, c, 0, v), s, index, {}) && SameBindings(view, s, Wrote(view, c, 0, v), s)
            && OthersStand(view, s, Wrote(view, c, 0, v), s, {})
  {
    assert BaseOk(view, s, h, {});
    var c := s.bases[h].spine[n];
    assert SpineCellOk(view, s.roles, h, s.bases[h].spine, n);
    var view' := Wrote(view, c, 0, v);
    ExtendsKeeps(view, view', s.roles, {c});
    FramesKept(view, view', s.frames, s.roles, index, {c});
    BindingsKept(view, view', s, {c});
    forall g | g in s.bases ensures BaseOk(view', s, g, {}) {
      assert BaseOk(view, s, g, {});
      if g == h {
        RouteBase(view, s, h, n, v);
      } else {
        BaseKept(view, view', s, s, g, {}, {}, {c});
      }
    }
  }

  lemma RouteBase(view: View, s: Env, h: u64, n: nat, v: u64)
    requires h in s.bases && BaseOk(view, s, h, {}) && s.roles.Keys <= view.Keys && 0 !in view && n < ROUTES
    requires n != TREE_ROUTE
    requires s.bases[h].spine[n] in view && |view[s.bases[h].spine[n]].data| == 2
    ensures BaseOk(Wrote(view, s.bases[h].spine[n], 0, v), s, h, {})
  {
    var b := s.bases[h];
    var c := b.spine[n];
    var view' := Wrote(view, c, 0, v);
    ExtendsKeeps(view, view', s.roles, {c});
    assert SpineCellOk(view, s.roles, h, b.spine, n) && SpineCellOk(view, s.roles, h, b.spine, TREE_ROUTE);
    SpineDistinct(view, s.roles, h, b, n);
    TreeKept(view, view', s.roles, s.roles, {c}, h, b.tree, LOW, HIGH);
    forall i | 0 <= i < |b.spine| ensures SpineCellOk(view', s.roles, h, b.spine, i) {
      assert SpineCellOk(view, s.roles, h, b.spine, i);
    }
  }

  /** The tree's cell is the last of the spine, and no other. */
  lemma SpineDistinct(view: View, roles: map<u64, Role>, h: u64, b: Base, n: nat)
    requires SpineOk(view, roles, h, b) && 0 !in view && n < TREE_ROUTE
    ensures b.spine[n] != b.spine[TREE_ROUTE]
  {
    assert SpineCellOk(view, roles, h, b.spine, n) && SpineCellOk(view, roles, h, b.spine, n + 1);
    assert SpineCellOk(view, roles, h, b.spine, TREE_ROUTE);
  }

  // ----- writing a bound value ------------------------------------------------------------------

  /** Writing a bound value keeps the frames, the index and the base. */
  lemma WriteStep(view: View, view': View, s: Env, index: map<u64, map<u64, u64>>, h: u64, name: u64, p: u64, v: u64)
    requires Sound(view, s, index, {})
    requires h in s.frames && Scan(view, s.frames[h].pairs, name) == Some(p) && IsSpair(view, p)
    requires view' == Wrote(view, p, 1, v)
    ensures Sound(view', s, index, {}) && Rebound(view, s, view', s, h, name, v)
  {
    ValueWritten(view, s.frames, s.roles, h, name, p, v);
    FramesKept(view, view', s.frames, s.roles, index, {});
    GlobalKept(view, view', s, s, {}, {});
    forall g, other | g in s.frames
      ensures Binds(view', s, g, other) == if g == h && other == name then Some(v) else Binds(view, s, g, other)
    {
      WrittenBinds(view, s.frames, s.roles, h, name, p, v, g, other);
    }
  }

  // ----- a new frame ----------------------------------------------------------------------------

  function PushedEnv(s: Env, h: u64, f: Frame): Env { s.(frames := s.frames[h := f], roles := s.roles[h := Holder]) }

  /** A new frame under `parent`, serving `base`, binds nothing itself; every other frame
      and every other object stands. */
  ghost predicate Pushed(view: View, s: Env, view': View, s': Env, h: u64, parent: u64, base: u64) {
    && OthersStand(view, s, view', s', {}) && h !in view && BasesStand(s, s')
    && h !in s.frames && s'.frames.Keys == s.frames.Keys + {h}
    && s'.frames[h].parent == parent && s'.frames[h].base == base && s'.frames[h].pairs == []
    && (forall g :: g in s.frames ==> s'.frames[g] == s.frames[g])
    && (forall g, other :: g in s.frames ==> Binds(view', s', g, other) == Binds(view, s, g, other))
  }

  /** IN A NEW FRAME NAMES MEAN WHAT THEY MEAN IN ITS PARENT. */
  lemma PushedMeans(view: View, s: Env, view': View, s': Env, h: u64, parent: u64, base: u64, name: u64)
    requires Pushed(view, s, view', s', h, parent, base) && parent != 0 && parent in s.frames
    requires ParentsOk(s.frames) && ParentsOk(s'.frames)
    ensures ChainLookup(view', s'.frames, h, name) == ChainLookup(view, s.frames, parent, name)
  {
    OldFramesMean(view, s, view', s', parent, name);
    assert Bound(view', s'.frames, h, name).None?;
  }

  lemma {:induction false} OldFramesMean(view: View, s: Env, view': View, s': Env, g: u64, name: u64)
    requires ParentsOk(s.frames) && ParentsOk(s'.frames) && g in s.frames
    requires forall a :: a in s.frames ==> a in s'.frames && s'.frames[a] == s.frames[a]
    requires forall a :: a in s.frames ==> Binds(view', s', a, name) == Binds(view, s, a, name)
    ensures ChainLookup(view', s'.frames, g, name) == ChainLookup(view, s.frames, g, name)
    decreases s.frames[g].rank
  {
    assert ParentOk(s.frames, g) && Binds(view', s', g, name) == Binds(view, s, g, name);
    if Binds(view, s, g, name).None? && s.frames[g].parent != 0 {
      OldFramesMean(view, s, view', s', s.frames[g].parent, name);
    }
  }

  lemma PushStep(view: View, view': View, s: Env, index: map<u64, map<u64, u64>>, h: u64, f: Frame)
    requires Sound(view, s, index, {})
    requires Fresh(view, h) && f.cells == [] && f.pairs == [] && (f.parent == 0 ==> f.base == 0)
    requires f.parent != 0 ==> f.parent in s.frames && s.frames[f.parent].rank < f.rank
    requires view' == view[h := ObjView(ENVH, [0, f.parent, f.base])]
    ensures Sound(view', PushedEnv(s, h, f), index, {})
  {
    assert h !in s.roles && (h in s.frames ==> h in s.roles);
    FramePushed(view, view', s.frames, s.roles, index, h, f);
    var s' := PushedEnv(s, h, f);
    forall g | g in s'.bases ensures BaseOk(view', s', g, {}) {
      assert BaseOk(view, s, g, {});
      BaseKept(view, view', s, s', g, {}, {}, {});
    }
  }

  lemma PushBinds(view: View, view': View, s: Env, h: u64, f: Frame)
    requires FramesOk(view, s.frames, s.roles) && Fresh(view, h) && f.cells == [] && f.pairs == []
    requires view' == view[h := ObjView(ENVH, [0, f.parent, f.base])]
    ensures Pushed(view, s, view', PushedEnv(s, h, f), h, f.parent, f.base)
  {
    assert h !in s.roles && (h in s.frames ==> h in s.roles);
    BindingsKept(view, view', s, {});
    var s' := PushedEnv(s, h, f);
    forall g, other | g in s.frames ensures Binds(view', s', g, other) == Binds(view, s, g, other) {
      assert s'.frames[g] == s.frames[g];
      assert Binds(view', s', g, other) == Binds(view', s, g, other);
    }
  }

  // ----- a new binding --------------------------------------------------------------------------

  function ConsedEnv(s: Env, h: u64, pair: u64, cell: u64): Env
    requires h in s.frames
  {
    s.(frames := s.frames[h := Prepend(s.frames[h], cell, pair)],
      roles := s.roles[pair := PairOf(h)][cell := CellOf(h)])
  }

  /** What a newly consed pair leaves the global tree missing. */
  function Unmirrored(s: Env, h: u64, pair: u64): set<u64> { if h in s.bases then {pair} else {} }

  /** The index with the new binding in its frame's map, if it has one. */
  function CaughtUp(index: map<u64, map<u64, u64>>, h: u64, name: u64, pair: u64): map<u64, map<u64, u64>> {
    if h in index then
      var m: map<u64, u64> := index[h][name := pair];
      index[h := m]
    else index
  }

  /** Consing a new binding: every frame stands, the index needs just this entry, and
      in the root frame the tree lacks just this pair. */
  lemma ConsStep(view: View, view': View, s: Env, index: map<u64, map<u64, u64>>, h: u64, name: u64, value: u64,
                 pair: u64, cell: u64)
    requires Sound(view, s, index, {}) && h in s.frames && Scan(view, s.frames[h].pairs, name).None?
    requires Consed(view, view', s.roles, h, s.frames[h], name, value, pair, cell)
    ensures Sound(view', ConsedEnv(s, h, pair, cell), CaughtUp(index, h, name, pair), Unmirrored(s, h, pair))
  {
    ConsedFrames(view, view', s.frames, s.roles, h, name, value, pair, cell);
    ConsIndex(view, view', s, index, h, name, value, pair, cell);
    ConsGlobal(view, view', s, h, pair, cell);
  }

  lemma ConsIndex(view: View, view': View, s: Env, index: map<u64, map<u64, u64>>, h: u64, name: u64, value: u64,
                  pair: u64, cell: u64)
    requires FramesOk(view, s.frames, s.roles) && IndexOk(view, s.frames, index)
    requires h in s.frames && Consed(view, view', s.roles, h, s.frames[h], name, value, pair, cell)
    ensures IndexOk(view', ConsedEnv(s, h, pair, cell).frames, CaughtUp(index, h, name, pair))
  {
    ExtendsKeeps(view, view', s.roles, {h});
    forall g | g in s.frames ensures MapOf(view', s.frames[g].pairs) == MapOf(view, s.frames[g].pairs) {
      assert h in s.roles && s.roles[h] == Holder;
      FrameKept(view, view', s.frames, s.roles, {h}, g);
      MapKept(view, view', s.frames[g].pairs);
    }
    assert ([pair] + s.frames[h].pairs)[1..] == s.frames[h].pairs;
  }

  lemma ConsGlobal(view: View, view': View, s: Env, h: u64, pair: u64, cell: u64)
    requires GlobalOk(view, s, {}) && Extends(view, view', {h}) && s.roles.Keys <= view.Keys && h in s.frames
    requires h in s.roles && s.roles[h] == Holder && Fresh(view, pair) && Fresh(view, cell)
    ensures GlobalOk(view', ConsedEnv(s, h, pair, cell), Unmirrored(s, h, pair))
  {
    ExtendsKeeps(view, view', s.roles, {h});
    assert pair !in s.roles && cell !in s.roles;
    var s' := ConsedEnv(s, h, pair, cell);
    forall g | g in s'.bases ensures BaseOk(view', s', g, Unmirrored(s, h, pair)) {
      assert BaseOk(view, s, g, {});
      BaseKept(view, view', s, s', g, {}, Unmirrored(s, h, pair), {h});
    }
  }

  lemma ConsBinds(view: View, view': View, s: Env, h: u64, name: u64, value: u64, pair: u64, cell: u64)
    requires FramesOk(view, s.frames, s.roles) && h in s.frames && Scan(view, s.frames[h].pairs, name).None?
    requires Consed(view, view', s.roles, h, s.frames[h], name, value, pair, cell)
    ensures Rebound(view, s, view', ConsedEnv(s, h, pair, cell), h, name, value)
  {
    assert h in s.roles && s.roles[h] == Holder;
    var s' := ConsedEnv(s, h, pair, cell);
    forall g, other | g in s.frames
      ensures Binds(view', s', g, other) == if g == h && other == name then Some(value) else Binds(view, s, g, other)
    {
      ConsedBinds(view, view', s.frames, s.roles, h, name, value, pair, cell, g, other);
    }
  }

  lemma ConsedHeap(view: View, s: Env, h: u64, name: u64, value: u64, pair: u64, cell: u64)
    requires FramesOk(view, s.frames, s.roles) && h in s.frames
    requires Fresh(view, pair) && Fresh(view, cell) && pair != cell && h in view && |view[h].data| == 3
    ensures Consed(view, ConsedView(view, h, name, value, pair, cell), s.roles, h, s.frames[h], name, value, pair, cell)
  {
    assert FrameOk(view, h, s.frames[h]);
  }

  // ----- the index ------------------------------------------------------------------------------

  /** The map of a chain grows at its old end only by names not yet there. */
  lemma {:induction false} MapSnoc(view: View, pairs: seq<u64>, p: u64)
    ensures MapOf(view, pairs + [p]) == if Name(view, p) in MapOf(view, pairs) then MapOf(view, pairs)
        else MapOf(view, pairs)[Name(view, p) := p]
    decreases |pairs|
  {
    if pairs != [] {
      MapSnoc(view, pairs[1..], p);
      assert (pairs + [p])[1..] == pairs[1..] + [p];
    } else {
      assert pairs + [p] == [p];
    }
  }

  lemma MapTakes(view: View, pairs: seq<u64>, n: nat)
    requires n < |pairs|
    ensures var m, name := MapOf(view, pairs[..n]), Name(view, pairs[n]);
            MapOf(view, pairs[..n + 1]) == if name in m then m else m[name := pairs[n]]
  {
    MapSnoc(view, pairs[..n], pairs[n]);
    assert pairs[..n + 1] == pairs[..n] + [pairs[n]];
  }

  lemma AllTaken<T>(s: seq<T>)
    ensures s[..|s|] == s
  {}

  // ----- the global tree ------------------------------------------------------------------------

  /** A new node for `pair`, named `key`, hung on a side of the cell `at` in the base of
      `root`. */
  datatype Graft = Graft(root: u64, at: u64, left: bool, pair: u64, key: u64, node: u64, kids: u64)

  function Leafy(g: Graft): Tree { Node(g.node, g.kids, g.pair, g.key, Leaf, Leaf) }

  function HungRoles(roles: map<u64, Role>, g: Graft): map<u64, Role> {
    roles[g.kids := TreeKids(g.root, g.key)][g.node := TreeNode]
  }

  function HungBase(b: Base, g: Graft): Base { b.(tree := Insert(b.tree, g.key, g.pair, g.node, g.kids)) }

  function HungEnv(s: Env, g: Graft): Env
    requires g.root in s.bases
  {
    s.(roles := HungRoles(s.roles, g), bases := s.bases[g.root := HungBase(s.bases[g.root], g)])
  }

  function HungOn(view: View, g: Graft): View
    requires g.at in view && |view[g.at].data| == 2 && g.node !in view && g.kids !in view
  {
    HungView(view, g.at, if g.left then 0 else 1, g.pair, g.node, g.kids)
  }

  /** Where a new node goes: the tree route's cell when the tree is empty, else the
      kids cell the descent stops at. */
  ghost predicate Spot(b: Base, key: u64, at: u64, left: bool) {
    if b.tree.Leaf? then |b.spine| == ROUTES && at == b.spine[TREE_ROUTE] && left
      else Attach(b.tree, key) == Some((at, left))
  }

  /** A binding of a root frame that its base's tree lacks, and the spot its node goes to. */
  ghost predicate Wanted(view: View, s: Env, h: u64, at: u64, left: bool, pair: u64, key: u64) {
    && h in s.bases && h in s.frames && pair in s.frames[h].pairs && key == Name(view, pair)
    && Spot(s.bases[h], key, at, left) && Find(s.bases[h].tree, key).None?
  }

  /** A fresh node written into its spot. */
  ghost predicate NodeHung(view: View, view': View, g: Graft) {
    && Extends(view, view', {g.at}) && Fresh(view, g.node) && Fresh(view, g.kids) && g.node != g.kids
    && g.node in view' && view'[g.node] == ObjView(SPAIR, [g.pair, g.kids])
    && g.kids in view' && view'[g.kids] == ObjView(SPAIR, [0, 0])
    && g.at in view && view[g.at].kind == SPAIR && |view[g.at].data| == 2
    && g.at in view' && view'[g.at] == With(view[g.at], if g.left then 0 else 1, g.node)
  }

  /** Hanging a missing root binding on its spot mirrors it, and leaves other bases
      alone. */
  lemma HangStep(view: View, view': View, s: Env, index: map<u64, map<u64, u64>>, missing: set<u64>, g: Graft)
    requires Sound(view, s, index, missing) && Wanted(view, s, g.root, g.at, g.left, g.pair, g.key)
    requires NodeHung(view, view', g)
    ensures Sound(view', HungEnv(s, g), index, missing - {g.pair})
    ensures SameBindings(view, s, view', HungEnv(s, g)) && OthersStand(view, s, view', HungEnv(s, g), {})
  {
    var s', b := HungEnv(s, g), s.bases[g.root];
    assert BaseOk(view, s, g.root, missing);
    SpotRole(view, s.roles, b, g);
    HungFrames(view, view', s, index, g);
    RootPair(view, s, g.root, g.pair);
    HungTree(view, view', s.roles, b, g);
    HungSpine(view, view', s.roles, b, g);
    InsertKeeps(b.tree, LOW, HIGH, g.key, g.pair, g.node, g.kids);
    assert BaseOk(view', s', g.root, missing - {g.pair});
    forall h | h in s'.bases && h != g.root ensures BaseOk(view', s', h, missing - {g.pair}) {
      HungElsewhere(view, view', s, missing, g, h);
    }
  }

  /** Another root's base is no part of it. */
  lemma HungElsewhere(view: View, view': View, s: Env, missing: set<u64>, g: Graft, h: u64)
    requires FramesOk(view, s.frames, s.roles) && GlobalOk(view, s, missing) && NodeHung(view, view', g)
    requires g.root in s.bases && h in s.bases && h != g.root && g.pair in s.roles && s.roles[g.pair] == PairOf(g.root)
    requires g.at in s.roles && (s.roles[g.at].SpineCell? || s.roles[g.at].TreeKids?) && s.roles[g.at].root == g.root
    ensures BaseOk(view', HungEnv(s, g), h, missing - {g.pair})
  {
    assert BaseOk(view, s, h, missing);
    ExtendsKeeps(view, view', s.roles, {g.at});
    assert g.node !in s.roles && g.kids !in s.roles;
    assert g.pair !in s.frames[h].pairs;
    BaseKept(view, view', s, HungEnv(s, g), h, missing, missing - {g.pair}, {g.at});
  }

  lemma HungFrames(view: View, view': View, s: Env, index: map<u64, map<u64, u64>>, g: Graft)
    requires FramesOk(view, s.frames, s.roles) && IndexOk(view, s.frames, index) && g.root in s.bases
    requires g.at in s.roles && (s.roles[g.at].SpineCell? || s.roles[g.at].TreeKids?)
    requires NodeHung(view, view', g)
    ensures FramesOk(view', s.frames, HungEnv(s, g).roles) && IndexOk(view', s.frames, index)
    ensures SameBindings(view, s, view', HungEnv(s, g)) && OthersStand(view, s, view', HungEnv(s, g), {})
  {
    ExtendsKeeps(view, view', s.roles, {g.at});
    FramesKept(view, view', s.frames, s.roles, index, {g.at});
    MoreRoles(view', s.frames, s.roles, g.kids, TreeKids(g.root, g.key));
    MoreRoles(view', s.frames, s.roles[g.kids := TreeKids(g.root, g.key)], g.node, TreeNode);
    BindingsKept(view, view', s, {g.at});
    HungSame(view, view', s, HungEnv(s, g));
  }

  lemma HungSame(view: View, view': View, s: Env, s': Env)
    requires SameBindings(view, s, view', s) && s'.frames == s.frames && BasesStand(s, s')
    ensures SameBindings(view, s, view', s')
  {
    forall g, other | g in s.frames ensures Binds(view', s', g, other) == Binds(view, s, g, other) {
      assert Binds(view', s', g, other) == Binds(view', s, g, other);
    }
  }

  lemma MoreRoles(view: View, frames: map<u64, Frame>, roles: map<u64, Role>, o: u64, role: Role)
    requires FramesOk(view, frames, roles) && o in view && o !in roles
    ensures FramesOk(view, frames, roles[o := role])
  {
    assert RolesOk(frames, roles[o := role]);
  }

  lemma SpotRole(view: View, roles: map<u64, Role>, b: Base, g: Graft)
    requires SpineOk(view, roles, g.root, b) && TreeSound(view, roles, g.root, b.tree) && Spot(b, g.key, g.at, g.left)
    ensures g.at in roles && (roles[g.at].SpineCell? || roles[g.at].TreeKids?) && roles[g.at].root == g.root
    ensures b.tree.Node? ==> roles[g.at].TreeKids?
  {
    assert SpineCellOk(view, roles, g.root, b.spine, TREE_ROUTE);
    if b.tree.Node? { AttachSpot(view, roles, g.root, b.tree, LOW, HIGH, g.key); }
  }

  lemma HungTree(view: View, view': View, roles: map<u64, Role>, b: Base, g: Graft)
    requires SpineOk(view, roles, g.root, b) && TreeSound(view, roles, g.root, b.tree) && roles.Keys <= view.Keys
    requires Spot(b, g.key, g.at, g.left) && NodeHung(view, view', g)
    requires IsSpair(view, g.pair) && g.pair in roles && roles[g.pair].PairOf? && g.key == Name(view, g.pair)
    ensures TreeOk(view', HungRoles(roles, g), g.root, HungBase(b, g).tree)
    ensures Ptr(HungBase(b, g).tree) == if b.tree.Leaf? then g.node else Ptr(b.tree)
  {
    SpotRole(view, roles, b, g);
    HungLeaf(view, view', roles, g);
    if b.tree.Leaf? {
      assert HungBase(b, g).tree == Leafy(g);
      assert TreeOk(view', HungRoles(roles, g), g.root, Leaf);
    } else {
      HangInserts(view, view', roles, HungRoles(roles, g), g.root, b.tree, LOW, HIGH, g.at, g.left, g.key, g.pair,
        g.node, g.kids);
    }
  }

  lemma HungLeaf(view: View, view': View, roles: map<u64, Role>, g: Graft)
    requires NodeHung(view, view', g) && roles.Keys <= view.Keys
    requires g.at in roles && !roles[g.at].PairOf? && g.pair in roles && roles[g.pair].PairOf?
    requires IsSpair(view, g.pair) && g.key == Name(view, g.pair)
    ensures NodeOk(view', HungRoles(roles, g), g.root, Leafy(g))
    ensures forall o :: o in roles ==> HungRoles(roles, g)[o] == roles[o]
  {
    assert g.node !in roles && g.kids !in roles;
    assert g.pair in view && g.pair != g.node && g.pair != g.kids;
  }

  lemma RootPair(view: View, s: Env, h: u64, pair: u64)
    requires FramesOk(view, s.frames, s.roles) && h in s.frames && pair in s.frames[h].pairs
    ensures IsSpair(view, pair) && pair in s.roles && s.roles[pair] == PairOf(h)
  {
    var i :| 0 <= i < |s.frames[h].pairs| && s.frames[h].pairs[i] == pair;
    assert FrameOk(view, h, s.frames[h]);
  }

  lemma HungSpineCell(view: View, view': View, roles: map<u64, Role>, spine: seq<u64>, g: Graft, i: nat)
    requires i < |spine| && SpineCellOk(view, roles, g.root, spine, i) && NodeHung(view, view', g)
    requires roles.Keys <= view.Keys && (spine[i] == g.at ==> g.left)
    ensures SpineCellOk(view', HungRoles(roles, g), g.root, spine, i)
    ensures view'[spine[i]].data[0] == if spine[i] == g.at then g.node else view[spine[i]].data[0]
  {
    assert g.node !in roles && g.kids !in roles;
  }

  lemma HungSpine(view: View, view': View, roles: map<u64, Role>, b: Base, g: Graft)
    requires SpineOk(view, roles, g.root, b) && TreeSound(view, roles, g.root, b.tree) && roles.Keys <= view.Keys
    requires Spot(b, g.key, g.at, g.left) && NodeHung(view, view', g)
    requires Ptr(HungBase(b, g).tree) == if b.tree.Leaf? then g.node else Ptr(b.tree)
    ensures SpineOk(view', HungRoles(roles, g), g.root, HungBase(b, g))
  {
    SpotRole(view, roles, b, g);
    forall i | 0 <= i < |b.spine|
      ensures SpineCellOk(view', HungRoles(roles, g), g.root, b.spine, i)
      ensures view'[b.spine[i]].data[0] == if b.spine[i] == g.at then g.node else view[b.spine[i]].data[0]
    {
      assert SpineCellOk(view, roles, g.root, b.spine, i);
      HungSpineCell(view, view', roles, b.spine, g, i);
    }
  }

  lemma HungHeap(view: View, g: Graft)
    requires 0 !in view && g.at in view && view[g.at].kind == SPAIR && |view[g.at].data| == 2
    requires Fresh(view, g.node) && Fresh(view, g.kids) && g.node != g.kids
    ensures NodeHung(view, HungOn(view, g), g)
  {}

  lemma HangKeeps(view: View, view': View, s: Env, index: map<u64, map<u64, u64>>, missing: set<u64>, g: Graft)
    requires Sound(view, s, index, missing) && Wanted(view, s, g.root, g.at, g.left, g.pair, g.key)
    requires Fresh(view, g.node) && Fresh(view, g.kids) && g.node != g.kids && g.at in view && |view[g.at].data| == 2
    requires view' == HungOn(view, g)
    ensures Sound(view', HungEnv(s, g), index, missing - {g.pair})
    ensures SameBindings(view, s, view', HungEnv(s, g)) && OthersStand(view, s, view', HungEnv(s, g), {})
  {
    assert BaseOk(view, s, g.root, missing);
    SpotThere(view, s.roles, g.root, s.bases[g.root], g.key, g.at, g.left);
    HungHeap(view, g);
    HangStep(view, view', s, index, missing, g);
  }

  /** The spot is a spair already there. */
  lemma SpotThere(view: View, roles: map<u64, Role>, root: u64, b: Base, key: u64, at: u64, left: bool)
    requires SpineOk(view, roles, root, b) && TreeSound(view, roles, root, b.tree) && Spot(b, key, at, left)
    ensures at in view && view[at].kind == SPAIR && |view[at].data| == 2
  {
    assert SpineCellOk(view, roles, root, b.spine, TREE_ROUTE);
    if b.tree.Node? { AttachSpot(view, roles, root, b.tree, LOW, HIGH, key); }
  }

  /** A root binding the descent finds is mirrored already, by its own cell. */
  lemma MirroredAlready(view: View, s: Env, index: map<u64, map<u64, u64>>, missing: set<u64>, h: u64, pair: u64,
                        key: u64)
    requires Sound(view, s, index, missing) && h in s.bases && h in s.frames && pair in s.frames[h].pairs
    requires key == Name(view, pair)
    requires Find(s.bases[h].tree, key).Some?
    ensures Sound(view, s, index, missing - {pair})
  {
    forall g | g in s.bases ensures BaseOk(view, s, g, missing - {pair}) {
      assert BaseOk(view, s, g, missing);
      if g == h {
        FoundPair(view, s, missing, h, pair, key);
      } else {
        RootPair(view, s, h, pair);
        if pair in s.frames[g].pairs { RootPair(view, s, g, pair); }
      }
    }
  }

  lemma FoundPair(view: View, s: Env, missing: set<u64>, h: u64, pair: u64, key: u64)
    requires FramesOk(view, s.frames, s.roles) && h in s.bases && BaseOk(view, s, h, missing)
    requires pair in s.frames[h].pairs && key == Name(view, pair) && Find(s.bases[h].tree, key).Some?
    ensures pair in Pairs(s.bases[h].tree)
  {
    FindMember(view, s.roles, h, s.bases[h].tree, key);
    var q := Find(s.bases[h].tree, key).value;
    var pairs := s.frames[h].pairs;
    assert FrameOk(view, h, s.frames[h]);
    var i :| 0 <= i < |pairs| && pairs[i] == q;
    var j :| 0 <= j < |pairs| && pairs[j] == pair;
  }

  /** In a sound state the descent by address finds the very cell the scan finds. */
  lemma GlobalFindIsScan(view: View, s: Env, index: map<u64, map<u64, u64>>, h: u64, name: u64)
    requires Sound(view, s, index, {}) && h in s.bases
    ensures h in s.frames && Find(s.bases[h].tree, name) == Scan(view, s.frames[h].pairs, name)
  {
    assert BaseOk(view, s, h, {}) && FrameOk(view, h, s.frames[h]);
    TreeFindsScan(view, s.roles, h, s.bases[h].tree, s.frames[h].pairs, LOW, HIGH, name);
  }

  // ----- stamping a base --------------------------------------------------------------------------

  /** A base as `build` leaves it: every route's cell present, the tree's empty, and no
      part of any frame. */
  ghost predicate BaseBuilt(view: View, roles: map<u64, Role>, spine: seq<u64>) {
    && |spine| == ROUTES && view.Keys >= {spine[TREE_ROUTE]}
    && (forall i :: 0 <= i < |spine| ==> CellBuilt(view, roles, spine, i))
    && |view[spine[TREE_ROUTE]].data| == 2 && view[spine[TREE_ROUTE]].data[0] == 0
  }

  ghost predicate CellBuilt(view: View, roles: map<u64, Role>, spine: seq<u64>, i: nat)
    requires i < |spine|
  {
    var c := spine[i];
    c in view && c !in roles && view[c].kind == SPAIR && |view[c].data| == 2 && view[c].data[1] == After(spine, i)
  }

  /** A spine under construction: its cells so far, all empty. */
  ghost predicate SpineBuilt(view: View, roles: map<u64, Role>, cells: seq<u64>) {
    forall i :: 0 <= i < |cells| ==> CellBuilt(view, roles, cells, i) && view[cells[i]].data[0] == 0
  }

  lemma SpineGrows(view: View, view': View, roles: map<u64, Role>, cells: seq<u64>, c: u64)
    requires SpineBuilt(view, roles, cells)
    requires c !in view && c !in roles && view' == view[c := ObjView(SPAIR, [0, HeadOf(cells)])]
    ensures SpineBuilt(view', roles, [c] + cells)
  {
    var more := [c] + cells;
    forall i | 0 <= i <= |cells| ensures CellBuilt(view', roles, more, i) && view'[more[i]].data[0] == 0 {
      if i > 0 { assert more[i] == cells[i - 1] && CellBuilt(view, roles, cells, i - 1); }
    }
  }

  lemma SpineIsBase(view: View, roles: map<u64, Role>, cells: seq<u64>)
    requires SpineBuilt(view, roles, cells) && |cells| == ROUTES
    ensures BaseBuilt(view, roles, cells) && HeadOf(cells) == cells[0]
  {
    assert CellBuilt(view, roles, cells, TREE_ROUTE);
  }

  /** The last value a list of rows gives a name. */
  function Given(rows: seq<(u64, u64)>, name: u64): Option<u64>
    decreases |rows|
  {
    if rows == [] then None
    else
      var (key, value) := rows[|rows| - 1];
      if key == name then Some(value) else Given(rows[..|rows| - 1], name)
  }

  /** A new root frame that binds exactly what `rows` give; every other frame, every base
      and every object outside the environments stands. */
  ghost predicate NewRoot(view: View, s: Env, view': View, s': Env, h: u64, rows: seq<(u64, u64)>) {
    && h !in s.frames && s'.frames.Keys == s.frames.Keys + {h} && s'.frames[h].parent == 0
    && (forall name :: Binds(view', s', h, name) == Given(rows, name))
    && (forall g, name :: g in s.frames ==> Binds(view', s', g, name) == Binds(view, s, g, name))
    && OthersStand(view, s, view', s', {}) && SpinesStand(s, s')
  }

  ghost predicate SpinesStand(s: Env, s': Env) {
    forall g {:trigger SpineStands(s, s', g)} :: g in s.bases ==> SpineStands(s, s', g)
  }

  lemma SpinesCompose(s: Env, s1: Env, s2: Env)
    requires SpinesStand(s, s1) && SpinesStand(s1, s2)
    ensures SpinesStand(s, s2)
  {
    forall g | g in s.bases ensures SpineStands(s, s2, g) { assert SpineStands(s, s1, g) && SpineStands(s1, s2, g); }
  }

  lemma RowBound(view: View, s: Env, view1: View, s1: Env, view2: View, s2: Env, h: u64, rows: seq<(u64, u64)>, n: nat)
    requires n < |rows| && NewRoot(view, s, view1, s1, h, rows[..n])
    requires Rebound(view1, s1, view2, s2, h, rows[n].0, rows[n].1)
    ensures NewRoot(view, s, view2, s2, h, rows[..n + 1])
  {
    assert rows[..n + 1][..n] == rows[..n];
    OthersCompose(view, s, view1, s1, view2, s2, {});
    SpinesCompose(s, s1, s2);
    forall name ensures Binds(view2, s2, h, name) == Given(rows[..n + 1], name) {
      assert Binds(view1, s1, h, name) == Given(rows[..n], name);
    }
    forall g, name | g in s.frames ensures Binds(view2, s2, g, name) == Binds(view, s, g, name) {
      assert Binds(view1, s1, g, name) == Binds(view, s, g, name);
    }
  }

  lemma RootStamped(view: View, s: Env, view1: View, s1: Env, view2: View, s2: Env, h: u64, rows: seq<(u64, u64)>)
    requires NewRoot(view, s, view1, s1, h, rows) && BindingsStand(view1, s1, view2, s2)
    requires OthersStand(view1, s1, view2, s2, {}) && SpinesStand(s1, s2)
    ensures NewRoot(view, s, view2, s2, h, rows)
  {
    OthersCompose(view, s, view1, s1, view2, s2, {});
    SpinesCompose(s, s1, s2);
    forall name ensures Binds(view2, s2, h, name) == Given(rows, name) {
      assert Binds(view1, s1, h, name) == Given(rows, name);
    }
    forall g, name | g in s.frames ensures Binds(view2, s2, g, name) == Binds(view, s, g, name) {
      assert Binds(view1, s1, g, name) == Binds(view, s, g, name);
    }
  }

  function StampedEnv(s: Env, h: u64, spine: seq<u64>): Env
    requires h in s.frames && |spine| == ROUTES
  {
    Env(s.frames[h := s.frames[h].(base := spine[0])], s.roles + (map c | c in spine :: SpineCell(h)),
        s.bases[h := Base(spine, Leaf)])
  }

  /** The frames are as they were, their bases apart, and bind what they bound. */
  ghost predicate BindingsStand(view: View, s: Env, view': View, s': Env) {
    && s'.frames.Keys == s.frames.Keys
    && (forall g :: g in s.frames ==>
      s'.frames[g].parent == s.frames[g].parent && s'.frames[g].pairs == s.frames[g].pairs)
    && (forall g, other :: g in s.frames ==> Binds(view', s', g, other) == Binds(view, s, g, other))
  }

  /** `h` has gained a base with that spine; the other bases stand. */
  ghost predicate Gained(s: Env, s': Env, h: u64, spine: seq<u64>) {
    && s'.bases.Keys == s.bases.Keys + {h} && s'.bases[h].spine == spine
    && SpinesStand(s, s')
  }

  /** A base given stays given. */
  lemma GainedStands(s: Env, s1: Env, s2: Env, h: u64, spine: seq<u64>)
    requires h !in s.bases && Gained(s, s1, h, spine) && BasesStand(s1, s2)
    ensures Gained(s, s2, h, spine)
  {
    assert SpineStands(s1, s2, h);
    forall g | g in s.bases ensures SpineStands(s, s2, g) { assert SpineStands(s, s1, g) && SpineStands(s1, s2, g); }
  }

  /** A frame just pushed is a new root that binds nothing and has no base. */
  lemma PushedIsNew(view: View, s: Env, index: map<u64, map<u64, u64>>, view': View, s': Env, h: u64)
    requires Sound(view, s, index, {}) && Pushed(view, s, view', s', h, 0, 0)
    ensures NewRoot(view, s, view', s', h, []) && h !in s.bases && s'.bases.Keys == s.bases.Keys
  {
    assert forall g :: g in s.bases ==> SpineStands(s, s', g);
    forall g | g in s.bases ensures g in s.frames { assert BaseOk(view, s, g, {}); }
  }

  /** Stamping a root with its base: the tree lacks all its bindings so far. */
  lemma StampStep(view: View, view': View, s: Env, index: map<u64, map<u64, u64>>, h: u64, spine: seq<u64>)
    requires Sound(view, s, index, {}) && h !in s.bases && h in s.frames && s.frames[h].parent == 0
    requires BaseBuilt(view, s.roles, spine)
    requires h in view && |view[h].data| == 3 && view' == Wrote(view, h, 2, spine[0])
    ensures Sound(view', StampedEnv(s, h, spine), index, Elements(s.frames[h].pairs))
    ensures BindingsStand(view, s, view', StampedEnv(s, h, spine))
    ensures OthersStand(view, s, view', StampedEnv(s, h, spine), Elements(spine))
    ensures Gained(s, StampedEnv(s, h, spine), h, spine)
  {
    assert h in s.roles && s.roles[h] == Holder;
    StampChains(view, view', s, index, h, spine);
    StampGlobal(view, view', s, h, spine);
    StampBinds(view, view', s, h, spine);
  }

  lemma StampChains(view: View, view': View, s: Env, index: map<u64, map<u64, u64>>, h: u64, spine: seq<u64>)
    requires FramesOk(view, s.frames, s.roles) && IndexOk(view, s.frames, index) && h in s.frames && h in view
    requires |view[h].data| == 3
    requires h in s.roles && s.roles[h] == Holder && BaseBuilt(view, s.roles, spine)
    requires view' == Wrote(view, h, 2, spine[0])
    ensures FramesOk(view', StampedEnv(s, h, spine).frames, StampedEnv(s, h, spine).roles)
    ensures IndexOk(view', StampedEnv(s, h, spine).frames, index)
  {
    ExtendsKeeps(view, view', s.roles, {h});
    StampFrames(view, view', s, h, spine);
    StampIndex(view, view', s, StampedEnv(s, h, spine), index, h);
  }

  lemma StampBinds(view: View, view': View, s: Env, h: u64, spine: seq<u64>)
    requires FramesOk(view, s.frames, s.roles) && h in s.frames && h in s.roles && s.roles[h] == Holder
    requires |spine| == ROUTES && Extends(view, view', {h})
    ensures BindingsStand(view, s, view', StampedEnv(s, h, spine))
    ensures OthersStand(view, s, view', StampedEnv(s, h, spine), Elements(spine))
    ensures h !in s.bases ==> Gained(s, StampedEnv(s, h, spine), h, spine)
  {
    var s' := StampedEnv(s, h, spine);
    assert h !in s.bases ==> forall g :: g in s.bases ==> SpineStands(s, s', g);
    BindingsKept(view, view', s, {h});
    forall g, other | g in s.frames ensures Binds(view', s', g, other) == Binds(view, s, g, other) {
      assert s'.frames[g].pairs == s.frames[g].pairs;
      assert Binds(view', s, g, other) == Binds(view, s, g, other);
    }
  }

  lemma StampFrames(view: View, view': View, s: Env, h: u64, spine: seq<u64>)
    requires FramesOk(view, s.frames, s.roles) && h in s.frames && h in view && |view[h].data| == 3 && h in s.roles
    requires s.roles[h] == Holder
    requires BaseBuilt(view, s.roles, spine) && view' == Wrote(view, h, 2, spine[0])
    ensures FramesOk(view', StampedEnv(s, h, spine).frames, StampedEnv(s, h, spine).roles)
  {
    var s' := StampedEnv(s, h, spine);
    ExtendsKeeps(view, view', s.roles, {h});
    assert EachFrameOk(view', s'.frames) by {
      forall g | g in s'.frames ensures FrameOk(view', g, s'.frames[g]) {
        FrameKept(view, view', s.frames, s.roles, {h}, g);
        assert FrameOk(view, g, s.frames[g]);
        if g == h { Rebased(view', s.frames[h], spine[0]); }
      }
    }
    ParentsKept(s.frames, h, s'.frames[h]);
    StampRoles(view, s, h, spine);
  }

  lemma Rebased(view: View, f: Frame, base: u64)
    requires |f.cells| == |f.pairs| && forall i :: 0 <= i < |f.cells| ==> LinkOk(view, f, i)
    ensures forall i :: 0 <= i < |f.cells| ==> LinkOk(view, f.(base := base), i)
  {
    forall i | 0 <= i < |f.cells| ensures LinkOk(view, f.(base := base), i) { assert LinkOk(view, f, i); }
  }

  lemma StampRoles(view: View, s: Env, h: u64, spine: seq<u64>)
    requires RolesOk(s.frames, s.roles) && h in s.frames && BaseBuilt(view, s.roles, spine)
    ensures RolesOk(StampedEnv(s, h, spine).frames, StampedEnv(s, h, spine).roles)
    ensures StampedEnv(s, h, spine).roles.Keys == s.roles.Keys + Elements(spine) && Elements(spine) <= view.Keys
    ensures forall o :: o in s.roles ==> StampedEnv(s, h, spine).roles[o] == s.roles[o]
  {
    forall c | c in spine ensures c !in s.roles && c in view {
      var i :| 0 <= i < |spine| && spine[i] == c;
      assert CellBuilt(view, s.roles, spine, i);
    }
    var frames' := StampedEnv(s, h, spine).frames;
    forall g | g in s.frames ensures frames'[g].cells == s.frames[g].cells && frames'[g].pairs == s.frames[g].pairs {}
  }

  lemma StampIndex(view: View, view': View, s: Env, s': Env, index: map<u64, map<u64, u64>>, h: u64)
    requires FramesOk(view, s.frames, s.roles) && IndexOk(view, s.frames, index) && RolesKept(view, view', s.roles, {h})
    requires h in s.roles && s.roles[h] == Holder
    requires s'.frames.Keys == s.frames.Keys && forall g :: g in s.frames ==> s'.frames[g].pairs == s.frames[g].pairs
    ensures IndexOk(view', s'.frames, index)
  {
    forall g | g in index ensures g in s'.frames && index[g] == MapOf(view', s'.frames[g].pairs) {
      FrameKept(view, view', s.frames, s.roles, {h}, g);
      MapKept(view, view', s.frames[g].pairs);
    }
  }

  lemma StampGlobal(view: View, view': View, s: Env, h: u64, spine: seq<u64>)
    requires FramesOk(view, s.frames, s.roles) && GlobalOk(view, s, {}) && h !in s.bases
    requires h in s.frames && s.frames[h].parent == 0 && h in view && |view[h].data| == 3
    requires h in s.roles && s.roles[h] == Holder && BaseBuilt(view, s.roles, spine)
    requires view' == Wrote(view, h, 2, spine[0])
    ensures GlobalOk(view', StampedEnv(s, h, spine), Elements(s.frames[h].pairs))
  {
    var s', missing := StampedEnv(s, h, spine), Elements(s.frames[h].pairs);
    StampBase(view, view', s, h, spine);
    ExtendsKeeps(view, view', s.roles, {h});
    StampRoles(view, s, h, spine);
    forall g | g in s.bases ensures BaseOk(view', s', g, missing) {
      assert BaseOk(view, s, g, {});
      BaseKept(view, view', s, s', g, {}, missing, {h});
    }
  }

  lemma StampBase(view: View, view': View, s: Env, h: u64, spine: seq<u64>)
    requires h in s.frames && s.frames[h].parent == 0 && h in view && |view[h].data| == 3
    requires h in s.roles && BaseBuilt(view, s.roles, spine) && view' == Wrote(view, h, 2, spine[0])
    ensures BaseOk(view', StampedEnv(s, h, spine), h, Elements(s.frames[h].pairs))
  {
    var s' := StampedEnv(s, h, spine);
    forall i | 0 <= i < |spine| ensures SpineCellOk(view', s'.roles, h, spine, i) {
      assert CellBuilt(view, s.roles, spine, i);
      assert spine[i] in spine && spine[i] != h;
    }
    assert CellBuilt(view, s.roles, spine, TREE_ROUTE);
    assert Mirrors(s'.frames[h].pairs, Leaf, Elements(s.frames[h].pairs));
  }

  // ----- collections ------------------------------------------------------------------------------

  function AliveEnv(s: Env, view: View): Env {
    Env(Alive(s.frames, view), Alive(s.roles, view), Alive(s.bases, view))
  }

  /** The surviving frames bind what they bound. */
  ghost predicate Collected(view: View, s: Env, view': View, s': Env) {
    && (forall h :: h in s'.bases <==> h in s.bases && h in view')
    && (forall h :: h in s'.bases ==> s'.bases[h] == s.bases[h])
    && (forall h :: h in s'.frames <==> h in s.frames && h in view')
    && (forall h :: h in s'.frames ==> s'.frames[h] == s.frames[h])
    && (forall h, name :: h in s'.frames ==> Binds(view', s', h, name) == Binds(view, s, h, name))
  }

  /** A collection keeps the index and the trees of the surviving roots honest. */
  lemma CollectStep(view: View, view': View, s: Env, index: map<u64, map<u64, u64>>)
    requires Sound(view, s, index, {}) && ClosedPart(view, view')
    ensures Sound(view', AliveEnv(s, view'), Alive(index, view'), {})
  {
    FramesSurvive(view, view', s.frames, s.roles, index);
    GlobalSurvives(view, view', s);
  }

  lemma CollectBinds(view: View, view': View, s: Env)
    requires FramesOk(view, s.frames, s.roles) && ClosedPart(view, view')
    ensures Collected(view, s, view', AliveEnv(s, view'))
  {
    var s' := AliveEnv(s, view');
    forall h, name | h in s'.frames ensures Binds(view', s', h, name) == Binds(view, s, h, name) {
      BindingsSurvive(view, view', s.frames, s.roles, h, name);
    }
    assert forall h :: h in s.frames ==> FrameOk(view, h, s.frames[h]);
  }

  /** A root frame that survives keeps its base: its holder refers to it. */
  lemma GlobalSurvives(view: View, view': View, s: Env)
    requires FramesOk(view, s.frames, s.roles) && GlobalOk(view, s, {}) && ClosedPart(view, view')
    ensures GlobalOk(view', AliveEnv(s, view'), {})
  {
    var s' := AliveEnv(s, view');
    forall h | h in s'.bases ensures BaseOk(view', s', h, {}) {
      assert BaseOk(view, s, h, {}) && FrameOk(view, h, s.frames[h]);
      BaseSurvives(view, view', s, h);
    }
  }

  lemma BaseSurvives(view: View, view': View, s: Env, h: u64)
    requires h in s.bases && BaseOk(view, s, h, {}) && ClosedPart(view, view')
    requires FrameOk(view, h, s.frames[h]) && h in view'
    ensures BaseOk(view', AliveEnv(s, view'), h, {})
  {
    var b, roles' := s.bases[h], Alive(s.roles, view');
    assert view'[h].data[2] == b.spine[0];
    assert SpineCellOk(view, s.roles, h, b.spine, 0);
    SpineSurvives(view, view', s.roles, h, b, |b.spine|);
    assert b.spine[TREE_ROUTE] in view' && view'[b.spine[TREE_ROUTE]].data[0] == Ptr(b.tree) by {
      assert SpineCellOk(view', roles', h, b.spine, TREE_ROUTE) && SpineCellOk(view, s.roles, h, b.spine, TREE_ROUTE);
    }
    TreeSurvives(view, view', s.roles, h, b.tree);
  }

  lemma {:induction false} SpineSurvives(view: View, view': View, roles: map<u64, Role>, h: u64, b: Base, n: nat)
    requires SpineOk(view, roles, h, b) && ClosedPart(view, view') && b.spine[0] in view' && n <= |b.spine|
    ensures forall i :: 0 <= i < n ==> SpineCellOk(view', Alive(roles, view'), h, b.spine, i)
    decreases n
  {
    if n > 0 {
      SpineSurvives(view, view', roles, h, b, n - 1);
      assert SpineCellOk(view, roles, h, b.spine, n - 1);
      if n > 1 {
        assert SpineCellOk(view', Alive(roles, view'), h, b.spine, n - 2);
        assert view'[b.spine[n - 2]].data[1] == b.spine[n - 1];
      }
    }
  }
}
