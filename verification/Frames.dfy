/** What an environment frame and the global tree are, over the live objects.

A frame is a holder `(chain parent base)`; the chain links cells, each naming a
`(symbol . value)` pair. The index of a large frame and the base's global
tree are views of the same pairs. These are the invariants that tie them, with the
lemmas saying which heap changes keep them. */
module Frames {
  import opened Options
  import opened Layout
  import opened Heap
  import opened Cells

  /** A frame as the chain shows it, newest binding first. `rank` orders frames by
      when they were made; a parent is older. */
  datatype Frame = Frame(cells: seq<u64>, pairs: seq<u64>, parent: u64, base: u64, rank: nat)

  /** What an object is to the environment code; an object has one role. A base's cells
      belong to its root frame. */
  datatype Role =
    | Holder | CellOf(holder: u64) | PairOf(holder: u64)
    | TreeNode | TreeKids(root: u64, key: u64) | SpineCell(root: u64)

  predicate IsSpair(view: View, o: u64) { o in view && view[o].kind == SPAIR && |view[o].data| == 2 }

  function Name(view: View, p: u64): u64 { if IsSpair(view, p) then view[p].data[0] else 0 }

  function Value(view: View, p: u64): u64 { if IsSpair(view, p) then view[p].data[1] else 0 }

  function HeadOf(s: seq<u64>): u64 { if s == [] then 0 else s[0] }

  ghost predicate FrameOk(view: View, h: u64, f: Frame) {
    && h in view && view[h] == ObjView(ENVH, [HeadOf(f.cells), f.parent, f.base])
    && |f.cells| == |f.pairs|
    && (forall i :: 0 <= i < |f.cells| ==> LinkOk(view, f, i))
    && (forall i :: 0 <= i < |f.pairs| ==> IsSpair(view, f.pairs[i]))
    && NamesDistinct(view, f.pairs)
  }

  /** Cell `i` of a chain names its binding and the next cell. */
  ghost predicate LinkOk(view: View, f: Frame, i: nat)
    requires i < |f.cells| && |f.cells| == |f.pairs|
  {
    f.cells[i] in view && view[f.cells[i]] == ObjView(SPAIR, [f.pairs[i], After(f.cells, i)])
  }

  /** No name is bound twice in a frame. */
  predicate NamesDistinct(view: View, pairs: seq<u64>) {
    forall i, j :: 0 <= i < j < |pairs| ==> Name(view, pairs[i]) != Name(view, pairs[j])
  }

  ghost predicate RolesOk(frames: map<u64, Frame>, roles: map<u64, Role>) {
    forall h :: h in frames ==>
      && h in roles && roles[h] == Holder
      && (forall i :: 0 <= i < |frames[h].cells| ==>
        frames[h].cells[i] in roles && roles[frames[h].cells[i]] == CellOf(h))
      && (forall i :: 0 <= i < |frames[h].pairs| ==>
        frames[h].pairs[i] in roles && roles[frames[h].pairs[i]] == PairOf(h))
      && Distinct(frames[h].cells)
  }

  ghost predicate ParentsOk(frames: map<u64, Frame>) {
    forall h {:trigger ParentOk(frames, h)} :: h in frames ==> ParentOk(frames, h)
  }

  ghost predicate ParentOk(frames: map<u64, Frame>, h: u64)
    requires h in frames
  {
    var up := frames[h].parent;
    up != 0 ==> up in frames && frames[up].rank < frames[h].rank
  }

  ghost predicate EachFrameOk(view: View, frames: map<u64, Frame>) {
    forall h {:trigger FrameOk(view, h, frames[h])} :: h in frames ==> FrameOk(view, h, frames[h])
  }

  ghost predicate FramesOk(view: View, frames: map<u64, Frame>, roles: map<u64, Role>) {
    && roles.Keys <= view.Keys && 0 !in view
    && EachFrameOk(view, frames)
    && RolesOk(frames, roles)
    && ParentsOk(frames)
  }

  // ----- the chain is the truth ---------------------------------------------------------

  /** The first cell of a chain binding `name`: what a scan finds. */
  function Scan(view: View, pairs: seq<u64>, name: u64): Option<u64> {
    if pairs == [] then None
    else if Name(view, pairs[0]) == name then Some(pairs[0])
    else Scan(view, pairs[1..], name)
  }

  /** What a frame binds `name` to, by its chain alone. */
  ghost function Bound(view: View, frames: map<u64, Frame>, h: u64, name: u64): Option<u64>
    requires h in frames
  {
    match Scan(view, frames[h].pairs, name)
    case None => None
    case Some(p) => Some(Value(view, p))
  }

  /** The innermost frame binding `name`, walking out through the parents by the
      chains alone. */
  ghost function HomeOf(view: View, frames: map<u64, Frame>, h: u64, name: u64): Option<u64>
    requires h in frames && ParentsOk(frames)
    decreases frames[h].rank
  {
    assert ParentOk(frames, h);
    if Scan(view, frames[h].pairs, name).Some? then Some(h)
    else if frames[h].parent == 0 then None
    else HomeOf(view, frames, frames[h].parent, name)
  }

  /** A chain walk out through the parents. */
  ghost function ChainLookup(view: View, frames: map<u64, Frame>, h: u64, name: u64): Option<u64>
    requires h in frames && ParentsOk(frames)
    decreases frames[h].rank
  {
    assert ParentOk(frames, h);
    match Bound(view, frames, h, name)
    case Some(v) => Some(v)
    case None => if frames[h].parent == 0 then None else ChainLookup(view, frames, frames[h].parent, name)
  }

  /** The frame `i` parents out from `h`, if there are so many. */
  ghost function Ancestor(frames: map<u64, Frame>, h: u64, i: nat): (r: Option<u64>)
    ensures r.Some? ==> r.value in frames
    decreases i
  {
    if i == 0 then if h in frames then Some(h) else None
    else
      var g := Ancestor(frames, h, i - 1);
      if g.Some? && frames[g.value].parent in frames && frames[g.value].parent != 0
      then Some(frames[g.value].parent) else None
  }

  /** Does the frame `i` parents out bind `name`? */
  ghost predicate BoundAt(view: View, frames: map<u64, Frame>, h: u64, name: u64, i: nat) {
    Ancestor(frames, h, i).Some? && Bound(view, frames, Ancestor(frames, h, i).value, name).Some?
  }

  /** It does, and no nearer one does. */
  ghost predicate FirstAt(view: View, frames: map<u64, Frame>, h: u64, name: u64, i: nat) {
    BoundAt(view, frames, h, name, i) && forall j :: 0 <= j < i ==> !BoundAt(view, frames, h, name, j)
  }

  /** What `name` means from `h`: what the nearest frame out from it that binds it says. */
  ghost predicate Means(view: View, frames: map<u64, Frame>, h: u64, name: u64, r: Option<u64>) {
    if r.Some? then
      exists i: nat :: FirstAt(view, frames, h, name, i) && r == Bound(view, frames, Ancestor(frames, h, i).value, name)
    else forall i: nat :: !BoundAt(view, frames, h, name, i)
  }

  lemma {:induction false} AncestorOut(frames: map<u64, Frame>, h: u64, i: nat)
    requires h in frames && frames[h].parent in frames && frames[h].parent != 0
    ensures Ancestor(frames, h, i + 1) == Ancestor(frames, frames[h].parent, i)
    decreases i
  {
    if i > 0 { AncestorOut(frames, h, i - 1); } else { assert Ancestor(frames, h, 0) == Some(h); }
  }

  lemma {:induction false} NoneOut(frames: map<u64, Frame>, h: u64, i: nat)
    requires h in frames && frames[h].parent == 0 && i > 0
    ensures Ancestor(frames, h, i).None?
    decreases i
  {
    if i > 1 { NoneOut(frames, h, i - 1); } else { assert Ancestor(frames, h, 0) == Some(h); }
  }

  /** THE WALK OUT FINDS THE NEAREST BINDING, and says none exactly when there is none. */
  lemma {:induction false} WalkIsNearest(view: View, frames: map<u64, Frame>, h: u64, name: u64) returns (i: nat)
    requires h in frames && ParentsOk(frames)
    ensures HomeOf(view, frames, h, name).Some? <==> ChainLookup(view, frames, h, name).Some?
    ensures HomeOf(view, frames, h, name).Some? ==>
              && FirstAt(view, frames, h, name, i) && HomeOf(view, frames, h, name) == Ancestor(frames, h, i)
              && ChainLookup(view, frames, h, name) == Bound(view, frames, Ancestor(frames, h, i).value, name)
    ensures HomeOf(view, frames, h, name).None? ==> forall j: nat :: !BoundAt(view, frames, h, name, j)
    decreases frames[h].rank
  {
    assert ParentOk(frames, h) && Ancestor(frames, h, 0) == Some(h);
    i := 0;
    if Bound(view, frames, h, name).None? {
      var up := frames[h].parent;
      if up == 0 {
        forall j: nat ensures !BoundAt(view, frames, h, name, j) { if j > 0 { NoneOut(frames, h, j); } }
      } else {
        i := WalkIsNearest(view, frames, up, name);
        AncestorOut(frames, h, i);
        forall j: nat
          ensures j > 0 ==> (BoundAt(view, frames, h, name, j) <==> BoundAt(view, frames, up, name, j - 1))
        {
          if j > 0 { AncestorOut(frames, h, j - 1); }
        }
        i := i + 1;
      }
    }
  }

  lemma LookupMeans(view: View, frames: map<u64, Frame>, h: u64, name: u64)
    requires h in frames && ParentsOk(frames)
    ensures Means(view, frames, h, name, ChainLookup(view, frames, h, name))
  {
    var i := WalkIsNearest(view, frames, h, name);
  }

  /** A name has one meaning from a frame. */
  lemma MeansOnce(view: View, frames: map<u64, Frame>, h: u64, name: u64, r: Option<u64>, r': Option<u64>)
    requires Means(view, frames, h, name, r) && Means(view, frames, h, name, r')
    ensures r == r'
  {
    if r.Some? && r'.Some? {
      var i: nat :| FirstAt(view, frames, h, name, i) && r == Bound(view, frames, Ancestor(frames, h, i).value, name);
      var j: nat :| FirstAt(view, frames, h, name, j) && r' == Bound(view, frames, Ancestor(frames, h, j).value, name);
      assert BoundAt(view, frames, h, name, i) && BoundAt(view, frames, h, name, j);
    }
  }

  lemma {:induction false} ScanMember(view: View, pairs: seq<u64>, name: u64)
    ensures Scan(view, pairs, name).Some? ==>
        Scan(view, pairs, name).value in pairs && Name(view, Scan(view, pairs, name).value) == name
    ensures Scan(view, pairs, name).None? ==> forall i :: 0 <= i < |pairs| ==> Name(view, pairs[i]) != name
    decreases |pairs|
  {
    if pairs != [] { ScanMember(view, pairs[1..], name); }
  }

  /** A scan reads only names. */
  lemma {:induction false} ScanKept(view: View, view': View, pairs: seq<u64>, name: u64)
    requires forall i :: 0 <= i < |pairs| ==> Name(view', pairs[i]) == Name(view, pairs[i])
    ensures Scan(view', pairs, name) == Scan(view, pairs, name)
    decreases |pairs|
  {
    if pairs != [] { ScanKept(view, view', pairs[1..], name); }
  }

  // ----- the shadow index ------------------------------------------------------------------

  /** The name-to-cell map of a chain: the newest cell of a name wins. */
  function MapOf(view: View, pairs: seq<u64>): map<u64, u64> {
    if pairs == [] then map[] else MapOf(view, pairs[1..])[Name(view, pairs[0]) := pairs[0]]
  }

  lemma {:induction false} MapIsScan(view: View, pairs: seq<u64>, name: u64)
    ensures Scan(view, pairs, name) == if name in MapOf(view, pairs) then Some(MapOf(view, pairs)[name]) else None
    decreases |pairs|
  {
    if pairs != [] { MapIsScan(view, pairs[1..], name); }
  }

  lemma {:induction false} MapKept(view: View, view': View, pairs: seq<u64>)
    requires forall i :: 0 <= i < |pairs| ==> Name(view', pairs[i]) == Name(view, pairs[i])
    ensures MapOf(view', pairs) == MapOf(view, pairs)
    decreases |pairs|
  {
    if pairs != [] { MapKept(view, view', pairs[1..]); }
  }

  ghost predicate IndexOk(view: View, frames: map<u64, Frame>, index: map<u64, map<u64, u64>>) {
    forall h :: h in index ==> h in frames && index[h] == MapOf(view, frames[h].pairs)
  }

  // ----- which changes keep frames ------------------------------------------------------------

  /** `view'` shows every object with a role, those in `off` apart, as `view` did but
      for the values of bindings. */
  ghost predicate RolesKept(view: View, view': View, roles: map<u64, Role>, off: set<u64>) {
    forall o :: o in roles && o !in off ==>
      && o in view && o in view'
      && (view'[o] == view[o] || (roles[o].PairOf? && IsSpair(view, o) && IsSpair(view', o) &&
        Name(view', o) == Name(view, o)))
  }

  /** Every object of `view`, those in `off` apart, is in `view'` unchanged. */
  ghost predicate Extends(view: View, view': View, off: set<u64>) {
    view.Keys <= view'.Keys && 0 !in view' && forall o :: o in view && o !in off ==> view'[o] == view[o]
  }

  lemma ExtendsKeeps(view: View, view': View, roles: map<u64, Role>, off: set<u64>)
    requires Extends(view, view', off) && roles.Keys <= view.Keys
    ensures RolesKept(view, view', roles, off)
  {
    forall o | o in roles && o !in off ensures o in view && o in view' && view'[o] == view[o] {
      assert o in roles.Keys;
    }
  }

  ghost predicate NamesKept(view: View, view': View, pairs: seq<u64>) {
    forall i :: 0 <= i < |pairs| ==> Name(view', pairs[i]) == Name(view, pairs[i])
  }

  lemma FrameKept(view: View, view': View, frames: map<u64, Frame>, roles: map<u64, Role>, off: set<u64>, h: u64)
    requires FramesOk(view, frames, roles) && RolesKept(view, view', roles, off) && h in frames
    requires forall o :: o in off && o in roles ==> !roles[o].CellOf? && !roles[o].PairOf?
    ensures h !in off ==> FrameOk(view', h, frames[h])
    ensures NamesKept(view, view', frames[h].pairs)
    ensures forall i :: 0 <= i < |frames[h].pairs| ==> IsSpair(view', frames[h].pairs[i])
    ensures |frames[h].cells| == |frames[h].pairs| && forall i :: 0 <= i < |frames[h].cells| ==>
        LinkOk(view', frames[h], i)
  {
    var f := frames[h];
    assert FrameOk(view, h, f);
    forall i | 0 <= i < |f.pairs|
      ensures IsSpair(view', f.pairs[i]) && Name(view', f.pairs[i]) == Name(view, f.pairs[i])
    {
      assert f.pairs[i] in roles;
    }
    forall i | 0 <= i < |f.cells| ensures LinkOk(view', f, i) {
      assert LinkOk(view, f, i) && f.cells[i] in roles && roles[f.cells[i]] == CellOf(h);
    }
  }

  lemma FramesKept(view: View, view': View, frames: map<u64, Frame>, roles: map<u64, Role>,
                   index: map<u64, map<u64, u64>>, off: set<u64>)
    requires FramesOk(view, frames, roles) && IndexOk(view, frames, index)
    requires RolesKept(view, view', roles, off) && 0 !in view' && view.Keys <= view'.Keys
    requires forall o :: o in off && o in roles ==> roles[o].TreeKids? || roles[o].SpineCell?
    ensures FramesOk(view', frames, roles) && IndexOk(view', frames, index)
  {
    forall h | h in frames
      ensures FrameOk(view', h, frames[h]) && MapOf(view', frames[h].pairs) == MapOf(view, frames[h].pairs) {
      assert h in roles && roles[h] == Holder;
      FrameKept(view, view', frames, roles, off, h);
      MapKept(view, view', frames[h].pairs);
    }
  }

  /** Writing a binding's value keeps every frame. */
  lemma ValueWritten(view: View, frames: map<u64, Frame>, roles: map<u64, Role>, h: u64, name: u64, p: u64, v: u64)
    requires FramesOk(view, frames, roles)
    requires h in frames && Scan(view, frames[h].pairs, name) == Some(p)
    ensures IsSpair(view, p) && p in roles && roles[p] == PairOf(h) && Name(view, p) == name
    ensures RolesKept(view, view[p := With(view[p], 1, v)], roles, {})
  {
    ScanMember(view, frames[h].pairs, name);
    var i :| 0 <= i < |frames[h].pairs| && frames[h].pairs[i] == p;
    assert FrameOk(view, h, frames[h]);
  }

  /** The written value is what its frame now binds that name to, and no other
      binding of any frame changed. */
  lemma WrittenBinds(view: View, frames: map<u64, Frame>, roles: map<u64, Role>, h: u64, name: u64, p: u64, v: u64,
                     g: u64, other: u64)
    requires FramesOk(view, frames, roles) && g in frames
    requires h in frames && Scan(view, frames[h].pairs, name) == Some(p) && IsSpair(view, p)
    ensures Scan(view[p := With(view[p], 1, v)], frames[g].pairs, other) == Scan(view, frames[g].pairs, other)
    ensures Bound(view[p := With(view[p], 1, v)], frames, g, other) == if g == h && other == name then Some(v)
        else Bound(view, frames, g, other)
  {
    var view' := view[p := With(view[p], 1, v)];
    ValueWritten(view, frames, roles, h, name, p, v);
    FrameKept(view, view', frames, roles, {}, g);
    ScanKept(view, view', frames[g].pairs, other);
    ScanMember(view, frames[g].pairs, other);
    var q := Scan(view, frames[g].pairs, other);
    if q.Some? && q.value == p {
      var j :| 0 <= j < |frames[g].pairs| && frames[g].pairs[j] == p;
      assert roles[p] == PairOf(g);
    }
  }

  // ----- a new binding, a new frame -------------------------------------------------------------

  function Prepend(f: Frame, cell: u64, pair: u64): Frame { f.(cells := [cell] + f.cells, pairs := [pair] + f.pairs) }

  ghost predicate Fresh(view: View, o: u64) { o != 0 && o !in view }

  /** `view'` is `view` with `(name . value)` consed on the chain of `h`. */
  ghost predicate Consed(view: View, view': View, roles: map<u64, Role>, h: u64, f: Frame, name: u64, value: u64,
                         pair: u64, cell: u64) {
    && Extends(view, view', {h})
    && Fresh(view, pair) && Fresh(view, cell) && pair != cell
    && h in view' && view'[h] == ObjView(ENVH, [cell, f.parent, f.base])
    && pair in view' && view'[pair] == ObjView(SPAIR, [name, value])
    && cell in view' && view'[cell] == ObjView(SPAIR, [pair, HeadOf(f.cells)])
  }

  lemma ConsedCells(view: View, view': View, frames: map<u64, Frame>, roles: map<u64, Role>, h: u64, name: u64,
                    value: u64, pair: u64, cell: u64)
    requires FramesOk(view, frames, roles) && h in frames && h in roles && roles[h] == Holder
    requires Consed(view, view', roles, h, frames[h], name, value, pair, cell)
    ensures var f' := Prepend(frames[h], cell, pair);
            && |f'.cells| == |f'.pairs| && (forall i :: 0 <= i < |f'.cells| ==> LinkOk(view', f', i))
            && (forall i :: 0 <= i < |f'.pairs| ==> IsSpair(view', f'.pairs[i]))
  {
    var f, f' := frames[h], Prepend(frames[h], cell, pair);
    ExtendsKeeps(view, view', roles, {h});
    FrameKept(view, view', frames, roles, {h}, h);
    assert FrameOk(view, h, f);
    forall i | 0 <= i < |f'.cells| ensures LinkOk(view', f', i) {
      if i > 0 { assert LinkOk(view', f, i - 1) && After(f'.cells, i) == After(f.cells, i - 1); }
    }
  }

  /** A name a scan misses can be added. */
  lemma NamesGrow(view: View, view': View, pairs: seq<u64>, name: u64, pair: u64)
    requires NamesDistinct(view, pairs) && NamesKept(view, view', pairs)
    requires Scan(view, pairs, name).None? && Name(view', pair) == name
    ensures NamesDistinct(view', [pair] + pairs)
  {
    var ps := [pair] + pairs;
    ScanMember(view, pairs, name);
    forall i, j | 0 <= i < j < |ps| ensures Name(view', ps[i]) != Name(view', ps[j]) {
      assert ps[j] == pairs[j - 1];
      if i > 0 { assert ps[i] == pairs[i - 1]; }
    }
  }

  /** A new binding keeps every frame. */
  lemma ConsedFrames(view: View, view': View, frames: map<u64, Frame>, roles: map<u64, Role>, h: u64, name: u64,
                     value: u64, pair: u64, cell: u64)
    requires FramesOk(view, frames, roles) && h in frames && h in roles && roles[h] == Holder
    requires Consed(view, view', roles, h, frames[h], name, value, pair, cell)
    requires Scan(view, frames[h].pairs, name).None?
    ensures FramesOk(view', frames[h := Prepend(frames[h], cell, pair)], roles[pair := PairOf(h)][cell := CellOf(h)])
  {
    ExtendsKeeps(view, view', roles, {h});
    var f' := Prepend(frames[h], cell, pair);
    var frames', roles' := frames[h := f'], roles[pair := PairOf(h)][cell := CellOf(h)];
    assert FrameOk(view', h, f') by {
      assert FrameOk(view, h, frames[h]);
      ConsedCells(view, view', frames, roles, h, name, value, pair, cell);
      FrameKept(view, view', frames, roles, {h}, h);
      NamesGrow(view, view', frames[h].pairs, name, pair);
    }
    assert EachFrameOk(view', frames') by {
      forall g | g in frames' ensures FrameOk(view', g, frames'[g]) {
        if g != h { FrameKept(view, view', frames, roles, {h}, g); }
      }
    }
    ConsedRoles(frames, roles, view, h, pair, cell);
    ParentsKept(frames, h, f');
  }

  lemma ParentsKept(frames: map<u64, Frame>, h: u64, f: Frame)
    requires ParentsOk(frames)
    requires if h in frames then f.parent == frames[h].parent && f.rank == frames[h].rank
        else f.parent != 0 ==> f.parent in frames && frames[f.parent].rank < f.rank
    ensures ParentsOk(frames[h := f])
  {
    var frames' := frames[h := f];
    forall g | g in frames' ensures ParentOk(frames', g) {
      if g != h || h in frames { assert ParentOk(frames, g); }
    }
  }

  lemma ConsedRoles(frames: map<u64, Frame>, roles: map<u64, Role>, view: View, h: u64, pair: u64, cell: u64)
    requires RolesOk(frames, roles) && roles.Keys <= view.Keys && h in frames && pair !in view && cell !in view
    requires pair != cell
    ensures RolesOk(frames[h := Prepend(frames[h], cell, pair)], roles[pair := PairOf(h)][cell := CellOf(h)])
  {
    var frames', roles' := frames[h := Prepend(frames[h], cell, pair)], roles[pair := PairOf(h)][cell := CellOf(h)];
    forall g | g in frames'
      ensures g in roles' && roles'[g] == Holder
      ensures forall i :: 0 <= i < |frames'[g].cells| ==>
          frames'[g].cells[i] in roles' && roles'[frames'[g].cells[i]] == CellOf(g)
      ensures forall i :: 0 <= i < |frames'[g].pairs| ==>
          frames'[g].pairs[i] in roles' && roles'[frames'[g].pairs[i]] == PairOf(g)
      ensures Distinct(frames'[g].cells)
    {
      var f := frames[g];
      assert forall i :: 0 <= i < |f.cells| ==> f.cells[i] in view;
      assert forall i :: 0 <= i < |f.pairs| ==> f.pairs[i] in view;
      if g == h {
        assert forall i :: 1 <= i < |frames'[g].cells| ==> frames'[g].cells[i] == f.cells[i - 1];
        assert forall i :: 1 <= i < |frames'[g].pairs| ==> frames'[g].pairs[i] == f.pairs[i - 1];
      }
    }
  }

  /** The new binding is its name's value in that frame; every other binding stands. */
  lemma ConsedBinds(view: View, view': View, frames: map<u64, Frame>, roles: map<u64, Role>, h: u64, name: u64,
                    value: u64, pair: u64, cell: u64, g: u64, other: u64)
    requires FramesOk(view, frames, roles) && h in frames && h in roles && roles[h] == Holder && g in frames
    requires Consed(view, view', roles, h, frames[h], name, value, pair, cell)
    requires Scan(view, frames[h].pairs, name).None?
    ensures Bound(view', frames[h := Prepend(frames[h], cell, pair)], g, other)
         == if g == h && other == name then Some(value) else Bound(view, frames, g, other)
  {
    var pairs := frames[g].pairs;
    ExtendsKeeps(view, view', roles, {h});
    FrameKept(view, view', frames, roles, {h}, g);
    ScanKept(view, view', pairs, other);
    ScanMember(view, pairs, other);
    var q := Scan(view, pairs, other);
    if q.Some? {
      var j :| 0 <= j < |pairs| && pairs[j] == q.value;
      assert q.value in roles && roles[q.value] == PairOf(g);
    }
    if g == h { assert ([pair] + pairs)[1..] == pairs; }
  }

  lemma HolderRole(frames: map<u64, Frame>, roles: map<u64, Role>, h: u64, f: Frame)
    requires RolesOk(frames, roles) && h !in roles && f.cells == [] && f.pairs == []
    ensures RolesOk(frames[h := f], roles[h := Holder])
  {
    var frames', roles' := frames[h := f], roles[h := Holder];
    forall g | g in frames'
      ensures g in roles' && roles'[g] == Holder
      ensures forall i :: 0 <= i < |frames'[g].cells| ==>
          frames'[g].cells[i] in roles' && roles'[frames'[g].cells[i]] == CellOf(g)
      ensures forall i :: 0 <= i < |frames'[g].pairs| ==>
          frames'[g].pairs[i] in roles' && roles'[frames'[g].pairs[i]] == PairOf(g)
      ensures Distinct(frames'[g].cells)
    {
      if g != h { assert frames'[g] == frames[g]; }
    }
  }

  /** A fresh frame under `parent` disturbs nothing. */
  lemma FramePushed(view: View, view': View, frames: map<u64, Frame>, roles: map<u64, Role>,
                    index: map<u64, map<u64, u64>>, h: u64, f: Frame)
    requires FramesOk(view, frames, roles) && IndexOk(view, frames, index) && Fresh(view, h)
    requires f.cells == [] && f.pairs == [] && (f.parent != 0 ==> f.parent in frames && frames[f.parent].rank < f.rank)
    requires view' == view[h := ObjView(ENVH, [0, f.parent, f.base])]
    ensures RolesKept(view, view', roles, {})
    ensures FramesOk(view', frames[h := f], roles[h := Holder])
    ensures IndexOk(view', frames[h := f], index)
  {
    HolderPushed(view, view', frames, roles, h, f);
    FramesKept(view, view', frames, roles, index, {});
    ParentsKept(frames, h, f);
    HolderRole(frames, roles, h, f);
  }

  lemma HolderPushed(view: View, view': View, frames: map<u64, Frame>, roles: map<u64, Role>, h: u64, f: Frame)
    requires FramesOk(view, frames, roles) && Fresh(view, h)
    requires f.cells == [] && f.pairs == []
    requires view' == view[h := ObjView(ENVH, [0, f.parent, f.base])]
    ensures h !in frames && h !in roles && 0 !in view' && view.Keys <= view'.Keys
    ensures RolesKept(view, view', roles, {})
    ensures FrameOk(view', h, f)
    ensures EachFrameOk(view', frames) ==> EachFrameOk(view', frames[h := f])
  {
    assert h !in view && roles.Keys <= view.Keys;
    assert h in frames ==> h in roles;
  }

  // ----- collections ----------------------------------------------------------------------------

  function Alive<T>(m: map<u64, T>, view: View): map<u64, T> { map h | h in m && h in view :: m[h] }

  /** A surviving holder keeps its whole chain. */
  lemma {:induction false} ChainSurvives(view: View, view': View, h: u64, f: Frame, n: nat)
    requires FrameOk(view, h, f) && ClosedPart(view, view') && h in view' && n <= |f.cells|
    ensures forall i :: 0 <= i < n ==> f.cells[i] in view' && f.pairs[i] in view'
    decreases n
  {
    if n > 0 {
      ChainSurvives(view, view', h, f, n - 1);
      var c := f.cells[n - 1];
      if n == 1 {
        assert view'[h].data[0] == c && LinkOk(view, f, 0);
      } else {
        assert LinkOk(view, f, n - 2) && LinkOk(view, f, n - 1);
        assert view'[f.cells[n - 2]].data[1] == c;
      }
      assert view'[c].data[0] == f.pairs[n - 1];
    }
  }

  lemma FrameSurvives(view: View, view': View, h: u64, f: Frame)
    requires FrameOk(view, h, f) && ClosedPart(view, view') && h in view'
    ensures FrameOk(view', h, f) && NamesKept(view, view', f.pairs)
    ensures forall i :: 0 <= i < |f.cells| ==> f.cells[i] in view' && f.pairs[i] in view'
    ensures forall i :: 0 <= i < |f.pairs| ==> view'[f.pairs[i]] == view[f.pairs[i]]
    ensures f.parent in view ==> f.parent in view'
  {
    ChainSurvives(view, view', h, f, |f.cells|);
    assert view'[h].data[1] == f.parent;
    forall i | 0 <= i < |f.cells| ensures LinkOk(view', f, i) { assert LinkOk(view, f, i); }
  }

  /** The frames whose holders survive a collection are whole, and the index without
      its dead holders is still their cache. */
  lemma FramesSurvive(view: View, view': View, frames: map<u64, Frame>, roles: map<u64, Role>,
                      index: map<u64, map<u64, u64>>)
    requires FramesOk(view, frames, roles) && IndexOk(view, frames, index) && ClosedPart(view, view')
    ensures FramesOk(view', Alive(frames, view'), Alive(roles, view'))
    ensures IndexOk(view', Alive(frames, view'), Alive(index, view'))
  {
    var frames' := Alive(frames, view');
    assert EachFrameOk(view', frames') by {
      forall h | h in frames' ensures FrameOk(view', h, frames'[h]) { FrameSurvives(view, view', h, frames[h]); }
    }
    forall h | h in frames' ensures ParentOk(frames', h) {
      var up := frames[h].parent;
      assert FrameOk(view, h, frames[h]) && ParentOk(frames, h);
      if up != 0 { assert FrameOk(view, up, frames[up]); }
      FrameSurvives(view, view', h, frames[h]);
    }
    RolesSurvive(view, view', frames, roles);
    forall h | h in Alive(index, view') ensures h in frames' && index[h] == MapOf(view', frames[h].pairs) {
      FrameSurvives(view, view', h, frames[h]);
      MapKept(view, view', frames[h].pairs);
    }
  }

  lemma RolesSurvive(view: View, view': View, frames: map<u64, Frame>, roles: map<u64, Role>)
    requires FramesOk(view, frames, roles) && ClosedPart(view, view')
    ensures RolesOk(Alive(frames, view'), Alive(roles, view'))
  {
    forall h | h in frames && h in view'
      ensures forall i :: 0 <= i < |frames[h].cells| ==> frames[h].cells[i] in Alive(roles, view')
      ensures forall i :: 0 <= i < |frames[h].pairs| ==> frames[h].pairs[i] in Alive(roles, view')
    {
      FrameSurvives(view, view', h, frames[h]);
    }
  }

  /** A surviving frame binds what it bound. */
  lemma BindingsSurvive(view: View, view': View, frames: map<u64, Frame>, roles: map<u64, Role>, h: u64, name: u64)
    requires FramesOk(view, frames, roles) && ClosedPart(view, view') && h in frames && h in view'
    ensures Bound(view', Alive(frames, view'), h, name) == Bound(view, frames, h, name)
  {
    FrameSurvives(view, view', h, frames[h]);
    ScanKept(view, view', frames[h].pairs, name);
    ScanMember(view, frames[h].pairs, name);
  }
}
