/** The base's global tree: a binary tree over the root frame's own binding cells,
ordered by symbol address.

A node is `(binding . (left . right))`, three spairs counting the binding. The ghost
`Tree` names its cells and keys; `TreeOk` says the heap holds it. Nothing moves, so a
tree ordered by address stays ordered. */
module GlobalTree {
  import opened Options
  import opened Layout
  import opened Heap
  import opened Cells
  import opened Frames

  datatype Tree = Leaf | Node(node: u64, kids: u64, pair: u64, key: u64, left: Tree, right: Tree)

  function Ptr(t: Tree): u64 { if t.Leaf? then 0 else t.node }

  /** The binding cells the tree holds. */
  function Pairs(t: Tree): set<u64> { if t.Leaf? then {} else {t.pair} + Pairs(t.left) + Pairs(t.right) }

  /** Strictly ordered by key: left below, right above, all within the bounds. */
  predicate Ordered(t: Tree, lo: int, hi: int) {
    t.Leaf? || (lo < t.key < hi && Ordered(t.left, lo, t.key) && Ordered(t.right, t.key, hi))
  }

  /** Descend by key. */
  function Find(t: Tree, key: u64): Option<u64> {
    if t.Leaf? then None
    else if t.key == key then Some(t.pair)
    else Find(if key < t.key then t.left else t.right, key)
  }

  /** Where the descent for an absent key stops: a kids cell and a side of it. */
  function Attach(t: Tree, key: u64): Option<(u64, bool)>
    requires t.Node?
  {
    if t.key == key then None
    else if key < t.key then (if t.left.Leaf? then Some((t.kids, true)) else Attach(t.left, key))
    else (if t.right.Leaf? then Some((t.kids, false)) else Attach(t.right, key))
  }

  /** A descent at a node of another name ends there when that side is empty, else goes
      on in that side. */
  lemma DescentStep(t: Tree, key: u64)
    requires t.Node? && t.key != key
    ensures var side := if key < t.key then t.left else t.right;
            && Find(t, key) == Find(side, key)
            && (side.Leaf? ==> Find(t, key) == None && Attach(t, key) == Some((t.kids, key < t.key)))
            && (side.Node? ==> Attach(t, key) == Attach(side, key))
  {}

  function Insert(t: Tree, key: u64, pair: u64, node: u64, kids: u64): Tree {
    if t.Leaf? then Node(node, kids, pair, key, Leaf, Leaf)
    else if t.key == key then t
    else if key < t.key then t.(left := Insert(t.left, key, pair, node, kids))
    else t.(right := Insert(t.right, key, pair, node, kids))
  }

  ghost predicate NodeOk(view: View, roles: map<u64, Role>, root: u64, t: Tree)
    requires t.Node?
  {
    && t.node in roles && roles[t.node] == TreeNode && t.node in view &&
      view[t.node] == ObjView(SPAIR, [t.pair, t.kids])
    && t.kids in roles && roles[t.kids] == TreeKids(root, t.key) && t.kids in view &&
      view[t.kids] == ObjView(SPAIR, [Ptr(t.left), Ptr(t.right)])
    && t.pair in roles && roles[t.pair].PairOf? && IsSpair(view, t.pair) && Name(view, t.pair) == t.key
    && t.node != 0
  }

  ghost predicate TreeOk(view: View, roles: map<u64, Role>, root: u64, t: Tree) {
    t.Leaf? || (NodeOk(view, roles, root, t) && TreeOk(view, roles, root, t.left) && TreeOk(view, roles, root, t.right))
  }

  // ----- the tree finds what the scan finds ------------------------------------------------

  lemma {:induction false} FindMember(view: View, roles: map<u64, Role>, root: u64, t: Tree, key: u64)
    requires TreeOk(view, roles, root, t)
    ensures Find(t, key).Some? ==> Find(t, key).value in Pairs(t) && Name(view, Find(t, key).value) == key
    decreases t
  {
    if t.Node? && t.key != key { FindMember(view, roles, root, if key < t.key then t.left else t.right, key); }
  }

  lemma {:induction false} MemberFound(view: View, roles: map<u64, Role>, root: u64, t: Tree, lo: int, hi: int, p: u64)
    requires TreeOk(view, roles, root, t) && Ordered(t, lo, hi) && p in Pairs(t)
    ensures lo < Name(view, p) < hi && Find(t, Name(view, p)) == Some(p)
    decreases t
  {
    if p in Pairs(t.left) && p != t.pair {
      MemberFound(view, roles, root, t.left, lo, t.key, p);
    } else if p in Pairs(t.right) && p != t.pair {
      MemberFound(view, roles, root, t.right, t.key, hi, p);
    }
  }

  /** THE TREE MIRRORS THE FRAME. An ordered tree over exactly a chain's pairs finds,
      by descending, the very cell the chain scan finds. */
  lemma TreeFindsScan(view: View, roles: map<u64, Role>, root: u64, t: Tree, pairs: seq<u64>, lo: int, hi: int,
                      name: u64)
    requires TreeOk(view, roles, root, t) && Ordered(t, lo, hi)
    requires NamesDistinct(view, pairs) && forall p :: p in Pairs(t) <==> p in pairs
    ensures Find(t, name) == Scan(view, pairs, name)
  {
    FindMember(view, roles, root, t, name);
    ScanMember(view, pairs, name);
    var s := Scan(view, pairs, name);
    if s.Some? {
      MemberFound(view, roles, root, t, lo, hi, s.value);
    }
  }

  // ----- what keeps the tree ------------------------------------------------------------------

  /** A tree between two keys stands when only kids cells of other keys, or of other
      bases, change. */
  lemma {:induction false} TreeKept(view: View, view': View, roles: map<u64, Role>, roles': map<u64, Role>,
                                    off: set<u64>, root: u64, t: Tree, lo: int, hi: int)
    requires TreeOk(view, roles, root, t) && Ordered(t, lo, hi) && RolesKept(view, view', roles, off)
    requires forall o :: o in roles && o in view' ==> o in roles' && roles'[o] == roles[o]
    requires forall o :: o in off && o in roles ==>
        roles[o].Holder? || roles[o].SpineCell? || (roles[o].TreeKids? &&
          (roles[o].root != root || !(lo < roles[o].key < hi)))
    ensures TreeOk(view', roles', root, t)
    decreases t
  {
    if t.Node? {
      assert t.node !in off && t.kids !in off && t.pair !in off;
      assert NodeOk(view', roles', root, t);
      TreeKept(view, view', roles, roles', off, root, t.left, lo, t.key);
      TreeKept(view, view', roles, roles', off, root, t.right, t.key, hi);
    }
  }

  /** The descent stops at an empty side of a kids cell whose key is within bounds. */
  lemma {:induction false} AttachSpot(view: View, roles: map<u64, Role>, root: u64, t: Tree, lo: int, hi: int, key: u64)
    requires TreeOk(view, roles, root, t) && Ordered(t, lo, hi) && t.Node?
    ensures Attach(t, key).None? <==> Find(t, key).Some?
    ensures Attach(t, key).Some? ==>
              var (at, left) := Attach(t, key).value;
              && at in roles && roles[at].TreeKids? && roles[at].root == root && lo < roles[at].key < hi
              && at in view && view[at].kind == SPAIR && |view[at].data| == 2
              && view[at].data[if left then 0 else 1] == 0
    decreases t
  {
    if t.key != key {
      if key < t.key {
        if t.left.Node? { AttachSpot(view, roles, root, t.left, lo, t.key, key); }
      } else {
        if t.right.Node? { AttachSpot(view, roles, root, t.right, t.key, hi, key); }
      }
    }
  }

  /** The heap and roles after a node is hung on side `left` of `at`. */
  ghost predicate Hung(view: View, view': View, roles: map<u64, Role>, roles': map<u64, Role>, root: u64, at: u64,
                       left: bool,
                       key: u64, pair: u64, node: u64, kids: u64) {
    && Extends(view, view', {at})
    && (forall o :: o in roles ==> o in roles' && roles'[o] == roles[o])
    && NodeOk(view', roles', root, Node(node, kids, pair, key, Leaf, Leaf))
    && at in view && view[at].kind == SPAIR && |view[at].data| == 2
    && at in view' && view'[at] == With(view[at], if left then 0 else 1, node)
  }

  /** Inserting an absent key keeps the order and adds exactly one pair. */
  lemma {:induction false} InsertKeeps(t: Tree, lo: int, hi: int, key: u64, pair: u64, node: u64, kids: u64)
    requires Ordered(t, lo, hi) && lo < key < hi && Find(t, key).None?
    ensures Ordered(Insert(t, key, pair, node, kids), lo, hi)
    ensures Pairs(Insert(t, key, pair, node, kids)) == Pairs(t) + {pair}
    decreases t
  {
    if t.Node? {
      assert t.key != key;
      if key < t.key {
        InsertKeeps(t.left, lo, t.key, key, pair, node, kids);
      } else {
        InsertKeeps(t.right, t.key, hi, key, pair, node, kids);
      }
    }
  }

  /** Hanging the new node where the descent stops is inserting it. */
  lemma {:induction false} HangInserts(view: View, view': View, roles: map<u64, Role>, roles': map<u64, Role>,
                                       root: u64, t: Tree, lo: int, hi: int,
                                       at: u64, left: bool, key: u64, pair: u64, node: u64, kids: u64)
    requires TreeOk(view, roles, root, t) && Ordered(t, lo, hi) && t.Node? && lo < key < hi
    requires Attach(t, key) == Some((at, left))
    requires Hung(view, view', roles, roles', root, at, left, key, pair, node, kids)
    requires roles.Keys <= view.Keys
    ensures var t' := Insert(t, key, pair, node, kids);
            && t'.Node? && Ptr(t') == Ptr(t)
            && TreeOk(view', roles', root, t')
    decreases t
  {
    ExtendsKeeps(view, view', roles, {at});
    if key < t.key {
      TreeKept(view, view', roles, roles', {at}, root, t.right, t.key, hi) by {
        AttachSide(view, roles, root, t, lo, hi, key);
      }
      if t.left.Node? {
        AttachSpot(view, roles, root, t.left, lo, t.key, key);
        HangInserts(view, view', roles, roles', root, t.left, lo, t.key, at, left, key, pair, node, kids);
      }
    } else {
      TreeKept(view, view', roles, roles', {at}, root, t.left, lo, t.key) by {
        AttachSide(view, roles, root, t, lo, hi, key);
      }
      if t.right.Node? {
        AttachSpot(view, roles, root, t.right, t.key, hi, key);
        HangInserts(view, view', roles, roles', root, t.right, t.key, hi, at, left, key, pair, node, kids);
      }
    }
  }

  /** The kids cell written is not on the other side of the root. */
  lemma AttachSide(view: View, roles: map<u64, Role>, root: u64, t: Tree, lo: int, hi: int, key: u64)
    requires TreeOk(view, roles, root, t) && Ordered(t, lo, hi) && t.Node? && Attach(t, key).Some?
    ensures var at := Attach(t, key).value.0;
            && at in roles && roles[at].TreeKids?
            && (key < t.key ==> roles[at].key <= t.key) && (key > t.key ==> roles[at].key >= t.key)
  {
    if key < t.key {
      if t.left.Node? { AttachSpot(view, roles, root, t.left, lo, t.key, key); }
    } else {
      if t.right.Node? { AttachSpot(view, roles, root, t.right, t.key, hi, key); }
    }
  }

  /** A tree whose root node survives a collection survives whole. */
  lemma {:induction false} TreeSurvives(view: View, view': View, roles: map<u64, Role>, root: u64, t: Tree)
    requires TreeOk(view, roles, root, t) && ClosedPart(view, view') && (t.Node? ==> t.node in view')
    ensures TreeOk(view', Alive(roles, view'), root, t)
    decreases t
  {
    if t.Node? {
      assert view'[t.node].data[0] == t.pair && view'[t.node].data[1] == t.kids;
      assert t.pair in view' && t.kids in view';
      assert view'[t.kids].data[0] == Ptr(t.left) && view'[t.kids].data[1] == Ptr(t.right);
      TreeSurvives(view, view', roles, root, t.left);
      TreeSurvives(view, view', roles, root, t.right);
    }
  }
}
