/** What names mean: which frame a walk out through the parents finds, and what the two
binders put in a frame, said without the walk and without the binders. */
module Scopes {
  import opened Options
  import opened Values

  // ----- the walk --------------------------------------------------------------------------

  /** A path of frames from `e`, each next one the parent of the one before. A parent is
      older than its child. */
  ghost predicate IsWalk(s: Store, e: EnvId, p: seq<EnvId>) {
    && p != [] && p[0] == e
    && (forall i :: 0 <= i < |p| ==> p[i] < |s|)
    && forall i :: 0 <= i < |p| - 1 ==> p[i + 1] < p[i] && s[p[i]].parent == Some(p[i + 1])
  }

  /** The last frame of the path binds `name`, and no nearer one does. */
  ghost predicate FirstBinder(s: Store, e: EnvId, name: Value, p: seq<EnvId>) {
    && IsWalk(s, e, p) && name in s[p[|p| - 1]].cells
    && forall i :: 0 <= i < |p| - 1 ==> name !in s[p[i]].cells
  }

  /** THE INNERMOST BINDING ANSWERS. */
  lemma {:induction false} WalkFinds(s: Store, e: EnvId, name: Value, p: seq<EnvId>)
    requires FirstBinder(s, e, name, p)
    ensures Home(s, e, name) == Some(p[|p| - 1])
    ensures Lookup(s, e, name) == Some(s[p[|p| - 1]].cells[name])
    decreases |p|
  {
    if |p| > 1 {
      var q := p[1..];
      assert forall i :: 0 <= i < |q| ==> q[i] == p[i + 1];
      assert name !in s[p[0]].cells && s[p[0]].parent == Some(p[1]);
      WalkFinds(s, p[1], name, q);
    }
  }

  /** What is found has such a path. */
  lemma {:induction false} FoundByWalk(s: Store, e: EnvId, name: Value) returns (p: seq<EnvId>)
    requires Lookup(s, e, name).Some?
    ensures FirstBinder(s, e, name, p) && Lookup(s, e, name) == Some(s[p[|p| - 1]].cells[name])
    decreases e
  {
    if name in s[e].cells {
      p := [e];
    } else {
      var up := s[e].parent.value;
      var q := FoundByWalk(s, up, name);
      p := [e] + q;
      assert forall i :: 0 < i < |p| ==> p[i] == q[i - 1];
    }
  }

  /** A name is unbound exactly when no frame on the way out binds it. */
  lemma UnboundIff(s: Store, e: EnvId, name: Value)
    ensures Lookup(s, e, name).None? <==> !exists p :: FirstBinder(s, e, name, p)
    ensures Lookup(s, e, name).None? <==> SetExisting(s, e, name, Nil).None?
  {
    if Lookup(s, e, name).Some? {
      var p := FoundByWalk(s, e, name);
    }
    forall p | FirstBinder(s, e, name, p) ensures Lookup(s, e, name).Some? { WalkFinds(s, e, name, p); }
  }

  /** `s'` is `s` but for the one cell `name` of frame `h`, which holds `v`. */
  ghost predicate OneCell(s: Store, s': Store, h: EnvId, name: Value, v: Value) {
    && |s'| == |s| && h < |s|
    && (forall g :: 0 <= g < |s| ==> s'[g].parent == s[g].parent && (g != h ==> s'[g].cells == s[g].cells))
    && name in s'[h].cells && s'[h].cells[name] == v
    && s'[h].cells.Keys == s[h].cells.Keys + {name}
    && forall other :: other in s[h].cells && other != name ==> s'[h].cells[other] == s[h].cells[other]
  }

  /** Binding writes one cell, and the name then means the value there. */
  lemma BindWrites(s: Store, e: EnvId, name: Value, v: Value)
    requires e < |s|
    ensures OneCell(s, Bind(s, e, name, v), e, name, v)
    ensures Lookup(Bind(s, e, name, v), e, name) == Some(v)
  {}

  /** `set!` writes the innermost binding, and nothing else. */
  lemma SetWrites(s: Store, e: EnvId, name: Value, v: Value, p: seq<EnvId>)
    requires FirstBinder(s, e, name, p)
    ensures var r := SetExisting(s, e, name, v);
            r.Some? && OneCell(s, r.value, p[|p| - 1], name, v) && Lookup(r.value, e, name) == Some(v)
  {
    WalkFinds(s, e, name, p);
    var h := p[|p| - 1];
    var s' := Bind(s, h, name, v);
    BindWrites(s, h, name, v);
    assert FirstBinder(s', e, name, p);
    WalkFinds(s', e, name, p);
  }

  /** A new frame is empty, and names mean in it what they mean in its parent. */
  lemma {:induction false} PushedMeans(s: Store, parent: EnvId, name: Value)
    requires parent < |s|
    ensures Lookup(PushFrame(s, parent), |s|, name) == Lookup(s, parent, name)
  {
    OlderMeans(s, PushFrame(s, parent), parent, name);
  }

  /** What younger frames hold is no matter. */
  lemma {:induction false} OlderMeans(s: Store, s': Store, e: EnvId, name: Value)
    requires |s| <= |s'| && e < |s| && forall g :: 0 <= g < |s| ==> s'[g] == s[g]
    ensures Lookup(s', e, name) == Lookup(s, e, name)
    decreases e
  {
    if name !in s[e].cells && s[e].parent.Some? && s[e].parent.value < e {
      OlderMeans(s, s', s[e].parent.value, name);
    }
  }

  // ----- the binders -----------------------------------------------------------------------

  /** A parameter spine: names, and what follows the last of them. */
  function Spine(names: seq<Value>, tail: Value): Value {
    if names == [] then tail else Pair(names[0], Spine(names[1..], tail))
  }

  /** `v` after `k` rests. */
  function Drop(v: Value, k: nat): Value
    decreases k
  {
    if k == 0 then v else Drop(RestOf(v), k - 1)
  }

  /** `v` is a proper list of exactly `xs`, read pair by pair. */
  ghost predicate IsListOf(v: Value, xs: seq<Value>) {
    Drop(v, |xs|) == Nil && forall j :: 0 <= j < |xs| ==> Drop(v, j).Pair? && Drop(v, j).first == xs[j]
  }

  lemma {:induction false} SpineReads(xs: seq<Value>, tail: Value, k: nat)
    requires k <= |xs|
    ensures Drop(Spine(xs, tail), k) == Spine(xs[k..], tail)
    decreases k
  {
    if k > 0 {
      SpineReads(xs[1..], tail, k - 1);
      assert xs[1..][k - 1..] == xs[k..];
    } else {
      assert xs[0..] == xs;
    }
  }

  lemma {:induction false} ListOfIsSpine(xs: seq<Value>)
    ensures ListOf(xs) == Spine(xs, Nil)
  {
    if xs != [] { ListOfIsSpine(xs[1..]); }
  }

  lemma ListOfLists(xs: seq<Value>)
    ensures IsListOf(ListOf(xs), xs)
  {
    ListOfIsSpine(xs);
    forall j | 0 <= j <= |xs| ensures Drop(ListOf(xs), j) == Spine(xs[j..], Nil) { SpineReads(xs, Nil, j); }
  }

  /** Every frame but `e` is as it was, and in `e` every name but those given. */
  ghost predicate OnlyNamed(s: Store, s': Store, e: EnvId, names: seq<Value>) {
    && |s'| == |s| && e < |s| && s'[e].parent == s[e].parent
    && (forall g :: 0 <= g < |s| && g != e ==> s'[g] == s[g])
    && forall name :: name !in names ==> (name in s'[e].cells <==> name in s[e].cells)
                                         && (name in s[e].cells ==> s'[e].cells[name] == s[e].cells[name])
  }

  /** Does the frame hold `v` under `name`? */
  predicate Holds(s: Store, e: EnvId, name: Value, v: Value) {
    e < |s| && name in s[e].cells && s[e].cells[name] == v
  }

  lemma OnlyNamedSteps(s: Store, s1: Store, s2: Store, e: EnvId, name: Value, v: Value, names: seq<Value>)
    requires e < |s| && s1 == Bind(s, e, name, v) && OnlyNamed(s1, s2, e, names)
    ensures OnlyNamed(s, s2, e, [name] + names)
  {}

  /** Is name `i` of a spine not given again after it? */
  predicate Stands(names: seq<Value>, tail: Value, i: nat)
    requires i < |names|
  {
    names[i] !in names[i + 1..] && (tail == Nil || names[i] != tail)
  }

  /** Every name of a spine. */
  function Names(names: seq<Value>, tail: Value): seq<Value> { if tail == Nil then names else names + [tail] }

  lemma LaterStands(names: seq<Value>, tail: Value, i: nat)
    requires 0 < i < |names|
    ensures Stands(names, tail, i) <==> Stands(names[1..], tail, i - 1)
  {
    assert names[i] == names[1..][i - 1] && names[i + 1..] == names[1..][i..];
  }

  lemma FirstStands(names: seq<Value>, tail: Value)
    requires names != []
    ensures Names(names, tail) == [names[0]] + Names(names[1..], tail)
    ensures Stands(names, tail, 0) <==> names[0] !in Names(names[1..], tail)
  {}

  /** PARAMETERS GET THE VALUES IN ORDER, on every spine: parameter `i` holds value `i`, or
      nil when there are fewer; a name given twice keeps the later. */
  lemma {:induction false} ParamsGet(s: Store, e: EnvId, names: seq<Value>, tail: Value, vals: seq<Value>)
    requires e < |s| && !tail.Pair?
    ensures var s' := BindParams(s, e, Spine(names, tail), vals);
            && OnlyNamed(s, s', e, Names(names, tail))
            && forall i :: 0 <= i < |names| && Stands(names, tail, i) ==>
              Holds(s', e, names[i], if i < |vals| then vals[i] else Nil)
    decreases |names|
  {
    if names != [] {
      var s' := BindParams(s, e, Spine(names, tail), vals);
      var v, left := if vals == [] then Nil else vals[0], if vals == [] then [] else vals[1..];
      var s1 := Bind(s, e, names[0], v);
      ParamsGet(s1, e, names[1..], tail, left);
      FirstStands(names, tail);
      OnlyNamedSteps(s, s1, s', e, names[0], v, Names(names[1..], tail));
      forall i | 0 <= i < |names| && Stands(names, tail, i)
        ensures Holds(s', e, names[i], if i < |vals| then vals[i] else Nil)
      {
        if i > 0 { LaterStands(names, tail, i); }
      }
    }
  }

  /** A REST PARAMETER GETS WHAT IS LEFT, as a proper list. */
  lemma {:induction false} RestGets(s: Store, e: EnvId, names: seq<Value>, tail: Value, vals: seq<Value>)
    requires e < |s| && !tail.Pair? && tail != Nil
    ensures var s' := BindParams(s, e, Spine(names, tail), vals);
            && |s'| == |s| && tail in s'[e].cells
            && IsListOf(s'[e].cells[tail], if |names| <= |vals| then vals[|names|..] else [])
    decreases |names|
  {
    if names == [] {
      ListOfLists(vals);
      assert vals[0..] == vals;
    } else {
      var s1 := Bind(s, e, names[0], if vals == [] then Nil else vals[0]);
      RestGets(s1, e, names[1..], tail, if vals == [] then [] else vals[1..]);
      if |names| <= |vals| { assert vals[1..][|names| - 1..] == vals[|names|..]; }
    }
  }

  /** What operand `i` of a spine of forms that ends in `end` is, as an operative sees it. */
  function Operand(forms: seq<Value>, end: Value, i: nat): Value {
    if i < |forms| then forms[i] else if i == |forms| then end else Nil
  }

  /** AN OPERATIVE'S PARAMETERS GET THE FORMS AS WRITTEN: parameter `i` holds form `i`, the
      one past the last form what the spine ends in, and any further one nil. */
  lemma {:induction false} FormsGet(s: Store, e: EnvId, names: seq<Value>, tail: Value, forms: seq<Value>, end: Value)
    requires e < |s| && !tail.Pair? && !end.Pair?
    ensures var s' := BindSpine(s, e, Spine(names, tail), Spine(forms, end));
            && OnlyNamed(s, s', e, Names(names, tail))
            && forall i :: 0 <= i < |names| && Stands(names, tail, i) ==>
              Holds(s', e, names[i], Operand(forms, end, i))
    decreases |names|
  {
    if names != [] {
      var s' := BindSpine(s, e, Spine(names, tail), Spine(forms, end));
      var s1 := Bind(s, e, names[0], Operand(forms, end, 0));
      var left, end' := if forms == [] then [] else forms[1..], if forms == [] then Nil else end;
      FormsGet(s1, e, names[1..], tail, left, end');
      FirstStands(names, tail);
      OnlyNamedSteps(s, s1, s', e, names[0], Operand(forms, end, 0), Names(names[1..], tail));
      forall i | 0 <= i < |names| && Stands(names, tail, i) ensures Holds(s', e, names[i], Operand(forms, end, i)) {
        if i > 0 { LaterStands(names, tail, i); }
      }
    }
  }

  /** And its rest parameter the spine that is left. */
  lemma {:induction false} FormsRest(s: Store, e: EnvId, names: seq<Value>, tail: Value, forms: seq<Value>, end: Value)
    requires e < |s| && !tail.Pair? && tail != Nil && !end.Pair?
    ensures Holds(BindSpine(s, e, Spine(names, tail), Spine(forms, end)), e, tail,
              if |names| <= |forms| then Spine(forms[|names|..], end) else Nil)
    decreases |names|
  {
    if names == [] {
      assert forms[0..] == forms;
    } else {
      var s1 := Bind(s, e, names[0], Operand(forms, end, 0));
      FormsRest(s1, e, names[1..], tail, if forms == [] then [] else forms[1..], if forms == [] then Nil else end);
      if |names| <= |forms| { assert forms[1..][|names| - 1..] == forms[|names|..]; }
    }
  }
}
