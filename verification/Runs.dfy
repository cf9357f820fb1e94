/** What every run of the machine keeps, and what follows for escapes, saves and
tail forms in every reachable state. */
module Runs {
  import opened Options
  import opened Values
  import opened Nested
  import opened Machine

  /** What the machine's own steps keep true of an argument row. */
  predicate RowOk(m: Rows, callee: Value, slots: nat) {
    && Applicative(callee)
    && (if callee.Pair? then slots >= 1 else slots == SlotsOf(m, callee, Nil))
  }

  /** A body with a save runs in the frame it saves. The live call/cc frames carry
      distinct ids, each minted before `bound` and before every call/cc nested inside
      it. */
  predicate WellFormed(m: Rows, k: Kont, bound: nat) {
    match k
    case Done => true
    case Push(f, k') =>
      && (f.ArgsF? ==> RowOk(m, f.callee, f.slots))
      && (f.BodyF? ==> f.rest.Pair? && SavesOwn(f.save, f.env))
      && (f.CatchF? ==> f.id < bound)
      && WellFormed(m, k', if f.CatchF? then f.id else bound)
  }

  predicate SavesOwn(save: Option<EnvId>, env: EnvId) { save.Some? ==> save.value == env }

  predicate CodeOk(m: Rows, code: Code) {
    match code
    case CombineC(callee, _, _, _) => Callable(callee)
    case ArgsC(callee, _, _, _, slots, _) => RowOk(m, callee, slots)
    case ApplyC(callee, vals, _) => Applicative(callee) && |vals| >= SlotsOf(m, callee, Nil)
    case BodyC(save, _, env, _) => SavesOwn(save, env)
    case _ => true
  }

  predicate StateOk(m: Rows, st: State) {
    && WellFormed(m, st.k, st.w.nextCont)
    && (forall id :: id in st.w.snaps ==> id < st.w.nextCont)
    && CodeOk(m, st.code)
  }

  lemma {:induction false} LaterBound(m: Rows, k: Kont, b: nat, b': nat)
    requires WellFormed(m, k, b) && b <= b'
    ensures WellFormed(m, k, b')
  {
    if k.Push? && !k.f.CatchF? { LaterBound(m, k.k, b, b'); }
  }

  lemma {:induction false} ApplyKeepsOk(m: Rows, st: State)
    requires StateOk(m, st) && st.code.ApplyC?
    ensures StateOk(m, Step(m, st)) && st.w.nextCont <= Step(m, st).w.nextCont
  {
    if st.code.callee == Prim(CallCC) { LaterBound(m, st.k, st.w.nextCont, st.w.nextCont); }
  }

  lemma {:induction false} ResumeKeepsOk(m: Rows, st: State)
    requires StateOk(m, st) && st.code.RetC?
    ensures StateOk(m, Step(m, st)) && st.w.nextCont <= Step(m, st).w.nextCont
  {
    if st.k.Push? {
      var k := st.k.k;
      assert WellFormed(m, k, st.w.nextCont) by {
        if st.k.f.CatchF? { LaterBound(m, k, st.k.f.id, st.w.nextCont); }
      }
    }
  }

  lemma {:induction false} StepKeepsOk(m: Rows, st: State)
    requires StateOk(m, st)
    ensures StateOk(m, Step(m, st))
    ensures st.w.nextCont <= Step(m, st).w.nextCont
  {
    if st.code.ApplyC? {
      ApplyKeepsOk(m, st);
    } else if st.code.RetC? {
      ResumeKeepsOk(m, st);
    }
  }

  lemma {:induction false} RunKeepsOk(m: Rows, j: nat, st: State)
    requires StateOk(m, st)
    ensures StateOk(m, Run(m, j, st))
    decreases j
  {
    if j != 0 {
      StepKeepsOk(m, st);
      RunKeepsOk(m, j - 1, Step(m, st));
    }
  }

  // ----- snapshots are write-once -------------------------------------------------

  lemma {:induction false} SnapshotStays(m: Rows, j: nat, st: State, id: nat)
    requires StateOk(m, st) && id in st.w.snaps
    ensures id in Run(m, j, st).w.snaps && Run(m, j, st).w.snaps[id] == st.w.snaps[id]
    decreases j
  {
    if j != 0 {
      StepKeepsOk(m, st);
      SnapshotStays(m, j - 1, Step(m, st), id);
    }
  }

  // ----- escapes land only at home --------------------------------------------------

  /** The frames of `k` below the first `i`. */
  function Below(k: Kont, i: nat): Kont
    decreases i
  {
    if i == 0 || k.Done? then k else Below(k.k, i - 1)
  }

  function Frames(k: Kont): seq<Frame> {
    match k
    case Done => []
    case Push(f, k') => [f] + Frames(k')
  }

  /** How many frames stand between the top of `k` and the call/cc that minted
      `id`; all of them when that call/cc is no longer live. */
  function ToHome(k: Kont, id: nat): nat {
    match k
    case Done => 0
    case Push(f, k') => if f.CatchF? && f.id == id then 0 else 1 + ToHome(k', id)
  }

  predicate LiveCatch(k: Kont, id: nat) { CatchF(id) in Frames(k) }

  /** At most one live call/cc carries an id. */
  lemma {:induction false} HomeIsUnique(m: Rows, k: Kont, b: nat, i: nat, j: nat)
    requires WellFormed(m, k, b)
    requires i < |Frames(k)| && j < |Frames(k)|
    requires Frames(k)[i].CatchF? && Frames(k)[i] == Frames(k)[j]
    ensures i == j && Frames(k)[i].id < b
  {
    var f := Frames(k)[i];
    if i == 0 && j == 0 {
    } else if i == 0 {
      HomeIsUnique(m, k.k, f.id, j - 1, j - 1);
    } else if j == 0 {
      HomeIsUnique(m, k.k, f.id, i - 1, i - 1);
    } else {
      HomeIsUnique(m, k.k, if k.f.CatchF? then k.f.id else b, i - 1, j - 1);
    }
  }

  /** AN ESCAPE IN FLIGHT passes every frame on its way unchanged, guards and other
      call/ccs included, one frame a step and with the world untouched; if the
      call/cc that minted it is live it becomes a value exactly there, otherwise it
      reaches the top as it started. */
  lemma {:induction false} EscapeLandsAtHome(m: Rows, k: Kont, id: nat, v: Value, w: World)
    ensures forall i: nat :: i <= ToHome(k, id) ==>
              Run(m, i, Ret(Escape(id, v), k, w)) == Ret(Escape(id, v), Below(k, i), w)
    ensures LiveCatch(k, id) ==>
              && Below(k, ToHome(k, id)).Push? && Below(k, ToHome(k, id)).f == CatchF(id)
              && Run(m, ToHome(k, id) + 1, Ret(Escape(id, v), k, w)) ==
                 Ret(Answer(v), Below(k, ToHome(k, id)).k, w)
    ensures !LiveCatch(k, id) ==> Run(m, ToHome(k, id), Ret(Escape(id, v), k, w)) == Ret(Escape(id, v), Done, w)
  {
    var st := Ret(Escape(id, v), k, w);
    if k.Push? {
      if k.f == CatchF(id) {
        assert Run(m, 1, st) == Run(m, 0, Step(m, st));
      } else {
        EscapeLandsAtHome(m, k.k, id, v, w);
        forall i: nat | i <= ToHome(k, id)
          ensures Run(m, i, st) == Ret(Escape(id, v), Below(k, i), w)
        {
          if i != 0 { assert Run(m, i, st) == Run(m, i - 1, Step(m, st)); }
        }
        assert Run(m, ToHome(k, id) + 1, st) == Run(m, ToHome(k, id), Step(m, st));
      }
    }
  }

  // ----- the save row is the dynamic context ----------------------------------------

  /** `rest` is what is left of `body` from some form on. */
  predicate PartOf(rest: Value, body: Value) {
    rest == body || (body.Pair? && PartOf(rest, body.rest))
  }

  lemma {:induction false} PartOfRest(rest: Value, body: Value)
    requires PartOf(rest, body) && rest.Pair?
    ensures PartOf(rest.rest, body)
  {
    if rest == body {
      assert PartOf(rest.rest, body.rest);
    } else {
      PartOfRest(rest, body.rest);
    }
  }

  /** A body, where it runs, the stack it runs on, and whether applying a closure started it. */
  datatype Start = Start(body: Value, env: EnvId, k: Kont, closure: bool)

  /** The body a state starts, if it starts one: a closure's, an operative's, a sequence, a
      matching arm or a handler. */
  function StartOf(st: State): Option<Start> {
    match st.code
    case ApplyC(Closure(_, body, _), _, _) => Some(Start(body, |st.w.store|, st.k, true))
    case CombineC(Operative(_, _, body, _), _, _, _) => Some(Start(body, |st.w.store|, st.k, false))
    case CombineC(Prim(Seq), args, env, _) => Some(Start(args, env, st.k, false))
    case RetC(Answer(v)) =>
      if st.k.Push? && st.k.f.TestF? && Truthy(v) then Some(Start(st.k.f.arm, st.k.f.env, st.k.k, false)) else None
    case RetC(Fault(_)) =>
      if st.k.Push? && st.k.f.GuardF? then Some(Start(RestOf(st.k.f.spec), |st.w.store|, st.k.k, false)) else None
    case _ => None
  }

  predicate StartsOn(st: State, k: Kont) { StartOf(st).Some? && StartOf(st).value.k == k }

  /** The evaluation that `eval`, its environment just answered, or `eval!` enters: its
      stack, and the environment given. */
  datatype Entry = Entry(k: Kont, target: Option<EnvId>)

  function EntryOf(st: State): Option<Entry> {
    if st.code.RetC? && st.code.out.Answer? && st.k.Push? then
      if st.k.f.TargetF? then Some(Entry(st.k.k, Some(TargetOf(st.code.out.v, st.k.f.env))))
      else if st.k.f.HereF? then Some(Entry(st.k.k, None))
      else None
    else None
  }

  predicate EntersOn(st: State, k: Kont) { EntryOf(st).Some? && EntryOf(st).value.k == k }

  /** Of the first `j` states from `st`, number `i` is the last to start a body on `k`. */
  ghost predicate LastStart(m: Rows, j: nat, st: State, i: nat, k: Kont) {
    i < j && StartsOn(Run(m, i, st), k) && forall i': nat :: i < i' < j ==> !StartsOn(Run(m, i', st), k)
  }

  /** Of the first `j` states from `st`, number `i` is the last to enter an `eval` on `k`. */
  ghost predicate LastEntry(m: Rows, j: nat, st: State, i: nat, k: Kont) {
    i < j && EntersOn(Run(m, i, st), k) && forall i': nat :: i < i' < j ==> !EntersOn(Run(m, i', st), k)
  }

  /** The body `f` is running is the last started on `k`, by a closure or not. */
  ghost predicate InBody(m: Rows, j: nat, st: State, f: Frame, k: Kont, closure: bool)
    requires f.BodyF?
  {
    exists i: nat :: LastStart(m, j, st, i, k) && RunsBody(Run(m, i, st), f, closure)
  }

  predicate RunsBody(st: State, f: Frame, closure: bool)
    requires f.BodyF?
  {
    var s := StartOf(st);
    s.Some? && s.value.env == f.env && s.value.closure == closure && PartOf(f.rest, s.value.body)
  }

  /** The last evaluation an `eval` entered on `k` was given `target`. */
  ghost predicate InEval(m: Rows, j: nat, st: State, target: Option<EnvId>, k: Kont) {
    exists i: nat :: LastEntry(m, j, st, i, k) && EntryOf(Run(m, i, st)).value.target == target
  }

  /** `row` names, innermost first, the frames of the closure activations with forms
      still to run before their tail and the targets of the with-env `eval`s under way,
      as the first `j` steps from `st` last started them. */
  ghost predicate Context(m: Rows, j: nat, st: State, row: seq<EnvId>, k: Kont)
    decreases k
  {
    match k
    case Done => row == []
    case Push(f, k') =>
      if f.BodyF? then
        || (row != [] && row[0] == f.env && InBody(m, j, st, f, k', true) && Context(m, j, st, row[1..], k'))
        || (InBody(m, j, st, f, k', false) && Context(m, j, st, row, k'))
      else if f.PassF? then
        || (row != [] && InEval(m, j, st, Some(row[0]), k') && Context(m, j, st, row[1..], k'))
        || (InEval(m, j, st, None, k') && Context(m, j, st, row, k'))
      else Context(m, j, st, row, k')
  }

  lemma LastStartIsOne(m: Rows, j: nat, st: State, i: nat, i': nat, k: Kont)
    requires LastStart(m, j, st, i, k) && LastStart(m, j, st, i', k)
    ensures i == i'
  {}

  lemma LastEntryIsOne(m: Rows, j: nat, st: State, i: nat, i': nat, k: Kont)
    requires LastEntry(m, j, st, i, k) && LastEntry(m, j, st, i', k)
    ensures i == i'
  {}

  lemma BodyIsOne(m: Rows, j: nat, st: State, f: Frame, k: Kont, c: bool, c': bool)
    requires f.BodyF? && InBody(m, j, st, f, k, c) && InBody(m, j, st, f, k, c')
    ensures c == c'
  {
    var i: nat :| LastStart(m, j, st, i, k) && RunsBody(Run(m, i, st), f, c);
    var i': nat :| LastStart(m, j, st, i', k) && RunsBody(Run(m, i', st), f, c');
    LastStartIsOne(m, j, st, i, i', k);
  }

  lemma EvalIsOne(m: Rows, j: nat, st: State, t: Option<EnvId>, t': Option<EnvId>, k: Kont)
    requires InEval(m, j, st, t, k) && InEval(m, j, st, t', k)
    ensures t == t'
  {
    var i: nat :| LastEntry(m, j, st, i, k) && EntryOf(Run(m, i, st)).value.target == t;
    var i': nat :| LastEntry(m, j, st, i', k) && EntryOf(Run(m, i', st)).value.target == t';
    LastEntryIsOne(m, j, st, i, i', k);
  }

  /** A stack has one context. */
  lemma {:induction false} ContextIsOne(m: Rows, j: nat, st: State, row: seq<EnvId>, row': seq<EnvId>, k: Kont)
    requires Context(m, j, st, row, k) && Context(m, j, st, row', k)
    ensures row == row'
    decreases k
  {
    if k.Push? {
      var held := HeldBy(m, j, st, row, k);
      var held' := HeldBy(m, j, st, row', k);
      var u, u' := if held.Some? then row[1..] else row, if held'.Some? then row'[1..] else row';
      ContextIsOne(m, j, st, u, u', k.k);
      if k.f.BodyF? {
        BodyIsOne(m, j, st, k.f, k.k, held.Some?, held'.Some?);
      } else if k.f.PassF? {
        EvalIsOne(m, j, st, held, held', k.k);
      }
      assert held == held';
      if held.Some? { assert row == [row[0]] + u && row' == [row'[0]] + u'; }
    }
  }

  /** What the top frame of a stack adds to the row. */
  lemma HeldBy(m: Rows, j: nat, st: State, row: seq<EnvId>, k: Kont) returns (held: Option<EnvId>)
    requires k.Push? && Context(m, j, st, row, k)
    ensures held.Some? ==> row != [] && row[0] == held.value && Context(m, j, st, row[1..], k.k)
    ensures held.None? ==> Context(m, j, st, row, k.k)
    ensures k.f.BodyF? ==> InBody(m, j, st, k.f, k.k, held.Some?) && (held.Some? ==> held.value == k.f.env)
    ensures k.f.PassF? ==> InEval(m, j, st, held, k.k)
    ensures !k.f.BodyF? && !k.f.PassF? ==> held.None?
  {
    var f := k.f;
    if f.BodyF? && row != [] && row[0] == f.env && InBody(m, j, st, f, k.k, true) && Context(m, j, st, row[1..], k.k) {
      held := Some(f.env);
    } else if f.PassF? && row != [] && InEval(m, j, st, Some(row[0]), k.k) && Context(m, j, st, row[1..], k.k) {
      held := Some(row[0]);
    } else {
      held := None;
    }
  }

  // ----- the save row is that context ---------------------------------------------------

  /** A frame's save says how the frame came to be. */
  ghost predicate Stems(m: Rows, j: nat, st: State, f: Frame, k: Kont) {
    match f
    case BodyF(save, _, env, _) => SavesOwn(save, env) && InBody(m, j, st, f, k, save.Some?)
    case PassF(target) => InEval(m, j, st, target, k)
    case _ => true
  }

  ghost predicate AllStem(m: Rows, j: nat, st: State, k: Kont)
    decreases k
  {
    k.Done? || (Stems(m, j, st, k.f, k.k) && AllStem(m, j, st, k.k))
  }

  /** After `j` steps from `st`: every frame stems from one of them, and so does a body
      about to run. */
  ghost predicate Traced(m: Rows, j: nat, st: State, now: State) {
    && AllStem(m, j, st, now.k)
    && match now.code
       case BodyC(save, forms, env, s) => Stems(m, j, st, BodyF(save, forms, env, s), now.k)
       case _ => true
  }

  function Size(k: Kont): nat { if k.Done? then 0 else 1 + Size(k.k) }

  /** `k` is `top` or lies below it. */
  predicate On(k: Kont, top: Kont) { k == top || (top.Push? && On(k, top.k)) }

  lemma {:induction false} OnSize(k: Kont, top: Kont)
    requires On(k, top)
    ensures Size(k) <= Size(top) && (Size(k) == Size(top) ==> k == top)
    ensures top.Push? && k != top ==> On(k, top.k)
    ensures k.Push? ==> On(k.k, top)
    decreases top
  {
    if k != top { OnSize(k, top.k); }
  }

  /** A state starts no body and enters no `eval` under a frame that is on its stack and
      already there for one. */
  lemma Covered(now: State, f: Frame, k: Kont)
    requires On(Push(f, k), now.k) && (f.BodyF? || f.PassF?)
    ensures !StartsOn(now, k) && !EntersOn(now, k)
  {
    OnSize(Push(f, k), now.k);
  }

  /** One more state that does not start there leaves the last start the last. */
  lemma StemLater(m: Rows, j: nat, st: State, f: Frame, k: Kont)
    requires Stems(m, j, st, f, k)
    requires !StartsOn(Run(m, j, st), k) && !EntersOn(Run(m, j, st), k)
    ensures Stems(m, j + 1, st, f, k)
  {
    if f.BodyF? {
      var i: nat :| LastStart(m, j, st, i, k) && RunsBody(Run(m, i, st), f, f.save.Some?);
      assert LastStart(m, j + 1, st, i, k);
    } else if f.PassF? {
      var i: nat :| LastEntry(m, j, st, i, k) && EntryOf(Run(m, i, st)).value.target == f.target;
      assert LastEntry(m, j + 1, st, i, k);
    }
  }

  lemma {:induction false} StemsLater(m: Rows, j: nat, st: State, k: Kont)
    requires AllStem(m, j, st, k) && On(k, Run(m, j, st).k)
    ensures AllStem(m, j + 1, st, k)
    decreases k
  {
    if k.Push? {
      OnSize(k, Run(m, j, st).k);
      StemsLater(m, j, st, k.k);
      if k.f.BodyF? || k.f.PassF? {
        Covered(Run(m, j, st), k.f, k.k);
        StemLater(m, j, st, k.f, k.k);
      }
    }
  }

  /** What starts now is the last to start. */
  lemma StartsNow(m: Rows, j: nat, st: State, f: Frame, k: Kont)
    requires f.BodyF? ==> StartsOn(Run(m, j, st), k) && SavesOwn(f.save, f.env)
    requires f.BodyF? ==> RunsBody(Run(m, j, st), f, f.save.Some?)
    requires f.PassF? ==> EntersOn(Run(m, j, st), k) && EntryOf(Run(m, j, st)).value.target == f.target
    ensures Stems(m, j + 1, st, f, k)
  {
    if f.BodyF? {
      assert LastStart(m, j + 1, st, j, k);
    } else if f.PassF? {
      assert LastEntry(m, j + 1, st, j, k);
    }
  }

  lemma {:induction false} StepTraced(m: Rows, j: nat, st: State)
    requires Traced(m, j, st, Run(m, j, st))
    ensures Traced(m, j + 1, st, Step(m, Run(m, j, st)))
  {
    var now := Run(m, j, st);
    StemsLater(m, j, st, now.k);
    match now.code
    case BodyC(save, forms, env, s) =>
      if forms.Pair? && forms.rest.Pair? {
        RestStems(m, j, st, save, forms, env, s, now.k);
        StemLater(m, j, st, BodyF(save, forms.rest, env, s), now.k);
      }
    case RetC(_) => ResumeTraced(m, j, st);
    case ApplyC(_, _, _) => if StartOf(now).Some? { StartTraced(m, j, st); }
    case CombineC(_, _, _, _) => if StartOf(now).Some? { StartTraced(m, j, st); }
    case _ =>
  }

  lemma StartTraced(m: Rows, j: nat, st: State)
    requires Step(m, Run(m, j, st)).code.BodyC? && StartOf(Run(m, j, st)).Some?
    ensures var next := Step(m, Run(m, j, st));
            var (save, forms, env, s) := (next.code.save, next.code.forms, next.code.env, next.code.settled);
            Stems(m, j + 1, st, BodyF(save, forms, env, s), next.k)
  {
    var next := Step(m, Run(m, j, st));
    StartsNow(m, j, st, BodyF(next.code.save, next.code.forms, next.code.env, next.code.settled), next.k);
  }

  lemma {:induction false} RestStems(m: Rows, j: nat, st: State, save: Option<EnvId>, forms: Value, env: EnvId, s: bool,
                                     k: Kont)
    requires forms.Pair? && Stems(m, j, st, BodyF(save, forms, env, s), k)
    ensures Stems(m, j, st, BodyF(save, forms.rest, env, s), k)
  {
    var f, f' := BodyF(save, forms, env, s), BodyF(save, forms.rest, env, s);
    var i: nat :| LastStart(m, j, st, i, k) && RunsBody(Run(m, i, st), f, save.Some?);
    PartOfRest(forms, StartOf(Run(m, i, st)).value.body);
    assert RunsBody(Run(m, i, st), f', save.Some?);
  }

  lemma {:induction false} ResumeTraced(m: Rows, j: nat, st: State)
    requires Traced(m, j, st, Run(m, j, st)) && Run(m, j, st).code.RetC?
    ensures Traced(m, j + 1, st, Step(m, Run(m, j, st)))
  {
    var now := Run(m, j, st);
    var next := Step(m, now);
    StemsLater(m, j, st, now.k);
    if now.k.Push? && now.code.out.Answer? && now.k.f.BodyF? {
      StemLater(m, j, st, now.k.f, now.k.k);
    } else if StartOf(now).Some? {
      StartTraced(m, j, st);
    } else if EntryOf(now).Some? {
      StartsNow(m, j, st, next.k.f, next.k.k);
    }
  }

  lemma {:induction false} RunTraced(m: Rows, j: nat, st: State)
    requires st.k.Done? && !st.code.BodyC?
    ensures Traced(m, j, st, Run(m, j, st))
    decreases j
  {
    if j != 0 {
      RunTraced(m, j - 1, st);
      RunRun(m, j - 1, 1, st);
      assert Run(m, 1, Run(m, j - 1, st)) == Run(m, 0, Step(m, Run(m, j - 1, st)));
      StepTraced(m, j - 1, st);
    }
  }

  lemma ContextPush(m: Rows, j: nat, st: State, f: Frame, k: Kont, row: seq<EnvId>)
    requires Stems(m, j, st, f, k) && Context(m, j, st, row, k)
    ensures SaveOfFrame(f).Some? ==> Context(m, j, st, [SaveOfFrame(f).value] + row, Push(f, k))
    ensures SaveOfFrame(f).None? ==> Context(m, j, st, row, Push(f, k))
  {
    if SaveOfFrame(f).Some? {
      var more := [SaveOfFrame(f).value] + row;
      assert more[1..] == row;
      assert Context(m, j, st, more[1..], k);
    }
  }

  lemma {:induction false} StemsAreContext(m: Rows, j: nat, st: State, k: Kont)
    requires AllStem(m, j, st, k)
    ensures Context(m, j, st, SaveRow(k), k)
  {
    if k.Push? {
      StemsAreContext(m, j, st, k.k);
      ContextPush(m, j, st, k.f, k.k, SaveRow(k.k));
      if SaveOfFrame(k.f).None? {
        assert SaveRow(k) == [] + SaveRow(k.k) == SaveRow(k.k);
      }
    }
  }

  /** Where a run from a form starts. */
  function From(form: Value, env: EnvId, w: World): State { State(EvalC(form, env), Done, w) }

  /** WHAT THE SAVE ROW HOLDS, in every state a run from a form reaches: the frame of
      each closure activation whose body has forms to run before its tail, and the
      target of each with-env `eval` under way, innermost first, and nothing else. */
  lemma {:induction false} SaveRowIsContext(m: Rows, j: nat, form: Value, env: EnvId, w0: World, k: Kont,
                                            row: seq<EnvId>)
    requires k == Run(m, j, From(form, env, w0)).k
    ensures Context(m, j, From(form, env, w0), row, k) <==> row == SaveRow(k)
  {
    var st := From(form, env, w0);
    RunTraced(m, j, st);
    StemsAreContext(m, j, st, k);
    if Context(m, j, st, row, k) { ContextIsOne(m, j, st, row, SaveRow(k), k); }
  }

  /** WHERE A `def` BINDS, in every run from a form: at the root when its dynamic context
      holds no closure activation and no with-env `eval`, otherwise in the environment the
      `def` was evaluated in. */
  lemma {:induction false} DefBindsByContext(m: Rows, j: nat, form: Value, env0: EnvId, w0: World, k: Kont, w: World,
                                             name: Value, env: EnvId, v: Value, row: seq<EnvId>)
    requires Run(m, j, From(form, env0, w0)) == Ret(Answer(v), Push(BindF(name, env, false), k), w)
    requires Context(m, j, From(form, env0, w0), row, k)
    ensures Run(m, j + 1, From(form, env0, w0)) ==
              Ret(Answer(name), k,
                  World(Bind(w.store, if row == [] then ROOT else env, name, v), w.nextCont, w.snaps, w.noise + 1))
  {
    var st := From(form, env0, w0);
    var now := Run(m, j, st);
    SaveRowIsContext(m, j, form, env0, w0, now.k, row);
    RunRun(m, j, 1, st);
    assert Run(m, 1, now) == Run(m, 0, Step(m, now));
  }
}
