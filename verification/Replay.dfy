/** Replaying a snapshot is continuing the run.

A dead-extent continuation is re-entered by walking the control records that were
in flight at its capture, innermost first, at the top level. The records say
nothing of the save row, of the depth, or of the frames that leave no record; the
theorems here say when that loses nothing, against the machine's own
continuation. */
module Replay {
  import opened Options
  import opened Values
  import opened Nested
  import opened Machine
  import opened Adequacy
  import opened Quiet
  import opened Runs

  /** The context a replay runs in: nothing saved, nothing recorded, no evaluation
      on the stack. */
  const TOP := Ctx([], [], 0)

  /** Does `lit` still name the quoting row in `env`? */
  predicate QuotesIn(s: Store, env: EnvId) { Lookup(s, env, LIT) == Some(Prim(Lit)) }

  /** The noise of handing values over quoted: none where `lit` still quotes. */
  function Requoted(s: Store, env: EnvId): nat { if QuotesIn(s, env) then 0 else 1 }

  /** The argument forms still to come, evaluated without leaving records. */
  function FinishRow(m: Rows, n: nat, w: World, done: seq<Value>, rest: Value, env: EnvId): RowResult
    decreases rest
  {
    match rest
    case Pair(f, more) =>
      var r := Eval(m, n, Deeper(TOP), w, f, env);
      if r.out.Answer? then FinishRow(m, n, r.w, done + [r.out.v], more, env) else Cut(r.out, r.w)
    case _ => All(done, w)
  }

  /** Finish an argument row and apply. A row applied where `lit` names something
      else is counted as noise: the values reach the callee quoted. */
  function ResumeArgs(m: Rows, n: nat, w: World, r: Rec, v: Value): Result
    requires r.ArgsRec?
  {
    var a := FinishRow(m, n, w, r.done + [v], r.rest, r.env);
    if a.Cut? then Result(a.out, a.w)
    else
      var w1 := a.w.(noise := a.w.noise + Requoted(a.w.store, r.env));
      CallValues(m, n, TOP, w1, r.callee, Pad(a.vals, r.slots), r.env)
  }

  /** One record's remaining work. */
  function ResumeRec(m: Rows, n: nat, w: World, r: Rec, v: Value): Result {
    match r
    case PassRec(_) => Result(Answer(v), w)
    case BindRec(name, env, isSet, _) => FinishBind(TOP, w, name, env, isSet, v)
    case BodyRec(rest, env, _) =>
      if rest.Nil? then Result(Answer(v), w) else RunAll(m, n, TOP, w, rest, env)
    case ArgsRec(_, _, _, _, _, _) => ResumeArgs(m, n, w, r, v)
  }

  /** All the records, the last one first. */
  function ReplayRecs(m: Rows, n: nat, w: World, recs: seq<Rec>, v: Value): Result
    decreases |recs|
  {
    if recs == [] then Result(Answer(v), w)
    else
      var r := ResumeRec(m, n, w, recs[|recs| - 1], v);
      if r.out.Answer? then ReplayRecs(m, n, r.w, recs[..|recs| - 1], r.out.v) else r
  }

  /** An escape that met no live call/cc: replay its snapshot, or refuse. */
  function ResumeEscape(m: Rows, n: nat, w: World, id: nat, v: Value): Result {
    if id in w.snaps && w.snaps[id].resumable then ReplayRecs(m, n, w, w.snaps[id].recs, v)
    else Result(Fault(EngineMsg(MSG_NOT_RESUMABLE)), w)
  }

  /** Keep resuming while what comes back is again an escape. */
  function Resumed(m: Rows, n: nat, r: Result): Result
    decreases n
  {
    if !r.out.Escape? then r
    else if n == 0 then Result(Exhausted, r.w)
    else Resumed(m, n - 1, ResumeEscape(m, n - 1, r.w, r.out.id, r.out.v))
  }

  /** One top-level form. */
  function EvalTop(m: Rows, n: nat, w: World, form: Value): Result {
    Resumed(m, n, Eval(m, n, Deeper(TOP), w, form, ROOT))
  }

  // ----- which captures are accepted --------------------------------------------

  /** Every frame that waits on an evaluation of its own left a record. */
  predicate AllRecorded(k: Kont) {
    match k
    case Done => true
    case Push(f, k') => (Evaluating(f) ==> Recorded(f)) && AllRecorded(k')
  }

  /** Is `f` one of the frames of `k`? */
  predicate Waits(k: Kont, f: Frame) {
    k.Push? && (k.f == f || Waits(k.k, f))
  }

  /** The waiting evaluations that leave nothing behind: of a head, a test, a raised value,
      the parts of an `eval`, a settled tail; and of an argument of a list, of a
      continuation, or of an instruction that does not name itself. */
  predicate LeavesNone(f: Frame) {
    match f
    case HeadF(_, _) => true
    case TestF(_, _, _, _) => true
    case ErrorF => true
    case ExprF(_, _, _) => true
    case TargetF(_, _) => true
    case HereF(_) => true
    case SettleF => true
    case ArgsF(callee, _, _, _, _, _) =>
      (match callee
       case Closure(_, _, _) => false
       case Prim(Native(_, named)) => !named
       case Prim(_) => false
       case _ => true)
    case _ => false
  }

  /** WHICH CAPTURES ARE REFUSED: exactly those under a frame that leaves nothing. */
  lemma {:induction false} RefusedIff(k: Kont)
    ensures !AllRecorded(k) <==> exists f :: Waits(k, f) && LeavesNone(f)
  {
    if k.Push? {
      forall f | Waits(k.k, f) ensures Waits(k, f) {}
      RefusedIff(k.k);
      assert Waits(k, k.f);
      assert LeavesNone(k.f) <==> Evaluating(k.f) && !Recorded(k.f);
      if f :| Waits(k, f) && LeavesNone(f) { assert f == k.f || Waits(k.k, f); }
    }
  }

  lemma {:induction false} RecordCount(k: Kont)
    ensures |Control(k)| <= Depth(k)
    ensures |Control(k)| == Depth(k) <==> AllRecorded(k)
  {
    if k.Push? { RecordCount(k.k); }
  }

  /** `covers_every_frame` accepts a capture exactly when no frame of the
      suspended run went unrecorded; its test on the recorded depths then holds
      of itself. */
  lemma {:induction false} CoversIffAllRecorded(k: Kont)
    ensures Covers(Control(k), Depth(k) + 1) <==> AllRecorded(k)
  {
    RecordCount(k);
    if AllRecorded(k) { DepthsInOrder(k); }
  }

  lemma {:induction false} DepthsInOrder(k: Kont)
    requires AllRecorded(k)
    ensures |Control(k)| == Depth(k)
    ensures forall i :: 0 <= i < |Control(k)| ==> Control(k)[i].depth == i + 1
  {
    if k.Push? {
      DepthsInOrder(k.k);
      RecordCount(k);
    }
  }

  // ----- quoted values come back unchanged ------------------------------------------

  lemma {:induction false} QuoteIsProper(vals: seq<Value>)
    ensures Proper(Quote(vals))
  {
    if vals != [] { QuoteIsProper(vals[1..]); }
  }

  lemma {:induction false} QuoteEvaluates(m: Rows, n: nat, c: Ctx, w: World, callee: Value, done: seq<Value>,
                                          vals: seq<Value>, env: EnvId, k: nat)
    requires QuotesIn(w.store, env) && n >= 2
    ensures EvalArgs(m, n, c, w, callee, done, Quote(vals), env, k) == All(done + vals, w)
    decreases |vals|
  {
    if vals == [] {
      assert done + vals == done;
    } else {
      var form := Pair(LIT, Pair(vals[0], Nil));
      var u := ArgCtx(c, callee, done, Quote(vals[1..]), env, k);
      assert Eval(m, n - 1, Deeper(u), w, LIT, env) == Result(Answer(Prim(Lit)), w);
      assert Combine(m, n - 1, u, false, w, Prim(Lit), form.rest, env) == Result(Answer(vals[0]), w);
      assert Eval(m, n, u, w, form, env) == Result(Answer(vals[0]), w);
      QuoteEvaluates(m, n, c, w, callee, done + [vals[0]], vals[1..], env, k);
      assert done + [vals[0]] + vals[1..] == done + vals;
    }
  }

  /** A value handed over quoted costs two units of fuel. */
  lemma {:induction false} QuoteNeedsFuel(m: Rows, n: nat, c: Ctx, w: World, callee: Value, vals: seq<Value>,
                                          env: EnvId, k: nat)
    requires n < 2 && vals != []
    ensures EvalArgs(m, n, c, w, callee, [], Quote(vals), env, k) == Cut(Exhausted, w)
  {
    var form := Pair(LIT, Pair(vals[0], Nil));
    var u := ArgCtx(c, callee, [], Quote(vals[1..]), env, k);
    assert n == 1 ==> Eval(m, 0, Deeper(u), w, LIT, env) == Result(Exhausted, w);
    assert Eval(m, n, u, w, form, env) == Result(Exhausted, w);
  }

  lemma {:induction false} FinishIsArgs(m: Rows, n: nat, c: Ctx, w: World, callee: Value, done: seq<Value>, rest: Value,
                                        env: EnvId, k: nat)
    ensures var r := FinishRow(m, n, w, done, rest, env);
            && w.noise <= r.w.noise && Later(w, r.w)
            && (r.w.noise == w.noise ==> EvalArgs(m, n, c, w, callee, done, rest, env, k) == r)
            && (r.All? ==> |r.vals| >= |done|)
    decreases rest
  {
    if rest.Pair? {
      var u := ArgCtx(c, callee, done, rest.rest, env, k);
      EvalQuiet(m, n, Deeper(TOP), u, w, rest.first, env);
      var r := Eval(m, n, Deeper(TOP), w, rest.first, env);
      if r.out.Answer? {
        FinishIsArgs(m, n, c, r.w, callee, done + [r.out.v], rest.rest, env, k);
      }
    }
  }

  // ----- the theorem ------------------------------------------------------------------

  /** The machine hands `r` to `k`, or, fuel run out, is still at work after at
      least as many steps as the fuel, less the three a quoted value costs. */
  ghost predicate Continues(m: Rows, n: nat, j: nat, st: State, k: Kont, r: Result) {
    if r.out.Exhausted? then j + 3 >= n && !Halted(Run(m, j, st))
    else Run(m, j, st) == Ret(r.out, k, r.w)
  }

  /** A `def` record binds, at the top level, where its frame would bind. */
  predicate DefLands(f: Frame, k: Kont) { f.BindF? && !f.isSet && (SaveRow(k) == [] || f.env == ROOT) }

  /** Resuming a record does what handing the value to its frame does. */
  lemma {:induction false} FrameContinues(m: Rows, n: nat, f: Frame, k: Kont, w: World, v: Value) returns (j: nat)
    requires Recorded(f)
    requires f.ArgsF? ==> RowOk(m, f.callee, f.slots)
    requires f.AllF? ==> f.rest.Nil? || f.rest.Pair? || v == Nil
    requires f.BodyF? ==> f.rest.Pair?
    requires ResumeRec(m, n, w, RecOf(f, Depth(k) + 1), v).w.noise == w.noise || DefLands(f, k)
    ensures Continues(m, n, j, Ret(Answer(v), Push(f, k), w), k, ResumeRec(m, n, w, RecOf(f, Depth(k) + 1), v))
  {
    OneStep(m, Ret(Answer(v), Push(f, k), w));
    j := 1;
    match f
    case BodyF(_, _, _, _) => j := BodyContinues(m, n, f, k, w, v);
    case AllF(rest, env) => if rest.Pair? { j := AllContinues(m, n, f, k, w, v); }
    case ArgsF(_, _, _, _, _, _) => j := ArgsContinue(m, n, f, k, w, v);
    case _ =>
  }

  /** A step in front of a run that reaches `r`. */
  lemma StepContinues(m: Rows, n: nat, st: State, j: nat, k: Kont, r: Result)
    requires Reaches(m, n, j, Step(m, st), k, r)
    ensures Continues(m, n, j + 1, st, k, r)
  {
    OneStep(m, st);
    RunRun(m, 1, j, st);
  }

  lemma BodyContinues(m: Rows, n: nat, f: Frame, k: Kont, w: World, v: Value) returns (j: nat)
    requires f.BodyF? && f.rest.Pair?
    requires ResumeRec(m, n, w, RecOf(f, Depth(k) + 1), v).w.noise == w.noise
    ensures Continues(m, n, j, Ret(Answer(v), Push(f, k), w), k, ResumeRec(m, n, w, RecOf(f, Depth(k) + 1), v))
  {
    BodyIsAll(m, n, CtxOf(k), TOP, f.settled, f.save, w, f.rest, f.env);
    j := BodyLands(m, n, k, f.settled, f.save, w, f.rest, f.env);
    StepContinues(m, n, Ret(Answer(v), Push(f, k), w), j, k, RunAll(m, n, TOP, w, f.rest, f.env));
    j := j + 1;
  }

  lemma AllContinues(m: Rows, n: nat, f: Frame, k: Kont, w: World, v: Value) returns (j: nat)
    requires f.AllF? && f.rest.Pair?
    requires ResumeRec(m, n, w, RecOf(f, Depth(k) + 1), v).w.noise == w.noise
    ensures Continues(m, n, j, Ret(Answer(v), Push(f, k), w), k, ResumeRec(m, n, w, RecOf(f, Depth(k) + 1), v))
  {
    AllQuiet(m, n, TOP, CtxOf(k), w, f.rest, f.env);
    j := AllLands(m, n, k, w, f.rest, f.env);
    StepContinues(m, n, Ret(Answer(v), Push(f, k), w), j, k, RunAll(m, n, TOP, w, f.rest, f.env));
    j := j + 1;
  }

  lemma {:induction false} ArgsContinue(m: Rows, n: nat, f: Frame, k: Kont, w: World, v: Value) returns (j: nat)
    requires f.ArgsF? && Recorded(f) && RowOk(m, f.callee, f.slots)
    requires ResumeRec(m, n, w, RecOf(f, Depth(k) + 1), v).w.noise == w.noise
    ensures Continues(m, n, j, Ret(Answer(v), Push(f, k), w), k, ResumeRec(m, n, w, RecOf(f, Depth(k) + 1), v))
  {
    var st := Ret(Answer(v), Push(f, k), w);
    var a := FinishRow(m, n, w, f.done + [v], f.rest, f.env);
    FinishIsArgs(m, n, CtxOf(k), w, f.callee, f.done + [v], f.rest, f.env, f.slots);
    if a.All? { RowStays(m, n, f, a, w.noise); }
    j := ArgsLand(m, n, k, w, f.callee, f.done + [v], f.rest, f.env, f.slots, f.settled);
    OneStep(m, st);
    ArgsAfter(m, n, 1, st, j, k, f.callee, f.slots, f.settled, a);
    j := j + 1;
    if a.All? { j := RowContinues(m, n, f, k, a, st, j); }
  }

  /** A resumed row whose call adds no noise has added none, and found `lit` in place. */
  lemma {:induction false} RowStays(m: Rows, n: nat, f: Frame, a: RowResult, noise: nat)
    requires f.ArgsF? && Named(f.callee) && RowOk(m, f.callee, f.slots) && a.All? && a.vals != [] && noise <= a.w.noise
    requires var w1 := a.w.(noise := a.w.noise + Requoted(a.w.store, f.env));
             CallValues(m, n, TOP, w1, f.callee, Pad(a.vals, f.slots), f.env).w.noise == noise
    ensures a.w.noise == noise && QuotesIn(a.w.store, f.env)
    ensures a.w.(noise := a.w.noise + Requoted(a.w.store, f.env)) == a.w
  {
    var w1 := a.w.(noise := a.w.noise + Requoted(a.w.store, f.env));
    QuotedCall(m, n, TOP, true, w1, f.callee, Pad(a.vals, f.slots), f.env, f.slots);
  }

  /** From the end of a resumed row, the call. */
  lemma {:induction false} RowContinues(m: Rows, n: nat, f: Frame, k: Kont, a: RowResult, st: State, i: nat)
    returns (j: nat)
    requires f.ArgsF? && Named(f.callee) && RowOk(m, f.callee, f.slots) && a.All? && a.vals != []
    requires Run(m, i, st) == State(ApplyC(f.callee, Pad(a.vals, f.slots), f.settled), k, a.w) && !Halted(st)
    requires QuotesIn(a.w.store, f.env)
    requires CallValues(m, n, TOP, a.w, f.callee, Pad(a.vals, f.slots), f.env).w.noise == a.w.noise
    ensures Continues(m, n, j, st, k, CallValues(m, n, TOP, a.w, f.callee, Pad(a.vals, f.slots), f.env))
  {
    j := QuotedContinues(m, n, f, k, a.w, Pad(a.vals, f.slots));
    if n < 3 {
      j := 0;
    } else {
      RunRun(m, i, j, st);
      j := i + j;
    }
  }

  /** The call at the end of a resumed row does what the application does. */
  lemma {:induction false} QuotedContinues(m: Rows, n: nat, f: Frame, k: Kont, w: World, vals: seq<Value>)
    returns (j: nat)
    requires f.ArgsF? && Named(f.callee) && RowOk(m, f.callee, f.slots) && vals != [] && |vals| >= f.slots
    ensures w.noise <= CallValues(m, n, TOP, w, f.callee, vals, f.env).w.noise
    ensures QuotesIn(w.store, f.env) && n < 3 ==> CallValues(m, n, TOP, w, f.callee, vals, f.env).out.Exhausted?
    ensures var r := CallValues(m, n, TOP, w, f.callee, vals, f.env);
            QuotesIn(w.store, f.env) && n >= 3 && r.w.noise == w.noise ==>
              Reaches(m, n - 1, j, State(ApplyC(f.callee, vals, f.settled), k, w), k, r)
  {
    QuotedCall(m, n, CtxOf(k), f.settled, w, f.callee, vals, f.env, f.slots);
    j := 0;
    if n >= 3 { j := ApplyLands(m, n - 1, k, f.settled, w, f.callee, vals); }
  }

  /** Calling on quoted values is applying to them, three units of fuel later. */
  lemma {:induction false} QuotedCall(m: Rows, n: nat, c: Ctx, s: bool, w: World, callee: Value, vals: seq<Value>,
                                      env: EnvId, k: nat)
    requires RowOk(m, callee, k) && !callee.Pair? && vals != [] && |vals| >= k
    ensures w.noise <= CallValues(m, n, TOP, w, callee, vals, env).w.noise
    ensures QuotesIn(w.store, env) && n < 3 ==> CallValues(m, n, TOP, w, callee, vals, env).out.Exhausted?
    ensures QuotesIn(w.store, env) && n >= 3 && CallValues(m, n, TOP, w, callee, vals, env).w.noise == w.noise ==>
              CallValues(m, n, TOP, w, callee, vals, env) == ApplyVals(m, n - 1, c, s, w, callee, vals)
  {
    QuoteIsProper(vals);
    assert SlotsOf(m, callee, Quote(vals)) == k;
    if n >= 1 {
      CombineQuiet(m, n - 1, TOP, TOP, true, true, w, callee, Quote(vals), env);
      if n < 3 {
        QuoteNeedsFuel(m, n - 1, TOP, w, callee, vals, env, k);
      } else if QuotesIn(w.store, env) {
        QuoteEvaluates(m, n - 1, TOP, w, callee, [], vals, env, k);
        assert [] + vals == vals;
        ApplyQuiet(m, n - 1, TOP, c, true, s, w, callee, vals);
      }
    }
  }

  /** No live guard and no live call/cc. */
  predicate Bare(k: Kont) {
    match k
    case Done => true
    case Push(f, k') => !f.GuardF? && !f.CatchF? && Bare(k')
  }

  /** Every guarded body is a proper list. (With a dotted tail the replay answers
      nil where the run answers the value: see `GuardedBodyAgreesIff`.) */
  predicate ProperBodies(k: Kont) {
    match k
    case Done => true
    case Push(f, k') => (f.AllF? ==> f.rest.Nil? || f.rest.Pair?) && ProperBodies(k')
  }

  lemma {:induction false} BareUnwinds(m: Rows, k: Kont, out: Outcome, w: World) returns (j: nat)
    requires Bare(k) && !out.Answer?
    ensures Run(m, j, Ret(out, k, w)) == Ret(out, Done, w)
  {
    j := 0;
    if k.Push? {
      OneStep(m, Ret(out, k, w));
      var i := BareUnwinds(m, k.k, out, w);
      RunRun(m, 1, i, Ret(out, k, w));
      j := i + 1;
    }
  }

  /** May the records of `k` stand for `k` itself, from `w` with `v`? Record by record:
      what it resumes reads no dynamic context, or is a `def` that binds at the root
      either way; a dotted guarded body is handed nil; and a raise or an escape has no
      guard and no call/cc of the suspended run left to meet. */
  ghost predicate Replayable(m: Rows, n: nat, k: Kont, w: World, v: Value)
    decreases k
  {
    match k
    case Done => true
    case Push(f, k') =>
      if Recorded(f) then
        var r := ResumeRec(m, n, w, RecOf(f, Depth(k') + 1), v);
        && (r.w.noise == w.noise || DefLands(f, k'))
        && (f.AllF? ==> f.rest.Nil? || f.rest.Pair? || v == Nil)
        && (if r.out.Answer? then Replayable(m, n, k', r.w, r.out.v) else r.out.Exhausted? || Bare(k'))
      else Replayable(m, n, k', w, v)
  }

  /** REPLAY ADEQUACY. When every frame of a suspended run left a record and the records
      may stand for it, replaying them with any value, from any world, is letting the
      machine continue with that value: the same outcome and the same final world, and
      a replay that outlasts its fuel matches a continuation that outlasts it too. */
  lemma {:induction false} ReplayContinues(m: Rows, n: nat, k: Kont, b: nat, w: World, v: Value) returns (j: nat)
    requires WellFormed(m, k, b) && AllRecorded(k) && Replayable(m, n, k, w, v)
    ensures Continues(m, n, j, Ret(Answer(v), k, w), Done, ReplayRecs(m, n, w, Control(k), v))
    decreases k
  {
    if k.Done? {
      j := 0;
      return;
    }
    var f, k' := k.f, k.k;
    var b' := if f.CatchF? then f.id else b;
    if Recorded(f) {
      var r := ResumeRec(m, n, w, RecOf(f, Depth(k') + 1), v);
      var i := 0;
      if r.out.Answer? { i := ReplayContinues(m, n, k', b', r.w, r.out.v); }
      j := LastContinues(m, n, f, k', w, v, i);
    } else {
      OneStep(m, Ret(Answer(v), k, w));
      j := ReplayContinues(m, n, k', b', w, v);
      ThenContinues(m, n, 1, Ret(Answer(v), k, w), k', Result(Answer(v), w), j, ReplayRecs(m, n, w, Control(k), v));
      j := j + 1;
    }
  }

  /** The innermost record stands for its frame; the rest stands for the rest. */
  lemma LastContinues(m: Rows, n: nat, f: Frame, k: Kont, w: World, v: Value, i: nat) returns (j: nat)
    requires Recorded(f) && (f.ArgsF? ==> RowOk(m, f.callee, f.slots)) && (f.BodyF? ==> f.rest.Pair?)
    requires f.AllF? ==> f.rest.Nil? || f.rest.Pair? || v == Nil
    requires var r := ResumeRec(m, n, w, RecOf(f, Depth(k) + 1), v);
             && (r.w.noise == w.noise || DefLands(f, k))
             && if r.out.Answer? then
                  Continues(m, n, i, Ret(r.out, k, r.w), Done, ReplayRecs(m, n, r.w, Control(k), r.out.v))
                else r.out.Exhausted? || Bare(k)
    ensures Continues(m, n, j, Ret(Answer(v), Push(f, k), w), Done, ReplayRecs(m, n, w, Control(Push(f, k)), v))
  {
    var st := Ret(Answer(v), Push(f, k), w);
    var r := ResumeRec(m, n, w, RecOf(f, Depth(k) + 1), v);
    ReplayLast(m, n, w, f, k, v);
    j := FrameContinues(m, n, f, k, w, v);
    if r.out.Answer? {
      ThenContinues(m, n, j, st, k, r, i, ReplayRecs(m, n, r.w, Control(k), r.out.v));
      j := j + i;
    } else {
      j := EndContinues(m, n, j, st, k, r);
    }
  }

  /** What ends in no value passes a continuation with nothing to stop it. */
  lemma EndContinues(m: Rows, n: nat, j: nat, st: State, k: Kont, r: Result) returns (j': nat)
    requires Continues(m, n, j, st, k, r) && !r.out.Answer? && (r.out.Exhausted? || Bare(k))
    ensures Continues(m, n, j', st, Done, r)
  {
    j' := j;
    if !r.out.Exhausted? {
      var i := BareUnwinds(m, k, r.out, r.w);
      ThenContinues(m, n, j, st, k, r, i, r);
      j' := j + i;
    }
  }

  /** The innermost record resumes first, and its value goes to the rest. */
  lemma ReplayLast(m: Rows, n: nat, w: World, f: Frame, k: Kont, v: Value)
    requires Recorded(f)
    ensures var r := ResumeRec(m, n, w, RecOf(f, Depth(k) + 1), v);
            ReplayRecs(m, n, w, Control(Push(f, k)), v)
            == if r.out.Answer? then ReplayRecs(m, n, r.w, Control(k), r.out.v) else r
  {
    var recs := Control(Push(f, k));
    assert recs[|recs| - 1] == RecOf(f, Depth(k) + 1) && recs[..|recs| - 1] == Control(k);
  }

  /** One continuation after another. */
  lemma ThenContinues(m: Rows, n: nat, j: nat, st: State, k: Kont, r1: Result, i: nat, r: Result)
    requires Continues(m, n, j, st, k, r1) && !r1.out.Exhausted?
    requires Continues(m, n, i, Ret(r1.out, k, r1.w), Done, r)
    ensures Continues(m, n, j + i, st, Done, r)
  {
    RunRun(m, j, i, st);
  }

  /** Resuming a record never takes noise back, and writes no snapshot again. */
  lemma {:induction false} ResumeGrows(m: Rows, n: nat, w: World, r: Rec, v: Value)
    ensures w.noise <= ResumeRec(m, n, w, r, v).w.noise && Later(w, ResumeRec(m, n, w, r, v).w)
  {
    match r
    case BodyRec(rest, env, _) => AllQuiet(m, n, TOP, TOP, w, rest, env);
    case ArgsRec(callee, done, rest, env, slots, _) =>
      FinishIsArgs(m, n, TOP, w, callee, done + [v], rest, env, slots);
      var a := FinishRow(m, n, w, done + [v], rest, env);
      if a.All? && n > 0 && Callable(callee) {
        var w1 := a.w.(noise := a.w.noise + Requoted(a.w.store, env));
        CombineQuiet(m, n - 1, TOP, TOP, true, true, w1, callee, Quote(Pad(a.vals, slots)), env);
      }
    case _ =>
  }

  lemma {:induction false} ReplayGrows(m: Rows, n: nat, w: World, recs: seq<Rec>, v: Value)
    ensures w.noise <= ReplayRecs(m, n, w, recs, v).w.noise && Later(w, ReplayRecs(m, n, w, recs, v).w)
    decreases |recs|
  {
    if recs != [] {
      var r := ResumeRec(m, n, w, recs[|recs| - 1], v);
      ResumeGrows(m, n, w, recs[|recs| - 1], v);
      if r.out.Answer? { ReplayGrows(m, n, r.w, recs[..|recs| - 1], r.out.v); }
    }
  }

  /** A replay that adds no noise may stand for its continuation, when the guarded bodies
      are proper lists and nothing is left to stop a raise or an escape it ends in. */
  lemma {:induction false} QuietIsReplayable(m: Rows, n: nat, k: Kont, w: World, v: Value)
    requires ProperBodies(k)
    requires var r := ReplayRecs(m, n, w, Control(k), v);
             r.w.noise == w.noise && (r.out.Answer? || r.out.Exhausted? || Bare(k))
    ensures Replayable(m, n, k, w, v)
    decreases k
  {
    if k.Push? {
      var f, k' := k.f, k.k;
      if Recorded(f) {
        ReplayLast(m, n, w, f, k', v);
        var r1 := ResumeRec(m, n, w, RecOf(f, Depth(k') + 1), v);
        ResumeGrows(m, n, w, RecOf(f, Depth(k') + 1), v);
        if r1.out.Answer? {
          ReplayGrows(m, n, r1.w, Control(k'), r1.out.v);
          QuietIsReplayable(m, n, k', r1.w, r1.out.v);
        }
      } else {
        QuietIsReplayable(m, n, k', w, v);
      }
    }
  }

  /** The capture side. In a run from any form, in any world whose snapshots were minted
      before, take the state about to capture. If the snapshot it leaves is marked
      resumable, that snapshot replays as the very continuation the machine held there. */
  lemma {:induction false} CaptureReplays(m: Rows, i: nat, form: Value, env: EnvId, w0: World, n: nat, w: World,
                                          v: Value) returns (j: nat)
    requires forall id :: id in w0.snaps ==> id < w0.nextCont
    requires var st := Run(m, i, State(EvalC(form, env), Done, w0));
             && st.code.ApplyC? && st.code.callee == Prim(CallCC)
             && Step(m, st).w.snaps[st.w.nextCont].resumable
             && Replayable(m, n, st.k, w, v)
    ensures var st := Run(m, i, State(EvalC(form, env), Done, w0));
            var recs := Step(m, st).w.snaps[st.w.nextCont].recs;
            Continues(m, n, j, Ret(Answer(v), st.k, w), Done, ReplayRecs(m, n, w, recs, v))
  {
    var st := Run(m, i, State(EvalC(form, env), Done, w0));
    RunKeepsOk(m, i, State(EvalC(form, env), Done, w0));
    CoversIffAllRecorded(st.k);
    j := ReplayContinues(m, n, st.k, st.w.nextCont, w, v);
  }

  ghost predicate ReplayEnds(m: Rows, n: nat, k: Kont, w: World, v: Value) {
    !ReplayRecs(m, n, w, Control(k), v).out.Exhausted?
  }

  ghost predicate RunEnds(m: Rows, j: nat, k: Kont, w: World, v: Value) {
    Halted(Run(m, j, Ret(Answer(v), k, w)))
  }

  ghost predicate Agree(m: Rows, n: nat, j: nat, k: Kont, w: World, v: Value) {
    var r := ReplayRecs(m, n, w, Control(k), v);
    Run(m, j, Ret(Answer(v), k, w)) == Ret(r.out, Done, r.w)
  }

  /** Both ways at once: where the records may stand for the continuation whatever the
      fuel, the replay ends for some fuel exactly when the continuation ends, and then
      they agree. */
  lemma {:induction false} ReplayEndsIffRunEnds(m: Rows, k: Kont, b: nat, w: World, v: Value)
    requires WellFormed(m, k, b) && AllRecorded(k)
    requires forall n: nat :: Replayable(m, n, k, w, v)
    ensures (exists n: nat :: ReplayEnds(m, n, k, w, v)) <==> (exists j: nat :: RunEnds(m, j, k, w, v))
    ensures forall n: nat, j: nat :: ReplayEnds(m, n, k, w, v) && RunEnds(m, j, k, w, v) ==> Agree(m, n, j, k, w, v)
  {
    var st := Ret(Answer(v), k, w);
    forall n: nat | ReplayEnds(m, n, k, w, v)
      ensures exists j: nat :: RunEnds(m, j, k, w, v)
      ensures forall j: nat :: RunEnds(m, j, k, w, v) ==> Agree(m, n, j, k, w, v)
    {
      var i := ReplayContinues(m, n, k, b, w, v);
      assert RunEnds(m, i, k, w, v);
      forall j: nat | RunEnds(m, j, k, w, v) ensures Agree(m, n, j, k, w, v) {
        HaltsOnce(m, i, j, st);
      }
    }
    forall j: nat | RunEnds(m, j, k, w, v)
      ensures exists n: nat :: ReplayEnds(m, n, k, w, v)
    {
      var n: nat := j + 4;
      var i := ReplayContinues(m, n, k, b, w, v);
      if !ReplayEnds(m, n, k, w, v) {
        RunRun(m, j, i - j, st);
        HaltedStays(m, i - j, Run(m, j, st));
      }
    }
  }

  lemma {:induction false} HaltsOnce(m: Rows, i: nat, j: nat, st: State)
    requires Halted(Run(m, i, st)) && Halted(Run(m, j, st))
    ensures Run(m, i, st) == Run(m, j, st)
  {
    if i <= j {
      RunRun(m, i, j - i, st);
      HaltedStays(m, j - i, Run(m, i, st));
    } else {
      RunRun(m, j, i - j, st);
      HaltedStays(m, i - j, Run(m, j, st));
    }
  }

  // ----- where a record and its frame part ---------------------------------------------

  /** What a guarded body's frame does with the value of a form: the forms left, or,
      when none is, the value itself. */
  function AfterAll(m: Rows, n: nat, c: Ctx, w: World, rest: Value, env: EnvId, v: Value): Result {
    if rest.Pair? then RunAll(m, n, c, w, rest, env) else Result(Answer(v), w)
  }

  lemma {:induction false} AllFrameDoes(m: Rows, n: nat, k: Kont, w: World, rest: Value, env: EnvId, v: Value)
    returns (j: nat)
    ensures Continues(m, n, j, Ret(Answer(v), Push(AllF(rest, env), k), w), k,
        AfterAll(m, n, CtxOf(k), w, rest, env, v))
  {
    var st := Ret(Answer(v), Push(AllF(rest, env), k), w);
    OneStep(m, st);
    j := 1;
    if rest.Pair? {
      var i := AllLands(m, n, k, w, rest, env);
      RunRun(m, 1, i, st);
      j := i + 1;
    }
  }

  /** WHEN A GUARDED BODY'S RECORD AGREES WITH ITS FRAME, in what it is worth and in what
      the machine does: exactly when the rest is a list, nil included, or the value is
      nil. (A dotted rest is no form to the evaluation and a body of no forms, worth nil,
      to the replay.) */
  lemma {:induction false} GuardedBodyAgreesIff(m: Rows, n: nat, k: Kont, w: World, rest: Value, env: EnvId, v: Value)
    returns (j: nat)
    requires ResumeRec(m, n, w, RecOf(AllF(rest, env), Depth(k) + 1), v).w.noise == w.noise
    ensures ResumeRec(m, n, w, RecOf(AllF(rest, env), Depth(k) + 1), v) == AfterAll(m, n, CtxOf(k), w, rest, env, v)
            <==> rest.Nil? || rest.Pair? || v == Nil
    ensures Continues(m, n, j, Ret(Answer(v), Push(AllF(rest, env), k), w), k,
                      ResumeRec(m, n, w, RecOf(AllF(rest, env), Depth(k) + 1), v))
            <==> rest.Nil? || rest.Pair? || v == Nil
  {
    AllQuiet(m, n, TOP, CtxOf(k), w, rest, env);
    j := AllFrameDoes(m, n, k, w, rest, env, v);
  }

  /** Does frame `e` already bind `name` to `v`, or not exist? Then binding it changes
      nothing. */
  predicate Holds(s: Store, e: EnvId, name: Value, v: Value) {
    e < |s| ==> name in s[e].cells && s[e].cells[name] == v
  }

  lemma BindsAlike(s: Store, e: EnvId, e': EnvId, name: Value, v: Value)
    ensures Bind(s, e, name, v) == Bind(s, e', name, v) <==> e == e' || (Holds(s, e, name, v) && Holds(s, e', name, v))
  {
    BindStays(s, e, name, v);
    BindStays(s, e', name, v);
    if e != e' && Bind(s, e, name, v) == Bind(s, e', name, v) {
      assert e < |s| ==> Bind(s, e', name, v)[e] == s[e];
      assert e' < |s| ==> Bind(s, e, name, v)[e'] == s[e'];
    }
  }

  lemma BindStays(s: Store, e: EnvId, name: Value, v: Value)
    ensures Holds(s, e, name, v) <==> Bind(s, e, name, v) == s
    ensures |Bind(s, e, name, v)| == |s|
    ensures e < |s| ==> name in Bind(s, e, name, v)[e].cells && Bind(s, e, name, v)[e].cells[name] == v
  {
    if e < |s| {
      if Holds(s, e, name, v) {
        assert s[e].cells[name := v] == s[e].cells;
        assert Bind(s, e, name, v)[e] == s[e];
      } else {
        assert Bind(s, e, name, v)[e].cells != s[e].cells;
      }
    }
  }

  /** WHEN A `def` RECORD AGREES WITH ITS FRAME: exactly when no save was active, or the
      frame is the root, or both frames already bind the name to the value. */
  lemma {:induction false} DefRecordLandsIff(m: Rows, n: nat, k: Kont, w: World, name: Value, env: EnvId, v: Value)
    ensures var r := ResumeRec(m, n, w, BindRec(name, env, false, Depth(k) + 1), v);
            Run(m, 1, Ret(Answer(v), Push(BindF(name, env, false), k), w)) == Ret(r.out, k, r.w)
            <==> DefLands(BindF(name, env, false), k) || (Holds(w.store, ROOT, name, v) && Holds(w.store, env, name, v))
  {
    OneStep(m, Ret(Answer(v), Push(BindF(name, env, false), k), w));
    BindsAlike(w.store, ROOT, env, name, v);
  }

  // ----- a run where they part ----------------------------------------------------------

  /** `(guard () (call/cc 1) . tail)`, its instructions already in place. */
  function DottedGuard(tail: Value): Value {
    Pair(Prim(Guard), Pair(Nil, Pair(Pair(Prim(CallCC), Pair(Int(1), Nil)), tail)))
  }

  /** An instruction in head position is combined with its arguments in three steps. */
  lemma HeadRuns(m: Rows, row: Row, args: Value, env: EnvId, k: Kont, w: World)
    ensures Run(m, 3, State(EvalC(Pair(Prim(row), args), env), k, w))
        == State(CombineC(Prim(row), args, env, false), k, w)
  {
    var form := Pair(Prim(row), args);
    var s0 := State(EvalC(form, env), k, w);
    var s1 := State(EvalC(Prim(row), env), Push(HeadF(form, env), k), w);
    assert Step(m, s0) == s1;
    assert Step(m, s1) == Ret(Answer(Prim(row)), Push(HeadF(form, env), k), w);
    assert Run(m, 3, s0) == Run(m, 2, s1) == Run(m, 1, Step(m, s1)) == Run(m, 0, Step(m, Step(m, s1)));
  }

  /** `(call/cc 1)` comes to its capture, on the stack it was evaluated on. */
  lemma CaptureRuns(m: Rows, env: EnvId, k: Kont, w: World)
    ensures Run(m, 8, State(EvalC(Pair(Prim(CallCC), Pair(Int(1), Nil)), env), k, w))
            == State(ApplyC(Prim(CallCC), [Int(1)], false), k, w)
  {
    var callee, args := Prim(CallCC), Pair(Int(1), Nil);
    var s0 := State(EvalC(Pair(callee, args), env), k, w);
    HeadRuns(m, CallCC, args, env, k, w);
    var s3 := State(CombineC(callee, args, env, false), k, w);
    var s4 := State(ArgsC(callee, [], args, env, 1, false), k, w);
    var s5 := State(EvalC(Int(1), env), Push(ArgsF(callee, [], Nil, env, 1, false), k), w);
    var s6 := Ret(Answer(Int(1)), Push(ArgsF(callee, [], Nil, env, 1, false), k), w);
    var s7 := State(ArgsC(callee, [Int(1)], Nil, env, 1, false), k, w);
    assert Step(m, s3) == s4 && Step(m, s4) == s5 && Step(m, s5) == s6;
    assert [] + [Int(1)] == [Int(1)];
    assert Step(m, s6) == s7 && Step(m, s7) == State(ApplyC(callee, [Int(1)], false), k, w);
    assert Run(m, 5, s3) == Run(m, 4, s4) == Run(m, 3, s5) == Run(m, 2, s6) == Run(m, 1, s7) == Run(m, 0, Step(m, s7));
    RunRun(m, 3, 5, s0);
  }

  /** A guarded body that ends in `tail`, one form of it waiting. */
  function DottedStack(tail: Value): Kont { Push(AllF(tail, ROOT), Push(GuardF(Nil, ROOT, false), Done)) }

  lemma DottedCaptures(m: Rows, tail: Value, w: World)
    ensures Run(m, 13, From(DottedGuard(tail), ROOT, w))
            == State(ApplyC(Prim(CallCC), [Int(1)], false), DottedStack(tail), w)
  {
    var args := Pair(Nil, Pair(Pair(Prim(CallCC), Pair(Int(1), Nil)), tail));
    var s0, k := From(DottedGuard(tail), ROOT, w), DottedStack(tail);
    HeadRuns(m, Guard, args, ROOT, Done, w);
    var s3 := State(CombineC(Prim(Guard), args, ROOT, false), Done, w);
    var s4 := State(AllC(args.rest, ROOT), k.k, w);
    assert Step(m, s3) == s4 && Step(m, s4) == State(EvalC(args.rest.first, ROOT), k, w);
    assert Run(m, 2, s3) == Run(m, 1, s4) == Run(m, 0, Step(m, s4));
    CaptureRuns(m, ROOT, k, w);
    RunRun(m, 3, 2, s0);
    RunRun(m, 5, 8, s0);
  }

  /** What a capture leaves. */
  lemma CaptureLeaves(m: Rows, vals: seq<Value>, s: bool, k: Kont, w: World)
    ensures Step(m, State(ApplyC(Prim(CallCC), vals, s), k, w)).w.snaps
            == w.snaps[w.nextCont := Snapshot(Control(k), Covers(Control(k), Depth(k) + 1))]
  {}

  /** A WHOLE RUN WHERE REPLAY AND CONTINUATION PART, for every dotted tail: guarding
      `(call/cc 1)` with the tail captures at step 13 a snapshot marked resumable. Handed a
      value, the run answers it two steps later; replaying the snapshot answers nil. */
  lemma {:induction false} DottedBodyReplaysNil(m: Rows, n: nat, tail: Value, w0: World, w: World, v: Value)
    requires !tail.Nil? && !tail.Pair?
    ensures var st := Run(m, 13, From(DottedGuard(tail), ROOT, w0));
            var snaps := Step(m, st).w.snaps;
            && st.code == ApplyC(Prim(CallCC), [Int(1)], false)
            && st.w.nextCont in snaps && snaps[st.w.nextCont].resumable
            && ReplayRecs(m, n, w, snaps[st.w.nextCont].recs, v) == Result(Answer(Nil), w)
            && Run(m, 2, Ret(Answer(v), st.k, w)) == Ret(Answer(v), Done, w)
  {
    var k := DottedStack(tail);
    DottedCaptures(m, tail, w0);
    CaptureLeaves(m, [Int(1)], false, k, w0);
    CoversIffAllRecorded(k);
    DottedReplays(m, n, tail, w, v);
    DottedAnswers(m, tail, w, v);
  }

  lemma DottedReplays(m: Rows, n: nat, tail: Value, w: World, v: Value)
    requires !tail.Nil? && !tail.Pair?
    ensures ReplayRecs(m, n, w, Control(DottedStack(tail)), v) == Result(Answer(Nil), w)
  {
    var k := DottedStack(tail);
    ReplayLast(m, n, w, k.f, k.k, v);
    assert Control(k.k) == [];
  }

  lemma DottedAnswers(m: Rows, tail: Value, w: World, v: Value)
    requires !tail.Nil? && !tail.Pair?
    ensures Run(m, 2, Ret(Answer(v), DottedStack(tail), w)) == Ret(Answer(v), Done, w)
  {
    var k := DottedStack(tail);
    assert Step(m, Ret(Answer(v), k, w)) == Ret(Answer(v), k.k, w);
    assert Step(m, Ret(Answer(v), k.k, w)) == Ret(Answer(v), Done, w);
    assert Run(m, 2, Ret(Answer(v), k, w)) == Run(m, 1, Ret(Answer(v), k.k, w)) == Run(m, 0, Ret(Answer(v), Done, w));
  }
}
