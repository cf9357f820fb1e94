/** The rest of a run, made explicit.

A machine state is a piece of code still to run, the world, and a continuation:
the frames suspended on the engine's own call stack, innermost first. Every
recursion site of the evaluator is a frame here, those that leave no control
record included, so the continuation is what the engine would have to copy if it
could copy its stack. */
module Machine {
  import opened Options
  import opened Values
  import opened Nested

  datatype Frame =
    | HeadF(form: Value, env: EnvId)                 // a list form waiting on its head
    | ArgsF(callee: Value, done: seq<Value>, rest: Value, env: EnvId, slots: nat, settled: bool)
    | BodyF(save: Option<EnvId>, rest: Value, env: EnvId, settled: bool)
    | AllF(rest: Value, env: EnvId)                  // a body with no tail position
    | BindF(name: Value, env: EnvId, isSet: bool)
    | PassF(target: Option<EnvId>)                   // `(eval form env)`, or `eval!`
    | TestF(arm: Value, more: Value, env: EnvId, settled: bool)
    | ErrorF
    | ExprF(args: Value, env: EnvId, settled: bool)  // `eval` waiting on its expression
    | TargetF(expr: Value, env: EnvId)               // `eval` waiting on its environment
    | HereF(env: EnvId)                              // `eval!` waiting on its expression
    | SettleF                                        // a tail run to a value for its caller
    | CatchF(id: nat)                                // a live call/cc
    | GuardF(spec: Value, env: EnvId, settled: bool) // a live guard

  datatype Kont = Done | Push(f: Frame, k: Kont)

  datatype Code =
    | EvalC(form: Value, env: EnvId)
    | CombineC(callee: Value, args: Value, env: EnvId, settled: bool)
    | ArgsC(callee: Value, done: seq<Value>, rest: Value, env: EnvId, slots: nat, settled: bool)
    | ApplyC(callee: Value, vals: seq<Value>, settled: bool)
    | BodyC(save: Option<EnvId>, forms: Value, env: EnvId, settled: bool)
    | AllC(forms: Value, env: EnvId)
    | MatchC(arms: Value, env: EnvId, settled: bool)
    | CallC(callee: Value, vals: seq<Value>, env: EnvId)
    | RetC(out: Outcome)

  datatype State = State(code: Code, k: Kont, w: World)

  // ----- what the engine's stacks hold, read off the continuation ---------------

  /** Does this frame wait on a nested evaluation of its own? A live guard and a
      live call/cc do not: they wait on a frame of the same evaluation. */
  predicate Evaluating(f: Frame) { !f.CatchF? && !f.GuardF? }

  predicate Recorded(f: Frame) {
    f.BodyF? || f.AllF? || f.BindF? || f.PassF? || (f.ArgsF? && Named(f.callee))
  }

  function RecOf(f: Frame, depth: nat): Rec
    requires Recorded(f)
  {
    match f
    case ArgsF(callee, done, rest, env, slots, _) => ArgsRec(callee, done, rest, env, slots, depth)
    case BodyF(_, rest, env, _) => BodyRec(rest, env, depth)
    case AllF(rest, env) => BodyRec(rest, env, depth)
    case BindF(name, env, isSet) => BindRec(name, env, isSet, depth)
    case PassF(_) => PassRec(depth)
  }

  function SaveOfFrame(f: Frame): Option<EnvId> {
    match f
    case BodyF(save, _, _, _) => save
    case PassF(target) => target
    case _ => None
  }

  /** How many evaluations the continuation holds. */
  function Depth(k: Kont): nat {
    match k
    case Done => 0
    case Push(f, k') => Depth(k') + if Evaluating(f) then 1 else 0
  }

  function Control(k: Kont): seq<Rec> {
    match k
    case Done => []
    case Push(f, k') => if Recorded(f) then Control(k') + [RecOf(f, Depth(k') + 1)] else Control(k')
  }

  function SaveRow(k: Kont): seq<EnvId> {
    match k
    case Done => []
    case Push(f, k') => (if SaveOfFrame(f).Some? then [SaveOfFrame(f).value] else []) + SaveRow(k')
  }

  /** The dynamic context of code running on top of `k`. */
  function CtxOf(k: Kont): Ctx { Ctx(SaveRow(k), Control(k), Depth(k) + 1) }

  // ----- steps -----------------------------------------------------------------

  function Ret(out: Outcome, k: Kont, w: World): State { State(RetC(out), k, w) }

  /** A tail form: evaluated by the waiting loop itself, or under a settling frame. */
  function Tail(form: Value, env: EnvId, settled: bool, k: Kont, w: World): State {
    State(EvalC(form, env), if settled then Push(SettleF, k) else k, w)
  }

  predicate Halted(st: State) { st.code.RetC? && st.k.Done? }

  function Step(m: Rows, st: State): State {
    var k, w := st.k, st.w;
    match st.code
    case EvalC(form, env) =>
      (match form
       case Sym(_) => Ret(EvalSym(w.store, form, env), k, w)
       case Pair(head, _) => State(EvalC(head, env), Push(HeadF(form, env), k), w)
       case _ => Ret(Answer(form), k, w))
    case CombineC(callee, args, env, s) => StepCombine(m, callee, args, env, s, k, w)
    case ArgsC(callee, done, rest, env, slots, s) =>
      if rest.Pair? then
        State(EvalC(rest.first, env), Push(ArgsF(callee, done, rest.rest, env, slots, s), k), w)
      else State(ApplyC(callee, Pad(done, slots), s), k, w)
    case ApplyC(callee, vals, s) => StepApply(m, callee, vals, s, k, w)
    case BodyC(save, forms, env, s) =>
      if !forms.Pair? then Ret(Answer(Nil), k, w)
      else if forms.rest.Pair? then
        State(EvalC(forms.first, env), Push(BodyF(save, forms.rest, env, s), k), w)
      else Tail(forms.first, env, s, k, w)
    case AllC(forms, env) =>
      if !forms.Pair? then Ret(Answer(Nil), k, w)
      else State(EvalC(forms.first, env), Push(AllF(forms.rest, env), k), w)
    case MatchC(arms, env, s) =>
      if !arms.Pair? then Ret(Answer(Nil), k, w)
      else if arms.first.Pair? then
        State(EvalC(arms.first.first, env), Push(TestF(arms.first.rest, arms.rest, env, s), k), w)
      else State(MatchC(arms.rest, env, s), k, w)
    case CallC(callee, vals, env) =>
      if Callable(callee) then State(CombineC(callee, Quote(vals), env, true), k, w)
      else Ret(Answer(callee), k, w)
    case RetC(out) => if k.Done? then st else Resume(m, k.f, out, k.k, w)
  }

  function StepCombine(m: Rows, callee: Value, args: Value, env: EnvId, s: bool, k: Kont, w: World): State {
    if callee.Pair? && args == Nil then Ret(Answer(Nil), k, w)
    else if Applicative(callee) then
      if !Proper(args) then Ret(Fault(EngineMsg(MSG_IMPROPER_ARGS)), k, w)
      else State(ArgsC(callee, [], args, env, SlotsOf(m, callee, args), s), k, w)
    else match callee
      case Operative(params, envName, body, defEnv) =>
        var frame := |w.store|;
        var s1 := BindSpine(PushFrame(w.store, defEnv), frame, params, args);
        var s2 := if envName == Nil then s1 else Bind(s1, frame, envName, EnvObj(env));
        State(BodyC(None, body, frame, s), k, WithStore(w, s2))
      case Prim(row) => StepRow(row, args, env, s, k, w)
      case _ => Ret(Answer(callee), k, w)
  }

  function StepApply(m: Rows, callee: Value, vals: seq<Value>, s: bool, k: Kont, w: World): State {
    var v0 := if |vals| > 0 then vals[0] else Nil;
    var v1 := if |vals| > 1 then vals[1] else Nil;
    match callee
    case Closure(params, body, defEnv) =>
      var frame := |w.store|;
      var s1 := BindParams(PushFrame(w.store, defEnv), frame, params, [callee] + vals);
      State(BodyC(Some(frame), body, frame, s), k, WithStore(w, s1))
    case Cont(id) => Ret(Escape(id, v0), k, w)
    case Prim(CallCC) =>
      var id := w.nextCont;
      var snap := Snapshot(Control(k), Covers(Control(k), Depth(k) + 1));
      State(CallC(v0, [Cont(id)], ROOT), Push(CatchF(id), k),
            World(w.store, id + 1, w.snaps[id := snap], w.noise + 1))
    case Prim(TailEval) =>
      if v1.EnvObj? then Tail(v0, v1.env, s, k, w) else Ret(Fault(NotAnEnvironment(v1)), k, w)
    case Prim(Native(i, _)) =>
      (match m.run(i, vals)
       case Computed(v) => Ret(Answer(v), k, w)
       case Refused(cond) => Ret(Fault(cond), k, w))
    case _ => Ret(Answer(m.list(callee, vals)), k, w)
  }

  function StepRow(row: Row, args: Value, env: EnvId, s: bool, k: Kont, w: World): State {
    var a0 := Nth(args, 0);
    match row
    case Lit => Ret(Answer(a0), k, w)
    case Fn => Ret(Answer(Closure(a0, RestOf(args), env)), k, w)
    case Op => Ret(Answer(Operative(a0, Nth(args, 1), RestOf(RestOf(args)), env)), k, w)
    case SetBang => State(EvalC(Nth(args, 1), env), Push(BindF(a0, env, true), k), w)
    case Def => State(EvalC(Nth(args, 1), env), Push(BindF(a0, env, false), k), w)
    case Seq => State(BodyC(None, args, env, s), k, w)
    case Match => State(MatchC(args, env, s), k, w)
    case Guard => State(AllC(RestOf(args), env), Push(GuardF(a0, env, s), k), w)
    case Error => State(EvalC(a0, env), Push(ErrorF, k), w)
    case EvalIn => State(EvalC(a0, env), Push(ExprF(args, env, s), k), w)
    case EvalHere => State(EvalC(a0, env), Push(HereF(env), k), w)
    case _ => Ret(Answer(Prim(row)), k, w)
  }

  /** Hand an outcome to the innermost frame. */
  function Resume(m: Rows, f: Frame, out: Outcome, k: Kont, w: World): State {
    match out
    case Answer(v) => ResumeValue(m, f, v, k, w)
    case Fault(c) =>
      if f.GuardF? then
        var frame := |w.store|;
        var s1 := PushFrame(w.store, f.env);
        var s2 := if FirstOf(f.spec) == Nil then s1 else Bind(s1, frame, FirstOf(f.spec), CondValue(c));
        State(BodyC(None, RestOf(f.spec), frame, f.settled), k, WithStore(w, s2))
      else Ret(out, k, w)
    case Escape(id, v) =>
      if f.CatchF? && f.id == id then Ret(Answer(v), k, w) else Ret(out, k, w)
    case Exhausted => Ret(out, k, w)
  }

  function ResumeValue(m: Rows, f: Frame, v: Value, k: Kont, w: World): State {
    match f
    case HeadF(form, env) =>
      if Callable(v) then State(CombineC(v, RestOf(form), env, false), k, w) else Ret(Answer(form), k, w)
    case ArgsF(callee, done, rest, env, slots, s) =>
      State(ArgsC(callee, done + [v], rest, env, slots, s), k, w)
    case BodyF(save, rest, env, s) => State(BodyC(save, rest, env, s), k, w)
    case AllF(rest, env) => if rest.Pair? then State(AllC(rest, env), k, w) else Ret(Answer(v), k, w)
    case BindF(name, env, isSet) =>
      var r := FinishBind(CtxOf(k), w, name, env, isSet, v);
      Ret(r.out, k, r.w)
    case TestF(arm, more, env, s) =>
      if Truthy(v) then State(BodyC(None, arm, env, s), k, w) else State(MatchC(more, env, s), k, w)
    case ErrorF => Ret(Fault(Raised(v)), k, w)
    case ExprF(args, env, s) =>
      if RestOf(args) == Nil then Tail(v, env, s, k, w)
      else State(EvalC(FirstOf(RestOf(args)), env), Push(TargetF(v, env), k), w)
    case TargetF(expr, env) =>
      var target := TargetOf(v, env);
      State(EvalC(expr, target), Push(PassF(Some(target)), k), w)
    case HereF(env) => State(EvalC(v, env), Push(PassF(None), k), w)
    case _ => Ret(Answer(v), k, w)
  }

  /** The state after `j` steps. */
  function Run(m: Rows, j: nat, st: State): State
    decreases j
  {
    if j == 0 then st else Run(m, j - 1, Step(m, st))
  }

  function Max(a: nat, b: nat): nat { if a < b then b else a }

  /** The most evaluations on the stack at any point of `j` steps. */
  function Peak(m: Rows, j: nat, st: State): nat
    decreases j
  {
    if j == 0 then Depth(st.k) else Max(Depth(st.k), Peak(m, j - 1, Step(m, st)))
  }

  lemma {:induction false} RunRun(m: Rows, i: nat, j: nat, st: State)
    ensures Run(m, j, Run(m, i, st)) == Run(m, i + j, st)
    ensures Peak(m, i + j, st) == Max(Peak(m, i, st), Peak(m, j, Run(m, i, st)))
    decreases i
  {
    if i != 0 {
      RunRun(m, i - 1, j, Step(m, st));
    } else if j != 0 {
      assert Peak(m, j, st) >= Depth(st.k);
    }
  }

  /** The peak bounds every point. */
  lemma {:induction false} PeakBounds(m: Rows, i: nat, j: nat, st: State)
    requires i <= j
    ensures Depth(Run(m, i, st).k) <= Peak(m, j, st)
    decreases i
  {
    if i != 0 { PeakBounds(m, i - 1, j - 1, Step(m, st)); }
  }

  lemma {:induction false} HaltedStays(m: Rows, j: nat, st: State)
    requires Halted(st)
    ensures Run(m, j, st) == st
    decreases j
  {
    if j != 0 { HaltedStays(m, j - 1, st); }
  }

  /** Handing a value to a frame pushes at most one more. */
  lemma ResumeDepth(m: Rows, f: Frame, v: Value, k: Kont, w: World)
    ensures Depth(ResumeValue(m, f, v, k, w).k) <= Depth(k) + 1
  {}
}
