/** The reference evaluator: every form, a tail form included, is evaluated by an
ordinary nested call.

Nothing here is a stack that is pushed and popped. What the engine keeps on its
save row, its control-record stack and its evaluation counter arrives as the
argument `c`, so the stacks are right by construction and the engine's own
push-and-pop code is proved against them. An escaping continuation is an outcome
of its own, not a flag beside a raise. Recursion is bounded by the fuel `n`. */
module Nested {
  import opened Options
  import opened Values

  /** A control record: enough of one suspended evaluation to finish it from its value. */
  datatype Rec =
    | BodyRec(rest: Value, env: EnvId, depth: nat)
    | ArgsRec(callee: Value, done: seq<Value>, rest: Value, env: EnvId, slots: nat, depth: nat)
    | BindRec(name: Value, env: EnvId, isSet: bool, depth: nat)
    | PassRec(depth: nat)

  datatype Snapshot = Snapshot(recs: seq<Rec>, resumable: bool)

  /** The dynamic context of an evaluation: the environments whose saves are
      active, the control records in flight (outermost first) and how many
      evaluations are on the stack, this one included. */
  datatype Ctx = Ctx(save: seq<EnvId>, control: seq<Rec>, depth: nat)

  /** What evaluation changes. `noise` counts what has read the dynamic context: the
      `def`s and the captures. */
  datatype World = World(store: Store, nextCont: nat, snaps: map<nat, Snapshot>, noise: nat)

  datatype Outcome =
    | Answer(v: Value)
    | Fault(c: Cond)
    | Escape(id: nat, v: Value)
    | Exhausted

  datatype Result = Result(out: Outcome, w: World)

  /** An argument row: all its values, or the outcome that cut it short. */
  datatype RowResult = All(vals: seq<Value>, w: World) | Cut(out: Outcome, w: World)

  function Deeper(c: Ctx): Ctx { c.(depth := c.depth + 1) }

  function Under(c: Ctx, r: Rec): Ctx {
    c.(control := c.control + [r], depth := c.depth + 1)
  }

  function Saved(c: Ctx, save: Option<EnvId>): Ctx {
    if save.Some? then c.(save := [save.value] + c.save) else c
  }

  /** Where a tail form runs: in the caller's own loop, or one evaluation deeper
      when the caller settles it. */
  function TailCtx(c: Ctx, settled: bool): Ctx { if settled then Deeper(c) else c }

  /** Do the records describe every evaluation in flight, one each, in order? */
  predicate Covers(recs: seq<Rec>, depth: nat) {
    && depth != 0
    && |recs| == depth - 1
    && forall i :: 0 <= i < |recs| ==> recs[i].depth == i + 1
  }

  function SlotsOf(m: Rows, callee: Value, args: Value): nat {
    match callee
    case Cont(_) => 1
    case Pair(_, _) => if RestOf(args) != Nil then 2 else 1
    case Prim(CallCC) => 1
    case Prim(TailEval) => 2
    case Prim(Native(i, _)) => m.arity(i)
    case _ => 0
  }

  /** The combiners that take evaluated arguments. */
  predicate Applicative(callee: Value) {
    || callee.Closure? || callee.Cont? || callee.Pair?
    || (callee.Prim? && (callee.row.CallCC? || callee.row.TailEval? || callee.row.Native?))
  }

  /** Does the callee name itself while its arguments are evaluated? Only then does an
      argument's evaluation leave a record. A list and a continuation do not. */
  predicate Named(callee: Value) {
    callee.Closure? || (callee.Prim? && (callee.row.Native? ==> callee.row.named))
  }

  /** The context one argument is evaluated in. */
  function ArgCtx(c: Ctx, callee: Value, done: seq<Value>, more: Value, env: EnvId, k: nat): Ctx {
    if Named(callee) then Under(c, ArgsRec(callee, done, more, env, k, c.depth)) else Deeper(c)
  }

  function WithStore(w: World, s: Store): World { w.(store := s) }

  function Eval(m: Rows, n: nat, c: Ctx, w: World, form: Value, env: EnvId): Result
    decreases n, 0, Nil, 0
  {
    if form.Nil? then Result(Answer(Nil), w)
    else if n == 0 then Result(Exhausted, w)
    else match form
      case Sym(_) => Result(EvalSym(w.store, form, env), w)
      case Pair(head, args) =>
        var h := Eval(m, n - 1, Deeper(c), w, head, env);
        if !h.out.Answer? then h
        else if Callable(h.out.v) then Combine(m, n - 1, c, false, h.w, h.out.v, args, env)
        else Result(Answer(form), h.w)
      case _ => Result(Answer(form), w)
  }

  function EvalSym(s: Store, name: Value, env: EnvId): Outcome {
    match Lookup(s, env, name)
    case Some(v) => Answer(v)
    case None => Fault(Unbound(name))
  }

  function Combine(m: Rows, n: nat, c: Ctx, s: bool, w: World, callee: Value, args: Value, env: EnvId): Result
    requires Callable(callee)
    decreases n, 6, Nil, 0
  {
    if callee.Pair? && args == Nil then Result(Answer(Nil), w)
    else if Applicative(callee) then
      if !Proper(args) then Result(Fault(EngineMsg(MSG_IMPROPER_ARGS)), w)
      else
        var k := SlotsOf(m, callee, args);
        var a := EvalArgs(m, n, c, w, callee, [], args, env, k);
        if a.Cut? then Result(a.out, a.w)
        else ApplyVals(m, n, c, s, a.w, callee, Pad(a.vals, k))
    else match callee
      case Operative(params, envName, body, defEnv) =>
        var frame := |w.store|;
        var s1 := BindSpine(PushFrame(w.store, defEnv), frame, params, args);
        var s2 := if envName == Nil then s1 else Bind(s1, frame, envName, EnvObj(env));
        RunBody(m, n, c, s, None, WithStore(w, s2), body, frame)
      case Prim(row) => RunRow(m, n, c, s, w, row, args, env)
      case _ => Result(Answer(callee), w)
  }

  /** Left to right, each exactly once; each evaluation under a record when the
      callee leaves one. */
  function EvalArgs(m: Rows, n: nat, c: Ctx, w: World, callee: Value, done: seq<Value>,
                    rest: Value, env: EnvId, k: nat): RowResult
    decreases n, 1, rest, 0
  {
    match rest
    case Pair(f, more) =>
      var r := Eval(m, n, ArgCtx(c, callee, done, more, env, k), w, f, env);
      if r.out.Answer? then EvalArgs(m, n, c, r.w, callee, done + [r.out.v], more, env, k)
      else Cut(r.out, r.w)
    case _ => All(done, w)
  }

  function ApplyVals(m: Rows, n: nat, c: Ctx, s: bool, w: World, callee: Value, vals: seq<Value>): Result
    requires Applicative(callee)
    requires |vals| >= match callee case Cont(_) => 1 case Prim(CallCC) => 1 case Prim(TailEval) => 2 case _ => 0
    decreases n, 5, Nil, 0
  {
    match callee
    case Closure(params, body, defEnv) =>
      var frame := |w.store|;
      var s1 := BindParams(PushFrame(w.store, defEnv), frame, params, [callee] + vals);
      RunBody(m, n, c, s, Some(frame), WithStore(w, s1), body, frame)
    case Cont(id) => Result(Escape(id, vals[0]), w)
    case Prim(CallCC) => WithEscape(m, n, c, w, vals[0])
    case Prim(TailEval) =>
      if vals[1].EnvObj? then Eval(m, n, TailCtx(c, s), w, vals[0], vals[1].env)
      else Result(Fault(NotAnEnvironment(vals[1])), w)
    case Prim(Native(i, _)) =>
      (match m.run(i, vals)
       case Computed(v) => Result(Answer(v), w)
       case Refused(cond) => Result(Fault(cond), w))
    case _ => Result(Answer(m.list(callee, vals)), w)
  }

  /** A body: all but the last form are evaluated here, under a record; the last
      is in tail position. `save` names the activation whose save the non-tail
      forms run under. */
  function RunBody(m: Rows, n: nat, c: Ctx, s: bool, save: Option<EnvId>, w: World, forms: Value, env: EnvId): Result
    decreases n, 2, forms, 0
  {
    match forms
    case Pair(f, more) =>
      if more.Pair? then
        var r := Eval(m, n, Under(Saved(c, save), BodyRec(more, env, c.depth)), w, f, env);
        if r.out.Answer? then RunBody(m, n, c, s, save, r.w, more, env) else r
      else Eval(m, n, TailCtx(c, s), w, f, env)
    case _ => Result(Answer(Nil), w)
  }

  /** A body with no tail position: every form is evaluated here. */
  function RunAll(m: Rows, n: nat, c: Ctx, w: World, forms: Value, env: EnvId): Result
    decreases n, 2, forms, 0
  {
    match forms
    case Pair(f, more) =>
      var r := Eval(m, n, Under(c, BodyRec(more, env, c.depth)), w, f, env);
      if r.out.Answer? && more.Pair? then RunAll(m, n, c, r.w, more, env) else r
    case _ => Result(Answer(Nil), w)
  }

  function RunMatch(m: Rows, n: nat, c: Ctx, s: bool, w: World, arms: Value, env: EnvId): Result
    decreases n, 3, arms, 0
  {
    match arms
    case Pair(arm, more) =>
      if arm.Pair? then
        var r := Eval(m, n, Deeper(c), w, arm.first, env);
        if !r.out.Answer? then r
        else if Truthy(r.out.v) then RunBody(m, n, c, s, None, r.w, arm.rest, env)
        else RunMatch(m, n, c, s, r.w, more, env)
      else RunMatch(m, n, c, s, w, more, env)
    case _ => Result(Answer(Nil), w)
  }

  /** The handler of a `guard` whose body raised `cond`. */
  function RunHandler(m: Rows, n: nat, c: Ctx, s: bool, w: World, cond: Cond, spec: Value, env: EnvId): Result
    decreases n, 3, Nil, 0
  {
    var frame := |w.store|;
    var s1 := PushFrame(w.store, env);
    var s2 := if FirstOf(spec) == Nil then s1 else Bind(s1, frame, FirstOf(spec), CondValue(cond));
    RunBody(m, n, c, s, None, WithStore(w, s2), RestOf(spec), frame)
  }

  /** `call/cc`: mint an id, snapshot the records in flight, run `f` on the
      continuation, and stop only an escape carrying that id. */
  function WithEscape(m: Rows, n: nat, c: Ctx, w: World, f: Value): Result
    decreases n, 4, Nil, 0
  {
    var id := w.nextCont;
    var snap := Snapshot(c.control, Covers(c.control, c.depth));
    var w1 := World(w.store, id + 1, w.snaps[id := snap], w.noise + 1);
    var r := CallValues(m, n, c, w1, f, [Cont(id)], ROOT);
    if r.out.Escape? && r.out.id == id then Result(Answer(r.out.v), r.w) else r
  }

  /** Apply to values already computed, quoting each so that it is not evaluated
      a second time, and settle the tail. */
  function CallValues(m: Rows, n: nat, c: Ctx, w: World, f: Value, vals: seq<Value>, env: EnvId): Result
    decreases n, 3, Nil, 0
  {
    if !Callable(f) then Result(Answer(f), w)
    else if n == 0 then Result(Exhausted, w)
    else Combine(m, n - 1, c, true, w, f, Quote(vals), env)
  }

  /** Where a `def` binds: the root frame when no save is active, the frame it was
      evaluated in otherwise. */
  function DefTarget(c: Ctx, env: EnvId): EnvId { if c.save == [] then ROOT else env }

  function FinishBind(c: Ctx, w: World, name: Value, env: EnvId, isSet: bool, v: Value): Result {
    if isSet then
      match SetExisting(w.store, env, name, v)
      case Some(s) => Result(Answer(v), WithStore(w, s))
      case None => Result(Fault(Unbound(name)), w)
    else
      Result(Answer(name), WithStore(w, Bind(w.store, DefTarget(c, env), name, v)).(noise := w.noise + 1))
  }

  /** The operative rows: the spine arrives as written. */
  function RunRow(m: Rows, n: nat, c: Ctx, s: bool, w: World, row: Row, args: Value, env: EnvId): Result
    decreases n, 5, Nil, 0
  {
    match row
    case Lit => Result(Answer(Nth(args, 0)), w)
    case Fn => Result(Answer(Closure(Nth(args, 0), RestOf(args), env)), w)
    case Op => Result(Answer(Operative(Nth(args, 0), Nth(args, 1), RestOf(RestOf(args)), env)), w)
    case SetBang => RunBind(m, n, c, w, Nth(args, 0), Nth(args, 1), env, true)
    case Def => RunBind(m, n, c, w, Nth(args, 0), Nth(args, 1), env, false)
    case Seq => RunBody(m, n, c, s, None, w, args, env)
    case Match => RunMatch(m, n, c, s, w, args, env)
    case Guard =>
      var r := RunAll(m, n, c, w, RestOf(args), env);
      if r.out.Fault? then RunHandler(m, n, c, s, r.w, r.out.c, Nth(args, 0), env) else r
    case Error =>
      var r := Eval(m, n, Deeper(c), w, Nth(args, 0), env);
      if r.out.Answer? then Result(Fault(Raised(r.out.v)), r.w) else r
    case EvalIn =>
      var r := Eval(m, n, Deeper(c), w, Nth(args, 0), env);
      if !r.out.Answer? then r
      else if RestOf(args) == Nil then Eval(m, n, TailCtx(c, s), r.w, r.out.v, env)
      else
        var t := Eval(m, n, Deeper(c), r.w, FirstOf(RestOf(args)), env);
        if !t.out.Answer? then t
        else
          var target := TargetOf(t.out.v, env);
          Eval(m, n, Under(Saved(c, Some(target)), PassRec(c.depth)), t.w, r.out.v, target)
    case EvalHere =>
      var r := Eval(m, n, Deeper(c), w, Nth(args, 0), env);
      if !r.out.Answer? then r
      else Eval(m, n, Under(c, PassRec(c.depth)), r.w, r.out.v, env)
    case _ => Result(Answer(Prim(row)), w)
  }

  function TargetOf(v: Value, env: EnvId): EnvId { if v.EnvObj? then v.env else env }

  function RunBind(m: Rows, n: nat, c: Ctx, w: World, name: Value, form: Value, env: EnvId, isSet: bool): Result
    decreases n, 4, Nil, 0
  {
    var r := Eval(m, n, Under(c, BindRec(name, env, isSet, c.depth)), w, form, env);
    if r.out.Answer? then FinishBind(c, r.w, name, env, isSet, r.out.v) else r
  }
}
