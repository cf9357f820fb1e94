/** The evaluator as the engine runs it: a trampoline with one parked tail, a root
stack, and save, guard and control-record stacks that are pushed and popped by
hand. Every method is proved against the nested evaluator, and to leave every
stack as it found it whether it answers, raises or escapes. */
module Evaluator {
  import opened Options
  import opened Values
  import opened Nested
  import Replay

  /** `NoFuel` is the model's own: a run cut off by its fuel. */
  datatype EvalResult = Ok(v: Value) | Err(c: Cond) | NoFuel

  datatype ArgRow = Vals(vs: seq<Value>) | Stopped(r: EvalResult)

  class Engine {
    const rows: Rows
    var store: Store
    var nextCont: nat
    var snaps: map<nat, Snapshot>
    ghost var noise: nat
    /** Set from the invocation of a continuation until its escape is stopped: the id it
        carries and its value. */
    var escaping: Option<(nat, Value)>
    /** The control records in flight, the save row, the guard chain. */
    var control: seq<Rec>
    var save: seq<EnvId>
    var handlers: seq<EnvId>
    /** Evaluations on the stack right now. */
    var activeEvals: nat
    /** Values and frames held live for the collector. */
    var roots: seq<Value>
    var envRoots: seq<EnvId>
    /** The parked tail. The slot is empty when the form is nil. */
    var tailForm: Value
    var tailEnv: EnvId

    constructor (rows: Rows, store: Store)
      ensures this.rows == rows && this.store == store && Idle() && noise == 0
      ensures save == [] && control == [] && handlers == [] && activeEvals == 0
      ensures roots == [] && envRoots == [] && snaps == map[]
    {
      this.rows, this.store := rows, store;
      nextCont, snaps, noise, escaping := 1, map[], 0, None;
      control, save, handlers, activeEvals := [], [], [], 0;
      roots, envRoots, tailForm, tailEnv := [], [], Nil, ROOT;
    }

    // ----- the engine's state, read as the nested evaluator reads it -----------------

    ghost function TheWorld(): World
      reads this
    {
      World(store, nextCont, snaps, noise)
    }

    ghost function Context(): Ctx
      reads this
    {
      Ctx(save, control, activeEvals)
    }

    /** Nothing parked, nothing unwinding. */
    ghost predicate Idle()
      reads this
    {
      tailForm == Nil && escaping.None?
    }

    /** What an engine result means: an error with an escape in flight is that
        escape, and not a condition. */
    ghost function OutcomeOf(r: EvalResult): Outcome
      reads this
    {
      match r
      case Ok(v) => Answer(v)
      case NoFuel => Exhausted
      case Err(c) => if escaping.Some? then Escape(escaping.value.0, escaping.value.1) else Fault(c)
    }

    /** An escape is in flight only behind the raise that started it. */
    ghost predicate Flagged(r: EvalResult)
      reads this
    {
      escaping.Some? ==> r == Err(Raised(escaping.value.1))
    }

    /** A finished evaluation: its outcome and world are `spec`'s, nothing is left
        parked. */
    ghost predicate Finished(r: EvalResult, spec: Result)
      reads this
    {
      tailForm == Nil && Flagged(r) && spec == Result(OutcomeOf(r), TheWorld())
    }

    /** Finished, or holding a parked tail that the nested evaluator would now
        evaluate in the context its caller chose. */
    ghost predicate FinishedOrParked(r: EvalResult, n: nat, c: Ctx, s: bool, spec: Result)
      reads this
    {
      if tailForm == Nil then Finished(r, spec)
      else
        r == Ok(Nil) && escaping.None? &&
        spec == Nested.Eval(rows, n, TailCtx(c, s), TheWorld(), tailForm, tailEnv)
    }

    /** Every stack but the root stack is as it was found. */
    twostate predicate Balanced()
      reads this
    {
      && save == old(save) && handlers == old(handlers) && control == old(control)
      && activeEvals == old(activeEvals) && envRoots == old(envRoots)
    }

    // ----- the trampoline ---------------------------------------------------------------

    /** Evaluate one level deeper, and leave the value on the root stack for the caller. */
    method Eval(n: nat, form: Value, env: EnvId) returns (r: EvalResult)
      requires Idle()
      modifies this
      ensures Finished(r, Nested.Eval(rows, n, Deeper(old(Context())), old(TheWorld()), form, env))
      ensures Balanced()
      ensures roots == old(roots) + if r.Ok? then [r.v] else []
      decreases n, 1, 0
    {
      activeEvals := activeEvals + 1;
      r := EvalPending(n, form, env);
      activeEvals := activeEvals - 1;
      if r.Ok? {
        roots := roots + [r.v];
      }
    }

    /** The loop a parked tail returns to: one root slot and one frame slot, replaced
        as it moves, so a tail chain of any length grows no stack. */
    method EvalPending(n: nat, form: Value, env: EnvId) returns (r: EvalResult)
      requires Idle()
      modifies this
      ensures Finished(r, Nested.Eval(rows, n, old(Context()), old(TheWorld()), form, env))
      ensures Balanced() && roots == old(roots)
      decreases n, 0, 3
    {
      var mark, envMark := |roots|, |envRoots|;
      roots, envRoots := roots + [form], envRoots + [env];
      r := RunChain(n, form, env, mark, envMark);
      roots, envRoots := roots[..mark], envRoots[..envMark];
    }

    /** Evaluate a form and every tail it parks, one after another. */
    method RunChain(n: nat, form0: Value, env0: EnvId, mark: nat, envMark: nat) returns (r: EvalResult)
      requires Idle() && mark <= |roots| && |envRoots| == envMark + 1
      modifies this
      ensures Finished(r, Nested.Eval(rows, n, old(Context()), old(TheWorld()), form0, env0))
      ensures Slotted(mark, envMark)
      decreases n, 0, 2
    {
      var fuel: nat := n;
      ghost var c, spec := Context(), Nested.Eval(rows, n, Context(), TheWorld(), form0, env0);
      r := EvalOnce(fuel, form0, env0);
      while tailForm != Nil
        invariant Slotted(mark, envMark)
        invariant fuel > 0 || tailForm == Nil
        invariant if tailForm == Nil then Finished(r, spec) else FinishedOrParked(r, fuel - 1, c, false, spec)
        decreases fuel
      {
        fuel := fuel - 1;
        r := NextTurn(fuel, mark, envMark, c, spec);
      }
    }

    /** Evaluate the parked tail, in the loop's one root slot and one frame slot. */
    method NextTurn(n: nat, mark: nat, envMark: nat, ghost c: Ctx, ghost spec: Result) returns (r: EvalResult)
      requires tailForm != Nil && FinishedOrParked(Ok(Nil), n, c, false, spec) && c == Context()
      requires mark <= |roots| && |envRoots| == envMark + 1
      modifies this
      ensures Slotted(mark, envMark) && Context() == c && (n > 0 || tailForm == Nil)
      ensures if n == 0 then Finished(r, spec) else FinishedOrParked(r, n - 1, c, false, spec)
      decreases n, 0, 1
    {
      var form, env := TakeTail(mark, envMark);
      r := EvalOnce(n, form, env);
    }

    /** Balanced, but for what lies above the marks: the root slots of the running loop,
        and its one frame slot. */
    twostate predicate Slotted(mark: nat, envMark: nat)
      reads this
    {
      && save == old(save) && handlers == old(handlers) && control == old(control) && activeEvals == old(activeEvals)
      && mark <= |old(roots)| && mark <= |roots| && roots[..mark] == old(roots)[..mark]
      && |envRoots| == |old(envRoots)| == envMark + 1 && envRoots[..envMark] == old(envRoots)[..envMark]
    }

    /** Take the parked tail into the loop's one root slot and one frame slot. */
    method TakeTail(mark: nat, envMark: nat) returns (form: Value, env: EnvId)
      requires mark <= |roots| && envMark <= |envRoots|
      modifies `roots, `envRoots, `tailForm, `tailEnv
      ensures form == old(tailForm) && env == old(tailEnv) && tailForm == Nil
      ensures roots == old(roots)[..mark] + [form] && envRoots == old(envRoots)[..envMark] + [env]
    {
      form, env := tailForm, tailEnv;
      tailForm, tailEnv := Nil, ROOT;
      roots := roots[..mark] + [form];
      envRoots := envRoots[..envMark] + [env];
    }

    /** One step of the trampoline: done, or the next form of the tail chain parked,
        to be evaluated in the very context this one was. */
    method EvalOnce(n: nat, form: Value, env: EnvId) returns (r: EvalResult)
      requires Idle()
      modifies this
      ensures var spec := Nested.Eval(rows, n, old(Context()), old(TheWorld()), form, env);
              if n == 0 then Finished(r, spec) else FinishedOrParked(r, n - 1, old(Context()), false, spec)
      ensures Balanced() && old(roots) <= roots
      decreases n, 0, 0
    {
      if form.Nil? {
        return Ok(Nil);
      }
      if n == 0 {
        return NoFuel;
      }
      match form {
        case Sym(_) => r := SymEval(form, env);
        case Pair(_, _) => r := ListEval(n, form, env);
        case _ => r := Ok(form);
      }
    }

    method SymEval(form: Value, env: EnvId) returns (r: EvalResult)
      ensures r == match Lookup(store, env, form) case Some(v) => Ok(v) case None => Err(Unbound(form))
    {
      match Lookup(store, env, form)
      case Some(v) => r := Ok(v);
      case None => r := Err(Unbound(form));
    }

    /** A list form: its head, then the combiner. Without a callable head the form is its
        own value. */
    method ListEval(n: nat, form: Value, env: EnvId) returns (r: EvalResult)
      requires Idle() && n > 0 && form.Pair?
      modifies this
      ensures FinishedOrParked(r, n - 1, old(Context()), false,
                               Nested.Eval(rows, n, old(Context()), old(TheWorld()), form, env))
      ensures Balanced() && old(roots) <= roots
      decreases n - 1, 7
    {
      r := Eval(n - 1, form.first, env);
      if r.Ok? {
        if Callable(r.v) {
          ghost var c, w := Context(), TheWorld();
          ghost var callee := r.v;
          r := Combine(n - 1, r.v, form.rest, env);
          assert FinishedOrParked(r, n - 1, c, false, Nested.Combine(rows, n - 1, c, false, w, callee, form.rest, env));
        } else {
          r := Ok(form);
        }
      }
    }

    // ----- parking and settling ---------------------------------------------------------

    /** Park a form for the caller's own loop. */
    method ParkTail(form: Value, env: EnvId) returns (r: EvalResult)
      modifies `tailForm, `tailEnv
      ensures r == Ok(Nil) && tailForm == form && tailEnv == env
    {
      tailForm, tailEnv := form, env;
      r := Ok(Nil);
    }

    /** Run a parked tail to a value, for a caller that is not a tail position. */
    method Settle(n: nat, r0: EvalResult, ghost c: Ctx, ghost spec: Result) returns (r: EvalResult)
      requires FinishedOrParked(r0, n, c, true, spec) && c == Context()
      modifies this
      ensures Finished(r, spec)
      ensures Balanced() && old(roots) <= roots
      decreases n, 2
    {
      r := r0;
      if r.Ok? && tailForm != Nil {
        var form, env := tailForm, tailEnv;
        tailForm, tailEnv := Nil, ROOT;
        r := Eval(n, form, env);
      }
    }

    // ----- application ------------------------------------------------------------------

    method Combine(n: nat, callee: Value, args: Value, env: EnvId) returns (r: EvalResult)
      requires Idle() && Callable(callee)
      modifies this
      ensures FinishedOrParked(r, n, old(Context()), false,
                Nested.Combine(rows, n, old(Context()), false, old(TheWorld()), callee, args, env))
      ensures FinishedOrParked(r, n, old(Context()), true,
                Nested.Combine(rows, n, old(Context()), true, old(TheWorld()), callee, args, env))
      ensures Balanced() && old(roots) <= roots
      decreases n, 6
    {
      if callee.Pair? && args == Nil {
        r := Ok(Nil);
      } else if Applicative(callee) {
        var k := SlotsOf(rows, callee, args);
        var row := EvalArgsFor(n, callee, args, env, k);
        if row.Stopped? {
          r := row.r;
        } else {
          r := ApplyVals(n, callee, Pad(row.vs, k));
        }
      } else if callee.Operative? {
        r := ApplyOp(n, callee, args, env);
      } else {
        r := RunRow(n, callee.row, args, env);
      }
    }

    /** The values of an argument spine, left to right, each evaluation under a record when
        the callee names itself. */
    method EvalArgsFor(n: nat, callee: Value, args: Value, env: EnvId, k: nat) returns (row: ArgRow)
      requires Idle() && Applicative(callee)
      modifies this
      ensures Balanced() && old(roots) <= roots
      ensures var spec := Nested.EvalArgs(rows, n, old(Context()), old(TheWorld()), callee, [], args, env, k);
              if !Proper(args) then
                row == Stopped(Err(EngineMsg(MSG_IMPROPER_ARGS))) && Idle() && TheWorld() == old(TheWorld())
              else match row
                case Vals(vs) => Idle() && spec == All(vs, TheWorld())
                case Stopped(r) => !r.Ok? && spec.Cut? && Finished(r, Result(spec.out, spec.w))
      decreases n, 2
    {
      var at := args;
      while at.Pair?
        invariant Proper(at) == Proper(args)
        decreases at
      {
        at := at.rest;
      }
      if at != Nil {
        return Stopped(Err(EngineMsg(MSG_IMPROPER_ARGS)));
      }
      var mark := |roots|;
      var out: seq<Value> := [];
      var node := args;
      ghost var c := Context();
      ghost var spec := Nested.EvalArgs(rows, n, c, TheWorld(), callee, [], args, env, k);
      while node.Pair?
        invariant Idle() && Balanced() && Context() == c
        invariant old(roots) <= roots
        invariant spec == Nested.EvalArgs(rows, n, c, TheWorld(), callee, out, node, env, k)
        decreases node
      {
        var f := node.first;
        node := node.rest;
        var r := EvalArg(n, f, env, callee, out, node, k);
        if !r.Ok? {
          roots := roots[..mark];
          return Stopped(r);
        }
        roots := roots + [r.v];
        out := out + [r.v];
      }
      roots := roots[..mark] + out;
      row := Vals(out);
    }

    /** One argument, under the record of the row so far when the callee names itself. */
    method EvalArg(n: nat, form: Value, env: EnvId, callee: Value, done: seq<Value>, more: Value, k: nat)
      returns (r: EvalResult)
      requires Idle()
      modifies this
      ensures Finished(r, Nested.Eval(rows, n, ArgCtx(old(Context()), callee, done, more, env, k),
                                      old(TheWorld()), form, env))
      ensures Balanced() && old(roots) <= roots
      decreases n, 1, 1
    {
      if Named(callee) {
        control := control + [ArgsRec(callee, done, more, env, k, activeEvals)];
      }
      r := Eval(n, form, env);
      if Named(callee) {
        control := control[..|control| - 1];
      }
    }

    method ApplyVals(n: nat, callee: Value, vals: seq<Value>) returns (r: EvalResult)
      requires Idle() && Applicative(callee)
      requires |vals| >= match callee case Cont(_) => 1 case Prim(CallCC) => 1 case Prim(TailEval) => 2 case _ => 0
      modifies this
      ensures FinishedOrParked(r, n, old(Context()), false,
                Nested.ApplyVals(rows, n, old(Context()), false, old(TheWorld()), callee, vals))
      ensures FinishedOrParked(r, n, old(Context()), true,
                Nested.ApplyVals(rows, n, old(Context()), true, old(TheWorld()), callee, vals))
      ensures Balanced() && old(roots) <= roots
      decreases n, 5
    {
      match callee
      case Closure(_, _, _) => r := ApplyClosure(n, callee, vals);
      case Cont(id) => r := InvokeCont(id, vals[0]);
      case Prim(CallCC) => r := WithEscape(n, vals[0]);
      case Prim(TailEval) =>
        if vals[1].EnvObj? {
          r := ParkTail(vals[0], vals[1].env);
        } else {
          r := Err(NotAnEnvironment(vals[1]));
        }
      case Prim(Native(i, _)) =>
        match rows.run(i, vals) {
          case Computed(v) => r := Ok(v);
          case Refused(cond) => r := Err(cond);
        }
      case _ => r := Ok(rows.list(callee, vals));
    }

    /** Apply a closure: its frame first, then its body, whose last form is left parked. */
    method ApplyClosure(n: nat, callee: Value, vals: seq<Value>) returns (r: EvalResult)
      requires Idle() && callee.Closure?
      modifies this
      ensures FinishedOrParked(r, n, old(Context()), false,
                Nested.ApplyVals(rows, n, old(Context()), false, old(TheWorld()), callee, vals))
      ensures FinishedOrParked(r, n, old(Context()), true,
                Nested.ApplyVals(rows, n, old(Context()), true, old(TheWorld()), callee, vals))
      ensures Balanced() && old(roots) <= roots
      decreases n, 4
    {
      var envMark := |envRoots|;
      var frame := ClosureFrame(callee, vals);
      r := HoldBody(n, callee.body, frame);
      envRoots := envRoots[..envMark];
    }

    /** The closure's frame: itself and then the values under its parameters. */
    method ClosureFrame(callee: Value, vals: seq<Value>) returns (frame: EnvId)
      requires callee.Closure?
      modifies `store, `envRoots
      ensures frame == old(|store|) && envRoots == old(envRoots) + [frame]
      ensures store == Values.BindParams(PushFrame(old(store), callee.env), frame, callee.params, [callee] + vals)
    {
      frame := |store|;
      store := PushFrame(store, callee.env);
      envRoots := envRoots + [frame];
      BindParams(frame, callee.params, [callee] + vals);
    }

    /** A closure's body: its frame's save is held over the forms before the last. */
    method HoldBody(n: nat, body: Value, frame: EnvId) returns (r: EvalResult)
      requires Idle()
      modifies this
      ensures FinishedOrParked(r, n, old(Context()), false,
                Nested.RunBody(rows, n, old(Context()), false, Some(frame), old(TheWorld()), body, frame))
      ensures FinishedOrParked(r, n, old(Context()), true,
                Nested.RunBody(rows, n, old(Context()), true, Some(frame), old(TheWorld()), body, frame))
      ensures Balanced() && old(roots) <= roots
      decreases n, 3
    {
      ghost var c := Context();
      save := [frame] + save;
      r := EvalBodyTail(n, body, frame, c, Some(frame));
      save := save[1..];
    }

    method BindParams(frame: EnvId, params: Value, vals: seq<Value>)
      modifies `store
      ensures store == Values.BindParams(old(store), frame, params, vals)
    {
      var p, i := params, 0;
      while p.Pair?
        invariant 0 <= i <= |vals|
        invariant Values.BindParams(store, frame, p, vals[i..]) == Values.BindParams(old(store), frame, params, vals)
        decreases p
      {
        store := Bind(store, frame, p.first, if i < |vals| then vals[i] else Nil);
        if i < |vals| {
          assert vals[i..][1..] == vals[i + 1..];
          i := i + 1;
        }
        p := p.rest;
      }
      if p != Nil {
        store := Bind(store, frame, p, ListOf(vals[i..]));
      }
    }

    method ApplyOp(n: nat, callee: Value, args: Value, env: EnvId) returns (r: EvalResult)
      requires Idle() && callee.Operative?
      modifies this
      ensures FinishedOrParked(r, n, old(Context()), false,
                Nested.Combine(rows, n, old(Context()), false, old(TheWorld()), callee, args, env))
      ensures FinishedOrParked(r, n, old(Context()), true,
                Nested.Combine(rows, n, old(Context()), true, old(TheWorld()), callee, args, env))
      ensures Balanced() && old(roots) <= roots
      decreases n, 5
    {
      var envMark := |envRoots|;
      var frame := OpFrame(callee, args, env);
      r := EvalBodyTail(n, callee.body, frame, Context(), None);
      envRoots := envRoots[..envMark];
    }

    /** The operative's frame: its parameters on the argument forms, and the caller's
        environment under its own name. */
    method OpFrame(callee: Value, args: Value, env: EnvId) returns (frame: EnvId)
      requires callee.Operative?
      modifies `store, `envRoots
      ensures frame == old(|store|) && envRoots == old(envRoots) + [frame]
      ensures var s1 := Values.BindSpine(PushFrame(old(store), callee.env), frame, callee.params, args);
              store == if callee.envName == Nil then s1 else Bind(s1, frame, callee.envName, EnvObj(env))
    {
      frame := |store|;
      store := PushFrame(store, callee.env);
      envRoots := envRoots + [frame];
      BindSpine(frame, callee.params, args);
      if callee.envName != Nil {
        store := Bind(store, frame, callee.envName, EnvObj(env));
      }
    }

    method BindSpine(frame: EnvId, params: Value, args: Value)
      modifies `store
      ensures store == Values.BindSpine(old(store), frame, params, args)
    {
      var p, a := params, args;
      while p.Pair?
        invariant Values.BindSpine(store, frame, p, a) == Values.BindSpine(old(store), frame, params, args)
        decreases p
      {
        store := Bind(store, frame, p.first, if a.Pair? then a.first else a);
        a := if a.Pair? then a.rest else Nil;
        p := p.rest;
      }
      if p != Nil {
        store := Bind(store, frame, p, a);
      }
    }

    // ----- bodies -----------------------------------------------------------------------

    /** One form of a body, under the record of the forms after it. */
    method EvalForm(n: nat, form: Value, env: EnvId, rest: Value) returns (r: EvalResult)
      requires Idle()
      modifies this
      ensures Finished(r, Nested.Eval(rows, n, Under(old(Context()), BodyRec(rest, env, old(activeEvals))),
                                      old(TheWorld()), form, env))
      ensures Balanced() && old(roots) <= roots
      decreases n, 1, 1
    {
      control := control + [BodyRec(rest, env, activeEvals)];
      r := Eval(n, form, env);
      control := control[..|control| - 1];
    }

    /** A body in tail position: each form but the last is evaluated, the last is parked. The
        ghost context `c` is the caller's; the save row may already hold `held`. */
    method EvalBodyTail(n: nat, body: Value, env: EnvId, ghost c: Ctx, ghost held: Option<EnvId>)
      returns (r: EvalResult)
      requires Idle() && Context() == Saved(c, held)
      modifies this
      ensures FinishedOrParked(r, n, c, false,
                Nested.RunBody(rows, n, c, false, held, old(TheWorld()), body, env))
      ensures FinishedOrParked(r, n, c, true,
                Nested.RunBody(rows, n, c, true, held, old(TheWorld()), body, env))
      ensures Balanced() && old(roots) <= roots
      decreases n, 2
    {
      if !body.Pair? {
        return Ok(Nil);
      }
      var node := body;
      ghost var w0 := TheWorld();
      while node.rest.Pair?
        invariant Idle() && Balanced() && old(roots) <= roots && node.Pair?
        invariant forall s: bool :: Nested.RunBody(rows, n, c, s, held, w0, body, env) ==
                                    Nested.RunBody(rows, n, c, s, held, TheWorld(), node, env)
        decreases node
      {
        var f := node.first;
        node := node.rest;
        r := EvalForm(n, f, env, node);
        if !r.Ok? {
          return;
        }
      }
      r := ParkTail(node.first, env);
    }

    /** A body whose last form is not a tail position either. */
    method EvalBody(n: nat, body: Value, env: EnvId) returns (r: EvalResult)
      requires Idle()
      modifies this
      ensures Finished(r, Nested.RunAll(rows, n, old(Context()), old(TheWorld()), body, env))
      ensures Balanced() && old(roots) <= roots
      decreases n, 2
    {
      r := Ok(Nil);
      var node := body;
      ghost var c, spec := Context(), Nested.RunAll(rows, n, Context(), TheWorld(), body, env);
      while node.Pair?
        invariant Idle() && Balanced() && Context() == c && old(roots) <= roots
        invariant r.Ok?
        invariant if node.Pair? then spec == Nested.RunAll(rows, n, c, TheWorld(), node, env)
                  else spec == Result(Answer(r.v), TheWorld())
        decreases node
      {
        var f := node.first;
        node := node.rest;
        r := EvalForm(n, f, env, node);
        if !r.Ok? {
          return;
        }
      }
    }

    // ----- continuations ----------------------------------------------------------------

    method InvokeCont(id: nat, v: Value) returns (r: EvalResult)
      requires Idle()
      modifies `escaping
      ensures Finished(r, Result(Escape(id, v), old(TheWorld())))
    {
      escaping := Some((id, v));
      r := Err(Raised(v));
    }

    /** Snapshot the records, run `f` on a fresh continuation, and stop only its own
        escape. */
    method WithEscape(n: nat, f: Value) returns (r: EvalResult)
      requires Idle()
      modifies this
      ensures Finished(r, Nested.WithEscape(rows, n, old(Context()), old(TheWorld()), f))
      ensures Balanced() && old(roots) <= roots
      decreases n, 4
    {
      var id := nextCont;
      nextCont := nextCont + 1;
      snaps := snaps[id := Snapshot(control, Covers(control, activeEvals))];
      noise := noise + 1;
      r := CallValues(n, f, [Cont(id)], ROOT);
      if r.Err? && escaping.Some? && escaping.value.0 == id {
        r := Ok(escaping.value.1);
        escaping := None;
      }
    }

    method CallValues(n: nat, f: Value, vals: seq<Value>, env: EnvId) returns (r: EvalResult)
      requires Idle()
      modifies this
      ensures Finished(r, Nested.CallValues(rows, n, old(Context()), old(TheWorld()), f, vals, env))
      ensures Balanced() && old(roots) <= roots
      decreases n, 3
    {
      var mark := |roots|;
      var spine := Quote(vals);
      roots := roots + [f] + vals + [spine];
      if !Callable(f) {
        r := Ok(f);
      } else if n == 0 {
        r := NoFuel;
      } else {
        ghost var c, w := Context(), TheWorld();
        r := Combine(n - 1, f, spine, env);
        r := Settle(n - 1, r, c, Nested.Combine(rows, n - 1, c, true, w, f, spine, env));
      }
      roots := roots[..mark];
    }

    // ----- the operative rows -----------------------------------------------------------

    method RunRow(n: nat, row: Row, args: Value, env: EnvId) returns (r: EvalResult)
      requires Idle()
      modifies this
      ensures FinishedOrParked(r, n, old(Context()), false,
                Nested.RunRow(rows, n, old(Context()), false, old(TheWorld()), row, args, env))
      ensures FinishedOrParked(r, n, old(Context()), true,
                Nested.RunRow(rows, n, old(Context()), true, old(TheWorld()), row, args, env))
      ensures Balanced() && old(roots) <= roots
      decreases n, 5
    {
      match row
      case Lit => r := Ok(Nth(args, 0));
      case Fn => r := Ok(Closure(Nth(args, 0), RestOf(args), env));
      case Op => r := Ok(Operative(Nth(args, 0), Nth(args, 1), RestOf(RestOf(args)), env));
      case SetBang => r := BindRow(n, args, env, true);
      case Def => r := BindRow(n, args, env, false);
      case Seq => r := EvalBodyTail(n, args, env, Context(), None);
      case Match => r := MatchRow(n, args, env);
      case Guard => r := GuardRow(n, args, env);
      case Error =>
        r := Eval(n, Nth(args, 0), env);
        if r.Ok? {
          r := Err(Raised(r.v));
        }
      case EvalIn => r := EvalInRow(n, args, env);
      case EvalHere => r := EvalHereRow(n, args, env);
      case _ => r := Ok(Prim(row));
    }

    /** `def` and `set!`. A `def` asks the save row where to bind. */
    method BindRow(n: nat, args: Value, env: EnvId, isSet: bool) returns (r: EvalResult)
      requires Idle()
      modifies this
      ensures Finished(r,
          Nested.RunBind(rows, n, old(Context()), old(TheWorld()), Nth(args, 0), Nth(args, 1), env, isSet))
      ensures Balanced() && old(roots) <= roots
      decreases n, 4
    {
      var name := Nth(args, 0);
      control := control + [BindRec(name, env, isSet, activeEvals)];
      r := Eval(n, Nth(args, 1), env);
      control := control[..|control| - 1];
      if r.Ok? {
        if isSet {
          match SetExisting(store, env, name, r.v) {
            case Some(s) => store := s;
            case None => r := Err(Unbound(name));
          }
        } else {
          store := Bind(store, DefTarget(Ctx(save, control, activeEvals), env), name, r.v);
          noise := noise + 1;
          r := Ok(name);
        }
      }
    }

    method MatchRow(n: nat, args: Value, env: EnvId) returns (r: EvalResult)
      requires Idle()
      modifies this
      ensures FinishedOrParked(r, n, old(Context()), false,
                Nested.RunMatch(rows, n, old(Context()), false, old(TheWorld()), args, env))
      ensures FinishedOrParked(r, n, old(Context()), true,
                Nested.RunMatch(rows, n, old(Context()), true, old(TheWorld()), args, env))
      ensures Balanced() && old(roots) <= roots
      decreases n, 4
    {
      var arms := args;
      ghost var c, w0 := Context(), TheWorld();
      while arms.Pair?
        invariant Idle() && Balanced() && Context() == c && old(roots) <= roots
        invariant forall s: bool :: Nested.RunMatch(rows, n, c, s, w0, args, env) ==
                                    Nested.RunMatch(rows, n, c, s, TheWorld(), arms, env)
        decreases arms
      {
        var arm := arms.first;
        if arm.Pair? {
          r := Eval(n, arm.first, env);
          if !r.Ok? {
            return;
          }
          if Truthy(r.v) {
            r := EvalBodyTail(n, arm.rest, env, c, None);
            return;
          }
        }
        arms := arms.rest;
      }
      r := Ok(Nil);
    }

    /** The body is not a tail position and the handler is; an escape passes
        straight through. */
    method GuardRow(n: nat, args: Value, env: EnvId) returns (r: EvalResult)
      requires Idle()
      modifies this
      ensures FinishedOrParked(r, n, old(Context()), false,
                Nested.RunRow(rows, n, old(Context()), false, old(TheWorld()), Guard, args, env))
      ensures FinishedOrParked(r, n, old(Context()), true,
                Nested.RunRow(rows, n, old(Context()), true, old(TheWorld()), Guard, args, env))
      ensures Balanced() && old(roots) <= roots
      decreases n, 4
    {
      var spec := Nth(args, 0);
      handlers := [env] + handlers;
      r := EvalBody(n, RestOf(args), env);
      handlers := handlers[1..];
      if r.Err? && escaping.None? {
        var frame := |store|;
        store := PushFrame(store, env);
        if FirstOf(spec) != Nil {
          store := Bind(store, frame, FirstOf(spec), CondValue(r.c));
        }
        r := EvalBodyTail(n, RestOf(spec), frame, Context(), None);
      }
    }

    method EvalInRow(n: nat, args: Value, env: EnvId) returns (r: EvalResult)
      requires Idle()
      modifies this
      ensures FinishedOrParked(r, n, old(Context()), false,
                Nested.RunRow(rows, n, old(Context()), false, old(TheWorld()), EvalIn, args, env))
      ensures FinishedOrParked(r, n, old(Context()), true,
                Nested.RunRow(rows, n, old(Context()), true, old(TheWorld()), EvalIn, args, env))
      ensures Balanced() && old(roots) <= roots
      decreases n, 4
    {
      r := Eval(n, Nth(args, 0), env);
      if !r.Ok? {
        return;
      }
      var expr := r.v;
      if RestOf(args) == Nil {
        r := ParkTail(expr, env);
        return;
      }
      r := Eval(n, FirstOf(RestOf(args)), env);
      if r.Ok? {
        r := EvalTarget(n, expr, TargetOf(r.v, env));
      }
    }

    /** Evaluate in a given environment, under its save and a record. */
    method EvalTarget(n: nat, expr: Value, target: EnvId) returns (r: EvalResult)
      requires Idle()
      modifies this
      ensures Finished(r, Nested.Eval(rows, n, Under(Saved(old(Context()), Some(target)), PassRec(old(activeEvals))),
                                      old(TheWorld()), expr, target))
      ensures Balanced() && old(roots) <= roots
      decreases n, 2
    {
      save := [target] + save;
      control := control + [PassRec(activeEvals)];
      r := Eval(n, expr, target);
      control := control[..|control| - 1];
      save := save[1..];
    }

    method EvalHereRow(n: nat, args: Value, env: EnvId) returns (r: EvalResult)
      requires Idle()
      modifies this
      ensures Finished(r, Nested.RunRow(rows, n, old(Context()), false, old(TheWorld()), EvalHere, args, env))
      ensures Balanced() && old(roots) <= roots
      decreases n, 4
    {
      r := Eval(n, Nth(args, 0), env);
      if r.Ok? {
        var expr := r.v;
        control := control + [PassRec(activeEvals)];
        r := Eval(n, expr, env);
        control := control[..|control| - 1];
      }
    }

    // ----- the top level ------------------------------------------------------------------

    /** One top-level form: an escape no live call/cc stopped re-enters its snapshot.
        Only the result stays rooted. */
    method EvalTop(n: nat, form: Value) returns (r: EvalResult)
      requires Idle() && Context() == Replay.TOP
      modifies this
      ensures Finished(r, Replay.EvalTop(rows, n, old(TheWorld()), form))
      ensures Balanced() && escaping.None?
      ensures roots == if r.Ok? then [r.v] else []
    {
      var fuel: nat := n;
      r := Eval(n, form, ROOT);
      ghost var spec := Replay.EvalTop(rows, n, old(TheWorld()), form);
      while r.Err? && escaping.Some?
        invariant Balanced() && tailForm == Nil && Flagged(r)
        invariant spec == Replay.Resumed(rows, fuel, Result(OutcomeOf(r), TheWorld()))
        decreases fuel
      {
        var (id, v) := escaping.value;
        escaping := None;
        if fuel == 0 {
          r := NoFuel;
          break;
        }
        fuel := fuel - 1;
        if id in snaps && snaps[id].resumable {
          r := ReplayAll(fuel, snaps[id].recs, v);
        } else {
          r := Err(EngineMsg(MSG_NOT_RESUMABLE));
        }
      }
      roots := if r.Ok? then [r.v] else [];
    }

    /** Rebuild the captured evaluation, the last record first. */
    method ReplayAll(n: nat, recs: seq<Rec>, v: Value) returns (r: EvalResult)
      requires Idle() && Context() == Replay.TOP
      modifies this
      ensures Finished(r, Replay.ReplayRecs(rows, n, old(TheWorld()), recs, v))
      ensures Balanced()
    {
      r := Ok(v);
      var i := |recs|;
      ghost var spec := Replay.ReplayRecs(rows, n, old(TheWorld()), recs, v);
      assert recs[..i] == recs;
      while i > 0
        invariant 0 <= i <= |recs| && r.Ok? && Idle() && Balanced()
        invariant spec == Replay.ReplayRecs(rows, n, TheWorld(), recs[..i], r.v)
      {
        assert recs[..i][..i - 1] == recs[..i - 1];
        i := i - 1;
        r := ResumeOne(n, recs[i], r.v);
        if !r.Ok? {
          return;
        }
      }
    }

    method ResumeOne(n: nat, rec: Rec, v: Value) returns (r: EvalResult)
      requires Idle() && Context() == Replay.TOP
      modifies this
      ensures Finished(r, Replay.ResumeRec(rows, n, old(TheWorld()), rec, v))
      ensures Balanced()
    {
      var mark := |roots|;
      roots := roots + [v];
      match rec {
        case PassRec(_) => r := Ok(v);
        case BodyRec(rest, env, _) =>
          if rest.Nil? {
            r := Ok(v);
          } else {
            r := EvalBody(n, rest, env);
          }
        case BindRec(name, env, isSet, _) =>
          if isSet {
            match SetExisting(store, env, name, v) {
              case Some(s) => store := s; r := Ok(v);
              case None => r := Err(Unbound(name));
            }
          } else {
            store := Bind(store, DefTarget(Ctx(save, control, activeEvals), env), name, v);
            noise := noise + 1;
            r := Ok(name);
          }
        case ArgsRec(_, _, _, _, _, _) => r := ResumeRow(n, rec, v);
      }
      roots := roots[..mark];
    }

    /** Resume an argument record: the forms left, the padding, and the call. */
    method ResumeRow(n: nat, rec: Rec, v: Value) returns (r: EvalResult)
      requires Idle() && Context() == Replay.TOP && rec.ArgsRec?
      modifies this
      ensures Finished(r, Replay.ResumeArgs(rows, n, old(TheWorld()), rec, v))
      ensures Balanced() && old(roots) <= roots
    {
      var vals, node := rec.done + [v], rec.rest;
      ghost var row := Replay.FinishRow(rows, n, TheWorld(), vals, node, rec.env);
      while node.Pair?
        invariant Idle() && Balanced() && old(roots) <= roots
        invariant row == Replay.FinishRow(rows, n, TheWorld(), vals, node, rec.env)
        decreases node
      {
        r := Eval(n, node.first, rec.env);
        if !r.Ok? {
          return;
        }
        vals, node := vals + [r.v], node.rest;
      }
      noise := noise + Replay.Requoted(store, rec.env);
      r := CallValues(n, rec.callee, Pad(vals, rec.slots), rec.env);
    }
  }
}
