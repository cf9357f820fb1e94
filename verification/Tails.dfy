/** Tail forms, one turn of the trampoline at a time.

A turn takes a form to the tail form it parks. What a turn evaluates on the way is
nested, and needs stack; the tail form itself is evaluated where the form was. So a
chain of turns, however long, needs no more stack than its costliest turn. */
module Tails {
  import opened Options
  import opened Values
  import opened Nested
  import opened Machine
  import opened Adequacy

  /** A form to evaluate, and the world to evaluate it in. */
  datatype Link = Link(form: Value, env: EnvId, w: World)

  /** What the non-tail forms of a body leave to do. */
  function BodyTurn(m: Rows, n: nat, c: Ctx, save: Option<EnvId>, w: World, forms: Value, env: EnvId): Option<Link>
    decreases forms
  {
    if !forms.Pair? then None
    else if !forms.rest.Pair? then Some(Link(forms.first, env, w))
    else
      var r := Eval(m, n, Under(Saved(c, save), BodyRec(forms.rest, env, c.depth)), w, forms.first, env);
      if r.out.Answer? then BodyTurn(m, n, c, save, r.w, forms.rest, env) else None
  }

  function MatchTurn(m: Rows, n: nat, c: Ctx, w: World, arms: Value, env: EnvId): Option<Link>
    decreases arms
  {
    if !arms.Pair? then None
    else if !arms.first.Pair? then MatchTurn(m, n, c, w, arms.rest, env)
    else
      var r := Eval(m, n, Deeper(c), w, arms.first.first, env);
      if !r.out.Answer? then None
      else if Truthy(r.out.v) then BodyTurn(m, n, c, None, r.w, arms.first.rest, env)
      else MatchTurn(m, n, c, r.w, arms.rest, env)
  }

  function GuardTurn(m: Rows, n: nat, c: Ctx, w: World, args: Value, env: EnvId): Option<Link> {
    var r := RunAll(m, n, c, w, RestOf(args), env);
    if !r.out.Fault? then None
    else
      var spec, frame := Nth(args, 0), |r.w.store|;
      var s1 := PushFrame(r.w.store, env);
      var s2 := if FirstOf(spec) == Nil then s1 else Bind(s1, frame, FirstOf(spec), CondValue(r.out.c));
      BodyTurn(m, n, c, None, WithStore(r.w, s2), RestOf(spec), frame)
  }

  function RowTurn(m: Rows, n: nat, c: Ctx, w: World, row: Row, args: Value, env: EnvId): Option<Link> {
    match row
    case Seq => BodyTurn(m, n, c, None, w, args, env)
    case Match => MatchTurn(m, n, c, w, args, env)
    case Guard => GuardTurn(m, n, c, w, args, env)
    case EvalIn =>
      var r := Eval(m, n, Deeper(c), w, Nth(args, 0), env);
      if r.out.Answer? && RestOf(args) == Nil then Some(Link(r.out.v, env, r.w)) else None
    case _ => None
  }

  function ApplyTurn(m: Rows, n: nat, c: Ctx, w: World, callee: Value, vals: seq<Value>): Option<Link> {
    match callee
    case Closure(params, body, defEnv) =>
      var frame := |w.store|;
      var s1 := BindParams(PushFrame(w.store, defEnv), frame, params, [callee] + vals);
      BodyTurn(m, n, c, Some(frame), WithStore(w, s1), body, frame)
    case Prim(TailEval) =>
      if |vals| >= 2 && vals[1].EnvObj? then Some(Link(vals[0], vals[1].env, w)) else None
    case _ => None
  }

  function CombineTurn(m: Rows, n: nat, c: Ctx, w: World, callee: Value, args: Value, env: EnvId): Option<Link> {
    if callee.Pair? && args == Nil then None
    else if Applicative(callee) then
      if !Proper(args) then None
      else
        var k := SlotsOf(m, callee, args);
        var a := EvalArgs(m, n, c, w, callee, [], args, env, k);
        if a.Cut? then None else ApplyTurn(m, n, c, a.w, callee, Pad(a.vals, k))
    else match callee
      case Operative(params, envName, body, defEnv) =>
        var frame := |w.store|;
        var s1 := BindSpine(PushFrame(w.store, defEnv), frame, params, args);
        var s2 := if envName == Nil then s1 else Bind(s1, frame, envName, EnvObj(env));
        BodyTurn(m, n, c, None, WithStore(w, s2), body, frame)
      case Prim(row) => RowTurn(m, n, c, w, row, args, env)
      case _ => None
  }

  /** The tail form a form comes to, when it comes to one. */
  function Turn(m: Rows, n: nat, c: Ctx, l: Link): Option<Link> {
    if n == 0 || !l.form.Pair? then None
    else
      var h := Eval(m, n - 1, Deeper(c), l.w, l.form.first, l.env);
      if h.out.Answer? && Callable(h.out.v) then CombineTurn(m, n - 1, c, h.w, h.out.v, l.form.rest, l.env) else None
  }

  // ----- a turn keeps the meaning --------------------------------------------------------

  function EvalLink(m: Rows, n: nat, c: Ctx, l: Link): Result { Eval(m, n, c, l.w, l.form, l.env) }

  lemma {:induction false} BodyTurnMeans(m: Rows, n: nat, c: Ctx, save: Option<EnvId>, w: World, forms: Value,
                                         env: EnvId)
    ensures var t := BodyTurn(m, n, c, save, w, forms, env);
            t.Some? ==> RunBody(m, n, c, false, save, w, forms, env) == EvalLink(m, n, c, t.value)
    decreases forms
  {
    if forms.Pair? && forms.rest.Pair? {
      var r := Eval(m, n, Under(Saved(c, save), BodyRec(forms.rest, env, c.depth)), w, forms.first, env);
      if r.out.Answer? { BodyTurnMeans(m, n, c, save, r.w, forms.rest, env); }
    }
  }

  lemma {:induction false} MatchTurnMeans(m: Rows, n: nat, c: Ctx, w: World, arms: Value, env: EnvId)
    ensures var t := MatchTurn(m, n, c, w, arms, env);
            t.Some? ==> RunMatch(m, n, c, false, w, arms, env) == EvalLink(m, n, c, t.value)
    decreases arms
  {
    if arms.Pair? {
      if arms.first.Pair? {
        var r := Eval(m, n, Deeper(c), w, arms.first.first, env);
        if r.out.Answer? {
          if Truthy(r.out.v) {
            BodyTurnMeans(m, n, c, None, r.w, arms.first.rest, env);
          } else {
            MatchTurnMeans(m, n, c, r.w, arms.rest, env);
          }
        }
      } else {
        MatchTurnMeans(m, n, c, w, arms.rest, env);
      }
    }
  }

  lemma GuardTurnMeans(m: Rows, n: nat, c: Ctx, w: World, args: Value, env: EnvId)
    ensures var t := GuardTurn(m, n, c, w, args, env);
            t.Some? ==> RunRow(m, n, c, false, w, Guard, args, env) == EvalLink(m, n, c, t.value)
  {
    var r := RunAll(m, n, c, w, RestOf(args), env);
    if r.out.Fault? {
      var spec, frame := Nth(args, 0), |r.w.store|;
      var s1 := PushFrame(r.w.store, env);
      var s2 := if FirstOf(spec) == Nil then s1 else Bind(s1, frame, FirstOf(spec), CondValue(r.out.c));
      BodyTurnMeans(m, n, c, None, WithStore(r.w, s2), RestOf(spec), frame);
    }
  }

  lemma CombineTurnMeans(m: Rows, n: nat, c: Ctx, w: World, callee: Value, args: Value, env: EnvId)
    requires Callable(callee)
    ensures var t := CombineTurn(m, n, c, w, callee, args, env);
            t.Some? ==> Combine(m, n, c, false, w, callee, args, env) == EvalLink(m, n, c, t.value)
  {
    if callee.Closure? && Proper(args) {
      var a := EvalArgs(m, n, c, w, callee, [], args, env, 0);
      if a.All? {
        var frame := |a.w.store|;
        var s1 := BindParams(PushFrame(a.w.store, callee.env), frame, callee.params, [callee] + a.vals);
        BodyTurnMeans(m, n, c, Some(frame), WithStore(a.w, s1), callee.body, frame);
      }
    } else if callee.Operative? {
      var frame := |w.store|;
      var s1 := BindSpine(PushFrame(w.store, callee.env), frame, callee.params, args);
      var s2 := if callee.envName == Nil then s1 else Bind(s1, frame, callee.envName, EnvObj(env));
      BodyTurnMeans(m, n, c, None, WithStore(w, s2), callee.body, frame);
    } else if callee.Prim? {
      BodyTurnMeans(m, n, c, None, w, args, env);
      MatchTurnMeans(m, n, c, w, args, env);
      GuardTurnMeans(m, n, c, w, args, env);
    }
  }

  /** A form is worth what the tail form it comes to is worth, in the same context. */
  lemma TurnMeans(m: Rows, n: nat, c: Ctx, l: Link)
    requires Turn(m, n, c, l).Some?
    ensures n > 0 && EvalLink(m, n, c, l) == EvalLink(m, n - 1, c, Turn(m, n, c, l).value)
  {
    var h := Eval(m, n - 1, Deeper(c), l.w, l.form.first, l.env);
    CombineTurnMeans(m, n - 1, c, h.w, h.out.v, l.form.rest, l.env);
  }

  // ----- and comes back to the same stack ----------------------------------------------------

  /** `j` steps take `a` to evaluating `l` on `k`, within `d` evaluations. */
  ghost predicate ComesTo(m: Rows, j: nat, a: State, k: Kont, l: Link, d: nat) {
    Run(m, j, a) == State(EvalC(l.form, l.env), k, l.w) && Peak(m, j, a) <= d
  }

  /** Steps in front of a run that comes to `l`. */
  lemma Then(m: Rows, i: nat, a: State, j: nat, k: Kont, l: Link, d: nat)
    requires Peak(m, i, a) <= d && ComesTo(m, j, Run(m, i, a), k, l, d)
    ensures ComesTo(m, i + j, a, k, l, d)
  {
    RunRun(m, i, j, a);
  }

  lemma {:induction false} BodyTurnLands(m: Rows, n: nat, k: Kont, save: Option<EnvId>, w: World, forms: Value,
                                         env: EnvId) returns (j: nat)
    requires BodyTurn(m, n, CtxOf(k), save, w, forms, env).Some?
    ensures ComesTo(m, j, State(BodyC(save, forms, env, false), k, w), k,
                    BodyTurn(m, n, CtxOf(k), save, w, forms, env).value, Depth(k) + n + 1)
    decreases forms
  {
    var st := State(BodyC(save, forms, env, false), k, w);
    OneStep(m, st);
    j := 1;
    if forms.rest.Pair? {
      var f := BodyF(save, forms.rest, env, false);
      FrameCtx(f, k);
      j := StepNest(m, n, st, f, k, w, forms.first, env);
      var r := Eval(m, n, CtxOf(Push(f, k)), w, forms.first, env);
      var i := BodyTurnLands(m, n, k, save, r.w, forms.rest, env);
      Then(m, j, st, i, k, BodyTurn(m, n, CtxOf(k), save, w, forms, env).value, Depth(k) + n + 1);
      j := j + i;
    }
  }

  lemma {:induction false} MatchTurnLands(m: Rows, n: nat, k: Kont, w: World, arms: Value, env: EnvId) returns (j: nat)
    requires MatchTurn(m, n, CtxOf(k), w, arms, env).Some?
    ensures ComesTo(m, j, State(MatchC(arms, env, false), k, w), k,
                    MatchTurn(m, n, CtxOf(k), w, arms, env).value, Depth(k) + n + 1)
    decreases arms
  {
    var st := State(MatchC(arms, env, false), k, w);
    var l := MatchTurn(m, n, CtxOf(k), w, arms, env).value;
    var i;
    OneStep(m, st);
    if arms.first.Pair? {
      var f := TestF(arms.first.rest, arms.rest, env, false);
      FrameCtx(f, k);
      j := StepNest(m, n, st, f, k, w, arms.first.first, env);
      var r := Eval(m, n, CtxOf(Push(f, k)), w, arms.first.first, env);
      if Truthy(r.out.v) {
        i := BodyTurnLands(m, n, k, None, r.w, arms.first.rest, env);
      } else {
        i := MatchTurnLands(m, n, k, r.w, arms.rest, env);
      }
    } else {
      j := 1;
      i := MatchTurnLands(m, n, k, w, arms.rest, env);
    }
    Then(m, j, st, i, k, l, Depth(k) + n + 1);
    j := j + i;
  }

  lemma {:induction false} GuardTurnLands(m: Rows, n: nat, k: Kont, w: World, args: Value, env: EnvId, st: State)
    returns (j: nat)
    requires GuardTurn(m, n, CtxOf(k), w, args, env).Some?
    requires st.k == k && Step(m, st) == StepRow(Guard, args, env, false, k, w)
    ensures ComesTo(m, j, st, k, GuardTurn(m, n, CtxOf(k), w, args, env).value, Depth(k) + n + 1)
  {
    var f := GuardF(Nth(args, 0), env, false);
    j := GuardBodyLands(m, n, k, w, RestOf(args), env, f, st);
    var r := RunAll(m, n, CtxOf(k), w, RestOf(args), env);
    var i := BodyTurnLands(m, n, k, None, Run(m, j, st).w, RestOf(f.spec), |r.w.store|);
    Then(m, j, st, i, k, GuardTurn(m, n, CtxOf(k), w, args, env).value, Depth(k) + n + 1);
    j := j + i;
  }

  lemma {:induction false} RowTurnLands(m: Rows, n: nat, k: Kont, w: World, row: Row, args: Value, env: EnvId,
                                        st: State) returns (j: nat)
    requires RowTurn(m, n, CtxOf(k), w, row, args, env).Some?
    requires st.k == k && Step(m, st) == StepRow(row, args, env, false, k, w)
    ensures ComesTo(m, j, st, k, RowTurn(m, n, CtxOf(k), w, row, args, env).value, Depth(k) + n + 1)
  {
    OneStep(m, st);
    var l := RowTurn(m, n, CtxOf(k), w, row, args, env).value;
    if row.Guard? {
      j := GuardTurnLands(m, n, k, w, args, env, st);
    } else if row.EvalIn? {
      var f := ExprF(args, env, false);
      FrameCtx(f, k);
      j := StepNest(m, n, st, f, k, w, Nth(args, 0), env);
    } else {
      var i;
      if row.Seq? {
        i := BodyTurnLands(m, n, k, None, w, args, env);
      } else {
        i := MatchTurnLands(m, n, k, w, args, env);
      }
      Then(m, 1, st, i, k, l, Depth(k) + n + 1);
      j := i + 1;
    }
  }

  lemma {:induction false} CombineTurnLands(m: Rows, n: nat, k: Kont, w: World, callee: Value, args: Value, env: EnvId)
    returns (j: nat)
    requires Callable(callee) && CombineTurn(m, n, CtxOf(k), w, callee, args, env).Some?
    ensures ComesTo(m, j, State(CombineC(callee, args, env, false), k, w), k,
                    CombineTurn(m, n, CtxOf(k), w, callee, args, env).value, Depth(k) + n + 1)
  {
    var st := State(CombineC(callee, args, env, false), k, w);
    var l := CombineTurn(m, n, CtxOf(k), w, callee, args, env).value;
    OneStep(m, st);
    if Applicative(callee) {
      var slots := SlotsOf(m, callee, args);
      var a := EvalArgs(m, n, CtxOf(k), w, callee, [], args, env, slots);
      var i := ArgsLand(m, n, k, w, callee, [], args, env, slots, false);
      RunRun(m, 1, i, st);
      var i' := ApplyTurnLands(m, n, k, a.w, callee, Pad(a.vals, slots));
      Then(m, i + 1, st, i', k, l, Depth(k) + n + 1);
      j := i + 1 + i';
    } else if callee.Operative? {
      var i := BodyTurnLands(m, n, k, None, Step(m, st).w, callee.body, |w.store|);
      Then(m, 1, st, i, k, l, Depth(k) + n + 1);
      j := i + 1;
    } else {
      j := RowTurnLands(m, n, k, w, callee.row, args, env, st);
    }
  }

  lemma {:induction false} ApplyTurnLands(m: Rows, n: nat, k: Kont, w: World, callee: Value, vals: seq<Value>)
    returns (j: nat)
    requires ApplyTurn(m, n, CtxOf(k), w, callee, vals).Some?
    ensures ComesTo(m, j, State(ApplyC(callee, vals, false), k, w), k,
                    ApplyTurn(m, n, CtxOf(k), w, callee, vals).value, Depth(k) + n + 1)
  {
    var st := State(ApplyC(callee, vals, false), k, w);
    OneStep(m, st);
    j := 1;
    if callee.Closure? {
      var i := BodyTurnLands(m, n, k, Some(|w.store|), Step(m, st).w, callee.body, |w.store|);
      Then(m, 1, st, i, k, ApplyTurn(m, n, CtxOf(k), w, callee, vals).value, Depth(k) + n + 1);
      j := i + 1;
    }
  }

  /** ONE TURN. A form that comes to a tail form comes to it on the SAME continuation,
      with no more evaluations on the stack on the way than the fuel it needs. */
  lemma {:induction false} TurnLands(m: Rows, n: nat, k: Kont, l: Link) returns (j: nat)
    requires Turn(m, n, CtxOf(k), l).Some?
    ensures ComesTo(m, j, State(EvalC(l.form, l.env), k, l.w), k, Turn(m, n, CtxOf(k), l).value, Depth(k) + n)
  {
    var st := State(EvalC(l.form, l.env), k, l.w);
    var f := HeadF(l.form, l.env);
    FrameCtx(f, k);
    var h := Eval(m, n - 1, Deeper(CtxOf(k)), l.w, l.form.first, l.env);
    j := StepNest(m, n - 1, st, f, k, l.w, l.form.first, l.env);
    var i := CombineTurnLands(m, n - 1, k, h.w, h.out.v, l.form.rest, l.env);
    Then(m, j, st, i, k, Turn(m, n, CtxOf(k), l).value, Depth(k) + n);
    j := j + i;
  }

  /** Each form of the chain comes to the next, no turn needing more than `n` fuel. */
  ghost predicate TailChain(m: Rows, n: nat, c: Ctx, chain: seq<Link>) {
    forall i :: 0 <= i < |chain| - 1 ==> TurnsTo(m, n, c, chain[i], chain[i + 1])
  }

  ghost predicate TurnsTo(m: Rows, n: nat, c: Ctx, a: Link, b: Link) {
    exists i: nat :: i <= n && Turn(m, i, c, a) == Some(b)
  }

  /** A TAIL CHAIN IS FLAT. A chain of any length whose turns each need at most `n` fuel
      is run on the one continuation it started on, never with more than `n` evaluations
      above it. */
  lemma {:induction false} TailChainIsFlat(m: Rows, n: nat, k: Kont, chain: seq<Link>) returns (j: nat)
    requires |chain| >= 1 && TailChain(m, n, CtxOf(k), chain)
    ensures ComesTo(m, j, State(EvalC(chain[0].form, chain[0].env), k, chain[0].w), k, chain[|chain| - 1], Depth(k) + n)
    decreases |chain|
  {
    j := 0;
    if |chain| > 1 {
      var st := State(EvalC(chain[0].form, chain[0].env), k, chain[0].w);
      assert TurnsTo(m, n, CtxOf(k), chain[0], chain[1]);
      var i: nat :| i <= n && Turn(m, i, CtxOf(k), chain[0]) == Some(chain[1]);
      j := TurnLands(m, i, k, chain[0]);
      forall x | 0 <= x < |chain[1..]| - 1 ensures TurnsTo(m, n, CtxOf(k), chain[1..][x], chain[1..][x + 1]) {
        assert TurnsTo(m, n, CtxOf(k), chain[x + 1], chain[x + 2]);
      }
      var i' := TailChainIsFlat(m, n, k, chain[1..]);
      Then(m, j, st, i', k, chain[|chain| - 1], Depth(k) + n);
      j := j + i';
    }
  }
}
