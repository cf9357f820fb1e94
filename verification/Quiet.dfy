/** A quiet evaluation does not depend on its dynamic context.

The save row decides where a `def` binds and the record stack is what a capture
copies; nothing else reads them, and each of the two adds to the world's noise. So an
evaluation that adds none gives the same outcome and the same world in every other
context, and whether or not its tail is settled. */
module Quiet {
  import opened Options
  import opened Values
  import opened Nested

  /** Every snapshot's id was minted. */
  predicate Minted(w: World) { forall id :: id in w.snaps ==> id < w.nextCont }

  /** Ids are minted in order, and a snapshot once taken is never written again. */
  ghost predicate Later(w: World, w': World) {
    && w.nextCont <= w'.nextCont
    && (Minted(w) ==> Minted(w') && forall id :: id in w.snaps ==> id in w'.snaps && w'.snaps[id] == w.snaps[id])
  }

  /** Noise only grows, snapshots stay, and a result that added no noise is the result
      elsewhere too. */
  ghost predicate Same(w: World, r: Result, r': Result) {
    w.noise <= r.w.noise && Later(w, r.w) && (r.w.noise == w.noise ==> r' == r)
  }

  lemma {:induction false} EvalQuiet(m: Rows, n: nat, c: Ctx, c': Ctx, w: World, form: Value, env: EnvId)
    ensures Same(w, Eval(m, n, c, w, form, env), Eval(m, n, c', w, form, env))
    decreases n, 0, Nil, 0
  {
    if n > 0 && form.Pair? {
      EvalQuiet(m, n - 1, Deeper(c), Deeper(c'), w, form.first, env);
      var h := Eval(m, n - 1, Deeper(c), w, form.first, env);
      if h.out.Answer? && Callable(h.out.v) {
        CombineQuiet(m, n - 1, c, c', false, false, h.w, h.out.v, form.rest, env);
      }
    }
  }

  lemma {:induction false} CombineQuiet(m: Rows, n: nat, c: Ctx, c': Ctx, s: bool, s': bool, w: World, callee: Value,
                                        args: Value, env: EnvId)
    requires Callable(callee)
    ensures Same(w, Combine(m, n, c, s, w, callee, args, env), Combine(m, n, c', s', w, callee, args, env))
    decreases n, 6, Nil, 0
  {
    if callee.Operative? {
      OpQuiet(m, n, c, c', s, s', w, callee, args, env);
    } else if Applicative(callee) {
      var k := SlotsOf(m, callee, args);
      ArgsQuiet(m, n, c, c', w, callee, [], args, env, k);
      var a := EvalArgs(m, n, c, w, callee, [], args, env, k);
      if a.All? {
        ApplyQuiet(m, n, c, c', s, s', a.w, callee, Pad(a.vals, k));
      }
    } else {
      RowQuiet(m, n, c, c', s, s', w, callee.row, args, env);
    }
  }

  lemma {:induction false} OpQuiet(m: Rows, n: nat, c: Ctx, c': Ctx, s: bool, s': bool, w: World, callee: Value,
                                   args: Value, env: EnvId)
    requires callee.Operative?
    ensures Same(w, Combine(m, n, c, s, w, callee, args, env), Combine(m, n, c', s', w, callee, args, env))
    decreases n, 5, Nil, 0
  {
    var frame := |w.store|;
    var s1 := BindSpine(PushFrame(w.store, callee.env), frame, callee.params, args);
    var s2 := if callee.envName == Nil then s1 else Bind(s1, frame, callee.envName, EnvObj(env));
    BodyQuiet(m, n, c, c', s, s', None, None, WithStore(w, s2), callee.body, frame);
  }

  lemma {:induction false} ArgsQuiet(m: Rows, n: nat, c: Ctx, c': Ctx, w: World, callee: Value, done: seq<Value>,
                                     rest: Value, env: EnvId, k: nat)
    ensures var r := EvalArgs(m, n, c, w, callee, done, rest, env, k);
            && w.noise <= r.w.noise && Later(w, r.w)
            && (r.w.noise == w.noise ==> EvalArgs(m, n, c', w, callee, done, rest, env, k) == r)
    decreases n, 1, rest, 0
  {
    if rest.Pair? {
      var u, u' := ArgCtx(c, callee, done, rest.rest, env, k), ArgCtx(c', callee, done, rest.rest, env, k);
      EvalQuiet(m, n, u, u', w, rest.first, env);
      var r := Eval(m, n, u, w, rest.first, env);
      if r.out.Answer? {
        ArgsQuiet(m, n, c, c', r.w, callee, done + [r.out.v], rest.rest, env, k);
      }
    }
  }

  lemma {:induction false} ApplyQuiet(m: Rows, n: nat, c: Ctx, c': Ctx, s: bool, s': bool, w: World, callee: Value,
                                      vals: seq<Value>)
    requires Applicative(callee)
    requires |vals| >= match callee case Cont(_) => 1 case Prim(CallCC) => 1 case Prim(TailEval) => 2 case _ => 0
    ensures Same(w, ApplyVals(m, n, c, s, w, callee, vals), ApplyVals(m, n, c', s', w, callee, vals))
    decreases n, 5, Nil, 0
  {
    if callee.Closure? {
      var frame := |w.store|;
      var s1 := BindParams(PushFrame(w.store, callee.env), frame, callee.params, [callee] + vals);
      BodyQuiet(m, n, c, c', s, s', Some(frame), Some(frame), WithStore(w, s1), callee.body, frame);
    } else if callee == Prim(CallCC) {
      CaptureIsNotQuiet(m, n, c, w, vals[0]);
    } else if callee == Prim(TailEval) && vals[1].EnvObj? {
      EvalQuiet(m, n, TailCtx(c, s), TailCtx(c', s'), w, vals[0], vals[1].env);
    }
  }

  /** A capture is never quiet: what it records is the context itself. */
  lemma {:induction false} CaptureIsNotQuiet(m: Rows, n: nat, c: Ctx, w: World, f: Value)
    ensures WithEscape(m, n, c, w, f).w.noise > w.noise && Later(w, WithEscape(m, n, c, w, f).w)
    decreases n, 4, Nil, 0
  {
    if n > 0 && Callable(f) {
      var id := w.nextCont;
      var w1 := World(w.store, id + 1, w.snaps[id := Snapshot(c.control, Covers(c.control, c.depth))], w.noise + 1);
      CombineQuiet(m, n - 1, c, c, true, true, w1, f, Quote([Cont(id)]), ROOT);
    }
  }

  lemma {:induction false} BodyQuiet(m: Rows, n: nat, c: Ctx, c': Ctx, s: bool, s': bool, save: Option<EnvId>,
                                     save': Option<EnvId>, w: World, forms: Value, env: EnvId)
    ensures Same(w, RunBody(m, n, c, s, save, w, forms, env), RunBody(m, n, c', s', save', w, forms, env))
    decreases n, 2, forms, 0
  {
    if forms.Pair? {
      if forms.rest.Pair? {
        var u := Under(Saved(c, save), BodyRec(forms.rest, env, c.depth));
        var u' := Under(Saved(c', save'), BodyRec(forms.rest, env, c'.depth));
        EvalQuiet(m, n, u, u', w, forms.first, env);
        var r := Eval(m, n, u, w, forms.first, env);
        if r.out.Answer? {
          BodyQuiet(m, n, c, c', s, s', save, save', r.w, forms.rest, env);
        }
      } else {
        EvalQuiet(m, n, TailCtx(c, s), TailCtx(c', s'), w, forms.first, env);
      }
    }
  }

  lemma {:induction false} AllQuiet(m: Rows, n: nat, c: Ctx, c': Ctx, w: World, forms: Value, env: EnvId)
    ensures Same(w, RunAll(m, n, c, w, forms, env), RunAll(m, n, c', w, forms, env))
    decreases n, 2, forms, 0
  {
    if forms.Pair? {
      var u := Under(c, BodyRec(forms.rest, env, c.depth));
      EvalQuiet(m, n, u, Under(c', BodyRec(forms.rest, env, c'.depth)), w, forms.first, env);
      var r := Eval(m, n, u, w, forms.first, env);
      if r.out.Answer? && forms.rest.Pair? {
        AllQuiet(m, n, c, c', r.w, forms.rest, env);
      }
    }
  }

  lemma {:induction false} MatchQuiet(m: Rows, n: nat, c: Ctx, c': Ctx, s: bool, s': bool, w: World, arms: Value,
                                      env: EnvId)
    ensures Same(w, RunMatch(m, n, c, s, w, arms, env), RunMatch(m, n, c', s', w, arms, env))
    decreases n, 3, arms, 0
  {
    if arms.Pair? {
      if arms.first.Pair? {
        EvalQuiet(m, n, Deeper(c), Deeper(c'), w, arms.first.first, env);
        var r := Eval(m, n, Deeper(c), w, arms.first.first, env);
        if r.out.Answer? {
          if Truthy(r.out.v) {
            BodyQuiet(m, n, c, c', s, s', None, None, r.w, arms.first.rest, env);
          } else {
            MatchQuiet(m, n, c, c', s, s', r.w, arms.rest, env);
          }
        }
      } else {
        MatchQuiet(m, n, c, c', s, s', w, arms.rest, env);
      }
    }
  }

  lemma {:induction false} HandlerQuiet(m: Rows, n: nat, c: Ctx, c': Ctx, s: bool, s': bool, w: World, cond: Cond,
                                        spec: Value, env: EnvId)
    ensures Same(w, RunHandler(m, n, c, s, w, cond, spec, env), RunHandler(m, n, c', s', w, cond, spec, env))
    decreases n, 3, Nil, 0
  {
    var frame := |w.store|;
    var s1 := PushFrame(w.store, env);
    var s2 := if FirstOf(spec) == Nil then s1 else Bind(s1, frame, FirstOf(spec), CondValue(cond));
    BodyQuiet(m, n, c, c', s, s', None, None, WithStore(w, s2), RestOf(spec), frame);
  }

  lemma {:induction false} RowQuiet(m: Rows, n: nat, c: Ctx, c': Ctx, s: bool, s': bool, w: World, row: Row,
                                    args: Value, env: EnvId)
    ensures Same(w, RunRow(m, n, c, s, w, row, args, env), RunRow(m, n, c', s', w, row, args, env))
    decreases n, 5, Nil, 0
  {
    var a0 := Nth(args, 0);
    match row
    case SetBang => BindQuiet(m, n, c, c', w, a0, Nth(args, 1), env, true);
    case Def => BindQuiet(m, n, c, c', w, a0, Nth(args, 1), env, false);
    case Seq => BodyQuiet(m, n, c, c', s, s', None, None, w, args, env);
    case Match => MatchQuiet(m, n, c, c', s, s', w, args, env);
    case Guard =>
      AllQuiet(m, n, c, c', w, RestOf(args), env);
      var r := RunAll(m, n, c, w, RestOf(args), env);
      if r.out.Fault? {
        HandlerQuiet(m, n, c, c', s, s', r.w, r.out.c, a0, env);
      }
    case Error => EvalQuiet(m, n, Deeper(c), Deeper(c'), w, a0, env);
    case EvalIn =>
      EvalQuiet(m, n, Deeper(c), Deeper(c'), w, a0, env);
      var r := Eval(m, n, Deeper(c), w, a0, env);
      if r.out.Answer? {
        if RestOf(args) == Nil {
          EvalQuiet(m, n, TailCtx(c, s), TailCtx(c', s'), r.w, r.out.v, env);
        } else {
          EvalQuiet(m, n, Deeper(c), Deeper(c'), r.w, FirstOf(RestOf(args)), env);
          var t := Eval(m, n, Deeper(c), r.w, FirstOf(RestOf(args)), env);
          if t.out.Answer? {
            var target := TargetOf(t.out.v, env);
            EvalQuiet(m, n, Under(Saved(c, Some(target)), PassRec(c.depth)),
                      Under(Saved(c', Some(target)), PassRec(c'.depth)), t.w, r.out.v, target);
          }
        }
      }
    case EvalHere =>
      EvalQuiet(m, n, Deeper(c), Deeper(c'), w, a0, env);
      var r := Eval(m, n, Deeper(c), w, a0, env);
      if r.out.Answer? {
        EvalQuiet(m, n, Under(c, PassRec(c.depth)), Under(c', PassRec(c'.depth)), r.w, r.out.v, env);
      }
    case _ =>
  }

  lemma {:induction false} BindQuiet(m: Rows, n: nat, c: Ctx, c': Ctx, w: World, name: Value, form: Value, env: EnvId,
                                     isSet: bool)
    ensures Same(w, RunBind(m, n, c, w, name, form, env, isSet), RunBind(m, n, c', w, name, form, env, isSet))
    decreases n, 4, Nil, 0
  {
    EvalQuiet(m, n, Under(c, BindRec(name, env, isSet, c.depth)), Under(c', BindRec(name, env, isSet, c'.depth)), w,
      form, env);
  }

  /** A body run with a tail position and one run without agree when quiet. */
  lemma {:induction false} BodyIsAll(m: Rows, n: nat, c: Ctx, c': Ctx, s: bool, save: Option<EnvId>, w: World,
                                     forms: Value, env: EnvId)
    ensures Same(w, RunAll(m, n, c', w, forms, env), RunBody(m, n, c, s, save, w, forms, env))
    decreases forms
  {
    if forms.Pair? {
      var u' := Under(c', BodyRec(forms.rest, env, c'.depth));
      var r := Eval(m, n, u', w, forms.first, env);
      if forms.rest.Pair? {
        EvalQuiet(m, n, u', Under(Saved(c, save), BodyRec(forms.rest, env, c.depth)), w, forms.first, env);
        if r.out.Answer? {
          BodyIsAll(m, n, c, c', s, save, r.w, forms.rest, env);
        }
      } else {
        EvalQuiet(m, n, u', TailCtx(c, s), w, forms.first, env);
      }
    }
  }
}
