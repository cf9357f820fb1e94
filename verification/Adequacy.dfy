/** The machine and the nested evaluator agree, both ways: an evaluation that
answers takes the machine from its code to that answer on the SAME continuation,
and one that runs out of fuel keeps the machine busy at least that many steps. */
module Adequacy {
  import opened Options
  import opened Values
  import opened Nested
  import opened Machine

  /** After `j` steps from `st` the machine has handed `r` to `k`; or, for a run
      out of fuel, `j` is at least the fuel and the machine is still at work. */
  ghost predicate Reaches(m: Rows, n: nat, j: nat, st: State, k: Kont, r: Result) {
    if r.out.Exhausted? then j >= n && !Run(m, j, st).code.RetC?
    else Run(m, j, st) == Ret(r.out, k, r.w)
  }

  lemma OneStep(m: Rows, st: State)
    ensures Run(m, 1, st) == Step(m, st)
    ensures Peak(m, 1, st) == Max(Depth(st.k), Depth(Step(m, st).k))
  {
    assert Run(m, 1, st) == Run(m, 0, Step(m, st));
    assert Peak(m, 1, st) == Max(Depth(st.k), Peak(m, 0, Step(m, st)));
  }

  /** Put `i` steps in front of a run that reaches `r`. */
  lemma After(m: Rows, n: nat, i: nat, a: State, n': nat, j: nat, k: Kont, r: Result)
    requires Reaches(m, n', j, Run(m, i, a), k, r)
    requires i + n' >= n
    ensures Reaches(m, n, i + j, a, k, r)
    ensures Peak(m, i + j, a) == Max(Peak(m, i, a), Peak(m, j, Run(m, i, a)))
  {
    RunRun(m, i, j, a);
  }

  /** One more step hands what came to `f` on. */
  lemma HandOn(m: Rows, j: nat, st: State, f: Frame, k: Kont, r: Result)
    requires Run(m, j, st) == Ret(r.out, Push(f, k), r.w)
    ensures Run(m, j + 1, st) == Resume(m, f, r.out, k, r.w)
    ensures Peak(m, j + 1, st) == Max(Peak(m, j, st), Depth(Resume(m, f, r.out, k, r.w).k))
  {
    OneStep(m, Run(m, j, st));
    RunRun(m, j, 1, st);
    PeakBounds(m, j, j, st);
  }

  /** What a frame adds to the dynamic context of the code above it. */
  lemma {:induction false} FrameCtx(f: Frame, k: Kont)
    ensures Evaluating(f) && !Recorded(f) && SaveOfFrame(f).None? ==> CtxOf(Push(f, k)) == Deeper(CtxOf(k))
    ensures !Evaluating(f) ==> CtxOf(Push(f, k)) == CtxOf(k)
    ensures Recorded(f) ==> CtxOf(Push(f, k)) == Under(Saved(CtxOf(k), SaveOfFrame(f)), RecOf(f, Depth(k) + 1))
  {
    assert [] + SaveRow(k) == SaveRow(k);
  }

  /** The ways out of a nested evaluation that `f` waits on: its value is handed
      to `f`; any other outcome passes through. */
  ghost predicate ComesBack(m: Rows, n: nat, j: nat, st: State, f: Frame, k: Kont, r: Result) {
    if r.out.Answer? then Run(m, j, st) == ResumeValue(m, f, r.out.v, k, r.w)
    else Reaches(m, n, j, st, k, r)
  }

  /** A form evaluated under `f` comes back through `f`. */
  lemma {:induction false} Nest(m: Rows, n: nat, f: Frame, k: Kont, w: World, form: Value, env: EnvId) returns (j: nat)
    requires Evaluating(f)
    ensures ComesBack(m, n, j, State(EvalC(form, env), Push(f, k), w), f, k,
                      Eval(m, n, CtxOf(Push(f, k)), w, form, env))
    ensures Peak(m, j, State(EvalC(form, env), Push(f, k), w)) <= Depth(k) + n + 1
    decreases n, 0, Nil, 1
  {
    var st := State(EvalC(form, env), Push(f, k), w);
    j := EvalLands(m, n, Push(f, k), w, form, env);
    var r := Eval(m, n, CtxOf(Push(f, k)), w, form, env);
    if !r.out.Exhausted? {
      if r.out.Answer? { ResumeDepth(m, f, r.out.v, k, r.w); }
      OneStep(m, Run(m, j, st));
      RunRun(m, j, 1, st);
      j := j + 1;
    }
  }

  /** The same behind the step that pushed `f`. */
  lemma {:induction false} StepNest(m: Rows, n: nat, st: State, f: Frame, k: Kont, w: World, form: Value, env: EnvId)
    returns (j: nat)
    requires Evaluating(f)
    requires st.k == k && Step(m, st) == State(EvalC(form, env), Push(f, k), w)
    ensures Peak(m, j, st) <= Depth(k) + n + 1
    ensures j >= 1 && ComesBack(m, n + 1, j, st, f, k, Eval(m, n, CtxOf(Push(f, k)), w, form, env))
    decreases n, 0, Nil, 2
  {
    j := Nest(m, n, f, k, w, form, env);
    OneStep(m, st);
    BackAfter(m, n, st, j, f, k, Eval(m, n, CtxOf(Push(f, k)), w, form, env));
    j := j + 1;
  }

  lemma BackAfter(m: Rows, n: nat, st: State, j: nat, f: Frame, k: Kont, r: Result)
    requires ComesBack(m, n, j, Step(m, st), f, k, r)
    ensures ComesBack(m, n + 1, j + 1, st, f, k, r)
    ensures Peak(m, j + 1, st) == Max(Depth(st.k), Peak(m, j, Step(m, st)))
  {
    OneStep(m, st);
    RunRun(m, 1, j, st);
    assert Peak(m, 1, st) == Max(Depth(st.k), Depth(Step(m, st).k));
    PeakBounds(m, 0, j, Step(m, st));
  }

  lemma {:induction false} EvalLands(m: Rows, n: nat, k: Kont, w: World, form: Value, env: EnvId) returns (j: nat)
    ensures Reaches(m, n, j, State(EvalC(form, env), k, w), k, Eval(m, n, CtxOf(k), w, form, env))
    ensures Peak(m, j, State(EvalC(form, env), k, w)) <= Depth(k) + n
    decreases n, 0, Nil, 0
  {
    var st := State(EvalC(form, env), k, w);
    if form.Nil? || (n > 0 && !form.Pair?) {
      OneStep(m, st);
      j := 1;
    } else if n == 0 {
      j := 0;
    } else {
      var f := HeadF(form, env);
      FrameCtx(f, k);
      var h := Eval(m, n - 1, Deeper(CtxOf(k)), w, form.first, env);
      j := StepNest(m, n - 1, st, f, k, w, form.first, env);
      if h.out.Answer? && Callable(h.out.v) {
        var i := CombineLands(m, n - 1, k, h.w, h.out.v, form.rest, env, false);
        After(m, n, j, st, n - 1, i, k, Combine(m, n - 1, CtxOf(k), false, h.w, h.out.v, form.rest, env));
        j := j + i;
      }
    }
  }

  /** A tail form, settled or left to the waiting loop, hands its outcome to `k`. */
  lemma {:induction false} TailLands(m: Rows, n: nat, form: Value, env: EnvId, s: bool, k: Kont, w: World)
    returns (j: nat)
    ensures Reaches(m, n, j, Tail(form, env, s, k, w), k, Eval(m, n, TailCtx(CtxOf(k), s), w, form, env))
    ensures Peak(m, j, Tail(form, env, s, k, w)) <= Depth(k) + n + 1
    decreases n, 0, Nil, 1
  {
    FrameCtx(SettleF, k);
    var st := Tail(form, env, s, k, w);
    j := EvalLands(m, n, st.k, w, form, env);
    if s && !Eval(m, n, Deeper(CtxOf(k)), w, form, env).out.Exhausted? {
      OneStep(m, Run(m, j, st));
      RunRun(m, j, 1, st);
      j := j + 1;
    }
  }

  lemma {:induction false} BodyLands(m: Rows, n: nat, k: Kont, s: bool, save: Option<EnvId>, w: World, forms: Value,
                                     env: EnvId) returns (j: nat)
    ensures Reaches(m, n, j, State(BodyC(save, forms, env, s), k, w), k,
                    RunBody(m, n, CtxOf(k), s, save, w, forms, env))
    ensures Peak(m, j, State(BodyC(save, forms, env, s), k, w)) <= Depth(k) + n + 1
    decreases n, 2, forms, 0
  {
    var st := State(BodyC(save, forms, env, s), k, w);
    OneStep(m, st);
    if !forms.Pair? {
      j := 1;
    } else if forms.rest.Pair? {
      var f := BodyF(save, forms.rest, env, s);
      FrameCtx(f, k);
      j := StepNest(m, n, st, f, k, w, forms.first, env);
      var r := Eval(m, n, CtxOf(Push(f, k)), w, forms.first, env);
      if r.out.Answer? {
        assert RunBody(m, n, CtxOf(k), s, save, w, forms, env)
          == RunBody(m, n, CtxOf(k), s, save, r.w, forms.rest, env);
        var i := BodyLands(m, n, k, s, save, r.w, forms.rest, env);
        After(m, n, j, st, n, i, k, RunBody(m, n, CtxOf(k), s, save, r.w, forms.rest, env));
        j := j + i;
      }
    } else {
      var i := TailLands(m, n, forms.first, env, s, k, w);
      After(m, n, 1, st, n, i, k, RunBody(m, n, CtxOf(k), s, save, w, forms, env));
      j := i + 1;
    }
  }

  lemma {:induction false} AllLands(m: Rows, n: nat, k: Kont, w: World, forms: Value, env: EnvId) returns (j: nat)
    ensures Reaches(m, n, j, State(AllC(forms, env), k, w), k, RunAll(m, n, CtxOf(k), w, forms, env))
    ensures Peak(m, j, State(AllC(forms, env), k, w)) <= Depth(k) + n + 1
    decreases n, 2, forms, 0
  {
    var st := State(AllC(forms, env), k, w);
    OneStep(m, st);
    if !forms.Pair? {
      j := 1;
    } else {
      var f := AllF(forms.rest, env);
      FrameCtx(f, k);
      j := StepNest(m, n, st, f, k, w, forms.first, env);
      var r := Eval(m, n, CtxOf(Push(f, k)), w, forms.first, env);
      if r.out.Answer? && forms.rest.Pair? {
        var i := AllLands(m, n, k, r.w, forms.rest, env);
        After(m, n, j, st, n, i, k, RunAll(m, n, CtxOf(k), r.w, forms.rest, env));
        j := j + i;
      }
    }
  }

  lemma {:induction false} MatchLands(m: Rows, n: nat, k: Kont, s: bool, w: World, arms: Value, env: EnvId)
    returns (j: nat)
    ensures Reaches(m, n, j, State(MatchC(arms, env, s), k, w), k, RunMatch(m, n, CtxOf(k), s, w, arms, env))
    ensures Peak(m, j, State(MatchC(arms, env, s), k, w)) <= Depth(k) + n + 1
    decreases n, 3, arms, 0
  {
    var st := State(MatchC(arms, env, s), k, w);
    OneStep(m, st);
    if !arms.Pair? {
      j := 1;
    } else if arms.first.Pair? {
      var f := TestF(arms.first.rest, arms.rest, env, s);
      FrameCtx(f, k);
      j := StepNest(m, n, st, f, k, w, arms.first.first, env);
      var r := Eval(m, n, CtxOf(Push(f, k)), w, arms.first.first, env);
      if r.out.Answer? {
        var i;
        if Truthy(r.out.v) {
          i := BodyLands(m, n, k, s, None, r.w, arms.first.rest, env);
        } else {
          i := MatchLands(m, n, k, s, r.w, arms.rest, env);
        }
        After(m, n, j, st, n, i, k, RunMatch(m, n, CtxOf(k), s, w, arms, env));
        j := j + i;
      }
    } else {
      var i := MatchLands(m, n, k, s, w, arms.rest, env);
      After(m, n, 1, st, n, i, k, RunMatch(m, n, CtxOf(k), s, w, arms, env));
      j := i + 1;
    }
  }

  /** After `j` steps from `st` an argument row is at its application, with all its values,
      or what cut it short is handed to `k`. */
  ghost predicate ArgsReach(m: Rows, n: nat, j: nat, st: State, k: Kont, callee: Value, slots: nat, s: bool,
                            r: RowResult) {
    if r.All? then Run(m, j, st) == State(ApplyC(callee, Pad(r.vals, slots), s), k, r.w)
    else !r.out.Answer? && Reaches(m, n, j, st, k, Result(r.out, r.w))
  }

  lemma ArgsAfter(m: Rows, n: nat, i: nat, a: State, j: nat, k: Kont, callee: Value, slots: nat, s: bool, r: RowResult)
    requires ArgsReach(m, n, j, Run(m, i, a), k, callee, slots, s, r)
    ensures ArgsReach(m, n, i + j, a, k, callee, slots, s, r)
    ensures Peak(m, i + j, a) == Max(Peak(m, i, a), Peak(m, j, Run(m, i, a)))
  {
    RunRun(m, i, j, a);
  }

  lemma {:induction false} ArgsLand(m: Rows, n: nat, k: Kont, w: World, callee: Value, done: seq<Value>,
                                    rest: Value, env: EnvId, slots: nat, s: bool) returns (j: nat)
    requires Applicative(callee)
    ensures ArgsReach(m, n, j, State(ArgsC(callee, done, rest, env, slots, s), k, w), k, callee, slots, s,
                      EvalArgs(m, n, CtxOf(k), w, callee, done, rest, env, slots))
    ensures Peak(m, j, State(ArgsC(callee, done, rest, env, slots, s), k, w)) <= Depth(k) + n + 1
    decreases n, 1, rest, 0
  {
    var st := State(ArgsC(callee, done, rest, env, slots, s), k, w);
    OneStep(m, st);
    if !rest.Pair? {
      j := 1;
    } else {
      var f := ArgsF(callee, done, rest.rest, env, slots, s);
      FrameCtx(f, k);
      j := StepNest(m, n, st, f, k, w, rest.first, env);
      var r := Eval(m, n, CtxOf(Push(f, k)), w, rest.first, env);
      assert EvalArgs(m, n, CtxOf(k), w, callee, done, rest, env, slots) ==
             if r.out.Answer? then EvalArgs(m, n, CtxOf(k), r.w, callee, done + [r.out.v], rest.rest, env, slots)
             else Cut(r.out, r.w);
      if r.out.Answer? {
        var i := ArgsLand(m, n, k, r.w, callee, done + [r.out.v], rest.rest, env, slots, s);
        ArgsAfter(m, n, j, st, i, k, callee, slots, s,
                  EvalArgs(m, n, CtxOf(k), r.w, callee, done + [r.out.v], rest.rest, env, slots));
        j := j + i;
      }
    }
  }

  lemma {:induction false} CombineLands(m: Rows, n: nat, k: Kont, w: World, callee: Value, args: Value, env: EnvId,
                                        s: bool) returns (j: nat)
    requires Callable(callee)
    ensures Reaches(m, n, j, State(CombineC(callee, args, env, s), k, w), k,
                    Combine(m, n, CtxOf(k), s, w, callee, args, env))
    ensures Peak(m, j, State(CombineC(callee, args, env, s), k, w)) <= Depth(k) + n + 1
    decreases n, 6, Nil, 0
  {
    var st := State(CombineC(callee, args, env, s), k, w);
    var r := Combine(m, n, CtxOf(k), s, w, callee, args, env);
    OneStep(m, st);
    if (callee.Pair? && args == Nil) || (Applicative(callee) && !Proper(args)) {
      j := 1;
    } else if Applicative(callee) {
      var i := ApplicativeLands(m, n, k, w, callee, args, env, s);
      After(m, n, 1, st, n, i, k, r);
      j := i + 1;
    } else {
      if callee.Operative? {
        var i := BodyLands(m, n, k, s, None, Step(m, st).w, callee.body, |w.store|);
        After(m, n, 1, st, n, i, k, r);
        j := i + 1;
      } else {
        j := RowLands(m, n, k, s, w, callee.row, args, env, st);
      }
    }
  }

  /** An argument row and the application after it. */
  lemma {:induction false} ApplicativeLands(m: Rows, n: nat, k: Kont, w: World, callee: Value, args: Value, env: EnvId,
                                            s: bool) returns (j: nat)
    requires Applicative(callee) && Proper(args) && !(callee.Pair? && args == Nil)
    ensures Reaches(m, n, j, State(ArgsC(callee, [], args, env, SlotsOf(m, callee, args), s), k, w), k,
                    Combine(m, n, CtxOf(k), s, w, callee, args, env))
    ensures Peak(m, j, State(ArgsC(callee, [], args, env, SlotsOf(m, callee, args), s), k, w)) <= Depth(k) + n + 1
    decreases n, 5, Nil, 1
  {
    var slots := SlotsOf(m, callee, args);
    var st := State(ArgsC(callee, [], args, env, slots, s), k, w);
    var a := EvalArgs(m, n, CtxOf(k), w, callee, [], args, env, slots);
    j := ArgsLand(m, n, k, w, callee, [], args, env, slots, s);
    if a.All? {
      var i := ApplyLands(m, n, k, s, a.w, callee, Pad(a.vals, slots));
      After(m, n, j, st, n, i, k, ApplyVals(m, n, CtxOf(k), s, a.w, callee, Pad(a.vals, slots)));
      j := j + i;
    }
  }

  lemma {:induction false} ApplyLands(m: Rows, n: nat, k: Kont, s: bool, w: World, callee: Value, vals: seq<Value>)
    returns (j: nat)
    requires Applicative(callee)
    requires |vals| >= match callee case Cont(_) => 1 case Prim(CallCC) => 1 case Prim(TailEval) => 2 case _ => 0
    ensures Reaches(m, n, j, State(ApplyC(callee, vals, s), k, w), k, ApplyVals(m, n, CtxOf(k), s, w, callee, vals))
    ensures Peak(m, j, State(ApplyC(callee, vals, s), k, w)) <= Depth(k) + n + 1
    decreases n, 5, Nil, 0
  {
    var st := State(ApplyC(callee, vals, s), k, w);
    var r := ApplyVals(m, n, CtxOf(k), s, w, callee, vals);
    OneStep(m, st);
    j := 1;
    if callee.Closure? {
      var i := BodyLands(m, n, k, s, Some(|w.store|), Step(m, st).w, callee.body, |w.store|);
      After(m, n, 1, st, n, i, k, r);
      j := i + 1;
    } else if callee == Prim(CallCC) {
      var i := EscapeLands(m, n, k, w, vals[0], st);
      j := i;
    } else if callee == Prim(TailEval) && vals[1].EnvObj? {
      var i := TailLands(m, n, vals[0], vals[1].env, s, k, w);
      After(m, n, 1, st, n, i, k, r);
      j := i + 1;
    }
  }

  /** A capture: the machine's step records exactly what `WithEscape` records, and
      the live call/cc frame stops its own escape and nothing else. */
  lemma {:induction false} EscapeLands(m: Rows, n: nat, k: Kont, w: World, f: Value, st: State) returns (j: nat)
    requires st.k == k && Captures(m, st, k, w, f)
    ensures Reaches(m, n, j, st, k, WithEscape(m, n, CtxOf(k), w, f))
    ensures Peak(m, j, st) <= Depth(k) + n + 1
    decreases n, 4, Nil, 0
  {
    var st1 := Step(m, st);
    var k1 := st1.k;
    var r := CallValues(m, n, CtxOf(k), st1.w, f, [Cont(w.nextCont)], ROOT);
    FrameCtx(CatchF(w.nextCont), k);
    OneStep(m, st);
    var i := CallLands(m, n, k1, st1.w, f, [Cont(w.nextCont)], ROOT);
    After(m, n, 1, st, n, i, k1, r);
    j := CatchLands(m, n, i + 1, st, CatchF(w.nextCont), k, r);
  }

  /** The step that takes a snapshot and calls. */
  ghost predicate Captures(m: Rows, st: State, k: Kont, w: World, f: Value) {
    var id := w.nextCont;
    Step(m, st) == State(CallC(f, [Cont(id)], ROOT), Push(CatchF(id), k),
      World(w.store, id + 1, w.snaps[id := Snapshot(Control(k), Covers(Control(k), Depth(k) + 1))], w.noise + 1))
  }

  /** What came to a live call/cc frame, handed on. */
  lemma CatchLands(m: Rows, n: nat, i: nat, st: State, f: Frame, k: Kont, r: Result) returns (j: nat)
    requires f.CatchF? && Reaches(m, n, i, st, Push(f, k), r) && Peak(m, i, st) <= Depth(k) + n + 1
    ensures Reaches(m, n, j, st, k, if r.out.Escape? && r.out.id == f.id then Result(Answer(r.out.v), r.w) else r)
    ensures Peak(m, j, st) <= Depth(k) + n + 1
  {
    j := i;
    if !r.out.Exhausted? {
      HandOn(m, j, st, f, k, r);
      j := j + 1;
    }
  }

  lemma {:induction false} CallLands(m: Rows, n: nat, k: Kont, w: World, f: Value, vals: seq<Value>, env: EnvId)
    returns (j: nat)
    ensures Reaches(m, n, j, State(CallC(f, vals, env), k, w), k, CallValues(m, n, CtxOf(k), w, f, vals, env))
    ensures Peak(m, j, State(CallC(f, vals, env), k, w)) <= Depth(k) + n + 1
    decreases n, 3, Nil, 0
  {
    var st := State(CallC(f, vals, env), k, w);
    OneStep(m, st);
    if !Callable(f) {
      j := 1;
    } else if n == 0 {
      j := 0;
    } else {
      var i := CombineLands(m, n - 1, k, w, f, Quote(vals), env, true);
      After(m, n, 1, st, n - 1, i, k, CallValues(m, n, CtxOf(k), w, f, vals, env));
      j := i + 1;
    }
  }

  lemma {:induction false} RowLands(m: Rows, n: nat, k: Kont, s: bool, w: World, row: Row, args: Value, env: EnvId,
                                    st: State) returns (j: nat)
    requires Step(m, st) == StepRow(row, args, env, s, k, w)
    requires st.k == k
    ensures Reaches(m, n, j, st, k, RunRow(m, n, CtxOf(k), s, w, row, args, env))
    ensures Peak(m, j, st) <= Depth(k) + n + 1
    decreases n, 5, Nil, 0
  {
    OneStep(m, st);
    j := 1;
    match row
    case SetBang => j := BindLands(m, n, k, w, Nth(args, 0), Nth(args, 1), env, true, st);
    case Def => j := BindLands(m, n, k, w, Nth(args, 0), Nth(args, 1), env, false, st);
    case Seq => j := SeqLands(m, n, k, s, w, row, args, env, st);
    case Match => j := SeqLands(m, n, k, s, w, row, args, env, st);
    case Guard => j := GuardLands(m, n, k, s, w, args, env, st);
    case Error =>
      FrameCtx(ErrorF, k);
      j := StepNest(m, n, st, ErrorF, k, w, Nth(args, 0), env);
    case EvalIn => j := EvalInLands(m, n, k, s, w, args, env, st);
    case EvalHere => j := HereLands(m, n, k, s, w, args, env, st);
    case _ =>
  }

  /** The rows that run forms in tail position from their first step. */
  lemma {:induction false} SeqLands(m: Rows, n: nat, k: Kont, s: bool, w: World, row: Row, args: Value, env: EnvId,
                                    st: State) returns (j: nat)
    requires (row.Seq? || row.Match?) && Step(m, st) == StepRow(row, args, env, s, k, w)
    requires st.k == k
    ensures Reaches(m, n, j, st, k, RunRow(m, n, CtxOf(k), s, w, row, args, env))
    ensures Peak(m, j, st) <= Depth(k) + n + 1
    decreases n, 4, Nil, 0
  {
    OneStep(m, st);
    if row.Seq? {
      j := BodyLands(m, n, k, s, None, w, args, env);
    } else {
      j := MatchLands(m, n, k, s, w, args, env);
    }
    After(m, n, 1, st, n, j, k, RunRow(m, n, CtxOf(k), s, w, row, args, env));
    j := j + 1;
  }

  lemma {:induction false} HereLands(m: Rows, n: nat, k: Kont, s: bool, w: World, args: Value, env: EnvId, st: State)
    returns (j: nat)
    requires Step(m, st) == StepRow(EvalHere, args, env, s, k, w)
    requires st.k == k
    ensures Reaches(m, n, j, st, k, RunRow(m, n, CtxOf(k), s, w, EvalHere, args, env))
    ensures Peak(m, j, st) <= Depth(k) + n + 1
    decreases n, 4, Nil, 0
  {
    FrameCtx(HereF(env), k);
    FrameCtx(PassF(None), k);
    j := StepNest(m, n, st, HereF(env), k, w, Nth(args, 0), env);
    var v := Eval(m, n, Deeper(CtxOf(k)), w, Nth(args, 0), env);
    if v.out.Answer? {
      var i := PassLands(m, n, k, v.w, v.out.v, env, None);
      After(m, n, j, st, n, i, k, RunRow(m, n, CtxOf(k), s, w, EvalHere, args, env));
      j := j + i;
    }
  }

  lemma {:induction false} BindLands(m: Rows, n: nat, k: Kont, w: World, name: Value, form: Value, env: EnvId,
                                     isSet: bool, st: State) returns (j: nat)
    requires Step(m, st) == State(EvalC(form, env), Push(BindF(name, env, isSet), k), w)
    requires st.k == k
    ensures Reaches(m, n, j, st, k, RunBind(m, n, CtxOf(k), w, name, form, env, isSet))
    ensures Peak(m, j, st) <= Depth(k) + n + 1
    decreases n, 4, Nil, 0
  {
    FrameCtx(BindF(name, env, isSet), k);
    j := StepNest(m, n, st, BindF(name, env, isSet), k, w, form, env);
  }

  /** `(eval form env)`'s last evaluation, under its frame. */
  lemma {:induction false} PassLands(m: Rows, n: nat, k: Kont, w: World, form: Value, env: EnvId, target: Option<EnvId>)
    returns (j: nat)
    ensures Reaches(m, n, j, State(EvalC(form, env), Push(PassF(target), k), w), k,
                    Eval(m, n, CtxOf(Push(PassF(target), k)), w, form, env))
    ensures Peak(m, j, State(EvalC(form, env), Push(PassF(target), k), w)) <= Depth(k) + n + 1
    decreases n, 0, Nil, 1
  {
    var st := State(EvalC(form, env), Push(PassF(target), k), w);
    j := EvalLands(m, n, st.k, w, form, env);
    if !Eval(m, n, CtxOf(st.k), w, form, env).out.Exhausted? {
      OneStep(m, Run(m, j, st));
      RunRun(m, j, 1, st);
      j := j + 1;
    }
  }

  lemma {:induction false} EvalInLands(m: Rows, n: nat, k: Kont, s: bool, w: World, args: Value, env: EnvId, st: State)
    returns (j: nat)
    requires Step(m, st) == StepRow(EvalIn, args, env, s, k, w)
    requires st.k == k
    ensures Reaches(m, n, j, st, k, RunRow(m, n, CtxOf(k), s, w, EvalIn, args, env))
    ensures Peak(m, j, st) <= Depth(k) + n + 1
    decreases n, 4, Nil, 0
  {
    var res := RunRow(m, n, CtxOf(k), s, w, EvalIn, args, env);
    var f := ExprF(args, env, s);
    FrameCtx(f, k);
    j := StepNest(m, n, st, f, k, w, Nth(args, 0), env);
    var r := Eval(m, n, Deeper(CtxOf(k)), w, Nth(args, 0), env);
    if r.out.Answer? {
      var i;
      if RestOf(args) == Nil {
        i := TailLands(m, n, r.out.v, env, s, k, r.w);
      } else {
        i := TargetLands(m, n, k, r.w, r.out.v, FirstOf(RestOf(args)), env);
      }
      After(m, n, j, st, n, i, k, res);
      j := j + i;
    }
  }

  /** The with-env half of `eval`: the environment, then the expression in it. */
  lemma {:induction false} TargetLands(m: Rows, n: nat, k: Kont, w: World, expr: Value, envForm: Value, env: EnvId)
    returns (j: nat)
    ensures var t := Eval(m, n, Deeper(CtxOf(k)), w, envForm, env);
            var target := TargetOf(if t.out.Answer? then t.out.v else Nil, env);
            Reaches(m, n, j, State(EvalC(envForm, env), Push(TargetF(expr, env), k), w), k,
              if !t.out.Answer? then t
              else Eval(m, n, Under(Saved(CtxOf(k), Some(target)), PassRec(CtxOf(k).depth)), t.w, expr, target))
    ensures Peak(m, j, State(EvalC(envForm, env), Push(TargetF(expr, env), k), w)) <= Depth(k) + n + 1
    decreases n, 0, Nil, 2
  {
    var f := TargetF(expr, env);
    var st := State(EvalC(envForm, env), Push(f, k), w);
    FrameCtx(f, k);
    j := Nest(m, n, f, k, w, envForm, env);
    var t := Eval(m, n, Deeper(CtxOf(k)), w, envForm, env);
    if t.out.Answer? {
      var target := TargetOf(t.out.v, env);
      FrameCtx(PassF(Some(target)), k);
      var i := PassLands(m, n, k, t.w, expr, target, Some(target));
      RunRun(m, j, i, st);
      j := j + i;
    }
  }

  lemma {:induction false} GuardLands(m: Rows, n: nat, k: Kont, s: bool, w: World, args: Value, env: EnvId, st: State)
    returns (j: nat)
    requires Step(m, st) == State(AllC(RestOf(args), env), Push(GuardF(Nth(args, 0), env, s), k), w)
    requires st.k == k
    ensures Reaches(m, n, j, st, k, RunRow(m, n, CtxOf(k), s, w, Guard, args, env))
    ensures Peak(m, j, st) <= Depth(k) + n + 1
    decreases n, 4, Nil, 0
  {
    var f := GuardF(Nth(args, 0), env, s);
    j := GuardBodyLands(m, n, k, w, RestOf(args), env, f, st);
    var r := RunAll(m, n, CtxOf(k), w, RestOf(args), env);
    if r.out.Fault? {
      var h := HandlerLands(m, n, k, r.w, r.out.c, f);
      After(m, n, j, st, n, h, k, RunRow(m, n, CtxOf(k), s, w, Guard, args, env));
      j := j + h;
    }
  }

  /** The guarded body's outcome comes to its guard frame. */
  lemma {:induction false} GuardBodyLands(m: Rows, n: nat, k: Kont, w: World, forms: Value, env: EnvId, f: Frame,
                                          st: State) returns (j: nat)
    requires f.GuardF? && Step(m, st) == State(AllC(forms, env), Push(f, k), w) && st.k == k
    ensures var r := RunAll(m, n, CtxOf(k), w, forms, env);
            if r.out.Exhausted? then j >= n && !Run(m, j, st).code.RetC?
              else Run(m, j, st) == Resume(m, f, r.out, k, r.w)
    ensures Peak(m, j, st) <= Depth(k) + n + 1
    decreases n, 3, Nil, 0
  {
    FrameCtx(f, k);
    OneStep(m, st);
    var r := RunAll(m, n, CtxOf(k), w, forms, env);
    var i := AllLands(m, n, Push(f, k), w, forms, env);
    After(m, n, 1, st, n, i, Push(f, k), r);
    j := i + 1;
    if !r.out.Exhausted? {
      HandOn(m, j, st, f, k, r);
      j := j + 1;
    }
  }

  /** A guard frame handed a fault runs its handler on what is below it. */
  lemma {:induction false} HandlerLands(m: Rows, n: nat, k: Kont, w: World, cond: Cond, f: Frame) returns (j: nat)
    requires f.GuardF?
    ensures Reaches(m, n, j, Resume(m, f, Fault(cond), k, w), k,
        RunHandler(m, n, CtxOf(k), f.settled, w, cond, f.spec, f.env))
    ensures Peak(m, j, Resume(m, f, Fault(cond), k, w)) <= Depth(k) + n + 1
    decreases n, 3, Nil, 0
  {
    j := BodyLands(m, n, k, f.settled, None, Resume(m, f, Fault(cond), k, w).w, RestOf(f.spec), |w.store|);
  }
}
