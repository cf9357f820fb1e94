/** What forms mean, said by what their parts evaluate to and without the evaluator's own
helpers: which value a name, a parameter or an arm gives, and what a row is handed. */
module Laws {
  import opened Options
  import opened Values
  import opened Nested
  import opened Scopes

  // ----- names -------------------------------------------------------------------------------

  /** A SYMBOL ANSWERS ITS INNERMOST BINDING. */
  lemma SymbolAnswers(m: Rows, n: nat, c: Ctx, w: World, text: string, env: EnvId, p: seq<EnvId>)
    requires n > 0 && FirstBinder(w.store, env, Sym(text), p)
    ensures Eval(m, n, c, w, Sym(text), env) == Result(Answer(w.store[p[|p| - 1]].cells[Sym(text)]), w)
  {
    WalkFinds(w.store, env, Sym(text), p);
  }

  /** With no binding on the way out it is unbound. */
  lemma SymbolUnbound(m: Rows, n: nat, c: Ctx, w: World, text: string, env: EnvId)
    requires n > 0 && forall p :: !FirstBinder(w.store, env, Sym(text), p)
    ensures Eval(m, n, c, w, Sym(text), env) == Result(Fault(Unbound(Sym(text))), w)
  {
    UnboundIff(w.store, env, Sym(text));
  }

  /** `set!` CHANGES THE INNERMOST BINDING, and answers the value. */
  lemma SetChanges(m: Rows, n: nat, c: Ctx, w: World, name: Value, form: Value, env: EnvId, v: Value, w1: World,
                   p: seq<EnvId>)
    requires Eval(m, n, Under(c, BindRec(name, env, true, c.depth)), w, form, env) == Result(Answer(v), w1)
    requires FirstBinder(w1.store, env, name, p)
    ensures var r := RunRow(m, n, c, false, w, SetBang, Pair(name, Pair(form, Nil)), env);
            r.out == Answer(v) && OneCell(w1.store, r.w.store, p[|p| - 1], name, v)
  {
    SetWrites(w1.store, env, name, v, p);
    ReadsThree(name, form, Nil);
  }

  /** Of an unbound name it raises, and changes nothing. */
  lemma SetUnbound(m: Rows, n: nat, c: Ctx, w: World, name: Value, form: Value, env: EnvId, v: Value, w1: World)
    requires Eval(m, n, Under(c, BindRec(name, env, true, c.depth)), w, form, env) == Result(Answer(v), w1)
    requires forall p :: !FirstBinder(w1.store, env, name, p)
    ensures RunRow(m, n, c, false, w, SetBang, Pair(name, Pair(form, Nil)), env) == Result(Fault(Unbound(name)), w1)
  {
    UnboundIff(w1.store, env, name);
    ReadsThree(name, form, Nil);
  }

  lemma ReadsThree(a: Value, b: Value, rest: Value)
    ensures var args := Pair(a, Pair(b, rest)); Nth(args, 0) == a && Nth(args, 1) == b && RestOf(RestOf(args)) == rest
  {}

  /** The rows that build a value from their operands as written. */
  lemma RowsBuild(m: Rows, n: nat, c: Ctx, s: bool, w: World, a: Value, b: Value, rest: Value, env: EnvId)
    ensures RunRow(m, n, c, s, w, Lit, Pair(a, rest), env) == Result(Answer(a), w)
    ensures RunRow(m, n, c, s, w, Fn, Pair(a, rest), env) == Result(Answer(Closure(a, rest, env)), w)
    ensures RunRow(m, n, c, s, w, Op, Pair(a, Pair(b, rest)), env) == Result(Answer(Operative(a, b, rest, env)), w)
  {
    ReadsThree(a, b, rest);
  }

  // ----- application -------------------------------------------------------------------------

  /** Argument `i` is evaluated to `vals[i]`, from the world the one before it left. */
  ghost predicate ArgRuns(m: Rows, n: nat, c: Ctx, callee: Value, forms: seq<Value>, env: EnvId, k: nat,
                          vals: seq<Value>, ws: seq<World>, i: nat)
    requires i < |forms| == |vals| && |ws| == |forms| + 1
  {
    Eval(m, n, ArgCtx(c, callee, vals[..i], Spine(forms[i + 1..], Nil), env, k), ws[i], forms[i], env)
    == Result(Answer(vals[i]), ws[i + 1])
  }

  ghost predicate ArgsRun(m: Rows, n: nat, c: Ctx, callee: Value, forms: seq<Value>, env: EnvId, k: nat,
                          vals: seq<Value>, ws: seq<World>)
  {
    && |vals| == |forms| && |ws| == |forms| + 1
    && forall i :: 0 <= i < |forms| ==> ArgRuns(m, n, c, callee, forms, env, k, vals, ws, i)
  }

  /** ARGUMENTS ARE EVALUATED IN ORDER, and their values are handed on in order. */
  lemma {:induction false} ArgsInOrder(m: Rows, n: nat, c: Ctx, callee: Value, forms: seq<Value>, env: EnvId, k: nat,
                                       vals: seq<Value>, ws: seq<World>, i: nat)
    requires ArgsRun(m, n, c, callee, forms, env, k, vals, ws) && i <= |forms|
    ensures EvalArgs(m, n, c, ws[i], callee, vals[..i], Spine(forms[i..], Nil), env, k) == All(vals, ws[|forms|])
    decreases |forms| - i
  {
    if i == |forms| {
      assert vals[..i] == vals;
    } else {
      assert ArgRuns(m, n, c, callee, forms, env, k, vals, ws, i);
      assert forms[i..][1..] == forms[i + 1..] && vals[..i] + [vals[i]] == vals[..i + 1];
      ArgsInOrder(m, n, c, callee, forms, env, k, vals, ws, i + 1);
    }
  }

  lemma {:induction false} SpineIsProper(forms: seq<Value>)
    ensures Proper(Spine(forms, Nil))
  {
    if forms != [] { SpineIsProper(forms[1..]); }
  }

  /** `r` is `vals`, with nils behind them up to `k`. */
  predicate PaddedTo(r: seq<Value>, vals: seq<Value>, k: nat) {
    && |r| == (if |vals| < k then k else |vals|) && vals <= r
    && forall i :: |vals| <= i < |r| ==> r[i] == Nil
  }

  lemma {:induction false} PadIs(vals: seq<Value>, k: nat)
    ensures PaddedTo(Pad(vals, k), vals, k)
    decreases k - |vals|
  {
    if |vals| < k { PadIs(vals + [Nil], k); }
  }

  /** A CLOSURE'S PARAMETER ANSWERS ITS ARGUMENT: applied to values, a closure whose body is
      its parameter `i` answers value `i`, itself for the first, nil past the last. */
  lemma ParameterAnswers(m: Rows, n: nat, c: Ctx, s: bool, w: World, names: seq<Value>, tail: Value, defEnv: EnvId,
                         vals: seq<Value>, i: nat)
    requires n > 0 && i < |names| && names[i].Sym? && Stands(names, tail, i) && !tail.Pair?
    ensures var f := Closure(Spine(names, tail), Pair(names[i], Nil), defEnv);
            ApplyVals(m, n, c, s, w, f, vals).out ==
              Answer(if i == 0 then f else if i <= |vals| then vals[i - 1] else Nil)
  {
    var f := Closure(Spine(names, tail), Pair(names[i], Nil), defEnv);
    var s0, e := PushFrame(w.store, defEnv), |w.store|;
    var s1 := BindParams(s0, e, Spine(names, tail), [f] + vals);
    ParamsGet(s0, e, names, tail, [f] + vals);
    var v := if i == 0 then f else if i <= |vals| then vals[i - 1] else Nil;
    assert v == if i < |[f] + vals| then ([f] + vals)[i] else Nil;
    HeldMeans(s1, e, names[i], v);
    NameBody(m, n, c, s, Some(e), WithStore(w, s1), names[i], v, e);
  }

  /** A body of one name answers what the name means. */
  lemma NameBody(m: Rows, n: nat, c: Ctx, s: bool, save: Option<EnvId>, w: World, name: Value, v: Value, e: EnvId)
    requires n > 0 && name.Sym? && Lookup(w.store, e, name) == Some(v)
    ensures RunBody(m, n, c, s, save, w, Pair(name, Nil), e) == Result(Answer(v), w)
  {
    assert Eval(m, n, TailCtx(c, s), w, name, e) == Result(Answer(v), w);
  }

  lemma HeldMeans(s: Store, e: EnvId, name: Value, v: Value)
    requires Holds(s, e, name, v)
    ensures Lookup(s, e, name) == Some(v)
  {
    WalkFinds(s, e, name, [e]);
  }

  /** ANY OTHER NAME MEANS WHAT IT MEANS WHERE THE CLOSURE WAS MADE. */
  lemma FreeNameAnswers(m: Rows, n: nat, c: Ctx, s: bool, w: World, names: seq<Value>, tail: Value, defEnv: EnvId,
                        vals: seq<Value>, text: string, p: seq<EnvId>)
    requires n > 0 && !tail.Pair? && Sym(text) !in Names(names, tail) && FirstBinder(w.store, defEnv, Sym(text), p)
    ensures ApplyVals(m, n, c, s, w, Closure(Spine(names, tail), Pair(Sym(text), Nil), defEnv), vals).out
            == Answer(w.store[p[|p| - 1]].cells[Sym(text)])
  {
    var f := Closure(Spine(names, tail), Pair(Sym(text), Nil), defEnv);
    var s0, e := PushFrame(w.store, defEnv), |w.store|;
    var s1 := BindParams(s0, e, Spine(names, tail), [f] + vals);
    ParamsGet(s0, e, names, tail, [f] + vals);
    FreeMeans(w.store, s1, defEnv, Names(names, tail), Sym(text));
    WalkFinds(w.store, defEnv, Sym(text), p);
    NameBody(m, n, c, s, Some(e), WithStore(w, s1), Sym(text), w.store[p[|p| - 1]].cells[Sym(text)], e);
  }

  lemma FreeMeans(s: Store, s1: Store, parent: EnvId, names: seq<Value>, name: Value)
    requires parent < |s| && OnlyNamed(PushFrame(s, parent), s1, |s|, names) && name !in names
    ensures Lookup(s1, |s|, name) == Lookup(s, parent, name)
  {
    assert s1[|s|].parent == Some(parent) && name !in s1[|s|].cells;
    OlderMeans(s, s1, parent, name);
  }

  /** AN APPLICATION, WHOLE: `(f a b ...)` where `f` is a closure whose body is its parameter
      `i` answers what argument `i` evaluated to. */
  lemma CallAnswers(m: Rows, n: nat, c: Ctx, s: bool, names: seq<Value>, tail: Value, defEnv: EnvId,
                    forms: seq<Value>, env: EnvId, vals: seq<Value>, ws: seq<World>, i: nat)
    requires n > 0 && i < |names| && names[i].Sym? && Stands(names, tail, i) && !tail.Pair?
    requires ArgsRun(m, n, c, Closure(Spine(names, tail), Pair(names[i], Nil), defEnv), forms, env, 0, vals, ws)
    ensures var f := Closure(Spine(names, tail), Pair(names[i], Nil), defEnv);
            Combine(m, n, c, s, ws[0], f, Spine(forms, Nil), env).out ==
              Answer(if i == 0 then f else if i <= |vals| then vals[i - 1] else Nil)
  {
    var f := Closure(Spine(names, tail), Pair(names[i], Nil), defEnv);
    SpineIsProper(forms);
    ArgsInOrder(m, n, c, f, forms, env, 0, vals, ws, 0);
    assert forms[0..] == forms && vals[..0] == [];
    ParameterAnswers(m, n, c, s, ws[|forms|], names, tail, defEnv, vals, i);
  }

  /** A computing row is handed the values, and nils up to what it reads. */
  lemma RowIsHanded(m: Rows, n: nat, c: Ctx, s: bool, index: nat, named: bool, forms: seq<Value>, env: EnvId,
                    vals: seq<Value>, ws: seq<World>, handed: seq<Value>)
    requires ArgsRun(m, n, c, Prim(Native(index, named)), forms, env, m.arity(index), vals, ws)
    requires PaddedTo(handed, vals, m.arity(index))
    ensures Combine(m, n, c, s, ws[0], Prim(Native(index, named)), Spine(forms, Nil), env) ==
              Result(match m.run(index, handed) case Computed(v) => Answer(v) case Refused(e) => Fault(e), ws[|forms|])
  {
    SpineIsProper(forms);
    ArgsInOrder(m, n, c, Prim(Native(index, named)), forms, env, m.arity(index), vals, ws, 0);
    assert forms[0..] == forms && vals[..0] == [];
    PadIs(vals, m.arity(index));
    assert Pad(vals, m.arity(index)) == handed;
  }

  /** A continuation escapes with its first argument's value, nil when it is given none. */
  lemma ContinuationEscapes(m: Rows, n: nat, c: Ctx, s: bool, id: nat, forms: seq<Value>, env: EnvId,
                            vals: seq<Value>, ws: seq<World>)
    requires ArgsRun(m, n, c, Cont(id), forms, env, 1, vals, ws)
    ensures Combine(m, n, c, s, ws[0], Cont(id), Spine(forms, Nil), env) ==
              Result(Escape(id, if vals == [] then Nil else vals[0]), ws[|forms|])
  {
    SpineIsProper(forms);
    ArgsInOrder(m, n, c, Cont(id), forms, env, 1, vals, ws, 0);
    assert forms[0..] == forms && vals[..0] == [];
    PadIs(vals, 1);
  }

  lemma OperativeRuns(m: Rows, n: nat, c: Ctx, s: bool, w: World, f: Value, args: Value, env: EnvId, s1: Store,
                      s2: Store)
    requires f.Operative? && s1 == BindSpine(PushFrame(w.store, f.env), |w.store|, f.params, args)
    requires s2 == if f.envName == Nil then s1 else Bind(s1, |w.store|, f.envName, EnvObj(env))
    ensures Combine(m, n, c, s, w, f, args, env) == RunBody(m, n, c, s, None, WithStore(w, s2), f.body, |w.store|)
  {}

  /** A list in head position is handed its arguments' values; with none it answers nil. */
  lemma ListIsHanded(m: Rows, n: nat, c: Ctx, s: bool, list: Value, forms: seq<Value>, env: EnvId,
                     vals: seq<Value>, ws: seq<World>, k: nat)
    requires list.Pair? && k == (if |forms| == 1 then 1 else 2)
    requires ArgsRun(m, n, c, list, forms, env, k, vals, ws)
    ensures Combine(m, n, c, s, ws[0], list, Spine(forms, Nil), env) ==
              Result(Answer(if forms == [] then Nil else m.list(list, vals)), ws[|forms|])
  {
    if forms != [] {
      SpineIsProper(forms);
      ArgsInOrder(m, n, c, list, forms, env, k, vals, ws, 0);
      assert forms[0..] == forms && vals[..0] == [];
      assert RestOf(Spine(forms, Nil)) == Spine(forms[1..], Nil);
      PadIs(vals, k);
      assert Pad(vals, k) == vals;
    }
  }

  /** `tail-eval` evaluates a value where it is told, in tail position. */
  lemma TailEvalRuns(m: Rows, n: nat, c: Ctx, s: bool, w: World, v: Value, place: Value)
    ensures ApplyVals(m, n, c, s, w, Prim(TailEval), [v, place]) ==
              if place.EnvObj? then Eval(m, n, TailCtx(c, s), w, v, place.env)
              else Result(Fault(NotAnEnvironment(place)), w)
  {}

  /** AN OPERATIVE'S PARAMETER ANSWERS ITS OPERAND, unevaluated. */
  lemma OperandAnswers(m: Rows, n: nat, c: Ctx, s: bool, w: World, names: seq<Value>, tail: Value, envName: Value,
                       defEnv: EnvId, forms: seq<Value>, end: Value, env: EnvId, i: nat)
    requires n > 0 && i < |names| && names[i].Sym? && Stands(names, tail, i) && !tail.Pair? && !end.Pair?
    requires names[i] != envName
    ensures Combine(m, n, c, s, w, Operative(Spine(names, tail), envName, Pair(names[i], Nil), defEnv),
              Spine(forms, end), env).out == Answer(Operand(forms, end, i))
  {
    var s0, e := PushFrame(w.store, defEnv), |w.store|;
    var s1 := BindSpine(s0, e, Spine(names, tail), Spine(forms, end));
    FormsGet(s0, e, names, tail, forms, end);
    var s2 := if envName == Nil then s1 else Bind(s1, e, envName, EnvObj(env));
    var f := Operative(Spine(names, tail), envName, Pair(names[i], Nil), defEnv);
    OperativeRuns(m, n, c, s, w, f, Spine(forms, end), env, s1, s2);
    assert Holds(s1, e, names[i], Operand(forms, end, i));
    HeldMeans(s2, e, names[i], Operand(forms, end, i));
    NameBody(m, n, c, s, None, WithStore(w, s2), names[i], Operand(forms, end, i), e);
  }

  /** And its environment name the environment it was called in. */
  lemma CallerAnswers(m: Rows, n: nat, c: Ctx, s: bool, w: World, params: Value, text: string, defEnv: EnvId,
                      args: Value, env: EnvId)
    requires n > 0
    ensures Combine(m, n, c, s, w, Operative(params, Sym(text), Pair(Sym(text), Nil), defEnv), args, env).out
            == Answer(EnvObj(env))
  {
    var s0, e := PushFrame(w.store, defEnv), |w.store|;
    var s1 := BindSpine(s0, e, params, args);
    SpineKeepsLength(s0, e, params, args);
    var s2 := Bind(s1, e, Sym(text), EnvObj(env));
    OperativeRuns(m, n, c, s, w, Operative(params, Sym(text), Pair(Sym(text), Nil), defEnv), args, env, s1, s2);
    BindWrites(s1, e, Sym(text), EnvObj(env));
    NameBody(m, n, c, s, None, WithStore(w, s2), Sym(text), EnvObj(env), e);
  }

  lemma {:induction false} SpineKeepsLength(s: Store, e: EnvId, params: Value, args: Value)
    ensures |BindSpine(s, e, params, args)| == |s|
    decreases params
  {
    if params.Pair? {
      SpineKeepsLength(Bind(s, e, params.first, if args.Pair? then args.first else args), e, params.rest,
        if args.Pair? then args.rest else Nil);
    }
  }

  /** A list whose head is no combiner is its own value. */
  lemma DataIsItself(m: Rows, n: nat, c: Ctx, w: World, head: Value, args: Value, env: EnvId, v: Value, w1: World)
    requires n > 0 && Eval(m, n - 1, Deeper(c), w, head, env) == Result(Answer(v), w1)
    requires v == Nil || v == True || v == False || v == ErrorAtom || v.Int? || v.Str? || v.Sym? || v.EnvObj?
    ensures Eval(m, n, c, w, Pair(head, args), env) == Result(Answer(Pair(head, args)), w1)
  {}

  // ----- control -----------------------------------------------------------------------------

  /** The forms of a body before the last, each run under its record. */
  ghost predicate BodyRuns(m: Rows, n: nat, c: Ctx, save: Option<EnvId>, forms: seq<Value>, env: EnvId, ws: seq<World>,
                           i: nat)
    requires i + 1 < |forms| == |ws|
  {
    var r := Eval(m, n, Under(Saved(c, save), BodyRec(Spine(forms[i + 1..], Nil), env, c.depth)), ws[i], forms[i], env);
    r.out.Answer? && r.w == ws[i + 1]
  }

  /** A BODY ANSWERS ITS LAST FORM, in the world the ones before it left. */
  lemma {:induction false} BodyInOrder(m: Rows, n: nat, c: Ctx, s: bool, save: Option<EnvId>, forms: seq<Value>,
                                       env: EnvId, ws: seq<World>, i: nat)
    requires i < |forms| == |ws|
    requires forall j :: 0 <= j < |forms| - 1 ==> BodyRuns(m, n, c, save, forms, env, ws, j)
    ensures RunBody(m, n, c, s, save, ws[i], Spine(forms[i..], Nil), env) ==
              Eval(m, n, TailCtx(c, s), ws[|ws| - 1], forms[|forms| - 1], env)
    decreases |forms| - i
  {
    var rest := forms[i..];
    assert rest[0] == forms[i] && rest[1..] == forms[i + 1..];
    if i + 1 < |forms| {
      assert BodyRuns(m, n, c, save, forms, env, ws, i);
      assert Spine(forms[i + 1..], Nil).Pair?;
      BodyInOrder(m, n, c, s, save, forms, env, ws, i + 1);
    }
  }

  /** The forms of a guarded body, each run under its record. */
  ghost predicate GuardedRuns(m: Rows, n: nat, c: Ctx, forms: seq<Value>, env: EnvId, ws: seq<World>, i: nat)
    requires i + 1 < |forms| == |ws|
  {
    var r := Eval(m, n, Under(c, BodyRec(Spine(forms[i + 1..], Nil), env, c.depth)), ws[i], forms[i], env);
    r.out.Answer? && r.w == ws[i + 1]
  }

  /** A guarded body answers its last form too, that one also under a record. */
  lemma {:induction false} GuardedInOrder(m: Rows, n: nat, c: Ctx, forms: seq<Value>, env: EnvId, ws: seq<World>,
                                          i: nat)
    requires i < |forms| == |ws|
    requires forall j :: 0 <= j < |forms| - 1 ==> GuardedRuns(m, n, c, forms, env, ws, j)
    ensures RunAll(m, n, c, ws[i], Spine(forms[i..], Nil), env) ==
              Eval(m, n, Under(c, BodyRec(Nil, env, c.depth)), ws[|ws| - 1], forms[|forms| - 1], env)
    decreases |forms| - i
  {
    var rest := forms[i..];
    assert rest[0] == forms[i] && rest[1..] == forms[i + 1..];
    if i + 1 < |forms| {
      assert GuardedRuns(m, n, c, forms, env, ws, i);
      assert Spine(forms[i + 1..], Nil).Pair?;
      GuardedInOrder(m, n, c, forms, env, ws, i + 1);
    }
  }

  /** The arms of a `match` as written. */
  function Arms(arms: seq<(Value, Value)>, rest: Value): Value {
    if arms == [] then rest else Pair(Pair(arms[0].0, arms[0].1), Arms(arms[1..], rest))
  }

  /** THE FIRST ARM WHOSE TEST IS NEITHER NIL NOR FALSE is the one taken. */
  lemma {:induction false} MatchTakes(m: Rows, n: nat, c: Ctx, s: bool, arms: seq<(Value, Value)>, rest: Value,
                                      env: EnvId, vals: seq<Value>, ws: seq<World>)
    requires arms != [] && |vals| == |arms| && |ws| == |arms| + 1
    requires forall i :: 0 <= i < |arms| ==>
        Eval(m, n, Deeper(c), ws[i], arms[i].0, env) == Result(Answer(vals[i]), ws[i + 1])
    requires forall i :: 0 <= i < |arms| - 1 ==> vals[i] == Nil || vals[i] == False
    requires vals[|vals| - 1] != Nil && vals[|vals| - 1] != False
    ensures RunMatch(m, n, c, s, ws[0], Arms(arms, rest), env) ==
              RunBody(m, n, c, s, None, ws[|arms|], arms[|arms| - 1].1, env)
    decreases |arms|
  {
    assert Eval(m, n, Deeper(c), ws[0], arms[0].0, env) == Result(Answer(vals[0]), ws[1]);
    if |arms| > 1 {
      MatchTakes(m, n, c, s, arms[1..], rest, env, vals[1..], ws[1..]);
    }
  }

  /** With every test nil or false, a `match` answers nil. */
  lemma {:induction false} MatchFalls(m: Rows, n: nat, c: Ctx, s: bool, arms: seq<(Value, Value)>, env: EnvId,
                                      vals: seq<Value>, ws: seq<World>)
    requires |vals| == |arms| && |ws| == |arms| + 1
    requires forall i :: 0 <= i < |arms| ==>
        Eval(m, n, Deeper(c), ws[i], arms[i].0, env) == Result(Answer(vals[i]), ws[i + 1])
    requires forall i :: 0 <= i < |arms| ==> vals[i] == Nil || vals[i] == False
    ensures RunMatch(m, n, c, s, ws[0], Arms(arms, Nil), env) == Result(Answer(Nil), ws[|arms|])
    decreases |arms|
  {
    if arms != [] {
      assert Eval(m, n, Deeper(c), ws[0], arms[0].0, env) == Result(Answer(vals[0]), ws[1]);
      MatchFalls(m, n, c, s, arms[1..], env, vals[1..], ws[1..]);
    }
  }

  /** WHAT A GUARD BINDS: the very value that was raised, and the error atom for every
      condition of the engine's own. A handler that is the name answers it. */
  lemma HandlerAnswers(m: Rows, n: nat, c: Ctx, s: bool, w: World, text: string, body: Value, env: EnvId, cond: Cond,
                       w1: World)
    requires n > 0 && RunAll(m, n, c, w, body, env) == Result(Fault(cond), w1)
    ensures var r := RunRow(m, n, c, s, w, Guard, Pair(Pair(Sym(text), Pair(Sym(text), Nil)), body), env);
            && (forall v :: cond == Raised(v) ==> r.out == Answer(v))
            && (cond.Unbound? || cond.EngineMsg? || cond.NotAnEnvironment? ==> r.out == Answer(ErrorAtom))
  {
    var spec, e := Pair(Sym(text), Pair(Sym(text), Nil)), |w1.store|;
    assert Nth(Pair(spec, body), 0) == spec && RestOf(Pair(spec, body)) == body;
    var s1 := Bind(PushFrame(w1.store, env), e, Sym(text), CondValue(cond));
    BindWrites(PushFrame(w1.store, env), e, Sym(text), CondValue(cond));
    NameBody(m, n, c, s, None, WithStore(w1, s1), Sym(text), CondValue(cond), e);
    assert RunHandler(m, n, c, s, w1, cond, spec, env).out == Answer(CondValue(cond));
  }

  /** `(error x)` raises what `x` evaluates to. */
  lemma ErrorRaises(m: Rows, n: nat, c: Ctx, s: bool, w: World, form: Value, rest: Value, env: EnvId, v: Value,
                    w1: World)
    requires Eval(m, n, Deeper(c), w, form, env) == Result(Answer(v), w1)
    ensures RunRow(m, n, c, s, w, Error, Pair(form, rest), env) == Result(Fault(Raised(v)), w1)
  {
    ReadsThree(form, Nil, Nil);
  }

  /** `(eval form e)` evaluates what `form` gives in the environment `e` names, or where it
      stands when `e` names none. */
  lemma EvalInRuns(m: Rows, n: nat, c: Ctx, s: bool, w: World, form: Value, place: Value, env: EnvId, v: Value,
                   w1: World, t: Value, w2: World, target: EnvId)
    requires Eval(m, n, Deeper(c), w, form, env) == Result(Answer(v), w1)
    requires Eval(m, n, Deeper(c), w1, place, env) == Result(Answer(t), w2)
    requires if t.EnvObj? then t == EnvObj(target) else target == env
    ensures RunRow(m, n, c, s, w, EvalIn, Pair(form, Pair(place, Nil)), env) ==
              Eval(m, n, Under(c.(save := [target] + c.save), PassRec(c.depth)), w2, v, target)
  {
    ReadsThree(form, place, Nil);
  }

  /** `(eval! form)` evaluates what `form` gives where it stands. */
  lemma EvalHereRuns(m: Rows, n: nat, c: Ctx, s: bool, w: World, form: Value, env: EnvId, v: Value, w1: World)
    requires Eval(m, n, Deeper(c), w, form, env) == Result(Answer(v), w1)
    ensures RunRow(m, n, c, s, w, EvalHere, Pair(form, Nil), env) == Eval(m, n, Under(c, PassRec(c.depth)), w1, v, env)
  {
    ReadsThree(form, Nil, Nil);
  }
}
