/** Top-level forms one after another. A continuation outlives the form that captured it,
and a later form that escapes to it goes on as the captured run would have. */
module Sessions {
  import opened Values
  import opened Nested
  import opened Machine
  import opened Adequacy
  import opened Runs
  import opened Quiet
  import opened Replay
  import Scopes
  import Laws

  lemma LaterStill(w: World, w1: World, w2: World)
    requires Later(w, w1) && Later(w1, w2)
    ensures Later(w, w2)
  {}

  lemma {:induction false} ResumedLater(m: Rows, n: nat, r: Result)
    ensures Later(r.w, Resumed(m, n, r).w)
    decreases n
  {
    if r.out.Escape? && n != 0 {
      var q := ResumeEscape(m, n - 1, r.w, r.out.id, r.out.v);
      if r.out.id in r.w.snaps && r.w.snaps[r.out.id].resumable {
        ReplayGrows(m, n - 1, r.w, r.w.snaps[r.out.id].recs, r.out.v);
      }
      ResumedLater(m, n - 1, q);
      LaterStill(r.w, q.w, Resumed(m, n, r).w);
    }
  }

  /** A top-level form, whatever it resumes, writes no snapshot again. */
  lemma TopLater(m: Rows, n: nat, w: World, form: Value)
    ensures Later(w, Eval(m, n, Deeper(TOP), w, form, ROOT).w)
    ensures Later(w, EvalTop(m, n, w, form).w)
  {
    var r := Eval(m, n, Deeper(TOP), w, form, ROOT);
    EvalQuiet(m, n, Deeper(TOP), Deeper(TOP), w, form, ROOT);
    ResumedLater(m, n, r);
    LaterStill(w, r.w, EvalTop(m, n, w, form).w);
  }

  /** The world after top-level forms, each evaluated with its own fuel. */
  function WorldAfter(m: Rows, forms: seq<(nat, Value)>, w: World): World
    decreases |forms|
  {
    if forms == [] then w else WorldAfter(m, forms[1..], EvalTop(m, forms[0].0, w, forms[0].1).w)
  }

  lemma {:induction false} SessionLater(m: Rows, forms: seq<(nat, Value)>, w: World)
    ensures Later(w, WorldAfter(m, forms, w))
    decreases |forms|
  {
    if forms != [] {
      var w1 := EvalTop(m, forms[0].0, w, forms[0].1).w;
      TopLater(m, forms[0].0, w, forms[0].1);
      SessionLater(m, forms[1..], w1);
      LaterStill(w, w1, WorldAfter(m, forms, w));
    }
  }

  lemma {:induction false} RunLater(m: Rows, j: nat, st: State)
    requires StateOk(m, st)
    ensures Later(st.w, Run(m, j, st).w)
    decreases j
  {
    RunKeepsOk(m, j, st);
    if j != 0 {
      StepKeepsOk(m, st);
      RunLater(m, j - 1, Step(m, st));
      forall id | id in st.w.snaps
        ensures id in Run(m, j, st).w.snaps && Run(m, j, st).w.snaps[id] == st.w.snaps[id]
      {
        SnapshotStays(m, j, st, id);
      }
    }
  }

  /** What a run held at a step before its end is still there at its end. */
  lemma {:induction false} EndIsLater(m: Rows, i: nat, n: nat, form: Value, w0: World)
    requires Minted(w0) && !Run(m, i, From(form, ROOT, w0)).code.RetC?
    requires !Eval(m, n, Deeper(TOP), w0, form, ROOT).out.Exhausted?
    ensures Later(Step(m, Run(m, i, From(form, ROOT, w0))).w, Eval(m, n, Deeper(TOP), w0, form, ROOT).w)
  {
    var st := From(form, ROOT, w0);
    var now := Run(m, i, st);
    assert CtxOf(Done) == Deeper(TOP);
    var j := EvalLands(m, n, Done, w0, form, ROOT);
    if j <= i {
      RunRun(m, j, i - j, st);
      HaltedStays(m, i - j, Run(m, j, st));
      assert false;
    }
    RunKeepsOk(m, i, st);
    StepKeepsOk(m, now);
    RunRun(m, i, j - i, st);
    assert Run(m, j - i, now) == Run(m, j - i - 1, Step(m, now));
    RunLater(m, j - i - 1, Step(m, now));
  }

  /** `form`, evaluated at the top from `w0`, captures at its step `i`. */
  predicate CapturesAt(m: Rows, i: nat, form: Value, w0: World) {
    var st := Run(m, i, From(form, ROOT, w0));
    st.code.ApplyC? && st.code.callee == Prim(CallCC)
  }

  /** The snapshot is there, as it was taken, when a later form has been evaluated: the
      records then in flight, marked resumable exactly when every waiting frame left one. */
  lemma {:induction false} CaptureOutlives(m: Rows, i: nat, n0: nat, form0: Value, w0: World, forms: seq<(nat, Value)>,
                                           n: nat, form: Value)
    requires Minted(w0) && CapturesAt(m, i, form0, w0)
    requires !Eval(m, n0, Deeper(TOP), w0, form0, ROOT).out.Exhausted?
    ensures var st := Run(m, i, From(form0, ROOT, w0));
            var w := WorldAfter(m, forms, EvalTop(m, n0, w0, form0).w);
            var w' := Eval(m, n, Deeper(TOP), w, form, ROOT).w;
            st.w.nextCont in w'.snaps && w'.snaps[st.w.nextCont] == Snapshot(Control(st.k), AllRecorded(st.k))
  {
    var st := Run(m, i, From(form0, ROOT, w0));
    RunKeepsOk(m, i, From(form0, ROOT, w0));
    StepKeepsOk(m, st);
    StillThere(m, i, n0, form0, w0, forms, n, form);
    CaptureLeaves(m, st.code.vals, st.code.settled, st.k, st.w);
    CoversIffAllRecorded(st.k);
  }

  /** What a step of one form wrote is there after any later forms. */
  lemma {:induction false} StillThere(m: Rows, i: nat, n0: nat, form0: Value, w0: World, forms: seq<(nat, Value)>,
                                      n: nat, form: Value)
    requires Minted(w0) && !Run(m, i, From(form0, ROOT, w0)).code.RetC?
    requires !Eval(m, n0, Deeper(TOP), w0, form0, ROOT).out.Exhausted?
    ensures var w := WorldAfter(m, forms, EvalTop(m, n0, w0, form0).w);
            Later(Step(m, Run(m, i, From(form0, ROOT, w0))).w, Eval(m, n, Deeper(TOP), w, form, ROOT).w)
  {
    var w := Step(m, Run(m, i, From(form0, ROOT, w0))).w;
    var r0 := Eval(m, n0, Deeper(TOP), w0, form0, ROOT);
    var w1 := EvalTop(m, n0, w0, form0).w;
    var w2 := WorldAfter(m, forms, w1);
    EndIsLater(m, i, n0, form0, w0);
    ResumedLater(m, n0, r0);
    SessionLater(m, forms, w1);
    TopLater(m, n, w2, form);
    LaterStill(w, r0.w, w1);
    LaterStill(w, w1, w2);
    LaterStill(w, w2, Eval(m, n, Deeper(TOP), w2, form, ROOT).w);
  }

  /** WHAT A CAPTURE HANDS ITS RECEIVER: a closure that answers its first argument answers the
      continuation just minted. */
  lemma CaptureHands(m: Rows, n: nat, c: Ctx, w: World, names: seq<Value>, tail: Value, defEnv: EnvId)
    requires n >= 3 && QuotesIn(w.store, ROOT)
    requires |names| >= 2 && names[1].Sym? && Scopes.Stands(names, tail, 1) && !tail.Pair?
    ensures var f := Closure(Scopes.Spine(names, tail), Pair(names[1], Nil), defEnv);
            WithEscape(m, n, c, w, f).out == Answer(Cont(w.nextCont))
  {
    var f, vals := Closure(Scopes.Spine(names, tail), Pair(names[1], Nil), defEnv), [Cont(w.nextCont)];
    var w1 := World(w.store, w.nextCont + 1, w.snaps[w.nextCont := Snapshot(c.control, Covers(c.control, c.depth))],
                    w.noise + 1);
    QuoteIsProper(vals);
    QuoteEvaluates(m, n - 1, c, w1, f, [], vals, ROOT, 0);
    assert [] + vals == vals && Pad(vals, 0) == vals;
    Laws.ParameterAnswers(m, n - 1, c, true, w1, names, tail, defEnv, vals, 1);
    assert CallValues(m, n, c, w1, f, vals, ROOT) == ApplyVals(m, n - 1, c, true, w1, f, vals);
  }

  /** An escape to a resumable snapshot is its replay. */
  lemma EscapeReplays(m: Rows, n: nat, w: World, form: Value)
    requires var r := Eval(m, n + 1, Deeper(TOP), w, form, ROOT);
             r.out.Escape? && r.out.id in r.w.snaps && r.w.snaps[r.out.id].resumable
    ensures var r := Eval(m, n + 1, Deeper(TOP), w, form, ROOT);
            EvalTop(m, n + 1, w, form) == Resumed(m, n, ReplayRecs(m, n, r.w, r.w.snaps[r.out.id].recs, r.out.v))
  {}

  /** A LATER FORM RE-ENTERS A CAPTURED CONTINUATION. One form captures, every waiting
      frame recorded; it ends, and any forms are evaluated after it; then a form escapes to
      the captured id with a value, and nothing live stops it. The top level hands the value
      to the records, and ends as the machine does when the captured continuation is handed
      that value in that world, unless what comes back is itself an escape, which is resumed
      in turn. */
  lemma {:induction false} LaterEscapeContinues(m: Rows, i: nat, n0: nat, form0: Value, w0: World,
                                                forms: seq<(nat, Value)>, n: nat, form: Value) returns (j: nat)
    requires Minted(w0) && CapturesAt(m, i, form0, w0) && AllRecorded(Run(m, i, From(form0, ROOT, w0)).k)
    requires !Eval(m, n0, Deeper(TOP), w0, form0, ROOT).out.Exhausted?
    requires var w := WorldAfter(m, forms, EvalTop(m, n0, w0, form0).w);
             var r := Eval(m, n + 1, Deeper(TOP), w, form, ROOT);
             var st := Run(m, i, From(form0, ROOT, w0));
             r.out.Escape? && r.out.id == st.w.nextCont && Replayable(m, n, st.k, r.w, r.out.v)
    ensures var w := WorldAfter(m, forms, EvalTop(m, n0, w0, form0).w);
            var r := Eval(m, n + 1, Deeper(TOP), w, form, ROOT);
            var k := Run(m, i, From(form0, ROOT, w0)).k;
            var q := ReplayRecs(m, n, r.w, Control(k), r.out.v);
            && Continues(m, n, j, Ret(Answer(r.out.v), k, r.w), Done, q)
            && EvalTop(m, n + 1, w, form) == if q.out.Escape? then Resumed(m, n, q) else q
  {
    var st := Run(m, i, From(form0, ROOT, w0));
    var w := WorldAfter(m, forms, EvalTop(m, n0, w0, form0).w);
    var r := Eval(m, n + 1, Deeper(TOP), w, form, ROOT);
    CaptureOutlives(m, i, n0, form0, w0, forms, n + 1, form);
    EscapeReplays(m, n, w, form);
    RunKeepsOk(m, i, From(form0, ROOT, w0));
    j := ReplayContinues(m, n, st.k, st.w.nextCont, r.w, r.out.v);
  }

  /** A LATER FORM IS REFUSED. One form captures with some waiting frame unrecorded; a later
      form escapes to that id. The top level raises, in the world that form left: nothing is
      replayed. */
  lemma {:induction false} LaterEscapeRefused(m: Rows, i: nat, n0: nat, form0: Value, w0: World,
                                              forms: seq<(nat, Value)>, n: nat, form: Value)
    requires Minted(w0) && CapturesAt(m, i, form0, w0) && !AllRecorded(Run(m, i, From(form0, ROOT, w0)).k)
    requires !Eval(m, n0, Deeper(TOP), w0, form0, ROOT).out.Exhausted?
    requires var w := WorldAfter(m, forms, EvalTop(m, n0, w0, form0).w);
             var r := Eval(m, n + 1, Deeper(TOP), w, form, ROOT);
             r.out.Escape? && r.out.id == Run(m, i, From(form0, ROOT, w0)).w.nextCont
    ensures var w := WorldAfter(m, forms, EvalTop(m, n0, w0, form0).w);
            var r := Eval(m, n + 1, Deeper(TOP), w, form, ROOT);
            EvalTop(m, n + 1, w, form) == Result(Fault(EngineMsg("continuation: extent is not resumable")), r.w)
  {
    CaptureOutlives(m, i, n0, form0, w0, forms, n + 1, form);
    RefusalEnds(m, n, Eval(m, n + 1, Deeper(TOP), WorldAfter(m, forms, EvalTop(m, n0, w0, form0).w), form, ROOT));
  }

  lemma RefusalEnds(m: Rows, n: nat, r: Result)
    requires r.out.Escape? && !(r.out.id in r.w.snaps && r.w.snaps[r.out.id].resumable)
    ensures Resumed(m, n + 1, r) == Result(Fault(EngineMsg("continuation: extent is not resumable")), r.w)
  {
    var q := ResumeEscape(m, n, r.w, r.out.id, r.out.v);
    assert Resumed(m, n + 1, r) == Resumed(m, n, q);
  }

  /** So is an escape to an id that has no snapshot. */
  lemma UnknownEscapeRefused(m: Rows, n: nat, w: World, form: Value)
    requires var r := Eval(m, n + 1, Deeper(TOP), w, form, ROOT);
             r.out.Escape? && r.out.id !in r.w.snaps
    ensures var r := Eval(m, n + 1, Deeper(TOP), w, form, ROOT);
            EvalTop(m, n + 1, w, form) == Result(Fault(EngineMsg("continuation: extent is not resumable")), r.w)
  {
    RefusalEnds(m, n, Eval(m, n + 1, Deeper(TOP), w, form, ROOT));
  }

  /** A capture under the test of a `match`: `(match ((call/cc 1) . body) . more)` comes to
      it at step 13, its test waiting with no record. */
  lemma TestCaptures(m: Rows, body: Value, more: Value, w: World)
    ensures var form := Pair(Prim(Match), Pair(Pair(Pair(Prim(CallCC), Pair(Int(1), Nil)), body), more));
            CapturesAt(m, 13, form, w) && !AllRecorded(Run(m, 13, From(form, ROOT, w)).k)
  {
    var call := Pair(Prim(CallCC), Pair(Int(1), Nil));
    var arms := Pair(Pair(call, body), more);
    var s0, k := From(Pair(Prim(Match), arms), ROOT, w), Push(TestF(body, more, ROOT, false), Done);
    HeadRuns(m, Match, arms, ROOT, Done, w);
    var s3 := State(CombineC(Prim(Match), arms, ROOT, false), Done, w);
    var s4 := State(MatchC(arms, ROOT, false), Done, w);
    assert Step(m, s3) == s4 && Step(m, s4) == State(EvalC(call, ROOT), k, w);
    assert Run(m, 2, s3) == Run(m, 1, s4) == Run(m, 0, Step(m, s4));
    CaptureRuns(m, ROOT, k, w);
    RunRun(m, 3, 2, s0);
    RunRun(m, 5, 8, s0);
  }
}
