/** The analyse contest over one buffer, mark by mark: every analyser in turn from the
retain mark its predecessors left, the best claim kept, the cursor back at the mark in
the end. */
module Contest {
  import opened Options
  import opened Bytes
  import opened Tokens
  import F = Forms

  /** How the contest came out; `Endless` when an analyser did not end in its calls. */
  datatype Result = Won(best: Option<Best>) | Failed(err: nat) | Endless

  /** A contest: its analysers, the bytes up to the write mark, the retain mark and the
      world it starts from, and how many calls an attempt may take. */
  datatype Match<!W> = Match(es: seq<Analyser<W>>, tape: seq<byte>, retain: nat, world: W, fuel: nat)

  /** Analyser `i`'s attempt, from the mark and the world the ones before it left. */
  function Tried<W>(m: Match<W>, i: nat): Trial<W>
    requires i < |m.es|
    decreases i, 1
  {
    Attempt(m.es[i], m.tape, MarkAt(m, i), MarkAt(m, i), m.es[i].start, 0, WorldAt(m, i), m.fuel)
  }

  /** The retain mark before analyser `i`. */
  function MarkAt<W>(m: Match<W>, i: nat): nat
    requires i <= |m.es|
    decreases i, 0
  {
    if i == 0 then m.retain else Tried(m, i - 1).retain
  }

  function WorldAt<W>(m: Match<W>, i: nat): W
    requires i <= |m.es|
    decreases i, 0
  {
    if i == 0 then m.world else Tried(m, i - 1).world
  }

  predicate Ends(o: Option<Outcome>) { o.Some? && !o.value.Raised? }

  /** Do the first `n` analysers end without raising? */
  predicate AllEnd<W>(m: Match<W>, n: nat)
    requires n <= |m.es|
  {
    forall j :: 0 <= j < n ==> Ends(Tried(m, j).end)
  }

  /** Analyser `i` is the first that does not end, or raises: the contest ends there, with
      its error if it raised. */
  predicate Stops<W>(m: Match<W>, i: nat, r: Result)
    requires i < |m.es|
  {
    && AllEnd(m, i)
    && match Tried(m, i).end
       case None => r.Endless?
       case Some(o) => o.Raised? && r == Failed(o.err)
  }

  function ClaimOf(o: Option<Outcome>): Option<int> {
    if o.Some? && o.value.Claimed? then Some(o.value.n) else None
  }

  /** The claims the first `n` analysers make. */
  function Claims<W>(m: Match<W>, n: nat): (r: seq<Option<int>>)
    requires n <= |m.es|
    ensures |r| == n
    decreases n
  {
    if n == 0 then [] else Claims(m, n - 1) + [ClaimOf(Tried(m, n - 1).end)]
  }

  /** Each claim is its analyser's own. */
  lemma {:induction false} ClaimsAre<W>(m: Match<W>, n: nat, i: nat)
    requires i < n <= |m.es|
    ensures forall k :: Claims(m, n)[i] == Some(k) <==> Tried(m, i).end == Some(Claimed(k))
    decreases n
  {
    if i < n - 1 { ClaimsAre(m, n - 1, i); }
  }

  /** No analyser ever claims zero. */
  lemma {:induction false} NeverZero<W>(a: Analyser<W>, tape: seq<byte>, retain: nat, cursor: nat, state: nat,
                                        score: int, w: W, fuel: nat)
    ensures Attempt(a, tape, retain, cursor, state, score, w, fuel).end != Some(Claimed(0))
    decreases fuel
  {
    if cursor < |tape| && fuel > 0 {
      var t := a.step(tape, retain, cursor + 1, state, score, tape[cursor], w);
      match t.verdict {
        case Stay => NeverZero(a, tape, t.retain, t.cursor, state, t.score, t.world, fuel - 1);
        case Goto(s) => NeverZero(a, tape, t.retain, t.cursor, s, t.score, t.world, fuel - 1);
        case _ =>
      }
    }
  }

  lemma {:induction false} ClaimsNonzero<W>(m: Match<W>, n: nat)
    requires n <= |m.es|
    ensures Nonzero(Claims(m, n))
    decreases n
  {
    if n != 0 {
      ClaimsNonzero(m, n - 1);
      NeverZero(m.es[n - 1], m.tape, MarkAt(m, n - 1), MarkAt(m, n - 1), m.es[n - 1].start, 0, WorldAt(m, n - 1),
        m.fuel);
    }
  }

  /** What one more analyser does to the winner so far. */
  lemma WinnerStep<W>(m: Match<W>, i: nat)
    requires i < |m.es|
    ensures var best := Winner(Claims(m, i));
            var claim := ClaimOf(Tried(m, i).end);
            Winner(Claims(m, i + 1))
            == if claim.Some? && Better(claim.value, if best.Some? then Some(best.value.n) else None)
               then Some(Best(i, claim.value)) else best
  {
    assert Claims(m, i + 1)[..i] == Claims(m, i);
  }

  class Tape<!W> {
    /** The bytes up to the write mark. */
    const text: seq<byte>
    var retain: nat
    var cursor: nat
    /** The score object's number. */
    var score: int
    /** Whatever else an analyser can reach. */
    var world: W

    constructor (t: seq<byte>, at: nat, w: W)
      ensures text == t && retain == at && cursor == at && score == 0 && world == w
    {
      text, retain, cursor, score, world := t, at, at, 0, w;
    }

    /** The next character, or none at the write mark. */
    method Read() returns (c: Option<byte>)
      modifies `cursor
      ensures c == if old(cursor) < |text| then Some(text[old(cursor)]) else None
      ensures cursor == if c.Some? then old(cursor) + 1 else old(cursor)
    {
      if cursor >= |text| { return None; }
      c := Some(text[cursor]);
      cursor := cursor + 1;
    }

    method Rewind()
      modifies `cursor
      ensures cursor == retain
    {
      cursor := retain;
    }

    /** One analyser's attempt: feed it characters until it declines, accepts, raises or
        the input ends. None when `fuel` calls were not enough. */
    method Try(a: Analyser<W>, fuel: nat) returns (o: Option<Outcome>)
      modifies this
      ensures Trial(o, retain, world) == Attempt(a, text, old(retain), old(cursor), a.start, 0, old(world), fuel)
      ensures Ends(o) ==> cursor == retain
    {
      score := 0;
      var state := a.start;
      var left := fuel;
      ghost var goal := Attempt(a, text, retain, cursor, a.start, 0, world, fuel);
      while true
        invariant goal == Attempt(a, text, retain, cursor, state, score, world, left)
        decreases left
      {
        var chr := Read();
        if chr.None? { break; }
        if left == 0 { return None; }
        var t := a.step(text, retain, cursor, state, score, chr.value, world);
        retain, cursor, score, world, left := t.retain, t.cursor, t.score, t.world, left - 1;
        match t.verdict {
          case Decline =>
            Rewind();
            o := Some(EndClaim(0, score));
            return;
          case Stay =>
          case Accept =>
            o := Some(if score != 0 then Claimed(score) else Nothing);
            Rewind();
            return;
          case Goto(s) =>
            state := s;
          case Raise(e) =>
            return Some(Raised(e));
        }
      }
      o := Some(EndClaim(Span(retain, cursor), score));
      Rewind();
    }

    ghost function TheMatch(es: seq<Analyser<W>>, fuel: nat): Match<W>
      reads this
    {
      Match(es, text, retain, world, fuel)
    }

    /** THE CONTEST. When every attempt ends without raising, the winner is the last of the
        largest positive claims, or with none the last claim made, and the cursor is back
        at the retain mark. */
    method Analyse(es: seq<Analyser<W>>, fuel: nat) returns (r: Result)
      requires cursor == retain
      modifies this
      ensures var m := old(TheMatch(es, fuel));
              && (r.Won? <==> AllEnd(m, |es|))
              && (!r.Won? ==> exists i :: 0 <= i < |es| && Stops(m, i, r))
      ensures r.Won? ==>
                var m := old(TheMatch(es, fuel));
                && r.best == Winner(Claims(m, |es|))
                && cursor == retain == MarkAt(m, |es|) && world == WorldAt(m, |es|)
      ensures r.Won? && r.best.Some? ==>
                var claims := Claims(old(TheMatch(es, fuel)), |es|);
                if AnyPositive(claims) then LastLargest(claims, r.best.value.at) else LastMade(claims, r.best.value.at)
    {
      ghost var m := TheMatch(es, fuel);
      r := Rounds(es, fuel);
      ClaimsNonzero(m, |es|);
      WinnerIs(Claims(m, |es|));
    }

    /** Analyser `i` is next: the marks and the world are as those before it left them. */
    ghost predicate Standing(m: Match<W>, i: nat)
      reads this
    {
      i <= |m.es| && m.tape == text && cursor == retain == MarkAt(m, i) && world == WorldAt(m, i)
    }

    /** One analyser's turn: its claim against the best so far. */
    method Round(a: Analyser<W>, i: nat, fuel: nat, best: Option<Best>, ghost m: Match<W>)
      returns (o: Option<Outcome>, best': Option<Best>)
      requires Standing(m, i) && i < |m.es| && a == m.es[i] && fuel == m.fuel && best == Winner(Claims(m, i))
      modifies this
      ensures o == Tried(m, i).end
      ensures Ends(o) ==> Standing(m, i + 1) && best' == Winner(Claims(m, i + 1))
    {
      o := Try(a, fuel);
      best' := best;
      WinnerStep(m, i);
      if o.Some? && o.value.Claimed? && Better(o.value.n, if best.Some? then Some(best.value.n) else None) {
        best' := Some(Best(i, o.value.n));
      }
    }

    /** The loop over the analysers. */
    method Rounds(es: seq<Analyser<W>>, fuel: nat) returns (r: Result)
      requires cursor == retain
      modifies this
      ensures var m := old(TheMatch(es, fuel));
              && (r.Won? <==> AllEnd(m, |es|))
              && (!r.Won? ==> exists i :: 0 <= i < |es| && Stops(m, i, r))
              && (r.Won? ==> r.best == Winner(Claims(m, |es|)) && Standing(m, |es|))
    {
      var best: Option<Best> := None;
      ghost var m := TheMatch(es, fuel);
      for i := 0 to |es|
        invariant Standing(m, i) && best == Winner(Claims(m, i))
        invariant AllEnd(m, i)
      {
        var o;
        o, best := Round(es[i], i, fuel, best, m);
        if o.None? || o.value.Raised? {
          r := if o.None? then Endless else Failed(o.value.err);
          assert !Ends(Tried(m, i).end) && Stops(m, i, r);
          return;
        }
      }
      r := Won(best);
    }
  }

  /** The integer analyser alone: it wins the longest literal at the mark, when a byte
      follows it, and nothing otherwise. */
  method AnalyseInteger(text: seq<byte>, at: nat) returns (r: Result)
    requires at <= |text|
    ensures var n := LiteralLen(text[at..]);
            r == Won(if n > 0 && at + n < |text| then Some(Best(0, n)) else None)
  {
    var tape := new Tape<()>(text, at, ());
    var es := [Integer<()>()];
    ghost var m := tape.TheMatch(es, |text| - at);
    r := tape.Rounds(es, |text| - at);
    IntegerWins(m, r);
  }

  lemma IntegerWins<W>(m: Match<W>, r: Result)
    requires m.es == [Integer<W>()] && m.retain <= |m.tape| && m.fuel >= |m.tape| - m.retain
    requires r.Won? <==> AllEnd(m, 1)
    requires r.Won? ==> r.best == Winner(Claims(m, 1))
    ensures var n := LiteralLen(m.tape[m.retain..]);
            r == Won(if n > 0 && m.retain + n < |m.tape| then Some(Best(0, n)) else None)
  {
    IntegerClaims(m.tape, m.retain, m.world, m.fuel);
    assert m.es[0] == Integer<W>();
    WinnerStep(m, 0);
    assert Claims(m, 0) == [];
  }
}
