/** The scoring contest between analysers, and the integer analyser.

An analyser is given one character at a time. It declines, stays, moves to another
state, accepts by answering the score object, or raises; on the way it may move the
cursor and the retain mark, set the score, and change whatever else it can reach. */
module Tokens {
  import opened Options
  import opened Bytes
  import F = Forms
  import S = Spellings

  datatype Verdict = Decline | Stay | Accept | Goto(state: nat) | Raise(err: nat)

  /** What one call of an analyser does: its answer, and the marks, the score and the rest
      of the world as it leaves them. */
  datatype Turn<W> = Turn(verdict: Verdict, retain: nat, cursor: nat, score: int, world: W)

  /** The step reads the tape, the retain mark, the cursor just past the character, the
      state, the score, the character and the world. */
  datatype Analyser<!W> = Analyser(start: nat, step: (seq<byte>, nat, nat, nat, int, byte, W) -> Turn<W>)

  datatype Outcome = Claimed(n: int) | Nothing | Raised(err: nat)

  /** At the end of the input a score already set claims the span, with its sign. */
  function EndClaim(consumed: nat, scored: int): Outcome {
    var n: int := consumed;
    if n > 0 && scored != 0 then Claimed(if scored < 0 then -n else n) else Nothing
  }

  function Span(retain: nat, cursor: nat): nat { if cursor >= retain then cursor - retain else 0 }

  /** How an attempt ended, if it did: its outcome, and the retain mark and the world it
      leaves. */
  datatype Trial<W> = Trial(end: Option<Outcome>, retain: nat, world: W)

  /** One analyser's attempt, unended when `fuel` calls were not enough. */
  function Attempt<W>(a: Analyser<W>, tape: seq<byte>, retain: nat, cursor: nat, state: nat, score: int, w: W,
                      fuel: nat): Trial<W>
    decreases fuel
  {
    if cursor >= |tape| then Trial(Some(EndClaim(Span(retain, cursor), score)), retain, w)
    else if fuel == 0 then Trial(None, retain, w)
    else
      var t := a.step(tape, retain, cursor + 1, state, score, tape[cursor], w);
      match t.verdict
      case Decline => Trial(Some(EndClaim(0, t.score)), t.retain, t.world)
      case Stay => Attempt(a, tape, t.retain, t.cursor, state, t.score, t.world, fuel - 1)
      case Accept => Trial(Some(if t.score != 0 then Claimed(t.score) else Nothing), t.retain, t.world)
      case Goto(s) => Attempt(a, tape, t.retain, t.cursor, s, t.score, t.world, fuel - 1)
      case Raise(e) => Trial(Some(Raised(e)), t.retain, t.world)
  }

  /** AT THE END OF THE INPUT a score already set claims what was consumed, with the sign of
      the score; an empty span, or no score, claims nothing. */
  lemma EndOfInput<W>(a: Analyser<W>, tape: seq<byte>, retain: nat, cursor: nat, state: nat, score: int, w: W,
                      fuel: nat)
    requires retain <= cursor && |tape| <= cursor
    ensures var t := Attempt(a, tape, retain, cursor, state, score, w, fuel);
            && t.retain == retain && t.world == w && t.end.Some?
            && (t.end.value == Nothing <==> retain == cursor || score == 0)
            && (retain < cursor && score > 0 ==> t.end.value == Claimed(cursor - retain))
            && (retain < cursor && score < 0 ==> t.end.value == Claimed(retain - cursor))
  {}

  /** Where an attempt is: its marks, its state, its score and the world. */
  datatype Place<W> = Place(retain: nat, cursor: nat, state: nat, score: int, world: W)

  /** One call that goes on: the analyser stays in its state, or goes to the one it names,
      and everything else is as it left it. */
  ghost predicate GoesOn<W>(a: Analyser<W>, tape: seq<byte>, p: Place<W>, q: Place<W>) {
    p.cursor < |tape|
    && var t := a.step(tape, p.retain, p.cursor + 1, p.state, p.score, tape[p.cursor], p.world);
       && (if t.verdict.Stay? then q.state == p.state else t.verdict == Goto(q.state))
       && q == Place(t.retain, t.cursor, q.state, t.score, t.world)
  }

  /** AN ATTEMPT IS ITS CALLS IN ORDER, each from where the one before it left off. */
  lemma {:induction false} CallsInOrder<W>(a: Analyser<W>, tape: seq<byte>, ps: seq<Place<W>>, fuel: nat)
    requires ps != [] && fuel >= |ps| - 1 && forall i :: 0 <= i < |ps| - 1 ==> GoesOn(a, tape, ps[i], ps[i + 1])
    ensures var p, q := ps[0], ps[|ps| - 1];
            Attempt(a, tape, p.retain, p.cursor, p.state, p.score, p.world, fuel)
            == Attempt(a, tape, q.retain, q.cursor, q.state, q.score, q.world, fuel - (|ps| - 1))
    decreases |ps|
  {
    if |ps| > 1 {
      var rest := ps[1..];
      assert GoesOn(a, tape, ps[0], ps[1]);
      assert forall i :: 0 <= i < |rest| ==> rest[i] == ps[i + 1];
      forall i | 0 <= i < |rest| - 1 ensures GoesOn(a, tape, rest[i], rest[i + 1]) {
        assert GoesOn(a, tape, ps[i + 1], ps[i + 2]);
      }
      CallsInOrder(a, tape, rest, fuel - 1);
    }
  }

  /** A call that ends it: accepting claims the score, none of it or a decline nothing, and a
      raise is passed on. */
  lemma LastCall<W>(a: Analyser<W>, tape: seq<byte>, p: Place<W>, fuel: nat)
    requires p.cursor < |tape| && fuel > 0
    ensures var t := a.step(tape, p.retain, p.cursor + 1, p.state, p.score, tape[p.cursor], p.world);
            var r := Attempt(a, tape, p.retain, p.cursor, p.state, p.score, p.world, fuel);
            && (t.verdict == Accept && t.score != 0 ==> r == Trial(Some(Claimed(t.score)), t.retain, t.world))
            && (t.verdict == Decline || (t.verdict == Accept && t.score == 0) ==>
                r == Trial(Some(Nothing), t.retain, t.world))
            && (t.verdict.Raise? ==> r == Trial(Some(Raised(t.verdict.err)), t.retain, t.world))
  {}

  // ----- the contest ---------------------------------------------------------------------------

  /** Does a claim beat the best so far? */
  predicate Better(score: int, best: Option<int>) {
    match best
    case None => true
    case Some(n) => score >= n || (n < 1 && score <= n)
  }

  datatype Best = Best(at: nat, n: int)

  /** The contest's running best over the claims made, in order. */
  function Winner(claims: seq<Option<int>>): Option<Best> {
    if claims == [] then None
    else
      var k := |claims| - 1;
      var best := Winner(claims[..k]);
      match claims[k]
      case None => best
      case Some(n) => if Better(n, if best.Some? then Some(best.value.n) else None) then Some(Best(k, n)) else best
  }

  predicate Positive(c: Option<int>) { c.Some? && c.value > 0 }

  /** Claim `i` is the last of the largest positive ones. */
  predicate LastLargest(claims: seq<Option<int>>, i: nat) {
    && i < |claims| && Positive(claims[i])
    && (forall j :: 0 <= j < |claims| && Positive(claims[j]) ==> claims[j].value <= claims[i].value)
    && (forall j :: i < j < |claims| && Positive(claims[j]) ==> claims[j].value < claims[i].value)
  }

  /** Claim `i` is the last made at all. */
  predicate LastMade(claims: seq<Option<int>>, i: nat) {
    i < |claims| && claims[i].Some? && forall j :: i < j < |claims| ==> claims[j].None?
  }

  predicate Nonzero(claims: seq<Option<int>>) { forall j :: 0 <= j < |claims| ==> claims[j] != Some(0) }

  predicate AnyPositive(claims: seq<Option<int>>) { exists j :: 0 <= j < |claims| && Positive(claims[j]) }

  /** WHO WINS. With a positive claim, the last of the largest; with none, the last claim
      made, however small; with no claim, nobody. */
  lemma {:induction false} WinnerIs(claims: seq<Option<int>>)
    requires Nonzero(claims)
    ensures Winner(claims).None? <==> forall j :: 0 <= j < |claims| ==> claims[j].None?
    ensures Winner(claims).Some? ==>
              var w := Winner(claims).value;
              && w.at < |claims| && claims[w.at] == Some(w.n)
              && (if AnyPositive(claims) then LastLargest(claims, w.at) else LastMade(claims, w.at))
    decreases |claims|
  {
    if claims != [] {
      var k := |claims| - 1;
      var before := claims[..k];
      WinnerIs(before);
      assert AnyPositive(before) ==> AnyPositive(claims) by {
        if AnyPositive(before) {
          var j :| 0 <= j < |before| && Positive(before[j]);
          assert Positive(claims[j]);
        }
      }
      assert Positive(claims[k]) ==> AnyPositive(claims);
      assert AnyPositive(claims) && !Positive(claims[k]) ==> AnyPositive(before) by {
        if AnyPositive(claims) && !Positive(claims[k]) {
          var j :| 0 <= j < |claims| && Positive(claims[j]);
          assert Positive(before[j]);
        }
      }
    }
  }

  /** No claim is more negative. */
  predicate MostNegative(claims: seq<Option<int>>, i: nat) {
    i < |claims| && claims[i].Some? && forall j :: 0 <= j < |claims| && claims[j].Some? ==>
      claims[i].value <= claims[j].value
  }

  /** With no positive claim the winner is the most negative exactly when the last claim
      made is. */
  lemma {:induction false} NegativeWinnerIff(claims: seq<Option<int>>, last: nat)
    requires Nonzero(claims) && !AnyPositive(claims) && LastMade(claims, last)
    ensures Winner(claims).Some? && (MostNegative(claims, Winner(claims).value.at) <==> MostNegative(claims, last))
  {
    WinnerIs(claims);
    assert claims[last].Some?;
    var at := Winner(claims).value.at;
    assert at == last;
  }

  /** A claim of -5, then one of -3: the second wins. */
  lemma LessNegativeWins()
    ensures Winner([Some(-5), Some(-3)]) == Some(Best(1, -3)) && !MostNegative([Some(-5), Some(-3)], 1)
  {
    var claims: seq<Option<int>> := [Some(-5), Some(-3)];
    assert claims[..1] == [Some(-5)] && claims[..1][..0] == [];
    assert Winner(claims[..1]) == Some(Best(0, -5));
    assert claims[0].value < claims[1].value;
  }

  // ----- the integer analyser ------------------------------------------------------------------

  const SIGN := 0
  const PREFIX := 1
  const BASE := 2
  const DIGITS := 3
  const XDIGITS := 4

  predicate IsHexDigit(c: byte) { F.HexDigit(c).Some? }

  predicate IsX(c: byte) { c == 120 || c == 88 }

  function Unread(cursor: nat): nat { if cursor > 0 then cursor - 1 else 0 }

  datatype Move = Move(verdict: Verdict, cursor: nat, score: int)

  /** Unread the delimiter and score the span; an empty span declines. */
  function IntAccept(retain: nat, cursor: nat, score: int): Move {
    var c := Unread(cursor);
    var n := Span(retain, c);
    if n < 1 then Move(Decline, c, score) else Move(Accept, c, n)
  }

  function IntDigits(retain: nat, cursor: nat, score: int, c: byte): Move {
    if F.IsDigit(c) then Move(Goto(DIGITS), cursor, score) else IntAccept(retain, cursor, score)
  }

  function IntPrefix(cursor: nat, score: int, c: byte): Move {
    if c == 48 then Move(Goto(BASE), cursor, score)
    else if !F.IsDigit(c) then Move(Decline, Unread(cursor), score)
    else Move(Goto(DIGITS), cursor, score)
  }

  function IntStep(tape: seq<byte>, retain: nat, cursor: nat, state: nat, score: int, c: byte): Move {
    if state == SIGN then
      if c == F.PLUS || c == F.MINUS then Move(Goto(PREFIX), cursor, score) else IntPrefix(cursor, score, c)
    else if state == PREFIX then IntPrefix(cursor, score, c)
    else if state == BASE then
      if IsX(c) then Move(Goto(XDIGITS), cursor, score) else IntDigits(retain, cursor, score, c)
    else if state == DIGITS then IntDigits(retain, cursor, score, c)
    else if IsHexDigit(c) then Move(Goto(XDIGITS), cursor, score)
    else IntAccept(retain, cursor, score)
  }

  /** The integer analyser: it moves nothing but the cursor and the score. */
  function Integer<W>(): Analyser<W> {
    Analyser(SIGN, (tape, retain, cursor, state, score, c, w) =>
      var mv := IntStep(tape, retain, cursor, state, score, c);
      Turn(mv.verdict, retain, mv.cursor, mv.score, w))
  }

  // ----- the language it recognises ---------------------------------------------------------------

  function Body(p: seq<byte>): seq<byte> { if F.Signed(p) then p[1..] else p }

  predicate IsDecimal(b: seq<byte>) { b != [] && F.AllDigits(b) }

  predicate IsHex(b: seq<byte>) { |b| >= 2 && b[0] == 48 && IsX(b[1]) && forall i :: 2 <= i < |b| ==> IsHexDigit(b[i]) }

  /** An optional sign, then `0x` and any hex digits, or one or more digits. */
  predicate Literal(p: seq<byte>) { IsHex(Body(p)) || IsDecimal(Body(p)) }

  /** `n` bytes are the longest literal at the front of `s`. */
  predicate Longest(s: seq<byte>, n: nat) {
    n <= |s| && Literal(s[..n]) && forall m :: n < m <= |s| ==> !Literal(s[..m])
  }

  function DigitRun(s: seq<byte>): (n: nat)
    ensures n <= |s| && F.AllDigits(s[..n])
    ensures n < |s| ==> !F.IsDigit(s[n])
  {
    if s == [] || !F.IsDigit(s[0]) then 0
    else
      var n := 1 + DigitRun(s[1..]);
      assert forall i :: 0 < i < n ==> s[i] == s[1..][..n - 1][i - 1];
      n
  }

  function HexRun(s: seq<byte>): (n: nat)
    ensures n <= |s| && forall i :: 0 <= i < n ==> IsHexDigit(s[i])
    ensures n < |s| ==> !IsHexDigit(s[n])
  {
    if s == [] || !IsHexDigit(s[0]) then 0
    else
      var n := 1 + HexRun(s[1..]);
      assert forall i :: 0 < i < n ==> s[i] == s[1..][i - 1];
      n
  }

  predicate HexStart(b: seq<byte>) { |b| >= 2 && b[0] == 48 && IsX(b[1]) }

  /** How long the literal at the front is; zero when there is none. */
  function LiteralLen(s: seq<byte>): (n: nat)
    ensures n <= |s|
  {
    var sign := if F.Signed(s) then 1 else 0;
    var b := Body(s);
    if b == [] || !F.IsDigit(b[0]) then 0
    else if HexStart(b) then sign + 2 + HexRun(b[2..])
    else sign + DigitRun(b)
  }

  /** The length found is that of the longest literal, and zero means there is none. */
  lemma LiteralLenIsLongest(s: seq<byte>)
    ensures LiteralLen(s) > 0 ==> Longest(s, LiteralLen(s))
    ensures LiteralLen(s) == 0 ==> forall m :: 0 <= m <= |s| ==> !Literal(s[..m])
  {
    var n := LiteralLen(s);
    forall m | n < m <= |s| || (n == 0 && m == 0) ensures !Literal(s[..m]) {
      NotLonger(s, m);
    }
    if n > 0 { IsLiteral(s); }
  }

  lemma IsLiteral(s: seq<byte>)
    requires LiteralLen(s) > 0
    ensures Literal(s[..LiteralLen(s)])
  {
    var n := LiteralLen(s);
    var b, p := Body(s), s[..n];
    var sign := if F.Signed(s) then 1 else 0;
    assert Body(p) == b[..n - sign];
    if HexStart(b) {
      assert forall i :: 2 <= i < n - sign ==> b[i] == b[2..][i - 2];
    }
  }

  lemma NotLonger(s: seq<byte>, m: nat)
    requires m <= |s| && (LiteralLen(s) < m || (LiteralLen(s) == 0 && m == 0))
    ensures !Literal(s[..m])
  {
    var n := LiteralLen(s);
    var b, p := Body(s), s[..m];
    var sign := if F.Signed(s) then 1 else 0;
    if m > 0 {
      assert F.Signed(p) <==> F.Signed(s);
      assert Body(p) == b[..m - sign];
      var q := Body(p);
      if b != [] && F.IsDigit(b[0]) {
        if HexStart(b) {
          var k := HexRun(b[2..]);
          assert q[2 + k] == b[2..][k];
        } else {
          assert q[DigitRun(b)] == b[DigitRun(b)];
        }
      } else if q != [] {
        assert q[0] == b[0];
      }
    }
  }

  // ----- what the analyser claims -------------------------------------------------------------------

  /** One step of the integer machine that moves to another state. */
  lemma Moves<W>(tape: seq<byte>, at: nat, c: nat, state: nat, next: nat, w: W, fuel: nat)
    requires c < |tape| && fuel > 0 && IntStep(tape, at, c + 1, state, 0, tape[c]) == Move(Goto(next), c + 1, 0)
    ensures Attempt(Integer<W>(), tape, at, c, state, 0, w, fuel)
        == Attempt(Integer<W>(), tape, at, c + 1, next, 0, w, fuel - 1)
  {}

  /** One step that accepts what was read before the byte at `c`. */
  lemma Halts<W>(tape: seq<byte>, at: nat, c: nat, state: nat, w: W, fuel: nat)
    requires at < c < |tape| && fuel > 0 && IntStep(tape, at, c + 1, state, 0, tape[c]) == Move(Accept, c, c - at)
    ensures Attempt(Integer<W>(), tape, at, c, state, 0, w, fuel) == Trial(Some(Claimed(c - at)), at, w)
  {}

  lemma {:induction false} DigitsAttempt<W>(tape: seq<byte>, at: nat, c: nat, w: W, fuel: nat)
    requires at < c <= |tape| && fuel >= |tape| - c
    ensures var k := c + DigitRun(tape[c..]);
            Attempt(Integer<W>(), tape, at, c, DIGITS, 0, w, fuel)
            == Trial(Some(if k < |tape| then Claimed(k - at) else Nothing), at, w)
    decreases |tape| - c
  {
    if c < |tape| {
      if F.IsDigit(tape[c]) {
        assert tape[c..][1..] == tape[c + 1..];
        Moves(tape, at, c, DIGITS, DIGITS, w, fuel);
        DigitsAttempt(tape, at, c + 1, w, fuel - 1);
      } else {
        Halts(tape, at, c, DIGITS, w, fuel);
      }
    }
  }

  lemma {:induction false} HexAttempt<W>(tape: seq<byte>, at: nat, c: nat, w: W, fuel: nat)
    requires at < c <= |tape| && fuel >= |tape| - c
    ensures var k := c + HexRun(tape[c..]);
            Attempt(Integer<W>(), tape, at, c, XDIGITS, 0, w, fuel)
            == Trial(Some(if k < |tape| then Claimed(k - at) else Nothing), at, w)
    decreases |tape| - c
  {
    if c < |tape| {
      if IsHexDigit(tape[c]) {
        assert tape[c..][1..] == tape[c + 1..];
        assert HexRun(tape[c..]) == 1 + HexRun(tape[c + 1..]);
        Moves(tape, at, c, XDIGITS, XDIGITS, w, fuel);
        HexAttempt(tape, at, c + 1, w, fuel - 1);
      } else {
        Halts(tape, at, c, XDIGITS, w, fuel);
      }
    }
  }

  /** Where a literal whose first digit, a zero, is just behind `c` ends. */
  function ZeroEnd(tape: seq<byte>, c: nat): (k: nat)
    requires 0 < c <= |tape| && tape[c - 1] == 48
  {
    if c < |tape| && IsX(tape[c]) then c + 1 + HexRun(tape[c + 1..]) else c + DigitRun(tape[c..])
  }

  lemma ZeroEndIs(tape: seq<byte>, c: nat)
    requires 0 < c <= |tape| && tape[c - 1] == 48
    ensures var b := tape[c - 1..];
            ZeroEnd(tape, c) == if HexStart(b) then c + 1 + HexRun(b[2..]) else c - 1 + DigitRun(b)
  {
    var b := tape[c - 1..];
    assert b[1..] == tape[c..] && b[0] == 48;
    if c < |tape| { assert b[1] == tape[c] && b[2..] == tape[c + 1..]; }
  }

  lemma ZeroHex<W>(tape: seq<byte>, at: nat, c: nat, w: W, fuel: nat)
    requires at < c < |tape| && fuel >= |tape| - c && IsX(tape[c])
    ensures var k := c + 1 + HexRun(tape[c + 1..]);
            Attempt(Integer<W>(), tape, at, c, BASE, 0, w, fuel)
            == Trial(Some(if k < |tape| then Claimed(k - at) else Nothing), at, w)
  {
    Moves(tape, at, c, BASE, XDIGITS, w, fuel);
    HexAttempt(tape, at, c + 1, w, fuel - 1);
  }

  lemma ZeroDigits<W>(tape: seq<byte>, at: nat, c: nat, w: W, fuel: nat)
    requires at < c < |tape| && fuel >= |tape| - c && F.IsDigit(tape[c])
    ensures var k := c + DigitRun(tape[c..]);
            Attempt(Integer<W>(), tape, at, c, BASE, 0, w, fuel)
            == Trial(Some(if k < |tape| then Claimed(k - at) else Nothing), at, w)
  {
    assert tape[c..][1..] == tape[c + 1..];
    Moves(tape, at, c, BASE, DIGITS, w, fuel);
    DigitsAttempt(tape, at, c + 1, w, fuel - 1);
  }

  lemma BaseAttempt<W>(tape: seq<byte>, at: nat, c: nat, w: W, fuel: nat)
    requires at < c <= |tape| && fuel >= |tape| - c && tape[c - 1] == 48
    ensures var k := ZeroEnd(tape, c);
            Attempt(Integer<W>(), tape, at, c, BASE, 0, w, fuel)
            == Trial(Some(if k < |tape| then Claimed(k - at) else Nothing), at, w)
  {
    if c < |tape| {
      if IsX(tape[c]) {
        ZeroHex(tape, at, c, w, fuel);
      } else if F.IsDigit(tape[c]) {
        ZeroDigits(tape, at, c, w, fuel);
      } else {
        Halts(tape, at, c, BASE, w, fuel);
        assert ZeroEnd(tape, c) == c;
      }
    }
  }

  lemma PrefixAttempt<W>(tape: seq<byte>, at: nat, c: nat, state: nat, w: W, fuel: nat)
    requires at <= c <= |tape| && fuel >= |tape| - c
    requires state == PREFIX || (state == SIGN && c < |tape| && tape[c] != F.PLUS && tape[c] != F.MINUS)
    ensures var b := tape[c..];
            var k := if HexStart(b) then c + 2 + HexRun(b[2..]) else c + DigitRun(b);
            Attempt(Integer<W>(), tape, at, c, state, 0, w, fuel)
            == Trial(Some(if b != [] && F.IsDigit(b[0]) && k < |tape| then Claimed(k - at) else Nothing), at, w)
  {
    var b := tape[c..];
    if c < |tape| && F.IsDigit(tape[c]) {
      if tape[c] == 48 {
        Moves(tape, at, c, state, BASE, w, fuel);
        ZeroEndIs(tape, c + 1);
        BaseAttempt(tape, at, c + 1, w, fuel - 1);
      } else {
        assert b[1..] == tape[c + 1..];
        Moves(tape, at, c, state, DIGITS, w, fuel);
        DigitsAttempt(tape, at, c + 1, w, fuel - 1);
      }
    }
  }

  /** THE INTEGER CLAIM. The analyser claims the longest literal at the mark exactly when
      there is one and a further byte follows it, scored by its length. */
  lemma IntegerClaims<W>(tape: seq<byte>, at: nat, w: W, fuel: nat)
    requires at <= |tape| && fuel >= |tape| - at
    ensures var n := LiteralLen(tape[at..]);
            Attempt(Integer<W>(), tape, at, at, SIGN, 0, w, fuel)
            == Trial(Some(if n > 0 && at + n < |tape| then Claimed(n) else Nothing), at, w)
  {
    var s := tape[at..];
    if F.Signed(s) {
      assert s[1..] == tape[at + 1..];
      Moves(tape, at, at, SIGN, PREFIX, w, fuel);
      PrefixAttempt(tape, at, at + 1, PREFIX, w, fuel - 1);
    } else if s != [] {
      PrefixAttempt(tape, at, at, SIGN, w, fuel);
    }
  }

  // ----- the value read ------------------------------------------------------------------------------

  /** A number as a 64-bit two's complement integer keeps it. */
  function Wrap(v: int): int { (v + 0x8000_0000_0000_0000) % 0x1_0000_0000_0000_0000 - 0x8000_0000_0000_0000 }

  function HexNumber(s: seq<byte>): nat {
    if s == [] then 0
    else 16 * HexNumber(s[..|s| - 1]) + (var d := F.HexDigit(s[|s| - 1]); if d.Some? then d.value else 0)
  }

  /** What a literal is worth. */
  function LiteralValue(p: seq<byte>): int {
    var b := Body(p);
    var n: int := if IsHex(b) then HexNumber(b[2..]) else F.Digits(b);
    if p != [] && p[0] == F.MINUS then -n else n
  }

  lemma WrapSteps(a: int, m: int, d: int)
    requires m == 10 || m == 16 || m == 1 || m == -1
    ensures Wrap(Wrap(a) * m + d) == Wrap(a * m + d)
  {
    var k := -((a + 0x8000_0000_0000_0000) / 0x1_0000_0000_0000_0000);
    assert Wrap(a) == a + k * 0x1_0000_0000_0000_0000;
    WrapShift(a * m + d, k * m);
    assert Wrap(a) * m == a * m + (k * m) * 0x1_0000_0000_0000_0000;
  }

  lemma WrapShift(x: int, j: int)
    ensures Wrap(x + j * 0x1_0000_0000_0000_0000) == Wrap(x)
  {}

  /** A literal as written: a sign or none, any leading zeros, and the digits of a number, in
      decimal or, after `0x`, in base 16. */
  datatype Lit = Dec(k: S.Mark, z: nat, n: nat) | Hex(k: S.Mark, big: bool, z: nat, n: nat, upper: bool)

  function LitText(l: Lit): seq<byte> {
    match l
    case Dec(k, z, n) => S.NumberText(k, z, n)
    case Hex(k, big, z, n, upper) => S.MarkText(k) + HexBody(big, z, n, upper)
  }

  function HexBody(big: bool, z: nat, n: nat, upper: bool): seq<byte> {
    [48, if big then 88 else 120] + (S.Zeros(z) + S.HexText(n, upper))
  }

  /** Does the literal end where `after` begins? */
  predicate LitEnds(l: Lit, after: seq<byte>) {
    after != [] ==> if l.Dec? then !F.IsDigit(after[0]) && !IsX(after[0]) else !IsHexDigit(after[0])
  }

  lemma {:induction false} HexSpells(n: nat, upper: bool)
    ensures HexNumber(S.HexText(n, upper)) == n
    ensures forall i :: 0 <= i < |S.HexText(n, upper)| ==> IsHexDigit(S.HexText(n, upper)[i])
    decreases n
  {
    var r := S.HexText(n, upper);
    S.HexLetterIs(n % 16, upper);
    if n < 16 {
      S.HexLetterIs(n, upper);
      assert r[..0] == [];
    } else {
      HexSpells(n / 16, upper);
      assert r[..|r| - 1] == S.HexText(n / 16, upper);
    }
  }

  lemma {:induction false} ZerosNothing(z: nat, s: seq<byte>)
    ensures HexNumber(S.Zeros(z) + s) == HexNumber(s)
    decreases |s|, z
  {
    var t := S.Zeros(z) + s;
    if s != [] {
      assert t[..|t| - 1] == S.Zeros(z) + s[..|s| - 1];
      ZerosNothing(z, s[..|s| - 1]);
    } else if z > 0 {
      assert t[..z - 1] == S.Zeros(z - 1) + s;
      ZerosNothing(z - 1, s);
    }
  }

  lemma {:induction false} DigitsRun(s: seq<byte>, after: seq<byte>)
    requires F.AllDigits(s) && (after != [] ==> !F.IsDigit(after[0]))
    ensures DigitRun(s + after) == |s|
    decreases |s|
  {
    if s == [] {
      assert s + after == after;
    } else {
      assert (s + after)[1..] == s[1..] + after;
      DigitsRun(s[1..], after);
    }
  }

  lemma {:induction false} HexesRun(s: seq<byte>, after: seq<byte>)
    requires (forall i :: 0 <= i < |s| ==> IsHexDigit(s[i])) && (after != [] ==> !IsHexDigit(after[0]))
    ensures HexRun(s + after) == |s|
    decreases |s|
  {
    if s == [] {
      assert s + after == after;
    } else {
      assert (s + after)[1..] == s[1..] + after;
      HexesRun(s[1..], after);
    }
  }

  lemma SignedBody(k: S.Mark, body: seq<byte>, after: seq<byte>)
    requires body != [] && F.IsDigit(body[0])
    ensures var s := S.MarkText(k) + body + after;
            && Body(s) == body + after && Body(S.MarkText(k) + body) == body
            && (F.Signed(s) <==> !k.Bare?) && |S.MarkText(k)| == (if F.Signed(s) then 1 else 0)
            && ((S.MarkText(k) + body)[0] == F.MINUS <==> k.Minus?)
  {
    var p := S.MarkText(k) + body;
    if k.Bare? {
      assert p == body;
    } else {
      assert p[1..] == body && (p + after)[1..] == body + after;
    }
  }

  lemma HexBodyIs(big: bool, z: nat, n: nat, upper: bool)
    ensures var digits, body := S.Zeros(z) + S.HexText(n, upper), HexBody(big, z, n, upper);
            && HexNumber(digits) == n && (forall i :: 0 <= i < |digits| ==> IsHexDigit(digits[i]))
            && body == [48, if big then 88 else 120] + digits && body[2..] == digits && IsHex(body)
  {
    var digits, body := S.Zeros(z) + S.HexText(n, upper), HexBody(big, z, n, upper);
    HexSpells(n, upper);
    ZerosNothing(z, S.HexText(n, upper));
    assert F.HexDigit(48) == Some(0);
    assert body[2..] == digits;
    forall i | 2 <= i < |body| ensures IsHexDigit(body[i]) { assert body[i] == digits[i - 2]; }
  }

  /** A HEX LITERAL IS WORTH THE NUMBER ITS DIGITS SPELL, with its sign. */
  lemma HexLitReads(k: S.Mark, big: bool, z: nat, n: nat, upper: bool, after: seq<byte>)
    requires LitEnds(Hex(k, big, z, n, upper), after)
    ensures var p := LitText(Hex(k, big, z, n, upper));
            LiteralLen(p + after) == |p| && LiteralValue(p) == S.Signed64(k, n)
  {
    HexBodyIs(big, z, n, upper);
    HexLitLen(k, HexBody(big, z, n, upper), S.Zeros(z) + S.HexText(n, upper), if big then 88 else 120, after);
    SignedBody(k, HexBody(big, z, n, upper), []);
  }

  lemma HexLitLen(k: S.Mark, body: seq<byte>, digits: seq<byte>, x: byte, after: seq<byte>)
    requires body == [48, x] + digits && IsX(x) && forall i :: 0 <= i < |digits| ==> IsHexDigit(digits[i])
    requires after != [] ==> !IsHexDigit(after[0])
    ensures var p := S.MarkText(k) + body; LiteralLen(p + after) == |p|
  {
    HexesRun(digits, after);
    SignedBody(k, body, after);
    PrefixStays(body, digits, x, after);
  }

  lemma PrefixStays(body: seq<byte>, digits: seq<byte>, x: byte, after: seq<byte>)
    requires body == [48, x] + digits && IsX(x)
    ensures (body + after)[2..] == digits + after && HexStart(body + after)
  {}

  /** So is a decimal one. */
  lemma DecLitReads(k: S.Mark, z: nat, n: nat, after: seq<byte>)
    requires LitEnds(Dec(k, z, n), after)
    ensures var p := LitText(Dec(k, z, n));
            LiteralLen(p + after) == |p| && LiteralValue(p) == S.Signed64(k, n)
  {
    var body := S.Zeros(z) + F.Decimal(n);
    F.DecimalSpells(n);
    S.ZerosCount(z, F.Decimal(n));
    assert body != [] && F.IsDigit(body[0]);
    DigitsRun(body, after);
    SignedBody(k, body, after);
    assert !HexStart(body + after) && !IsHex(body);
  }

  lemma LitReads(l: Lit, after: seq<byte>)
    requires LitEnds(l, after)
    ensures LiteralLen(LitText(l) + after) == |LitText(l)| > 0
    ensures LiteralValue((LitText(l) + after)[..|LitText(l)|]) == S.Signed64(l.k, l.n)
  {
    assert (LitText(l) + after)[..|LitText(l)|] == LitText(l);
    match l {
      case Dec(k, z, n) => DecLitReads(k, z, n, after);
      case Hex(k, big, z, n, upper) => HexLitReads(k, big, z, n, upper, after);
    }
  }

  /** The value reader parses on its own from the retain mark, past the cursor, as far as
      the buffered text goes; text ends at a NUL. */
  method IntRead(region: seq<byte>, write: nat, retain: nat, cursor: nat) returns (r: Option<int>)
    requires write <= |region|
    ensures r.None? <==> cursor <= retain
    ensures retain < cursor && retain <= write && 0 !in region && LiteralLen(region[retain..write]) > 0 ==>
              r == Some(Wrap(LiteralValue(region[retain..write][..LiteralLen(region[retain..write])])))
    ensures retain < cursor && retain <= write && 0 !in region ==>
              forall l: Lit, after :: region[retain..write] == LitText(l) + after && LitEnds(l, after) ==>
                r == Some(Wrap(S.Signed64(l.k, l.n)))
  {
    if cursor <= retain { return None; }
    var bytes := UpToNul(region);
    if 0 !in region { NulFree(region); }
    var stop := if write <= |bytes| then write else |bytes|;
    forall l: Lit, after | LitEnds(l, after)
      ensures LiteralLen(LitText(l) + after) == |LitText(l)| > 0
      ensures LiteralValue((LitText(l) + after)[..|LitText(l)|]) == S.Signed64(l.k, l.n)
    {
      LitReads(l, after);
    }
    var n := ValueAt(bytes[if retain <= stop then retain else stop..stop]);
    r := Some(n);
  }

  /** The number the digits at the front spell, in the base their prefix says. */
  function Magnitude(b: seq<byte>): int {
    if HexStart(b) then HexNumber(b[2..][..HexRun(b[2..])]) else F.Digits(b[..DigitRun(b)])
  }

  method ValueAt(raw: seq<byte>) returns (n: int)
    ensures LiteralLen(raw) > 0 ==> n == Wrap(LiteralValue(raw[..LiteralLen(raw)]))
  {
    var body := if F.Signed(raw) then raw[1..] else raw;
    n := Fold(body);
    WrapSteps(Magnitude(body), -1, 0);
    if raw != [] && raw[0] == F.MINUS { n := Wrap(-n); }
    if LiteralLen(raw) > 0 { ValueOf(raw); }
  }

  method Fold(body: seq<byte>) returns (n: int)
    ensures n == Wrap(Magnitude(body))
  {
    if HexStart(body) {
      n := HexFold(body[2..]);
    } else {
      n := DecimalFold(body);
    }
  }

  lemma {:induction false} NulFree(s: seq<byte>)
    requires 0 !in s
    ensures UpToNul(s) == s
    decreases |s|
  {
    if s != [] { assert s[0] in s; NulFree(s[1..]); }
  }

  /** The literal's value is that of the digits the reader folds. */
  lemma ValueOf(raw: seq<byte>)
    requires LiteralLen(raw) > 0
    ensures LiteralValue(raw[..LiteralLen(raw)]) == if raw != [] && raw[0] == F.MINUS then -Magnitude(Body(raw))
        else Magnitude(Body(raw))
  {
    var n, b := LiteralLen(raw), Body(raw);
    var p := raw[..n];
    var sign := if F.Signed(raw) then 1 else 0;
    IsLiteral(raw);
    assert Body(p) == b[..n - sign];
    if HexStart(b) {
      assert Body(p)[2..] == b[2..][..HexRun(b[2..])];
    } else {
      assert !IsHex(Body(p));
    }
  }

  /** Decimal digits from the front, folded with wrapping arithmetic. */
  method DecimalFold(s: seq<byte>) returns (n: int)
    ensures n == Wrap(F.Digits(s[..DigitRun(s)]))
  {
    n := 0;
    var i := 0;
    while i < |s| && F.IsDigit(s[i])
      invariant i <= DigitRun(s) && n == Wrap(F.Digits(s[..i]))
    {
      assert s[..i + 1][..i] == s[..i];
      WrapSteps(F.Digits(s[..i]), 10, s[i] as int - 48);
      n := Wrap(n * 10 + (s[i] as int - 48));
      i := i + 1;
    }
  }

  /** Hex digits from the front, folded with wrapping arithmetic. */
  method HexFold(s: seq<byte>) returns (n: int)
    ensures n == Wrap(HexNumber(s[..HexRun(s)]))
  {
    n := 0;
    var i := 0;
    while i < |s| && IsHexDigit(s[i])
      invariant i <= HexRun(s) && n == Wrap(HexNumber(s[..i]))
    {
      var d := F.HexDigit(s[i]).value;
      assert HexNumber(s[..i + 1]) == 16 * HexNumber(s[..i]) + d by { assert s[..i + 1][..i] == s[..i]; }
      WrapSteps(HexNumber(s[..i]), 16, d);
      n := Wrap(n * 16 + d);
      i := i + 1;
    }
  }
}
