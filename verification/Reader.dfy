/** The built-in reader over a buffer, byte by byte, against what `Forms` says it reads.
Each method leaves the stream right after what it read, whether the buffer is fixed or
refills as it is read, as long as no run it copies out lies across the region's end. */
module Reader {
  import opened Options
  import opened Bytes
  import opened Buffers
  import opened Rooms
  import F = Forms

  /** The bytes still to be read, those that have yet to arrive included. */
  ghost function Rest(b: Buffer): seq<byte>
    requires b.Valid()
    reads b, b.text
  {
    b.Stream()
  }

  /** A buffer with `room` to the region's end, and space for a byte and the one behind it;
      one that does not refill has no end to come to. */
  ghost predicate At(b: Buffer, room: int)
    reads b
  {
    b.Valid() && (b.Live() ==> b.cap >= 2 && b.cap - b.cursor == room)
  }

  /** The same, and nothing was lost on the way. */
  ghost predicate Left(b: Buffer, room: Option<int>)
    reads b
  {
    b.Valid() && (b.Live() ==> room.Some? && At(b, room.value))
  }

  // ----- bytes ---------------------------------------------------------------------------------

  /** The byte at distance `n`, none at the end of the input. */
  method Look(b: Buffer, n: nat, ghost room: int) returns (c: Option<byte>)
    requires At(b, room) && n <= 1
    modifies b, b.text
    ensures b.Valid() && Rest(b) == old(Rest(b)) && (b.Live() ==> old(b.Live()))
    ensures At(b, Seen(room, n, |Rest(b)|, b.cap))
    ensures old(!b.Live() || b.cursor + n < b.cap || Rest(b) == []) ==> b.Kept()
    ensures old(b.Live() && b.cursor + n >= b.cap) && c.Some? ==> b.cursor == 0
    ensures c == if n < |Rest(b)| then Some(Rest(b)[n]) else None
    ensures c.Some? ==> b.cursor + n < b.write
    ensures if c.Some? then b.Live() == old(b.Live()) else !b.Live()
  {
    c := b.ByteAhead(n);
  }

  /** Consume a byte already seen. */
  method Take(b: Buffer, ghost room: int)
    requires At(b, room) && b.cursor < b.write
    modifies b
    ensures At(b, room - 1) && Rest(b) == old(Rest(b))[1..] && b.cursor == old(b.cursor) + 1
    ensures b.write == old(b.write) && b.Live() == old(b.Live())
  {
    b.Bump();
  }

  /** The next byte, consumed; none at the end of the input. */
  method Next(b: Buffer, ghost room: int) returns (c: Option<byte>)
    requires At(b, room)
    modifies b, b.text
    ensures b.Valid() && (b.Live() ==> old(b.Live()))
    ensures c.None? ==> At(b, room) && !b.Live() && old(Rest(b)) == [] == Rest(b)
    ensures c.Some? ==> old(Rest(b)) == [c.value] + Rest(b) && Rest(b) == old(Rest(b))[1..]
    ensures c.Some? ==> b.Live() == old(b.Live()) && At(b, Past(room, |old(Rest(b))|, b.cap))
  {
    c := Look(b, 0, room);
    if c.Some? { Take(b, Seen(room, 0, |Rest(b)|, b.cap)); }
  }

  // ----- blanks --------------------------------------------------------------------------------

  method SkipBlanks(b: Buffer, ghost room: int)
    requires At(b, room)
    modifies b, b.text
    ensures At(b, GapRoom(old(Rest(b)), room, b.cap)) && Rest(b) == F.SkipBlanks(old(Rest(b)))
    ensures b.Live() ==> old(b.Live())
    ensures Rest(b) != [] ==> b.cursor < b.write && b.Live() == old(b.Live())
  {
    ghost var goal, end, r := F.SkipBlanks(Rest(b)), GapRoom(Rest(b), room, b.cap), room;
    while true
      invariant At(b, r) && (b.Live() ==> old(b.Live())) && (Rest(b) != [] ==> b.Live() == old(b.Live()))
      invariant F.SkipBlanks(Rest(b)) == goal && GapRoom(Rest(b), r, b.cap) == end
      decreases |Rest(b)|
    {
      ghost var s := Rest(b);
      var c := Look(b, 0, r);
      if c.None? { return; }
      if F.IsBlank(c.value) {
        Take(b, Seen(r, 0, |s|, b.cap));
        r := Past(r, |s|, b.cap);
      } else if c.value == F.SEMI {
        Take(b, Seen(r, 0, |s|, b.cap));
        r := Past(r, |s|, b.cap);
        SkipLine(b, r);
        r := LineRoom(s[1..], r, b.cap);
      } else {
        return;
      }
    }
  }

  /** The rest of a comment's line. */
  method SkipLine(b: Buffer, ghost room: int)
    requires At(b, room)
    modifies b, b.text
    ensures At(b, LineRoom(old(Rest(b)), room, b.cap)) && Rest(b) == F.AfterLine(old(Rest(b)))
    ensures (b.Live() ==> old(b.Live())) && (Rest(b) != [] ==> b.Live() == old(b.Live()))
  {
    ghost var goal, end, r := F.AfterLine(Rest(b)), LineRoom(Rest(b), room, b.cap), room;
    while true
      invariant At(b, r) && (b.Live() ==> old(b.Live())) && (Rest(b) != [] ==> b.Live() == old(b.Live()))
      invariant F.AfterLine(Rest(b)) == goal && LineRoom(Rest(b), r, b.cap) == end
      decreases |Rest(b)|
    {
      ghost var s := Rest(b);
      var c := Next(b, r);
      if c.None? { return; }
      r := Past(r, |s|, b.cap);
      if c.value == NEWLINE { return; }
    }
  }

  // ----- runs of bytes -------------------------------------------------------------------------

  /** How many bytes at the front `keep` holds of. */
  function RunLen(s: seq<byte>, keep: byte -> bool): (n: nat)
    ensures n <= |s|
  {
    if s == [] || !keep(s[0]) then 0 else 1 + RunLen(s[1..], keep)
  }

  lemma RunGoesOn(s: seq<byte>, keep: byte -> bool, k: nat)
    requires k <= |s|
    ensures RunLen(s[k..], keep) == if k < |s| && keep(s[k]) then 1 + RunLen(s[k + 1..], keep) else 0
  {
    if k < |s| { assert s[k..][1..] == s[k + 1..]; }
  }

  /** A run of `k` bytes at the front of `s`, begun at `start`, is being moved over. It stands
      in the region; or it came to the region's end with more of the input to follow, and
      the cursor has come round. */
  ghost predicate Running(b: Buffer, live: bool, start: nat, s: seq<byte>, k: nat, moved: bool)
    reads b, b.text
  {
    && b.Valid() && k <= |s| && Rest(b) == s[k..] && (b.Live() ==> live) && (live ==> start < b.cap)
    && if moved then
         live && b.cap <= start + k && b.cap < start + |s| && b.cursor <= start + k - b.cap
         && (k <= b.cap ==> b.cursor == start + k - b.cap)
       else b.cursor == start + k && b.text[start..b.cursor] == s[..k]
  }

  /** The byte after the run. */
  method Glance(b: Buffer, ghost live: bool, ghost start: nat, ghost s: seq<byte>, ghost k: nat, ghost moved: bool)
    returns (c: Option<byte>, ghost moved': bool)
    requires Running(b, live, start, s, k, moved) && b.Live() == live
    modifies b, b.text
    ensures Running(b, live, start, s, k, moved')
    ensures c == if k < |s| then Some(s[k]) else None
    ensures if c.Some? then b.cursor < b.write && b.Live() == live else !b.Live()
    ensures moved' <==> live && !Whole(b.cap - start, k, |s|)
  {
    ghost var c0, w0, all := b.cursor, b.write, b.text[..b.write];
    moved' := moved || (live && b.cursor >= b.cap && Rest(b) != []);
    c := b.ByteAhead(0);
    if !moved' {
      assert b.text[start..c0] == b.text[..w0][start..c0] == all[start..c0];
    }
  }

  /** Take the byte just seen into the run. */
  method TakeIn(b: Buffer, ghost live: bool, ghost start: nat, ghost s: seq<byte>, ghost k: nat, ghost moved: bool)
    requires Running(b, live, start, s, k, moved) && b.cursor < b.write && k < |s| && (live ==> b.Live())
    modifies b
    ensures Running(b, live, start, s, k + 1, moved) && (live ==> b.Live())
  {
    assert s[k..][1..] == s[k + 1..];
    b.Bump();
  }

  /** Take the next byte into the run, if it is one of it. */
  method Turn(b: Buffer, keep: byte -> bool, ghost live: bool, ghost start: nat, ghost s: seq<byte>, ghost k: nat,
              ghost moved: bool)
    returns (more: bool, ghost moved': bool)
    requires Running(b, live, start, s, k, moved) && b.Live() == live
    modifies b, b.text
    ensures k <= |s| && (more <==> k < |s| && keep(s[k]))
    ensures if more then Running(b, live, start, s, k + 1, moved') && b.Live() == live
            else Running(b, live, start, s, k, moved') && (k < |s| ==> b.cursor < b.write)
    ensures !more ==> (moved' <==> live && !Whole(b.cap - start, k, |s|))
  {
    var c;
    c, moved' := Glance(b, live, start, s, k, moved);
    more := c.Some? && keep(c.value);
    if more { TakeIn(b, live, start, s, k, moved'); }
  }

  /** Move over the rest of a run begun at `start`. */
  method Cross(b: Buffer, keep: byte -> bool, ghost start: nat, ghost s: seq<byte>, ghost k: nat)
    returns (ghost n: nat, ghost moved: bool)
    requires Running(b, b.Live(), start, s, k, false)
    modifies b, b.text
    ensures k <= n == k + RunLen(s[k..], keep) && Running(b, old(b.Live()), start, s, n, moved)
    ensures n < |s| ==> b.cursor < b.write
    ensures moved <==> old(b.Live()) && !Whole(b.cap - start, n, |s|)
  {
    ghost var live := b.Live();
    n, moved := k, false;
    var more := true;
    while more
      invariant k <= n <= |s| && Running(b, live, start, s, n, moved)
      invariant if more then b.Live() == live && k + RunLen(s[k..], keep) == n + RunLen(s[n..], keep)
                else n == k + RunLen(s[k..], keep) && (n < |s| ==> b.cursor < b.write)
                     && (moved <==> live && !Whole(b.cap - start, n, |s|))
      decreases more, |s| - n
    {
      RunGoesOn(s, keep, n);
      more, moved := Turn(b, keep, live, start, s, n, moved);
      if more { n := n + 1; }
    }
  }

  /** Move over the rest of a run begun at `start` and copy the run out. WHAT IS COPIED IS
      THE RUN EXACTLY WHEN THE RUN IS STILL WHOLE in the region. A run no longer than the
      region, with more of the input behind it, is otherwise lost altogether: the cursor has
      come round to a place no later than the one where the run began. */
  method Span(b: Buffer, keep: byte -> bool, start: nat, ghost s: seq<byte>, ghost k: nat) returns (name: seq<byte>)
    requires Running(b, b.Live(), start, s, k, false)
    modifies b, b.text
    ensures b.Valid() && (b.Live() ==> old(b.Live()))
    ensures var n := k + RunLen(s[k..], keep);
            && Rest(b) == s[n..] && (n < |s| ==> b.cursor < b.write)
            && (name == s[..n] <==> !old(b.Live()) || Whole(b.cap - start, n, |s|))
            && (name == s[..n] ==> b.cursor == start + n && b.text[start..b.cursor] == name)
            && (old(b.Live()) && !Whole(b.cap - start, n, |s|) && n <= b.cap && n < |s| ==> name == [])
  {
    ghost var n, moved := Cross(b, keep, start, s, k);
    name := if start <= b.cursor then b.text[start..b.cursor] else [];
  }

  // ----- atoms ---------------------------------------------------------------------------------

  predicate InAtom(c: byte) { !F.IsDelim(c) }

  lemma {:induction false} RunLengths(s: seq<byte>)
    ensures RunLen(s, InAtom) == F.AtomLen(s)
    ensures RunLen(s, F.IsLetter) == F.LetterLen(s)
    ensures RunLen(s, F.IsContinuation) == F.ContinuationLen(s)
  {
    if s != [] { RunLengths(s[1..]); }
  }

  /** An atom. It reads as its text when the text is whole in the region. One that lies
      across the region's end, more of the input following, reads as NIL, and the byte
      behind it goes with it. */
  method ReadAtom(b: Buffer, ghost room: int) returns (f: F.Form)
    requires At(b, room) && b.cursor < b.write
    requires b.Live() && AtomRoom(Rest(b), room).None? ==> F.AtomLen(Rest(b)) < |Rest(b)|
    modifies b, b.text
    ensures b.Valid() && (b.Live() ==> old(b.Live()))
    ensures !old(b.Live()) || AtomRoom(old(Rest(b)), room).Some? ==>
              (f, Rest(b)) == F.ReadAtom(old(Rest(b))) && Left(b, AtomRoom(old(Rest(b)), room))
    ensures old(b.Live()) && AtomRoom(old(Rest(b)), room).None? && F.AtomLen(old(Rest(b))) <= b.cap ==>
              (f, Rest(b)) == (F.Nil, old(Rest(b))[F.AtomLen(old(Rest(b))) + 1..])
  {
    ghost var s := Rest(b);
    var start := b.cursor;
    RunLengths(s);
    assert s[0..] == s;
    var name := Span(b, InAtom, start, s, 0);
    if name == [] {
      Take(b, b.cap - b.cursor);
      return F.Nil;
    }
    f := F.Atom(name);
  }

  /** A LOST ATOM. Any symbol no longer than the region, read across the region's end after
      some blanks, comes out as NIL, and the delimiter behind it is gone. */
  method LostAtom(capacity: nat, gap: seq<byte>, name: seq<byte>, after: seq<byte>) returns (b: Buffer, f: F.Form)
    requires F.IsGap(gap) && F.SymbolSafe(name) && after != [] && F.IsDelim(after[0])
    requires name[0] != F.HASH && 2 <= capacity && |gap| < capacity <= |gap| + |name| && |name| <= capacity
    ensures F.ReadForm(gap + name + after) == (Some(F.Sym(name)), after)
    ensures fresh(b) && b.Valid() && (f, Rest(b)) == (F.Nil, after[1..])
  {
    SymbolAfter(gap, name, after);
    b := new Buffer(capacity, gap + name + after);
    ShortGap(Rest(b), capacity, capacity);
    SkipBlanks(b, capacity);
    f := ReadAtom(b, capacity - |gap|);
  }

  lemma SymbolAfter(gap: seq<byte>, name: seq<byte>, after: seq<byte>)
    requires F.IsGap(gap) && F.SymbolSafe(name) && after != [] && F.IsDelim(after[0])
    ensures F.ReadForm(gap + name + after) == (Some(F.Sym(name)), after)
    ensures F.SkipBlanks(gap + name + after) == name + after && F.AtomLen(name + after) == |name|
    ensures (name + after)[|name| + 1..] == after[1..]
  {
    assert gap + name + after == gap + (name + after);
    F.GapSkipped(gap, name + after);
    F.TextStarts(F.DSym(name), after);
    F.DocReads(F.DSym(name), after);
    F.AtomTakes(name, after);
    F.FormOpens(gap + name + after);
  }

  // ----- strings and characters ----------------------------------------------------------------

  /** A string literal, its opening quote already read. However long, it is read as it is:
      each byte is kept as it goes by. */
  method ReadString(b: Buffer, ghost room: int) returns (bytes: seq<byte>)
    requires At(b, room)
    modifies b, b.text
    ensures b.Valid() && (b.Live() ==> old(b.Live()))
    ensures At(b, StringRoom(old(Rest(b)), room, b.cap)) && (bytes, Rest(b)) == F.ReadString(old(Rest(b)))
  {
    bytes := [];
    ghost var goal, end, r := F.ReadString(Rest(b)), StringRoom(Rest(b), room, b.cap), room;
    assert bytes + goal.0 == goal.0;
    while true
      invariant At(b, r) && (b.Live() ==> old(b.Live())) && end == StringRoom(Rest(b), r, b.cap)
      invariant goal == (bytes + F.ReadString(Rest(b)).0, F.ReadString(Rest(b)).1)
      decreases |Rest(b)|
    {
      ghost var s := Rest(b);
      var c := Next(b, r);
      if c.None? || c.value == F.QUOTE {
        assert bytes + [] == bytes;
        return;
      }
      r := Past(r, |s|, b.cap);
      var got := [c.value];
      if c.value == F.BSLASH {
        var e := Next(b, r);
        if e.None? {
          assert bytes + [] == bytes;
          return;
        }
        r := Past(r, |s| - 1, b.cap);
        assert Rest(b) == s[2..] && e.value == s[1];
        got, r := ReadEscape(b, e.value, r);
        assert |s| < 4 || s[2..][2..] == s[4..];
      }
      Regroup(bytes, got, F.ReadString(Rest(b)).0);
      bytes := bytes + got;
    }
  }

  lemma Regroup<T>(a: seq<T>, b: seq<T>, c: seq<T>)
    ensures (a + b) + c == a + (b + c)
  {}

  /** What an escape whose second byte is `e` puts in the string, and how far it goes. */
  method ReadEscape(b: Buffer, e: byte, ghost room: int) returns (got: seq<byte>, ghost r: int)
    requires At(b, room)
    modifies b, b.text
    ensures At(b, r) && (b.Live() ==> old(b.Live()))
    ensures r == if e == F.LETTER_X then HexRoom(old(Rest(b)), room, b.cap) else room
    ensures F.Escape(e).Some? ==> got == [F.Escape(e).value] && Rest(b) == old(Rest(b))
    ensures e == F.LETTER_X && F.HexPair(old(Rest(b))).Some? ==>
              |old(Rest(b))| >= 2 && got == [F.HexPair(old(Rest(b))).value] && Rest(b) == old(Rest(b))[2..]
    ensures F.Escape(e).None? && !(e == F.LETTER_X && F.HexPair(old(Rest(b))).Some?) ==>
              got == [F.BSLASH, e] && Rest(b) == old(Rest(b))
  {
    r := room;
    if F.Escape(e).Some? { return [F.Escape(e).value], r; }
    if e != F.LETTER_X { return [F.BSLASH, e], r; }
    ghost var s := Rest(b);
    var first := Look(b, 0, r);
    r := Seen(r, 0, |s|, b.cap);
    var second := Look(b, 1, r);
    r := Seen(r, 1, |s|, b.cap);
    var h := if first.Some? then F.HexDigit(first.value) else None;
    var l := if second.Some? then F.HexDigit(second.value) else None;
    if h.Some? && l.Some? {
      got := [h.value * 16 + l.value];
      assert F.HexPair(s) == Some(h.value * 16 + l.value);
      Take(b, r);
      Take(b, r - 1);
      r := r - 2;
      assert s[1..][1..] == s[2..];
    } else {
      got := [F.BSLASH, F.LETTER_X];
    }
  }

  /** A character literal, its `#\` already read. */
  method ReadChar(b: Buffer, ghost room: int) returns (f: F.Form)
    requires At(b, room) && (b.Live() ==> CharRoom(Rest(b), room, b.cap).Some?)
    modifies b, b.text
    ensures b.Valid() && (b.Live() ==> old(b.Live()))
    ensures Left(b, CharRoom(old(Rest(b)), room, b.cap)) && (f, Rest(b)) == F.ReadChar(old(Rest(b)))
  {
    ghost var s := Rest(b);
    var first := Look(b, 0, room);
    if first.None? { return F.Nil; }
    var start := b.cursor;
    Take(b, Seen(room, 0, |s|, b.cap));
    if first.value >= 128 {
      f := ReadWide(b, start, s);
    } else if !F.IsLetter(first.value) {
      f := F.Char(first.value);
    } else {
      f := ReadName(b, start, first.value, s);
    }
  }

  /** A multi-byte character, its first byte already taken. */
  method ReadWide(b: Buffer, start: nat, ghost s: seq<byte>) returns (f: F.Form)
    requires Running(b, b.Live(), start, s, 1, false) && s[0] >= 128
    requires b.Live() ==> Whole(b.cap - start, 1 + F.ContinuationLen(s[1..]), |s|)
    modifies b, b.text
    ensures b.Valid() && (b.Live() ==> old(b.Live()) && b.cursor == start + |s| - |Rest(b)|)
    ensures (f, Rest(b)) == F.ReadChar(s)
  {
    RunLengths(s[1..]);
    var whole := Span(b, F.IsContinuation, start, s, 1);
    f := F.Char(F.FirstCode(whole));
  }

  /** A letter, or the name it begins. */
  method ReadName(b: Buffer, start: nat, first: byte, ghost s: seq<byte>) returns (f: F.Form)
    requires Running(b, b.Live(), start, s, 1, false) && F.IsLetter(first) && first == s[0]
    requires b.Live() ==> Whole(b.cap - start, F.LetterLen(s), |s|)
    modifies b, b.text
    ensures b.Valid() && (b.Live() ==> old(b.Live()) && b.cursor == start + |s| - |Rest(b)|)
    ensures (f, Rest(b)) == F.ReadChar(s)
  {
    RunLengths(s[1..]);
    var name := Span(b, F.IsLetter, start, s, 1);
    assert |name| == F.LetterLen(s) && name == s[..|name|];
    if |name| > 1 {
      var code := F.NamedChar(name);
      if code.Some? { return F.Char(code.value); }
      Back(b, start + 1, name[1..]);
      Drop(s, |name|);
    }
    f := F.Char(first);
  }

  lemma Drop(s: seq<byte>, n: nat)
    requires 1 <= n <= |s|
    ensures s[..n][1..] + s[n..] == s[1..]
  {}

  /** Back to an earlier byte of the run just read. */
  method Back(b: Buffer, at: nat, ghost run: seq<byte>)
    requires b.Valid() && at <= b.cursor && run == b.text[at..b.cursor]
    modifies b
    ensures b.Valid() && b.cursor == at && Rest(b) == run + old(Rest(b)) && b.Live() == old(b.Live())
  {
    assert b.text[at..b.write] == run + b.text[b.cursor..b.write];
    b.MoveTo(at);
  }

  // ----- forms and lists -----------------------------------------------------------------------

  /** Does the dot about to be read stand alone? */
  method DotIsASeparator(b: Buffer, ghost room: int) returns (yes: bool)
    requires At(b, room) && b.cursor < b.write && Rest(b)[0] == F.DOT
    modifies b, b.text
    ensures b.Valid() && Rest(b) == old(Rest(b)) && b.cursor < b.write && At(b, Seen(room, 1, |Rest(b)|, b.cap))
    ensures (b.Live() ==> old(b.Live())) && (yes <==> F.DotSeparates(Rest(b)))
  {
    var c := Look(b, 1, room);
    yes := c.None? || F.IsBlank(c.value) || c.value == F.OPEN || c.value == F.CLOSE;
  }

  /** READ ONE FORM. What is read and where the cursor stops are what `Forms` says, so
      the round trip is this method's. On a buffer that refills the form may be longer than
      the region: it is enough that no run of it lies across the region's end. */
  method ReadForm(b: Buffer, ghost room: int) returns (f: Option<F.Form>)
    requires At(b, room) && (b.Live() ==> FormRoom(Rest(b), room, b.cap).Some?)
    modifies b, b.text
    ensures b.Valid() && (b.Live() ==> old(b.Live()))
    ensures Left(b, FormRoom(old(Rest(b)), room, b.cap)) && (f, Rest(b)) == F.ReadForm(old(Rest(b)))
    decreases |Rest(b)|, 2
  {
    ghost var s, r := Rest(b), GapRoom(Rest(b), room, b.cap);
    if b.Live() { FormOpens(s, room, b.cap); }
    F.FormOpens(s);
    SkipBlanks(b, room);
    var c := Look(b, 0, r);
    if c.None? { return None; }
    var g := ReadFrom(b, c.value, r, F.ReadForm(s), FormRoom(s, room, b.cap));
    f := Some(g);
  }

  /** A form whose first byte has been looked at. */
  method ReadFrom(b: Buffer, first: byte, ghost room: int, ghost goal: (Option<F.Form>, seq<byte>),
                  ghost end: Option<int>)
    returns (f: F.Form)
    requires At(b, room) && b.cursor < b.write && first == Rest(b)[0] && F.SkipBlanks(Rest(b)) == Rest(b)
    requires b.Live() ==> GapRoom(Rest(b), room, b.cap) == room && FormRoom(Rest(b), room, b.cap) == end && end.Some?
    requires goal == F.ReadForm(Rest(b))
    modifies b, b.text
    ensures b.Valid() && (b.Live() ==> old(b.Live())) && Left(b, end) && (Some(f), Rest(b)) == goal
    decreases |Rest(b)|, 1
  {
    ghost var t := Rest(b);
    if b.Live() { FormStarts(t, room, b.cap); }
    F.FormStarts(t);
    if first == F.OPEN {
      f := ReadOpen(b, room, goal, end);
    } else if first == F.QUOTE {
      f := ReadQuoted(b, room, goal, end);
    } else if first == F.CLOSE {
      Take(b, room);
      f := F.Nil;
    } else if first == F.HASH {
      f := ReadHash(b, room);
    } else {
      f := ReadAtom(b, room);
    }
  }

  method ReadOpen(b: Buffer, ghost room: int, ghost goal: (Option<F.Form>, seq<byte>), ghost end: Option<int>)
    returns (f: F.Form)
    requires At(b, room) && b.cursor < b.write
    requires b.Live() ==> ListRoom(Rest(b)[1..], room - 1, b.cap) == end && end.Some?
    requires goal == (Some(F.ReadList(Rest(b)[1..]).0), F.ReadList(Rest(b)[1..]).1)
    modifies b, b.text
    ensures b.Valid() && (b.Live() ==> old(b.Live())) && Left(b, end) && (Some(f), Rest(b)) == goal
    decreases |Rest(b)|, 0
  {
    Take(b, room);
    f := ReadList(b, room - 1);
  }

  method ReadQuoted(b: Buffer, ghost room: int, ghost goal: (Option<F.Form>, seq<byte>), ghost end: Option<int>)
    returns (f: F.Form)
    requires At(b, room) && b.cursor < b.write
    requires b.Live() ==> Some(StringRoom(Rest(b)[1..], room - 1, b.cap)) == end
    requires goal == (Some(F.Str(F.ReadString(Rest(b)[1..]).0)), F.ReadString(Rest(b)[1..]).1)
    modifies b, b.text
    ensures b.Valid() && (b.Live() ==> old(b.Live())) && Left(b, end) && (Some(f), Rest(b)) == goal
  {
    Take(b, room);
    var bytes := ReadString(b, room - 1);
    f := F.Str(bytes);
  }

  /** A character literal, or an atom that begins with a hash. */
  method ReadHash(b: Buffer, ghost room: int) returns (f: F.Form)
    requires At(b, room) && b.cursor < b.write
    requires b.Live() ==> HashRoom(Rest(b), Seen(room, 1, |Rest(b)|, b.cap), b.cap).Some?
    modifies b, b.text
    ensures b.Valid() && (b.Live() ==> old(b.Live()))
    ensures var t := old(Rest(b));
            && Left(b, HashRoom(t, Seen(room, 1, |t|, b.cap), b.cap))
            && (f, Rest(b)) == if |t| > 1 && t[1] == F.BSLASH then F.ReadChar(t[2..]) else F.ReadAtom(t)
  {
    ghost var t, r := Rest(b), Seen(room, 1, |Rest(b)|, b.cap);
    var next := Look(b, 1, room);
    if next == Some(F.BSLASH) {
      Take(b, r);
      Take(b, r - 1);
      assert Rest(b) == t[2..];
      f := ReadChar(b, r - 2);
    } else {
      f := ReadAtom(b, r);
    }
  }

  /** A list's items in order, then its tail. */
  function Build(items: seq<F.Form>, tail: F.Form): F.Form {
    if items == [] then tail else F.Cons(items[0], Build(items[1..], tail))
  }

  lemma {:induction false} BuildSnoc(items: seq<F.Form>, f: F.Form, tail: F.Form)
    ensures Build(items + [f], tail) == Build(items, F.Cons(f, tail))
    decreases |items|
  {
    if items == [] {
      assert items + [f] == [f];
    } else {
      assert (items + [f])[1..] == items[1..] + [f];
      BuildSnoc(items[1..], f, tail);
    }
  }

  /** A list, its open parenthesis already read: the items are collected, then consed
      from the last. */
  method ReadList(b: Buffer, ghost room: int) returns (out: F.Form)
    requires At(b, room) && (b.Live() ==> ListRoom(Rest(b), room, b.cap).Some?)
    modifies b, b.text
    ensures b.Valid() && (b.Live() ==> old(b.Live()))
    ensures Left(b, ListRoom(old(Rest(b)), room, b.cap)) && (out, Rest(b)) == F.ReadList(old(Rest(b)))
    decreases |Rest(b)|, 5
  {
    ghost var goal, end, size := F.ReadList(Rest(b)), ListRoom(Rest(b), room, b.cap), |Rest(b)|;
    var items: seq<F.Form> := [];
    var item, tail;
    ghost var r;
    item, tail, r := ReadItem(b, room, goal, end);
    while item.Some?
      invariant b.Valid() && |Rest(b)| <= size && (b.Live() ==> old(b.Live()))
      invariant item.None? ==> goal == (Build(items, tail), Rest(b)) && Left(b, end)
      invariant item.Some? ==>
                  && |Rest(b)| < size && At(b, r) && (b.Live() ==> end == ListRoom(Rest(b), r, b.cap))
                  && goal == (Build(items, F.Cons(item.value, F.ReadList(Rest(b)).0)), F.ReadList(Rest(b)).1)
      decreases |Rest(b)|, item.Some?
    {
      BuildSnoc(items, item.value, F.ReadList(Rest(b)).0);
      items := items + [item.value];
      item, tail, r := ReadItem(b, r, F.ReadList(Rest(b)), end);
    }
    out := Assemble(items, tail);
  }

  /** The next item of a list that reads as `goal` and leaves `end`, or none and its tail
      when the list is done. */
  method ReadItem(b: Buffer, ghost room: int, ghost goal: (F.Form, seq<byte>), ghost end: Option<int>)
    returns (item: Option<F.Form>, tail: F.Form, ghost r: int)
    requires At(b, room) && goal == F.ReadList(Rest(b))
    requires b.Live() ==> ListRoom(Rest(b), room, b.cap) == end && end.Some?
    modifies b, b.text
    ensures b.Valid() && (b.Live() ==> old(b.Live()))
    ensures item.None? ==> (tail, Rest(b)) == goal && Left(b, end)
    ensures item.Some? ==>
              && |Rest(b)| < |old(Rest(b))| && At(b, r) && (b.Live() ==> ListRoom(Rest(b), r, b.cap) == end)
              && goal == (F.Cons(item.value, F.ReadList(Rest(b)).0), F.ReadList(Rest(b)).1)
    decreases |Rest(b)|, 4
  {
    item, tail, r := None, F.Nil, GapRoom(Rest(b), room, b.cap);
    if b.Live() { ListOpens(Rest(b), room, b.cap); }
    F.ListOpens(Rest(b));
    SkipBlanks(b, room);
    var c := Look(b, 0, r);
    if c.None? { return; }
    if c.value == F.CLOSE {
      Take(b, r);
      return;
    }
    if c.value == F.DOT {
      var dotted := DotIsASeparator(b, r);
      if dotted {
        tail := ReadDotted(b, r, goal, end);
        return;
      }
    }
    item, r := ReadOn(b, r, goal, end);
  }

  /** An item that is there. */
  method ReadOn(b: Buffer, ghost room: int, ghost goal: (F.Form, seq<byte>), ghost end: Option<int>)
    returns (item: Option<F.Form>, ghost r: int)
    requires b.Valid() && b.cursor < b.write && Rest(b)[0] != F.CLOSE && !F.DotSeparates(Rest(b))
    requires F.SkipBlanks(Rest(b)) == Rest(b) && goal == F.ReadList(Rest(b))
    requires At(b, if Rest(b)[0] == F.DOT then Seen(room, 1, |Rest(b)|, b.cap) else room)
    requires b.Live() ==> GapRoom(Rest(b), room, b.cap) == room && ListRoom(Rest(b), room, b.cap) == end && end.Some?
    modifies b, b.text
    ensures item.Some? && At(b, r) && (b.Live() ==> old(b.Live())) && |Rest(b)| < |old(Rest(b))|
    ensures b.Live() ==> ListRoom(Rest(b), r, b.cap) == end
    ensures goal == (F.Cons(item.value, F.ReadList(Rest(b)).0), F.ReadList(Rest(b)).1)
    decreases |Rest(b)|, 3
  {
    ghost var t := Rest(b);
    r := if t[0] == F.DOT then Seen(room, 1, |t|, b.cap) else room;
    F.ListGoesOn(t);
    if b.Live() { ListGoesOn(t, room, b.cap); }
    ghost var after := FormRoom(t, r, b.cap);
    item := ReadForm(b, r);
    r := if after.Some? then after.value else 0;
  }

  /** A separating dot, and the tail after it. */
  method ReadDotted(b: Buffer, ghost room: int, ghost goal: (F.Form, seq<byte>), ghost end: Option<int>)
    returns (tail: F.Form)
    requires b.Valid() && b.cursor < b.write && F.DotSeparates(Rest(b)) && goal == F.ReadList(Rest(b))
    requires At(b, Seen(room, 1, |Rest(b)|, b.cap))
    requires b.Live() ==> GapRoom(Rest(b), room, b.cap) == room && ListRoom(Rest(b), room, b.cap) == end && end.Some?
    modifies b, b.text
    ensures b.Valid() && (b.Live() ==> old(b.Live())) && Left(b, end) && (tail, Rest(b)) == goal
    decreases |Rest(b)|, 0
  {
    F.ListAtDot(Rest(b));
    if b.Live() { ListAtDot(Rest(b), room, b.cap); }
    ghost var r := Seen(room, 1, |Rest(b)|, b.cap);
    Take(b, r);
    tail := ReadTail(b, r - 1);
  }

  /** The tail after a separating dot, and the closing parenthesis if it is there. */
  method ReadTail(b: Buffer, ghost room: int) returns (tail: F.Form)
    requires At(b, room) && (b.Live() ==> TailRoom(Rest(b), room, b.cap).Some?)
    modifies b, b.text
    ensures b.Valid() && (b.Live() ==> old(b.Live()))
    ensures Left(b, TailRoom(old(Rest(b)), room, b.cap)) && (tail, Rest(b)) == F.ReadTail(old(Rest(b)))
    decreases |Rest(b)|, 3
  {
    ghost var r := GapRoom(Rest(b), room, b.cap);
    SkipBlanks(b, room);
    ghost var after := FormRoom(Rest(b), r, b.cap);
    var t := ReadForm(b, r);
    tail := if t.Some? then t.value else F.Nil;
    SkipClose(b, if after.Some? then after.value else 0);
  }

  /** Past the blanks, and past a closing parenthesis if one is next. */
  method SkipClose(b: Buffer, ghost room: int)
    requires At(b, room)
    modifies b, b.text
    ensures b.Valid() && (b.Live() ==> old(b.Live())) && At(b, CloseRoom(old(Rest(b)), room, b.cap))
    ensures Rest(b) == F.SkipClose(old(Rest(b)))
  {
    ghost var r := GapRoom(Rest(b), room, b.cap);
    SkipBlanks(b, room);
    var c := Look(b, 0, r);
    if c == Some(F.CLOSE) { Take(b, r); }
  }

  method Assemble(items: seq<F.Form>, tail: F.Form) returns (out: F.Form)
    ensures out == Build(items, tail)
  {
    out := tail;
    var i := |items|;
    while i > 0
      invariant 0 <= i <= |items| && out == Build(items[i..], tail)
    {
      i := i - 1;
      out := F.Cons(items[i], out);
      assert items[i..][1..] == items[i + 1..];
    }
  }

  /** Reading a fixed source to its end terminates: each form takes at least a byte. */
  method ReadAll(b: Buffer) returns (fs: seq<F.Form>)
    requires b.Valid() && !b.Live()
    modifies b, b.text
    ensures b.Valid() && fs == F.ReadAll(old(Rest(b))) && Rest(b) == []
  {
    fs := [];
    ghost var goal := F.ReadAll(Rest(b));
    while true
      invariant b.Valid() && !b.Live() && goal == fs + F.ReadAll(Rest(b))
      decreases |Rest(b)|
    {
      var f := ReadForm(b, 0);
      if f.None? {
        assert fs + [] == fs;
        return;
      }
      Regroup(fs, [f.value], F.ReadAll(Rest(b)));
      fs := fs + [f.value];
    }
  }

  // ----- a session over an input stream --------------------------------------------------------

  /** May the next form be read from the front of a region of `cap` bytes? Its first line
      fits, and no run of it lies across the region's end as the region comes round. */
  ghost predicate Fits(s: seq<byte>, cap: nat) {
    (|s| <= cap || HasLine(s[..cap])) && FormRoom(s, cap, cap).Some?
  }

  ghost predicate EachFits(s: seq<byte>, cap: nat)
    decreases |s|
  {
    Fits(s, cap) && (F.ReadForm(s).0.Some? ==> EachFits(F.ReadForm(s).1, cap))
  }

  /** THE SESSION. A line is fetched, a form is read, and the region is compacted, again
      and again. However long the input and its forms, if each form fits so, what is read
      is every form of the whole input, in order. */
  method ReadSession(b: Buffer) returns (fs: seq<F.Form>)
    requires b.Valid() && (b.Live() ==> b.cursor == 0 && b.cap >= 2 && EachFits(Rest(b), b.cap))
    modifies b, b.text
    ensures b.Valid() && Rest(b) == [] && fs == F.ReadAll(old(Rest(b)))
  {
    fs := [];
    ghost var goal := F.ReadAll(Rest(b));
    while true
      invariant b.Valid() && (b.Live() ==> b.cursor == 0 && b.cap >= 2 && EachFits(Rest(b), b.cap))
      invariant goal == fs + F.ReadAll(Rest(b))
      decreases |Rest(b)|
    {
      var f := NextForm(b);
      if f.None? {
        assert fs + [] == fs;
        return;
      }
      Regroup(fs, [f.value], F.ReadAll(Rest(b)));
      fs := fs + [f.value];
      b.CompactInput();
    }
  }

  /** Fetch a line, then read the next form. */
  method NextForm(b: Buffer) returns (f: Option<F.Form>)
    requires b.Valid() && (b.Live() ==> b.cursor == 0 && b.cap >= 2 && Fits(Rest(b), b.cap))
    modifies b, b.text
    ensures b.Valid() && (f, Rest(b)) == F.ReadForm(old(Rest(b))) && (b.Live() ==> old(b.Live()))
  {
    b.PrefetchLine();
    f := ReadForm(b, b.cap - b.cursor);
  }
}
