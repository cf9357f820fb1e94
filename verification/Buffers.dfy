/** The buffer a reader walks: a byte region with its marks, refilled a byte at a time
from an input stream, compacted when full, and read for line numbers.

`Stream` is what is still to be read: the unread span of the region, then the input
not yet pulled. Every operation is stated by what it does to that. */
module Buffers {
  import opened Options
  import opened Bytes

  predicate HasLine(s: seq<byte>) { NEWLINE in s }

  function Newlines(s: seq<byte>): nat {
    if s == [] then 0 else Newlines(s[..|s| - 1]) + (if s[|s| - 1] == NEWLINE then 1 else 0)
  }

  /** It counts the newlines. */
  lemma {:induction false} NewlinesCount(s: seq<byte>)
    ensures Newlines(s) == multiset(s)[NEWLINE]
    decreases |s|
  {
    if s != [] {
      var k := |s| - 1;
      assert s == s[..k] + [s[k]];
      NewlinesCount(s[..k]);
    }
  }

  lemma {:induction false} NewlinesAdd(a: seq<byte>, b: seq<byte>)
    ensures Newlines(a + b) == Newlines(a) + Newlines(b)
    decreases |b|
  {
    if b == [] {
      assert a + b == a;
    } else {
      var ab := a + b;
      assert ab[..|ab| - 1] == a + b[..|b| - 1];
      NewlinesAdd(a, b[..|b| - 1]);
    }
  }

  /** `line` is the line at `pos` of `s`, after `before` newlines already gone. */
  ghost predicate AnchoredIn(s: seq<byte>, pos: nat, line: nat, before: nat) {
    pos <= |s| && line == 1 + before + Newlines(s[..pos])
  }

  /** Cutting `c` bytes off the front and sliding the anchor left. */
  lemma CutAnchor(s: seq<byte>, c: nat, pos: nat, line: nat, before: nat)
    requires c <= |s|
    ensures AnchoredIn(s, pos, line, before) ==>
              (AnchoredIn(s[c..], if pos >= c then pos - c else 0, line, before + Newlines(s[..c]))
               <==> pos >= c || Newlines(s[pos..c]) == 0)
  {
    if pos >= c && pos <= |s| {
      assert s[..c] + s[c..pos] == s[..pos] && s[c..][..pos - c] == s[c..pos];
      NewlinesAdd(s[..c], s[c..pos]);
    } else if pos < c {
      assert s[..pos] + s[pos..c] == s[..c];
      NewlinesAdd(s[..pos], s[pos..c]);
    }
  }

  /** Cutting `c` bytes off the front and leaving the anchor where it is. */
  lemma KeepAnchor(s: seq<byte>, c: nat, pos: nat, line: nat, before: nat)
    requires c <= |s|
    ensures AnchoredIn(s, pos, line, before) ==>
              (AnchoredIn(s[c..], pos, line, before + Newlines(s[..c]))
               <==> pos + c <= |s| && Newlines(s[pos..pos + c]) == 0)
  {
    if pos + c <= |s| {
      assert s[..c] + s[c..][..pos] == s[..pos + c] == s[..pos] + s[pos..pos + c];
      NewlinesAdd(s[..c], s[c..][..pos]);
      NewlinesAdd(s[..pos], s[pos..pos + c]);
    }
  }

  /** The stream with the one byte after the first `cap` gone. */
  function Holed(s: seq<byte>, cap: nat): seq<byte> { if |s| <= cap then s else s[..cap] + s[cap + 1..] }

  class Buffer {
    /** The region. Marks are offsets into it. */
    const text: array<byte>
    /** How much of the region a refill may fill. */
    const cap: nat
    const readOnly: bool
    /** Is there an input stream behind the buffer? */
    const connected: bool
    var retain: nat
    var cursor: nat
    var write: nat
    /** "Line `anchorLine` at byte `anchorPos`". */
    var anchorPos: nat
    var anchorLine: nat
    /** The descriptor read from; its bitwise complement once input has ended. */
    var fd: int
    /** The bytes still to arrive before the stream ends or errs; none is pulled when
        nothing is connected. */
    var input: seq<byte>
    /** Everything consumed so far, and the newlines compaction has discarded. */
    ghost var given: seq<byte>
    ghost var discarded: nat

    /** An empty region over an input stream. */
    constructor (capacity: nat, bytes: seq<byte>)
      ensures Valid() && Live() && Stream() == bytes && given == []
      ensures cap == capacity && cursor == 0 == write && Anchored() && fresh(text)
    {
      text, cap := new byte[capacity], capacity;
      readOnly, connected := false, true;
      retain, cursor, write, anchorPos, anchorLine, fd, input := 0, 0, 0, 0, 1, 0, bytes;
      given, discarded := [], 0;
    }

    ghost predicate Valid()
      reads this
    {
      cursor <= write <= text.Length && cap <= text.Length && (Live() ==> write <= cap)
    }

    /** May a refill pull from the stream? */
    predicate Live()
      reads this
    {
      !readOnly && connected && fd >= 0
    }

    ghost function Unread(): seq<byte>
      requires Valid()
      reads this, text
    {
      text[cursor..write]
    }

    ghost function Stream(): seq<byte>
      requires Valid()
      reads this, text
    {
      Unread() + (if Live() then input else [])
    }

    /** Everything ever on the stream: what was consumed, then what is to come. */
    ghost function Whole(): seq<byte>
      requires Valid()
      reads this, text
    {
      given + Stream()
    }

    /** Move the bytes from `c` to the write mark to the region's front. */
    method Slide(c: nat)
      requires c <= write <= text.Length
      modifies text
      ensures text[..write - c] == old(text[c..write])
    {
      for i := c to write
        invariant forall j :: 0 <= j < i - c ==> text[j] == old(text[c + j])
        invariant forall j :: i <= j < write ==> text[j] == old(text[j])
      {
        text[i - c] := text[i];
      }
    }

    /** Nothing in the region has moved. */
    twostate predicate Kept()
      reads this, text
    {
      && cursor == old(cursor) && old(write) <= write <= text.Length
      && text[..old(write)] == old(text[..write])
    }

    /** Is the region full with nothing to discard? */
    predicate Stuck()
      reads this
    {
      write >= cap && cursor == 0
    }

    /** Read the next byte of the input into the region. The end of the input latches:
        the descriptor turns to its complement and no later call reads. A full region is
        compacted first; with nothing to discard the byte just read is lost. */
    method Refill() returns (ok: bool)
      requires Valid()
      modifies text, `retain, `cursor, `write, `anchorPos, `fd, `input, `discarded
      ensures Valid()
      ensures ok <==> old(Live() && input != [] && !Stuck())
      ensures ok ==> |input| == |old(input)| - 1 && Unread() == old(Unread()) + [old(input)[0]] && Live()
      ensures !ok ==> Unread() == old(Unread()) && write == old(write)
      ensures !ok || old(write < cap) ==> cursor == old(cursor) && retain == old(retain) && anchorPos == old(anchorPos)
      ensures ok && old(write >= cap) ==> cursor == 0 == retain
      ensures !old(Live()) ==> !Live() && fd == old(fd) && input == old(input)
      ensures old(Live()) && old(input) == [] ==> !Live() && fd == -old(fd) - 1
      ensures old(Live()) && old(input) != [] ==> Live() && input == old(input)[1..]
      ensures old(!Live() || input == [] || !Stuck()) ==> Stream() == old(Stream())
      ensures !old(Live()) ==> text[..] == old(text[..]) && write == old(write)
      ensures old(!Live() || write < cap || input == []) ==> Kept()
      ensures old(Anchored()) && old(write < cap || anchorPos >= cursor) ==> Anchored()
    {
      if readOnly || !connected || fd < 0 { return false; }
      if input == [] {
        fd := -fd - 1;
        return false;
      }
      var got := input[0];
      assert Unread() + input == (Unread() + [got]) + input[1..];
      input := input[1..];
      if write >= cap {
        if cursor == 0 { return false; }
        Compact();
      }
      Append(got);
      ok := true;
    }

    /** Write one byte at the write mark. */
    method Append(got: byte)
      requires cursor <= write < text.Length
      modifies text, `write
      ensures write == old(write) + 1 && text[..write] == old(text[..write]) + [got]
      ensures text[cursor..write] == old(text[cursor..write]) + [got]
      ensures old(Anchored()) ==> Anchored()
    {
      ghost var all := text[..write];
      text[write] := got;
      assert text[..write + 1][..write] == all;
      assert anchorPos <= |all| ==> text[..write + 1][..anchorPos] == all[..anchorPos];
      write := write + 1;
    }

    /** No newline lies between the anchor and the cursor, or the anchor is not behind. */
    ghost predicate CutClean()
      requires cursor <= write <= text.Length
      reads this, text
    {
      anchorPos >= cursor || Newlines(text[..write][anchorPos..cursor]) == 0
    }

    ghost function LinesBehind(): nat
      requires cursor <= write <= text.Length
      reads this, text
    {
      Newlines(text[..write][..cursor])
    }

    /** Discard what has been read: the unread span moves to the front, the marks with
        it, and the line anchor slides left, stopping at zero. The anchor stays true
        exactly when no newline lies between it and the cut; one at or past the cut
        always does. */
    method Compact()
      requires cursor <= write <= text.Length
      modifies text, `retain, `cursor, `write, `anchorPos, `discarded
      ensures cursor == 0 == retain && write == old(write - cursor)
      ensures text[..write] == old(text[cursor..write])
      ensures anchorPos == if old(anchorPos) >= old(cursor) then old(anchorPos) - old(cursor) else 0
      ensures discarded == old(discarded + LinesBehind())
      ensures old(Anchored()) ==> (Anchored() <==> old(CutClean()))
    {
      ghost var all := text[..write];
      var c := cursor;
      CutAnchor(all, c, anchorPos, anchorLine, discarded);
      discarded := discarded + Newlines(all[..c]);
      Slide(c);
      assert text[..write - c] == all[c..];
      retain, cursor := 0, 0;
      anchorPos := if anchorPos >= c then anchorPos - c else 0;
      write := write - c;
    }

    /** Compaction between top-level forms: the stream is as it was. */
    method CompactInput()
      requires Valid()
      modifies text, `retain, `cursor, `write, `anchorPos, `discarded
      ensures Valid() && Stream() == old(Stream()) && Unread() == old(Unread())
      ensures !readOnly ==> cursor == 0
      ensures !readOnly && old(cursor) > 0 ==> retain == 0
      ensures old(Anchored()) ==> (Anchored() <==> readOnly || old(cursor) == 0 || old(CutClean()))
      ensures readOnly || old(cursor) == 0 ==>
          cursor == old(cursor) && retain == old(retain) && anchorPos == old(anchorPos)
    {
      if readOnly || cursor == 0 { return; }
      Compact();
    }

    /** The unread byte at distance `n`, read in if it is not there yet. It is the
        stream's, and the stream is kept, as long as `n` bytes fit in the region; looking a
        whole region ahead of a longer stream fails and loses the byte that did not fit. */
    method ByteAhead(n: nat) returns (r: Option<byte>)
      requires Valid()
      modifies text, `retain, `cursor, `write, `anchorPos, `fd, `input, `discarded
      ensures Valid()
      ensures old(Live()) && n >= cap ==> Stream() == Holed(old(Stream()), cap)
      ensures !(old(Live()) && n >= cap) ==> Stream() == old(Stream())
      ensures r == if n < old(|Stream()|) && !(old(Live()) && n >= cap) then Some(old(Stream())[n]) else None
      ensures r.Some? ==> n < |Unread()|
      ensures old(Live() && cursor + n >= cap) && r.Some? ==> cursor == 0
      ensures if r.Some? then Live() == old(Live()) else n < cap ==> !Live()
      ensures old(!Live() || cursor + n < cap || Stream() == []) ==> Kept()
      ensures !old(Live()) ==> !Live() && text[..] == old(text[..]) && write == old(write) && cursor == old(cursor)
    {
      ghost var s := Stream();
      while cursor + n >= write
        invariant Valid() && Stream() == s && Live() == old(Live())
        invariant !old(Live()) ==> text[..] == old(text[..]) && write == old(write) && cursor == old(cursor)
        invariant old(!Live() || cursor + n < cap || Stream() == []) ==> Kept()
        invariant cursor == old(cursor) || cursor == 0
        decreases |input|
      {
        ghost var unread, left := Unread(), input;
        var ok := Refill();
        if !ok {
          LostByte(s, unread, left);
          return None;
        }
      }
      r := Some(text[cursor + n]);
    }

    /** A byte lost leaves a hole just past the region. */
    lemma LostByte(s: seq<byte>, unread: seq<byte>, left: seq<byte>)
      ensures s == unread + left && left != [] ==> Holed(s, |unread|) == unread + left[1..]
      ensures s == unread ==> Holed(s, |unread|) == s
    {
      if s == unread + left && left != [] {
        assert s[..|unread|] == unread && s[|unread| + 1..] == left[1..];
      }
    }

    method Peek() returns (r: Option<byte>)
      requires Valid() && (Live() ==> cap >= 1)
      modifies text, `retain, `cursor, `write, `anchorPos, `fd, `input, `discarded
      ensures Valid() && Stream() == old(Stream())
      ensures r == if old(Stream()) == [] then None else Some(old(Stream())[0])
      ensures r.Some? ==> cursor < write && text[cursor] == r.value
      ensures old(!Live() || cursor < cap || Stream() == []) ==> Kept()
      ensures !old(Live()) ==> !Live() && text[..] == old(text[..]) && write == old(write) && cursor == old(cursor)
    {
      r := ByteAhead(0);
    }

    method Bump()
      requires Valid() && cursor < write
      modifies `cursor, `given
      ensures Valid() && Stream() == old(Stream())[1..] && Live() == old(Live())
      ensures given == old(given) + [old(Stream())[0]] && Whole() == old(Whole())
    {
      given := given + [text[cursor]];
      cursor := cursor + 1;
    }

    /** THE REGION REFINES A STREAM. The next byte is the stream's next, and what was
        consumed with what is to come is always the whole input, in order. */
    method NextByte() returns (r: Option<byte>)
      requires Valid() && (Live() ==> cap >= 1)
      modifies this, text
      ensures Valid() && Whole() == old(Whole())
      ensures r.None? ==> old(Stream()) == [] == Stream() && given == old(given)
      ensures r.Some? ==> old(Stream()) == [r.value] + Stream() && given == old(given) + [r.value]
      ensures r == if old(Stream()) == [] then None else Some(old(Stream())[0])
      ensures !old(Live()) ==> !Live() && text[..] == old(text[..]) && write == old(write)
    {
      r := Peek();
      if r.Some? { Bump(); }
    }

    /** Is there a newline in the unread span? */
    method SeesLine() returns (seen: bool)
      requires Valid()
      ensures seen <==> HasLine(Unread())
    {
      for i := cursor to write
        invariant forall j :: cursor <= j < i ==> text[j] != NEWLINE
      {
        if text[i] == NEWLINE {
          assert Unread()[i - cursor] == NEWLINE;
          return true;
        }
      }
      seen := false;
    }

    /** Refill until the unread span holds a newline or the stream ends. A line longer
        than the region stops the refill and loses the byte that did not fit; otherwise
        the stream is kept, and the line, or everything left, is in the region. */
    method PrefetchLine()
      requires Valid()
      modifies text, `retain, `cursor, `write, `anchorPos, `fd, `input, `discarded
      ensures Valid()
      ensures old(TooLong()) ==> Stream() == Holed(old(Stream()), cap)
      ensures old(cursor) == 0 ==> cursor == 0
      ensures !old(Live()) ==> !Live()
      ensures !old(TooLong()) ==> Stream() == old(Stream()) && (readOnly || HasLine(Unread()) || !Live())
    {
      if readOnly { return; }
      ghost var s := Stream();
      while true
        invariant Valid() && Stream() == s && TooLong() == old(TooLong())
        invariant (old(cursor) == 0 ==> cursor == 0) && Live() == old(Live())
        decreases |input|
      {
        var seen := SeesLine();
        if seen {
          UnreadFirst(s);
          return;
        }
        ghost var unread, left := Unread(), input;
        var ok := Refill();
        LostByte(s, unread, left);
        if !ok { return; }
      }
    }

    /** Does the stream's first line overrun the region? */
    ghost predicate TooLong()
      requires Valid()
      reads this, text
    {
      Live() && |Stream()| > cap && !HasLine(Stream()[..cap])
    }

    lemma UnreadFirst(s: seq<byte>)
      requires Valid() && Stream() == s && HasLine(Unread())
      ensures !TooLong()
    {
      if Live() && |s| > cap {
        var j :| 0 <= j < |Unread()| && Unread()[j] == NEWLINE;
        assert s[..cap][j] == NEWLINE;
      }
    }

    // ----- line numbers ---------------------------------------------------------------------------

    /** The anchor's line is the true line of its position. */
    ghost predicate Anchored()
      reads this, text
    {
      write <= text.Length && AnchoredIn(text[..write], anchorPos, anchorLine, discarded)
    }

    /** The line the cursor is on, from 1; the count starts at the line anchor, which then
        moves to the cursor. On a buffer never compacted it is one more than the newlines
        before the cursor, whatever moves and rewinds came between; past a compaction it is
        the true line of the whole input unless the cursor was rewound behind the anchor. */
    method Line() returns (line: nat)
      requires Valid() && Anchored()
      modifies `anchorPos, `anchorLine
      ensures line == 1 + Newlines(text[..cursor]) + (if old(anchorPos) <= cursor then discarded else 0)
      ensures Anchored() <==> old(anchorPos) <= cursor || discarded == 0
      ensures anchorPos == cursor && anchorLine == line
    {
      assert text[..write][..anchorPos] == text[..anchorPos] && text[..write][..cursor] == text[..cursor];
      var pos := anchorPos;
      line := anchorLine;
      if pos > cursor { pos, line := 0, 1; }
      ghost var start, from := line, pos;
      for i := pos to cursor
        invariant line + Newlines(text[..from]) == start + Newlines(text[..i])
      {
        assert text[..i + 1][..i] == text[..i];
        if text[i] == NEWLINE { line := line + 1; }
      }
      anchorPos, anchorLine := cursor, line;
    }

    /** Any move of the cursor, rewind or `set`, leaves the anchor true. */
    method MoveTo(at: nat)
      requires Valid() && at <= write
      modifies `cursor
      ensures Valid() && cursor == at && Unread() == text[at..write]
      ensures old(Anchored()) ==> Anchored()
    {
      cursor := at;
    }

    /** An anchor left where it is by a cut of the region's first `cursor` bytes stays true
        when that place is still written and the bytes that moved past it hold no newline. */
    ghost predicate StaysClean()
      requires cursor <= write <= text.Length
      reads this, text
    {
      anchorPos + cursor <= write && Newlines(text[..write][anchorPos..anchorPos + cursor]) == 0
    }

    /** Give up what is before the cursor; a writable buffer compacts it away. The stream
        is kept. The line anchor does not move with the bytes: it stays true on a read-only
        buffer, and otherwise exactly when the bytes that moved past it hold no newline. */
    method Retain()
      requires Valid()
      modifies text, `retain, `cursor, `write, `discarded
      ensures Valid() && Stream() == old(Stream()) && retain == cursor
      ensures readOnly ==> cursor == old(cursor) && write == old(write) && text[..] == old(text[..])
      ensures !readOnly ==> cursor == 0 && write == old(write - cursor)
      ensures discarded == old(discarded + if readOnly then 0 else LinesBehind())
      ensures old(Anchored()) ==> (Anchored() <==> readOnly || old(StaysClean()))
    {
      if readOnly {
        retain := cursor;
        return;
      }
      ghost var all := text[..write];
      KeepAnchor(all, cursor, anchorPos, anchorLine, discarded);
      discarded := discarded + LinesBehind();
      Slide(cursor);
      assert text[..write - cursor] == all[cursor..];
      retain, cursor, write := 0, 0, write - cursor;
    }
  }

  /** A REGION FULL AND WHOLLY UNREAD gives up a byte, not only the read: looking a whole
      region ahead of a longer input answers nothing, and the byte that did not fit is gone
      from the stream. */
  method FullRegionLosesByte(capacity: nat, bytes: seq<byte>) returns (b: Buffer, r: Option<byte>)
    requires |bytes| > capacity
    ensures fresh(b) && b.Valid() && r == None
    ensures b.Stream() == bytes[..capacity] + bytes[capacity + 1..] && |b.Stream()| < |bytes|
  {
    b := new Buffer(capacity, bytes);
    r := b.ByteAhead(capacity);
  }
}
