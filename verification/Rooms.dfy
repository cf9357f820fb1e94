/** How much of a refilling region is left as a form is read.

The room is what lies between the cursor and the region's end. Looking at a byte that is
past the end discards what has been read and gives the whole region back, which harms only
a run of bytes that is copied out afterwards: an atom, a character's name or a multi-byte
character. A `None` room says that such a run lay across the end. */
module Rooms {
  import opened Options
  import opened Bytes
  import F = Forms

  /** The room once the byte at distance `n` of `len` has been looked at. */
  function Seen(room: int, n: nat, len: nat, cap: int): int { if room <= n < len then cap else room }

  /** The room once a byte has been looked at and taken. */
  function Past(room: int, len: nat, cap: int): int { Seen(room, 0, len, cap) - 1 }

  /** Is a run of `n` bytes, looked at to its end, still in the region? It is unless it
      comes to the region's end and more of the input follows there. */
  predicate Whole(room: int, n: nat, len: nat) { n < room || len <= room }

  function LineRoom(s: seq<byte>, room: int, cap: int): int {
    if s == [] then room
    else if s[0] == NEWLINE then Past(room, |s|, cap)
    else LineRoom(s[1..], Past(room, |s|, cap), cap)
  }

  /** After blanks and comments, the byte behind them looked at. */
  function GapRoom(s: seq<byte>, room: int, cap: int): int
    decreases |s|
  {
    if s == [] then room
    else if F.IsBlank(s[0]) then GapRoom(s[1..], Past(room, |s|, cap), cap)
    else if s[0] == F.SEMI then GapRoom(F.AfterLine(s[1..]), LineRoom(s[1..], Past(room, |s|, cap), cap), cap)
    else Seen(room, 0, |s|, cap)
  }

  /** After a string literal, its opening quote already read. */
  function StringRoom(s: seq<byte>, room: int, cap: int): int {
    if s == [] then room
    else
      var r := Past(room, |s|, cap);
      if s[0] == F.QUOTE then r
      else if s[0] != F.BSLASH then StringRoom(s[1..], r, cap)
      else if |s| == 1 then r
      else
        var r2 := Past(r, |s| - 1, cap);
        if s[1] != F.LETTER_X then StringRoom(s[2..], r2, cap)
        else
          var r3 := HexRoom(s[2..], r2, cap);
          StringRoom(if F.HexPair(s[2..]).Some? then s[4..] else s[2..], r3, cap)
  }

  /** After an `x` escape: two digits are looked for, and taken if they are there. */
  function HexRoom(s: seq<byte>, room: int, cap: int): int {
    var r := Seen(Seen(room, 0, |s|, cap), 1, |s|, cap);
    if F.HexPair(s).Some? then r - 2 else r
  }

  /** After an atom whose first byte has been looked at. */
  function AtomRoom(s: seq<byte>, room: int): Option<int>
    requires s != []
  {
    if Whole(room, F.AtomLen(s), |s|) then Some(room - (|s| - |F.ReadAtom(s).1|)) else None
  }

  /** After a character literal, its `#\` already read. */
  function CharRoom(s: seq<byte>, room: int, cap: int): Option<int> {
    if s == [] then Some(room)
    else
      var r := Seen(room, 0, |s|, cap);
      var n := if s[0] >= 128 then 1 + F.ContinuationLen(s[1..]) else F.LetterLen(s);
      if Whole(r, n, |s|) then Some(r - (|s| - |F.ReadChar(s).1|)) else None
  }

  /** After a character literal, or an atom that begins with a hash. */
  function HashRoom(t: seq<byte>, room: int, cap: int): Option<int>
    requires t != []
  {
    if |t| > 1 && t[1] == F.BSLASH then CharRoom(t[2..], room - 2, cap) else AtomRoom(t, room)
  }

  /** After a form. */
  function FormRoom(s: seq<byte>, room: int, cap: int): Option<int>
    decreases |s|, 0
  {
    var t := F.SkipBlanks(s);
    var r := GapRoom(s, room, cap);
    if t == [] then Some(r)
    else if t[0] == F.OPEN then ListRoom(t[1..], r - 1, cap)
    else if t[0] == F.CLOSE then Some(r - 1)
    else if t[0] == F.QUOTE then Some(StringRoom(t[1..], r - 1, cap))
    else if t[0] == F.HASH then HashRoom(t, Seen(r, 1, |t|, cap), cap)
    else AtomRoom(t, r)
  }

  /** After the rest of a list, its open parenthesis already read. */
  function ListRoom(s: seq<byte>, room: int, cap: int): Option<int>
    decreases |s|, 1
  {
    var t := F.SkipBlanks(s);
    var r := GapRoom(s, room, cap);
    if t == [] then Some(r)
    else if t[0] == F.CLOSE then Some(r - 1)
    else
      var r2 := if t[0] == F.DOT then Seen(r, 1, |t|, cap) else r;
      if F.DotSeparates(t) then TailRoom(t[1..], r2 - 1, cap)
      else
        var r3 := FormRoom(t, r2, cap);
        if r3.None? || F.ReadForm(t).0.None? then r3 else ListRoom(F.ReadForm(t).1, r3.value, cap)
  }

  /** After a list's tail, the dot already read, and the closing parenthesis. */
  function TailRoom(s: seq<byte>, room: int, cap: int): Option<int>
    decreases |s|, 1
  {
    var u := F.SkipBlanks(s);
    var r := FormRoom(u, GapRoom(s, room, cap), cap);
    if r.None? then None else Some(CloseRoom(F.ReadForm(u).1, r.value, cap))
  }

  /** After blanks and a closing parenthesis, if one is there. */
  function CloseRoom(s: seq<byte>, room: int, cap: int): int {
    var w := F.SkipBlanks(s);
    var r := GapRoom(s, room, cap);
    if w != [] && w[0] == F.CLOSE then r - 1 else r
  }

  /** Blanks before a form or a list go for nothing once they are skipped. */
  lemma {:induction false} GapGoes(s: seq<byte>, room: int, cap: int)
    requires cap > 0
    ensures var t, r := F.SkipBlanks(s), GapRoom(s, room, cap);
            F.SkipBlanks(t) == t && GapRoom(t, r, cap) == r && (t != [] ==> r > 0)
    decreases |s|
  {
    if s != [] && F.IsBlank(s[0]) {
      GapGoes(s[1..], Past(room, |s|, cap), cap);
    } else if s != [] && s[0] == F.SEMI {
      GapGoes(F.AfterLine(s[1..]), LineRoom(s[1..], Past(room, |s|, cap), cap), cap);
    }
  }

  /** So a form leaves what it leaves without them. */
  lemma FormOpens(s: seq<byte>, room: int, cap: int)
    requires cap > 0
    ensures var t, r := F.SkipBlanks(s), GapRoom(s, room, cap);
            GapRoom(t, r, cap) == r && FormRoom(s, room, cap) == FormRoom(t, r, cap)
  {
    GapGoes(s, room, cap);
  }

  lemma ListOpens(s: seq<byte>, room: int, cap: int)
    requires cap > 0
    ensures var t, r := F.SkipBlanks(s), GapRoom(s, room, cap);
            GapRoom(t, r, cap) == r && ListRoom(s, room, cap) == ListRoom(t, r, cap)
  {
    GapGoes(s, room, cap);
  }

  /** A list with another item leaves what the rest of the list does after the item. */
  lemma ListGoesOn(t: seq<byte>, room: int, cap: int)
    requires t != [] && F.SkipBlanks(t) == t && GapRoom(t, room, cap) == room && t[0] != F.CLOSE && !F.DotSeparates(t)
    ensures var r := if t[0] == F.DOT then Seen(room, 1, |t|, cap) else room;
            var f := FormRoom(t, r, cap);
            && |F.ReadForm(t).1| < |t|
            && ListRoom(t, room, cap) == if f.Some? then ListRoom(F.ReadForm(t).1, f.value, cap) else None
  {
    F.ListGoesOn(t);
  }

  lemma ListAtDot(t: seq<byte>, room: int, cap: int)
    requires F.DotSeparates(t) && GapRoom(t, room, cap) == room
    ensures ListRoom(t, room, cap) == TailRoom(t[1..], Seen(room, 1, |t|, cap) - 1, cap)
  {
    assert F.SkipBlanks(t) == t;
  }

  /** What a form that starts right away leaves. */
  lemma FormStarts(t: seq<byte>, room: int, cap: int)
    requires t != [] && F.SkipBlanks(t) == t && GapRoom(t, room, cap) == room
    ensures t[0] == F.OPEN ==> FormRoom(t, room, cap) == ListRoom(t[1..], room - 1, cap)
    ensures t[0] == F.CLOSE ==> FormRoom(t, room, cap) == Some(room - 1)
    ensures t[0] == F.QUOTE ==> FormRoom(t, room, cap) == Some(StringRoom(t[1..], room - 1, cap))
    ensures t[0] == F.HASH ==> FormRoom(t, room, cap) == HashRoom(t, Seen(room, 1, |t|, cap), cap)
    ensures t[0] !in {F.OPEN, F.CLOSE, F.QUOTE, F.HASH} ==> FormRoom(t, room, cap) == AtomRoom(t, room)
  {}

  // ----- forms shorter than the room -------------------------------------------------------------

  lemma {:induction false} ShortLine(s: seq<byte>, room: int, cap: int)
    requires |s| - |F.AfterLine(s)| <= room
    ensures LineRoom(s, room, cap) == room - (|s| - |F.AfterLine(s)|)
  {
    if s != [] && s[0] != NEWLINE { ShortLine(s[1..], room - 1, cap); }
  }

  lemma {:induction false} ShortGap(s: seq<byte>, room: int, cap: int)
    requires |s| - |F.SkipBlanks(s)| < room
    ensures GapRoom(s, room, cap) == room - (|s| - |F.SkipBlanks(s)|)
    decreases |s|
  {
    if s != [] && F.IsBlank(s[0]) {
      ShortGap(s[1..], room - 1, cap);
    } else if s != [] && s[0] == F.SEMI {
      var line := s[1..];
      assert |F.SkipBlanks(F.AfterLine(line))| <= |F.AfterLine(line)| <= |line|;
      ShortLine(line, room - 1, cap);
      ShortGap(F.AfterLine(line), room - 1 - (|line| - |F.AfterLine(line)|), cap);
    }
  }

  lemma {:induction false} ShortString(s: seq<byte>, room: int, cap: int)
    requires |s| - |F.ReadString(s).1| < room
    ensures StringRoom(s, room, cap) == room - (|s| - |F.ReadString(s).1|)
  {
    if s == [] || s[0] == F.QUOTE {
    } else if s[0] != F.BSLASH {
      ShortString(s[1..], room - 1, cap);
    } else if |s| > 1 {
      if s[1] == F.LETTER_X && F.HexPair(s[2..]).Some? {
        assert F.Escape(s[1]).None?;
        ShortString(s[4..], room - 4, cap);
      } else {
        ShortString(s[2..], room - 2, cap);
      }
    }
  }

  /** How far is looked to read up to `after`: letters there may go on a character's name. */
  function Reach(s: seq<byte>, after: seq<byte>): int { |s| - |after| + F.LetterLen(after) }

  /** A FORM SHORTER THAN THE ROOM FITS IT, and leaves the room less its bytes. */
  lemma {:induction false} ShortForm(s: seq<byte>, room: int, cap: int)
    requires cap > 0 && Reach(s, F.ReadForm(s).1) < room
    ensures FormRoom(s, room, cap) == Some(room - (|s| - |F.ReadForm(s).1|))
    decreases |s|, 1
  {
    var t := F.SkipBlanks(s);
    ShortGap(s, room, cap);
    FormOpens(s, room, cap);
    F.FormOpens(s);
    if t != [] { ShortFrom(t, room - (|s| - |t|), cap); }
  }

  lemma {:induction false} ShortFrom(t: seq<byte>, room: int, cap: int)
    requires t != [] && F.SkipBlanks(t) == t && GapRoom(t, room, cap) == room
    requires cap > 0 && Reach(t, F.ReadForm(t).1) < room
    ensures FormRoom(t, room, cap) == Some(room - (|t| - |F.ReadForm(t).1|))
    decreases |t|, 0
  {
    FormStarts(t, room, cap);
    F.FormStarts(t);
    if t[0] == F.OPEN {
      ShortList(t[1..], room - 1, cap);
    } else if t[0] == F.QUOTE {
      ShortString(t[1..], room - 1, cap);
    } else if t[0] == F.HASH && |t| > 1 && t[1] == F.BSLASH {
      ShortChar(t[2..], room - 2, cap);
    }
  }

  lemma ShortChar(s: seq<byte>, room: int, cap: int)
    requires Reach(s, F.ReadChar(s).1) < room
    ensures CharRoom(s, room, cap) == Some(room - (|s| - |F.ReadChar(s).1|))
  {}

  lemma {:induction false} ShortList(s: seq<byte>, room: int, cap: int)
    requires cap > 0 && Reach(s, F.ReadList(s).1) < room
    ensures ListRoom(s, room, cap) == Some(room - (|s| - |F.ReadList(s).1|))
    decreases |s|, 4
  {
    var t := F.SkipBlanks(s);
    ShortGap(s, room, cap);
    ListOpens(s, room, cap);
    F.ListOpens(s);
    if t != [] && t[0] != F.CLOSE { ShortItems(t, room - (|s| - |t|), cap); }
  }

  lemma {:induction false} ShortItems(t: seq<byte>, room: int, cap: int)
    requires t != [] && F.SkipBlanks(t) == t && GapRoom(t, room, cap) == room && t[0] != F.CLOSE
    requires cap > 0 && Reach(t, F.ReadList(t).1) < room
    ensures ListRoom(t, room, cap) == Some(room - (|t| - |F.ReadList(t).1|))
    decreases |t|, 3
  {
    if F.DotSeparates(t) {
      F.ListAtDot(t);
      ListAtDot(t, room, cap);
      ShortTail(t[1..], room - 1, cap);
    } else {
      F.ListGoesOn(t);
      ListGoesOn(t, room, cap);
      ShortItem(t, F.ReadForm(t), F.ReadList(F.ReadForm(t).1).1, room, cap);
    }
  }

  lemma {:induction false} ShortItem(t: seq<byte>, f: (Option<F.Form>, seq<byte>), after: seq<byte>, room: int,
                                     cap: int)
    requires f == F.ReadForm(t) && |f.1| < |t| && after == F.ReadList(f.1).1
    requires cap > 0 && Reach(t, after) < room
    ensures Seen(room, 1, |t|, cap) == room && FormRoom(t, room, cap) == Some(room - (|t| - |f.1|))
    ensures ListRoom(f.1, room - (|t| - |f.1|), cap) == Some(room - (|t| - |after|))
    decreases |t|, 2
  {
    ListTakesLetters(f.1);
    ShortForm(t, room, cap);
    ShortList(f.1, room - (|t| - |f.1|), cap);
  }

  lemma {:induction false} LettersAreAtom(s: seq<byte>)
    ensures F.LetterLen(s) <= F.AtomLen(s)
  {
    if s != [] { LettersAreAtom(s[1..]); }
  }

  /** Letters where an item may start are taken as part of one. */
  lemma ListTakesLetters(s: seq<byte>)
    ensures |F.ReadList(s).1| + F.LetterLen(s) <= |s|
  {
    if s != [] && F.IsLetter(s[0]) {
      LettersAreAtom(s);
      F.ListGoesOn(s);
      F.FormStarts(s);
    }
  }

  lemma {:induction false} ShortTail(s: seq<byte>, room: int, cap: int)
    requires cap > 0 && Reach(s, F.ReadTail(s).1) < room
    ensures TailRoom(s, room, cap) == Some(room - (|s| - |F.ReadTail(s).1|))
    decreases |s|, 2
  {
    var u := F.SkipBlanks(s);
    var f := F.ReadForm(u);
    ShortGap(s, room, cap);
    assert F.LetterLen(f.1) > 0 ==> F.SkipClose(f.1) == f.1;
    ShortForm(u, room - (|s| - |u|), cap);
    ShortGap(f.1, room - (|s| - |f.1|), cap);
  }
}
