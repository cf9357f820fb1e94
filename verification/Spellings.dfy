/** The reader's alphabets and tables, letter by letter, and what written numbers are
worth, each said by the letters themselves. */
module Spellings {
  import opened Options
  import opened Bytes
  import opened Forms

  const DIGIT_ROW := "0123456789"
  const LOWER_ROW := "0123456789abcdef"
  const UPPER_ROW := "0123456789ABCDEF"
  const ALPHABET := "abcdefghijklmnopqrstuvwxyz"
  const CAPITALS := "ABCDEFGHIJKLMNOPQRSTUVWXYZ"
  /** The letters of the one-letter escapes, and the characters they stand for. */
  const ESCAPES := "\"\\ntr0"
  const ESCAPED := "\"\\\n\t\r\0"

  /** The byte is one of these characters. */
  predicate Among(c: byte, s: string) { exists i :: 0 <= i < |s| && s[i] as int == c }

  // ----- alphabets -------------------------------------------------------------------------

  lemma LowerAt(i: nat)
    requires i < 16
    ensures |LOWER_ROW| == 16 == |UPPER_ROW|
    ensures LOWER_ROW[i] as int == if i < 10 then 48 + i else 87 + i
    ensures UPPER_ROW[i] as int == if i < 10 then 48 + i else 55 + i
  {
    if i < 4 { assert i == 0 || i == 1 || i == 2 || i == 3; }
    else if i < 8 { assert i == 4 || i == 5 || i == 6 || i == 7; }
    else if i < 12 { assert i == 8 || i == 9 || i == 10 || i == 11; }
    else { assert i == 12 || i == 13 || i == 14 || i == 15; }
  }

  lemma DigitAt(i: nat)
    requires i < 10
    ensures |DIGIT_ROW| == 10 && DIGIT_ROW[i] as int == 48 + i
  {
    if i < 5 { assert i == 0 || i == 1 || i == 2 || i == 3 || i == 4; }
    else { assert i == 5 || i == 6 || i == 7 || i == 8 || i == 9; }
  }

  /** A DIGIT IS WORTH ITS PLACE IN THE ROW, lower case or upper; nothing else is a digit. */
  lemma HexDigitIs(c: byte)
    ensures forall i: nat :: i < 16 && (c == LOWER_ROW[i] as int || c == UPPER_ROW[i] as int) ==> HexDigit(c) == Some(i)
    ensures HexDigit(c).Some? ==> Among(c, LOWER_ROW) || Among(c, UPPER_ROW)
  {
    forall i: nat | i < 16 && (c == LOWER_ROW[i] as int || c == UPPER_ROW[i] as int) ensures HexDigit(c) == Some(i) {
      LowerAt(i);
    }
    if HexDigit(c).Some? {
      var i: nat := HexDigit(c).value;
      LowerAt(i);
      assert LOWER_ROW[i] as int == c || UPPER_ROW[i] as int == c;
    }
  }

  lemma IsDigitIs(c: byte)
    ensures IsDigit(c) <==> Among(c, DIGIT_ROW)
  {
    if IsDigit(c) {
      DigitAt(c - 48);
      assert DIGIT_ROW[c - 48] as int == c;
    }
    forall i: nat | i < 10 ensures IsDigit(DIGIT_ROW[i] as int) { DigitAt(i); }
  }

  /** Blanks: the NUL and ASCII white space, the form feed (12) among it. */
  lemma IsBlankIs(c: byte)
    ensures IsBlank(c) <==> c == 12 || Among(c, "\0\t\n\r ")
  {
    var s := "\0\t\n\r ";
    assert s[0] as int == 0 && s[1] as int == 9 && s[2] as int == 10 && s[3] as int == 13 && s[4] as int == 32;
  }

  lemma IsDelimIs(c: byte)
    ensures IsDelim(c) <==> IsBlank(c) || Among(c, "();")
  {
    var s := "();";
    assert s[0] as int == 40 && s[1] as int == 41 && s[2] as int == 59;
  }

  lemma LetterAt(i: nat)
    requires i < 26
    ensures |ALPHABET| == 26 == |CAPITALS| && ALPHABET[i] as int == 97 + i && CAPITALS[i] as int == 65 + i
  {
    if i < 7 { assert i == 0 || i == 1 || i == 2 || i == 3 || i == 4 || i == 5 || i == 6; }
    else if i < 14 { assert i == 7 || i == 8 || i == 9 || i == 10 || i == 11 || i == 12 || i == 13; }
    else if i < 20 { assert i == 14 || i == 15 || i == 16 || i == 17 || i == 18 || i == 19; }
    else { assert i == 20 || i == 21 || i == 22 || i == 23 || i == 24 || i == 25; }
  }

  lemma InRow(c: byte, row: string, from: nat)
    requires |row| == 26 && forall i :: 0 <= i < 26 ==> row[i] as int == from + i
    ensures from <= c < from + 26 <==> Among(c, row)
  {
    if from <= c < from + 26 { assert row[c - from] as int == c; }
  }

  lemma IsLetterIs(c: byte)
    ensures IsLetter(c) <==> Among(c, ALPHABET) || Among(c, CAPITALS)
  {
    forall i | 0 <= i < 26 ensures ALPHABET[i] as int == 97 + i && CAPITALS[i] as int == 65 + i { LetterAt(i); }
    InRow(c, ALPHABET, 97);
    InRow(c, CAPITALS, 65);
  }

  /** The reader's marks. */
  lemma MarksAre()
    ensures [OPEN, CLOSE, QUOTE, SEMI, HASH, BSLASH, DOT, PLUS, MINUS, LETTER_X, NEWLINE] == Ascii("()\";#\\.+-x\n")
  {
    Spelled("()\";#\\.+-x\n", [OPEN, CLOSE, QUOTE, SEMI, HASH, BSLASH, DOT, PLUS, MINUS, LETTER_X, NEWLINE]);
  }

  /** EACH ONE-LETTER ESCAPE STANDS FOR ITS CHARACTER, and no other letter is one. */
  lemma EscapeIs(c: byte)
    ensures forall i: nat :: i < 6 && c == ESCAPES[i] as int ==> Escape(c) == Some(ESCAPED[i] as int)
    ensures Escape(c).Some? ==> Among(c, ESCAPES)
  {
    var s := ESCAPES;
    assert s[0] as int == 34 && s[1] as int == 92 && s[2] as int == 110 && s[3] as int == 116 && s[4] as int == 114;
    assert s[5] as int == 48;
    forall i: nat | i < 6 && c == ESCAPES[i] as int ensures Escape(c) == Some(ESCAPED[i] as int) {
      assert i == 0 || i == 1 || i == 2 || i == 3 || i == 4 || i == 5;
    }
  }

  // ----- hex -------------------------------------------------------------------------------

  /** The digit worth `d`, in lower case or upper. */
  function HexLetter(d: nat, upper: bool): byte
    requires d < 16
  {
    LowerAt(d);
    if upper then UPPER_ROW[d] as int else LOWER_ROW[d] as int
  }

  /** A number in base 16, no leading zero. */
  function HexText(n: nat, upper: bool): (r: seq<byte>)
    ensures r != []
  {
    if n < 16 then [HexLetter(n, upper)] else HexText(n / 16, upper) + [HexLetter(n % 16, upper)]
  }

  lemma HexLetterIs(d: nat, upper: bool)
    requires d < 16
    ensures HexDigit(HexLetter(d, upper)) == Some(d)
  {
    HexDigitIs(HexLetter(d, upper));
  }

  /** A BYTE WRITTEN BY ITS TWO HEX DIGITS reads back as that byte in a string. */
  lemma HexEscapeReads(n: byte, upper: bool, upper': bool, rest: seq<byte>)
    ensures ReadString([BSLASH, LETTER_X, HexLetter(n / 16, upper), HexLetter(n % 16, upper')] + rest)
            == ([n] + ReadString(rest).0, ReadString(rest).1)
  {
    HexLetterIs(n / 16, upper);
    HexLetterIs(n % 16, upper');
    var h, l := HexLetter(n / 16, upper), HexLetter(n % 16, upper');
    assert HexPair([h, l]) == Some(n);
    GlyphRead(Hex(h, l), rest);
  }

  // ----- decimal ---------------------------------------------------------------------------

  datatype Mark = Bare | Plus | Minus

  function MarkText(k: Mark): seq<byte> {
    match k
    case Bare => []
    case Plus => [PLUS]
    case Minus => [MINUS]
  }

  function Zeros(z: nat): seq<byte> { seq(z, _ => 48) }

  /** A number with a sign or none and any leading zeros. */
  function NumberText(k: Mark, z: nat, n: nat): seq<byte> { MarkText(k) + (Zeros(z) + Decimal(n)) }

  function Signed64(k: Mark, n: int): int { if k.Minus? then -n else n }

  lemma {:induction false} ZerosCount(z: nat, s: seq<byte>)
    requires AllDigits(s)
    ensures AllDigits(Zeros(z) + s) && Digits(Zeros(z) + s) == Digits(s)
    decreases |s|
  {
    var t := Zeros(z) + s;
    if s == [] {
      assert t == Zeros(z);
      OnlyZeros(z);
    } else {
      assert t[..|t| - 1] == Zeros(z) + s[..|s| - 1];
      ZerosCount(z, s[..|s| - 1]);
    }
  }

  lemma {:induction false} OnlyZeros(z: nat)
    ensures Digits(Zeros(z)) == 0
    decreases z
  {
    if z > 0 {
      assert Zeros(z)[..z - 1] == Zeros(z - 1);
      OnlyZeros(z - 1);
    }
  }

  /** EVERY WRITTEN INTEGER IS WORTH WHAT IT SAYS, and is an integer exactly when that fits in
      64 bits. */
  lemma NumberReads(k: Mark, z: nat, n: nat)
    ensures var v := Signed64(k, n);
            ParseInt(NumberText(k, z, n))
            == if -0x8000_0000_0000_0000 <= v < 0x8000_0000_0000_0000 then Some(v) else None
  {
    var body, s := Zeros(z) + Decimal(n), NumberText(k, z, n);
    DecimalSpells(n);
    ZerosCount(z, Decimal(n));
    assert body != [] && IsDigit(body[0]);
    if k.Bare? { assert s == body; } else { assert s[1..] == body; }
  }

  /** And nothing else is an integer. */
  lemma NumberWritten(s: seq<byte>) returns (k: Mark, z: nat, n: nat)
    requires ParseInt(s).Some?
    ensures s == NumberText(k, z, n)
  {
    k := if !Signed(s) then Bare else if s[0] == MINUS then Minus else Plus;
    var body := if Signed(s) then s[1..] else s;
    z, n := DigitsWritten(body);
    assert s == MarkText(k) + body;
  }

  lemma {:induction false} DigitsWritten(s: seq<byte>) returns (z: nat, n: nat)
    requires s != [] && AllDigits(s)
    ensures s == Zeros(z) + Decimal(n)
    decreases |s|
  {
    var k := |s| - 1;
    var d: nat := s[k] - 48;
    if k == 0 {
      z, n := 0, d;
    } else {
      var z0, n0 := DigitsWritten(s[..k]);
      if n0 == 0 {
        z, n := z0 + 1, d;
      } else {
        z, n := z0, 10 * n0 + d;
        assert Decimal(n) == Decimal(n0) + [s[k]];
      }
    }
  }

  // ----- text that is not well formed ------------------------------------------------------

  /** An unknown character name gives its first letter and leaves the rest. */
  lemma UnknownNameReads(name: seq<byte>, after: seq<byte>)
    requires |name| > 1 && (forall i :: 0 <= i < |name| ==> IsLetter(name[i])) && (after != [] ==> !IsLetter(after[0]))
    requires forall i: nat :: i < NAMED ==> name != Ascii(CharName(i).0)
    ensures ReadChar(name + after) == (Char(name[0]), name[1..] + after)
  {
    LettersTaken(name, after);
    assert (name + after)[..|name|] == name && (name + after)[1..] == name[1..] + after;
    if NamedChar(name).Some? {
      var i := NamedIsListed(name);
    }
  }

  /** A closing parenthesis that closes nothing reads as nil. */
  lemma StrayCloseReads(after: seq<byte>)
    ensures ReadForm([CLOSE] + after) == (Some(Nil), after)
  {
    var s := [CLOSE] + after;
    assert SkipBlanks(s) == s && s[1..] == after;
  }

  /** A string that never closes ends with the input, a last backslash dropped. */
  lemma {:induction false} UnclosedStringReads(gs: seq<Glyph>, cut: bool)
    requires GlyphsOk(gs)
    ensures ReadString(GlyphsText(gs) + if cut then [BSLASH] else []) == (GlyphsBytes(gs), [])
    decreases |gs|
  {
    var end := if cut then [BSLASH] else [];
    if gs == [] {
      assert GlyphsText(gs) + end == end;
    } else {
      var rest := GlyphsText(gs[1..]) + end;
      UnclosedStringReads(gs[1..], cut);
      GlyphRead(gs[0], rest);
      assert GlyphsText(gs) + end == GlyphText(gs[0]) + rest;
    }
  }

  /** Are the documents a list's items, with no dot that stands alone? */
  predicate Undotted(docs: seq<(seq<byte>, Doc)>, last: seq<byte>) {
    docs != [] ==> !DotSeparates(Text(docs[0].1) + SourceText(docs[1..], last)) && Undotted(docs[1..], last)
  }

  function ListOf(fs: seq<Form>): Form { if fs == [] then Nil else Cons(fs[0], ListOf(fs[1..])) }

  /** A list that never closes ends with the input, its items kept. */
  lemma {:induction false} UnclosedListReads(docs: seq<(seq<byte>, Doc)>, last: seq<byte>)
    requires SourceOk(docs, last) && Undotted(docs, last)
    ensures ReadList(SourceText(docs, last)) == (ListOf(Trees(docs)), [])
    decreases |docs|
  {
    var s := SourceText(docs, last);
    ListOpens(s);
    if docs == [] {
      GapSkipped(last, []);
      assert last + [] == last;
    } else {
      var d, rest := docs[0].1, SourceText(docs[1..], last);
      GapThenDoc(docs[0].0, d, rest);
      TextStarts(d, rest);
      DocReads(d, rest);
      ListGoesOn(Text(d) + rest);
      UnclosedListReads(docs[1..], last);
      assert Trees(docs)[1..] == Trees(docs[1..]);
    }
  }
}
