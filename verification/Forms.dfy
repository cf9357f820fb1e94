/** What the built-in reader reads, as functions of the bytes still to come, and the
round trip: any layout of a document reads back as its tree, stopping right after. */
module Forms {
  import opened Options
  import opened Bytes

  datatype Form =
    | Nil | Int(value: int) | Sym(name: seq<byte>) | Str(bytes: seq<byte>) | Char(code: nat)
    | Cons(first: Form, rest: Form)

  const OPEN: byte := 40
  const CLOSE: byte := 41
  const QUOTE: byte := 34
  const SEMI: byte := 59
  const HASH: byte := 35
  const BSLASH: byte := 92
  const DOT: byte := 46
  const PLUS: byte := 43
  const MINUS: byte := 45
  const LETTER_X: byte := 120
  const MIN64 := -0x8000_0000_0000_0000
  const MAX64 := 0x7FFF_FFFF_FFFF_FFFF

  predicate IsBlank(c: byte) { c == 0 || c == 9 || c == 10 || c == 12 || c == 13 || c == 32 }

  predicate IsDelim(c: byte) { IsBlank(c) || c == OPEN || c == CLOSE || c == SEMI }

  predicate IsDigit(c: byte) { 48 <= c <= 57 }

  predicate IsLetter(c: byte) { 65 <= c <= 90 || 97 <= c <= 122 }

  function HexDigit(c: byte): (r: Option<byte>)
    ensures r.Some? ==> r.value < 16
  {
    if IsDigit(c) then Some(c - 48)
    else if 97 <= c <= 102 then Some(c - 87)
    else if 65 <= c <= 70 then Some(c - 55)
    else None
  }

  // ----- blanks and comments -----------------------------------------------------------------

  /** What follows the first newline. */
  function AfterLine(s: seq<byte>): (r: seq<byte>)
    ensures |r| <= |s|
  {
    if s == [] then [] else if s[0] == NEWLINE then s[1..] else AfterLine(s[1..])
  }

  function SkipBlanks(s: seq<byte>): (r: seq<byte>)
    ensures |r| <= |s|
    ensures r != [] ==> !IsBlank(r[0]) && r[0] != SEMI
    decreases |s|
  {
    if s == [] then []
    else if IsBlank(s[0]) then SkipBlanks(s[1..])
    else if s[0] == SEMI then SkipBlanks(AfterLine(s[1..]))
    else s
  }

  // ----- atoms -------------------------------------------------------------------------------

  /** How many bytes the atom at the front takes. */
  function AtomLen(s: seq<byte>): (n: nat)
    ensures n <= |s|
  {
    if s == [] || IsDelim(s[0]) then 0 else 1 + AtomLen(s[1..])
  }

  predicate AllDigits(s: seq<byte>) { forall i :: 0 <= i < |s| ==> IsDigit(s[i]) }

  /** The number a run of digits spells. */
  function Digits(s: seq<byte>): int { if s == [] then 0 else 10 * Digits(s[..|s| - 1]) + (s[|s| - 1] as int - 48) }

  predicate Signed(s: seq<byte>) { s != [] && (s[0] == PLUS || s[0] == MINUS) }

  /** An optional sign and at least one digit, within 64 bits; anything else is no
      integer, a lone sign included. */
  function ParseInt(s: seq<byte>): Option<int> {
    var body := if Signed(s) then s[1..] else s;
    if body == [] || !AllDigits(body) then None
    else
      var v := if Signed(s) && s[0] == MINUS then -Digits(body) else Digits(body);
      if MIN64 <= v <= MAX64 then Some(v) else None
  }

  /** What an atom's text reads as. */
  function Atom(name: seq<byte>): Form {
    match ParseInt(name)
    case Some(v) => Int(v)
    case None => Sym(name)
  }

  function ReadAtom(s: seq<byte>): (Form, seq<byte>)
    requires s != []
  {
    var n := AtomLen(s);
    if n == 0 then (Nil, s[1..]) else (Atom(s[..n]), s[n..])
  }

  // ----- strings -----------------------------------------------------------------------------

  /** What a one-letter escape stands for. */
  function Escape(c: byte): Option<byte> {
    if c == QUOTE || c == BSLASH then Some(c)
    else if c == 110 then Some(10)
    else if c == 116 then Some(9)
    else if c == 114 then Some(13)
    else if c == 48 then Some(0)
    else None
  }

  /** A string's bytes, the opening quote already read. An unknown escape keeps both its
      bytes; a string that never closes ends with the input. */
  function ReadString(s: seq<byte>): (r: (seq<byte>, seq<byte>))
    ensures |r.1| <= |s|
  {
    if s == [] then ([], [])
    else if s[0] == QUOTE then ([], s[1..])
    else if s[0] != BSLASH then
      var r := ReadString(s[1..]);
      ([s[0]] + r.0, r.1)
    else if |s| == 1 then ([], [])
    else if Escape(s[1]).Some? then
      var r := ReadString(s[2..]);
      ([Escape(s[1]).value] + r.0, r.1)
    else if s[1] == LETTER_X && HexPair(s[2..]).Some? then
      var r := ReadString(s[4..]);
      ([HexPair(s[2..]).value] + r.0, r.1)
    else
      var r := ReadString(s[2..]);
      ([BSLASH, s[1]] + r.0, r.1)
  }

  /** Two hex digits at the front, as a byte. */
  function HexPair(s: seq<byte>): Option<byte> {
    if |s| >= 2 && HexDigit(s[0]).Some? && HexDigit(s[1]).Some?
    then Some(HexDigit(s[0]).value * 16 + HexDigit(s[1]).value)
    else None
  }

  // ----- characters --------------------------------------------------------------------------

  function LetterLen(s: seq<byte>): (n: nat)
    ensures n <= |s|
  {
    if s == [] || !IsLetter(s[0]) then 0 else 1 + LetterLen(s[1..])
  }

  predicate IsContinuation(c: byte) { 128 <= c < 192 }

  function ContinuationLen(s: seq<byte>): (n: nat)
    ensures n <= |s|
  {
    if s == [] || !IsContinuation(s[0]) then 0 else 1 + ContinuationLen(s[1..])
  }

  function Low6(c: byte): nat { c % 64 }

  /** The first code point of a lead byte and the continuation bytes after it, or the
      replacement character when they are not one encoding. */
  function FirstCode(s: seq<byte>): nat
    requires s != []
  {
    var c: nat := s[0];
    if 0xC2 <= c <= 0xDF && |s| >= 2 then (c - 0xC0) * 64 + Low6(s[1])
    else if 0xE0 <= c <= 0xEF && |s| >= 3 && (c == 0xE0 ==> s[1] >= 0xA0) && (c == 0xED ==> s[1] <= 0x9F) then
      (c - 0xE0) * 4096 + Low6(s[1]) * 64 + Low6(s[2])
    else if 0xF0 <= c <= 0xF4 && |s| >= 4 && (c == 0xF0 ==> s[1] >= 0x90) && (c == 0xF4 ==> s[1] <= 0x8F) then
      (c - 0xF0) * 262144 + Low6(s[1]) * 4096 + Low6(s[2]) * 64 + Low6(s[3])
    else 0xFFFD
  }

  /** The names a character literal may carry. */
  function NamedChar(name: seq<byte>): Option<nat> {
    if name == [97, 108, 97, 114, 109] then Some(7)
    else if name == [98, 97, 99, 107, 115, 112, 97, 99, 101] then Some(8)
    else if name == [100, 101, 108, 101, 116, 101] then Some(127)
    else if name == [101, 115, 99, 97, 112, 101] then Some(27)
    else if name == [110, 101, 119, 108, 105, 110, 101] then Some(10)
    else if name == [110, 117, 108, 108] then Some(0)
    else if name == [114, 101, 116, 117, 114, 110] then Some(13)
    else if name == [115, 112, 97, 99, 101] then Some(32)
    else if name == [116, 97, 98] then Some(9)
    else None
  }

  /** A character literal, its `#\` already read: a multi-byte character whole, any other
      byte that is no letter by itself, a letter alone, or a name. An unknown name gives
      its first letter and leaves the rest. */
  function ReadChar(s: seq<byte>): (r: (Form, seq<byte>))
    ensures |r.1| <= |s|
  {
    if s == [] then (Nil, [])
    else if s[0] >= 128 then
      var n := 1 + ContinuationLen(s[1..]);
      (Char(FirstCode(s[..n])), s[n..])
    else
      var n := LetterLen(s);
      if n <= 1 then (Char(s[0]), s[1..])
      else
        match NamedChar(s[..n])
        case Some(code) => (Char(code), s[n..])
        case None => (Char(s[0]), s[1..])
  }

  // ----- forms and lists -----------------------------------------------------------------------

  /** One form and what follows it; none when only blanks and comments are left. It always
      gets further along. */
  function ReadForm(s: seq<byte>): (r: (Option<Form>, seq<byte>))
    ensures r.0.None? <==> SkipBlanks(s) == []
    ensures r.0.Some? ==> |r.1| < |s|
    ensures r.0.None? ==> r.1 == []
    decreases |s|, 0
  {
    var t := SkipBlanks(s);
    if t == [] then (None, [])
    else if t[0] == OPEN then
      var r := ReadList(t[1..]);
      (Some(r.0), r.1)
    else if t[0] == CLOSE then (Some(Nil), t[1..])
    else if t[0] == QUOTE then
      var r := ReadString(t[1..]);
      (Some(Str(r.0)), r.1)
    else if t[0] == HASH && |t| > 1 && t[1] == BSLASH then
      var r := ReadChar(t[2..]);
      (Some(r.0), r.1)
    else
      var r := ReadAtom(t);
      (Some(r.0), r.1)
  }

  /** Does the dot in front stand alone, so that a tail follows it? */
  predicate DotSeparates(t: seq<byte>) {
    t != [] && t[0] == DOT && (|t| == 1 || IsBlank(t[1]) || t[1] == OPEN || t[1] == CLOSE)
  }

  /** The rest of a list, its open parenthesis already read. */
  function ReadList(s: seq<byte>): (r: (Form, seq<byte>))
    ensures |r.1| <= |s|
    decreases |s|, 1
  {
    var t := SkipBlanks(s);
    if t == [] then (Nil, [])
    else if t[0] == CLOSE then (Nil, t[1..])
    else if DotSeparates(t) then ReadTail(t[1..])
    else
      var f := ReadForm(t);
      if f.0.None? then (Nil, f.1)
      else
        var r := ReadList(f.1);
        (Cons(f.0.value, r.0), r.1)
  }

  /** A list's tail, the dot already read, and the closing parenthesis if it is there. */
  function ReadTail(s: seq<byte>): (r: (Form, seq<byte>))
    ensures |r.1| <= |s|
    decreases |s|, 1
  {
    var f := ReadForm(SkipBlanks(s));
    (if f.0.Some? then f.0.value else Nil, SkipClose(f.1))
  }

  /** Past the blanks, and past a closing parenthesis if one is next. */
  function SkipClose(s: seq<byte>): (r: seq<byte>)
    ensures |r| <= |s|
  {
    var w := SkipBlanks(s);
    if w != [] && w[0] == CLOSE then w[1..] else w
  }

  /** Blanks before a form go for nothing. */
  lemma FormOpens(s: seq<byte>)
    ensures SkipBlanks(SkipBlanks(s)) == SkipBlanks(s) && ReadForm(s) == ReadForm(SkipBlanks(s))
    ensures SkipBlanks(s) == [] ==> ReadForm(s) == (None, [])
  {}

  /** A form that starts right away, by its first byte. */
  lemma FormStarts(t: seq<byte>)
    requires t != [] && SkipBlanks(t) == t
    ensures t[0] == OPEN ==> ReadForm(t) == (Some(ReadList(t[1..]).0), ReadList(t[1..]).1)
    ensures t[0] == CLOSE ==> ReadForm(t) == (Some(Nil), t[1..])
    ensures t[0] == QUOTE ==> ReadForm(t) == (Some(Str(ReadString(t[1..]).0)), ReadString(t[1..]).1)
    ensures t[0] == HASH && |t| > 1 && t[1] == BSLASH ==>
              ReadForm(t) == (Some(ReadChar(t[2..]).0), ReadChar(t[2..]).1)
    ensures t[0] !in {OPEN, CLOSE, QUOTE} && !(t[0] == HASH && |t| > 1 && t[1] == BSLASH) ==>
              ReadForm(t) == (Some(ReadAtom(t).0), ReadAtom(t).1)
  {}

  /** Blanks before a list's next item go for nothing. */
  lemma ListOpens(s: seq<byte>)
    ensures SkipBlanks(SkipBlanks(s)) == SkipBlanks(s) && ReadList(s) == ReadList(SkipBlanks(s))
    ensures SkipBlanks(s) == [] ==> ReadList(s) == (Nil, [])
  {}

  /** A list with another item is that form and the rest of the list. */
  lemma ListGoesOn(t: seq<byte>)
    requires t != [] && SkipBlanks(t) == t && t[0] != CLOSE && !DotSeparates(t)
    ensures var f := ReadForm(t);
            && f.0.Some? && |f.1| < |t|
            && ReadList(t) == (Cons(f.0.value, ReadList(f.1).0), ReadList(f.1).1)
  {}

  /** A list at a separating dot is its tail. */
  lemma ListAtDot(t: seq<byte>)
    requires DotSeparates(t)
    ensures ReadList(t) == ReadTail(t[1..])
  {
    assert SkipBlanks(t) == t;
  }

  /** Every form of a source, in order. */
  function ReadAll(s: seq<byte>): seq<Form>
    decreases |s|
  {
    var r := ReadForm(s);
    if r.0.None? then [] else [r.0.value] + ReadAll(r.1)
  }

  // ----- layouts of a document -------------------------------------------------------------------

  /** One byte of a string literal, as written. */
  datatype Glyph = Plain(c: byte) | Escaped(e: byte) | Hex(h: byte, l: byte) | Odd(o: byte)

  /** A character as written after `#\`: a byte by itself, a name, or a code point's own
      encoding. */
  datatype CharText = Single(c: byte) | Named(i: nat) | Wide(code: nat)

  /** A document with its layout: what stands between its tokens is free. */
  datatype Doc =
    | DInt(v: int) | DSym(name: seq<byte>) | DStr(glyphs: seq<Glyph>) | DChar(t: CharText) | DList(items: Docs)

  datatype Docs = End(gap: seq<byte>)
                | Item(gap: seq<byte>, d: Doc, more: Docs)
                | Tail(gap: seq<byte>, gap2: seq<byte>, d: Doc, gap3: seq<byte>)

  function GlyphText(g: Glyph): seq<byte> {
    match g
    case Plain(c) => [c]
    case Escaped(e) => [BSLASH, e]
    case Hex(h, l) => [BSLASH, LETTER_X, h, l]
    case Odd(o) => [BSLASH, o]
  }

  predicate GlyphOk(g: Glyph) {
    match g
    case Plain(c) => c != QUOTE && c != BSLASH
    case Escaped(e) => Escape(e).Some?
    case Hex(h, l) => HexPair([h, l]).Some?
    case Odd(o) => Escape(o).None? && o != LETTER_X
  }

  function GlyphBytes(g: Glyph): seq<byte> {
    match g
    case Plain(c) => [c]
    case Escaped(e) => if Escape(e).Some? then [Escape(e).value] else []
    case Hex(h, l) => if HexPair([h, l]).Some? then [HexPair([h, l]).value] else []
    case Odd(o) => [BSLASH, o]
  }

  predicate GlyphsOk(gs: seq<Glyph>) { forall i :: 0 <= i < |gs| ==> GlyphOk(gs[i]) }

  function GlyphsText(gs: seq<Glyph>): seq<byte> { if gs == [] then [] else GlyphText(gs[0]) + GlyphsText(gs[1..]) }

  function GlyphsBytes(gs: seq<Glyph>): seq<byte> { if gs == [] then [] else GlyphBytes(gs[0]) + GlyphsBytes(gs[1..]) }

  /** The bytes of a text of ASCII characters. */
  function Ascii(s: string): (r: seq<byte>)
    requires forall i :: 0 <= i < |s| ==> s[i] as int < 128
    ensures |r| == |s| && forall i :: 0 <= i < |s| ==> r[i] == s[i] as int
  {
    if s == "" then [] else [s[0] as int] + Ascii(s[1..])
  }

  const NAMED := 9

  /** The characters that have a name, as the language lists them. */
  function CharName(i: nat): (r: (string, nat))
    ensures |r.0| > 1 && forall j :: 0 <= j < |r.0| ==> 'a' <= r.0[j] <= 'z'
  {
    if i == 0 then ("alarm", 7)
    else if i == 1 then ("backspace", 8)
    else if i == 2 then ("delete", 127)
    else if i == 3 then ("escape", 27)
    else if i == 4 then ("newline", '\n' as int)
    else if i == 5 then ("null", '\0' as int)
    else if i == 6 then ("return", '\r' as int)
    else if i == 7 then ("space", ' ' as int)
    else ("tab", '\t' as int)
  }

  /** A Unicode scalar value. */
  predicate Scalar(code: nat) { code < 0xD800 || 0xE000 <= code <= 0x10FFFF }

  /** Its encoding: section 3 of RFC 3629. */
  function Utf8(code: nat): (r: seq<byte>)
    requires code <= 0x10FFFF
    ensures 1 <= |r| <= 4
  {
    if code < 0x80 then [code]
    else if code < 0x800 then [0xC0 + code / 0x40, 0x80 + code % 0x40]
    else if code < 0x10000 then [0xE0 + code / 0x1000, 0x80 + code / 0x40 % 0x40, 0x80 + code % 0x40]
    else [0xF0 + code / 0x40000, 0x80 + code / 0x1000 % 0x40, 0x80 + code / 0x40 % 0x40, 0x80 + code % 0x40]
  }

  function CharSpelling(t: CharText): seq<byte> {
    match t
    case Single(c) => [c]
    case Named(i) => Ascii(CharName(i).0)
    case Wide(code) => if code <= 0x10FFFF then Utf8(code) else []
  }

  function CharCode(t: CharText): nat {
    match t
    case Single(c) => c
    case Named(i) => CharName(i).1
    case Wide(code) => code
  }

  /** Does the character's text end where `after` begins? */
  predicate CharOk(t: CharText, after: seq<byte>) {
    match t
    case Single(c) => c < 128 && (IsLetter(c) && after != [] ==> !IsLetter(after[0]))
    case Named(i) => i < NAMED && (after != [] ==> !IsLetter(after[0]))
    case Wide(code) => Scalar(code) && code >= 128 && (after != [] ==> !IsContinuation(after[0]))
  }

  /** Decimal digits of a natural, no leading zero. */
  function Decimal(n: nat): (r: seq<byte>)
    ensures r != [] && AllDigits(r)
  {
    if n < 10 then [48 + n] else Decimal(n / 10) + [48 + n % 10]
  }

  function IntText(v: int): seq<byte> { if v < 0 then [MINUS] + Decimal(-v) else Decimal(v) }

  function Text(d: Doc): seq<byte> {
    match d
    case DInt(v) => IntText(v)
    case DSym(name) => name
    case DStr(gs) => [QUOTE] + GlyphsText(gs) + [QUOTE]
    case DChar(t) => [HASH, BSLASH] + CharSpelling(t)
    case DList(items) => [OPEN] + ItemsText(items)
  }

  function ItemsText(ds: Docs): seq<byte> {
    match ds
    case End(gap) => gap + [CLOSE]
    case Item(gap, d, more) => gap + Text(d) + ItemsText(more)
    case Tail(gap, gap2, d, gap3) => gap + [DOT] + gap2 + Text(d) + gap3 + [CLOSE]
  }

  /** Blanks and whole comments. */
  predicate IsGap(g: seq<byte>)
    decreases |g|
  {
    g == [] || (IsBlank(g[0]) && IsGap(g[1..])) || (g[0] == SEMI && NEWLINE in g && IsGap(AfterLine(g[1..])))
  }

  /** A symbol the atom reader reads whole. */
  predicate SymbolSafe(name: seq<byte>) {
    && name != [] && ParseInt(name).None? && name[0] != QUOTE
    && !(|name| > 1 && name[0] == HASH && name[1] == BSLASH)
    && forall i :: 0 <= i < |name| ==> !IsDelim(name[i])
  }

  predicate Delimited(after: seq<byte>) { after == [] || IsDelim(after[0]) }

  /** Does the layout of `d`, with `after` behind it, keep its tokens apart? */
  predicate DocOk(d: Doc, after: seq<byte>) {
    match d
    case DInt(v) => MIN64 <= v <= MAX64 && Delimited(after)
    case DSym(name) => SymbolSafe(name) && Delimited(after)
    case DStr(gs) => GlyphsOk(gs)
    case DChar(t) => CharOk(t, after)
    case DList(items) => ItemsOk(items, after)
  }

  predicate ItemsOk(ds: Docs, after: seq<byte>) {
    match ds
    case End(gap) => IsGap(gap)
    case Item(gap, d, more) =>
      IsGap(gap) && DocOk(d, ItemsText(more) + after) && !DotSeparates(Text(d) + (ItemsText(more) + after)) &&
        ItemsOk(more, after)
    case Tail(gap, gap2, d, gap3) =>
      && IsGap(gap) && IsGap(gap2) && IsGap(gap3) && DocOk(d, gap3 + [CLOSE] + after)
      && DotSeparates([DOT] + gap2 + Text(d))
  }

  function Tree(d: Doc): Form {
    match d
    case DInt(v) => Int(v)
    case DSym(name) => Sym(name)
    case DStr(gs) => Str(GlyphsBytes(gs))
    case DChar(t) => Char(CharCode(t))
    case DList(items) => Spine(items)
  }

  function Spine(ds: Docs): Form {
    match ds
    case End(_) => Nil
    case Item(_, d, more) => Cons(Tree(d), Spine(more))
    case Tail(_, _, d, _) => Tree(d)
  }

  // ----- skipping ------------------------------------------------------------------------------

  lemma {:induction false} AfterLineOver(g: seq<byte>, s: seq<byte>)
    requires NEWLINE in g
    ensures AfterLine(g + s) == AfterLine(g) + s
    decreases |g|
  {
    assert (g + s)[0] == g[0] && (g + s)[1..] == g[1..] + s;
    if g[0] != NEWLINE { AfterLineOver(g[1..], s); }
  }

  /** A gap is skipped whole. */
  lemma {:induction false} GapSkipped(g: seq<byte>, s: seq<byte>)
    requires IsGap(g)
    ensures SkipBlanks(g + s) == SkipBlanks(s)
    decreases |g|
  {
    if g == [] {
      assert g + s == s;
    } else {
      assert (g + s)[0] == g[0] && (g + s)[1..] == g[1..] + s;
      if IsBlank(g[0]) {
        GapSkipped(g[1..], s);
      } else {
        assert NEWLINE in g[1..];
        AfterLineOver(g[1..], s);
        GapSkipped(AfterLine(g[1..]), s);
      }
    }
  }

  // ----- strings -------------------------------------------------------------------------------

  /** Written glyphs read back as their bytes, up to the closing quote. */
  lemma {:induction false} GlyphsRead(gs: seq<Glyph>, after: seq<byte>)
    requires GlyphsOk(gs)
    ensures ReadString(GlyphsText(gs) + ([QUOTE] + after)) == (GlyphsBytes(gs), after)
    decreases |gs|
  {
    var tail := [QUOTE] + after;
    if gs == [] {
      assert GlyphsText(gs) + tail == tail;
    } else {
      var g, rest := gs[0], GlyphsText(gs[1..]) + tail;
      GlyphsRead(gs[1..], after);
      GlyphRead(g, rest);
      assert GlyphsText(gs) + tail == GlyphText(g) + rest;
    }
  }

  lemma GlyphRead(g: Glyph, rest: seq<byte>)
    requires GlyphOk(g)
    ensures ReadString(GlyphText(g) + rest) == (GlyphBytes(g) + ReadString(rest).0, ReadString(rest).1)
  {
    var s := GlyphText(g) + rest;
    match g {
      case Plain(c) => assert s[1..] == rest;
      case Escaped(e) => assert s[1] == e && s[2..] == rest;
      case Hex(h, l) =>
        assert s[1] == LETTER_X && s[2] == h && s[3] == l && s[4..] == rest;
        assert HexPair(s[2..]) == HexPair([h, l]);
      case Odd(o) => assert s[1] == o && s[2..] == rest;
    }
  }

  // ----- characters ------------------------------------------------------------------------------

  /** A character's text reads back as its code, and no further. */
  lemma CharReads(t: CharText, after: seq<byte>)
    requires CharOk(t, after)
    ensures ReadChar(CharSpelling(t) + after) == (Char(CharCode(t)), after)
  {
    var text := CharSpelling(t);
    var s := text + after;
    assert s[|text|..] == after;
    match t {
      case Single(c) =>
        if IsLetter(c) { LettersTaken(text, after); }
      case Named(i) =>
        NameIsNamed(i);
        assert forall j :: 0 <= j < |text| ==> IsLetter(text[j]);
        LettersTaken(text, after);
        assert s[..|text|] == text;
      case Wide(code) =>
        Utf8Reads(code);
        ContinuationsTaken(text[1..], after);
        assert s[1..] == text[1..] + after && s[..|text|] == text;
    }
  }

  lemma {:induction false} LettersTaken(name: seq<byte>, after: seq<byte>)
    requires (forall i :: 0 <= i < |name| ==> IsLetter(name[i])) && (after != [] ==> !IsLetter(after[0]))
    ensures LetterLen(name + after) == |name|
    decreases |name|
  {
    if name == [] {
      assert name + after == after;
    } else {
      assert (name + after)[1..] == name[1..] + after;
      LettersTaken(name[1..], after);
    }
  }

  lemma {:induction false} ContinuationsTaken(run: seq<byte>, after: seq<byte>)
    requires (forall i :: 0 <= i < |run| ==> IsContinuation(run[i])) && (after != [] ==> !IsContinuation(after[0]))
    ensures ContinuationLen(run + after) == |run|
    decreases |run|
  {
    if run == [] {
      assert run + after == after;
    } else {
      assert (run + after)[1..] == run[1..] + after;
      ContinuationsTaken(run[1..], after);
    }
  }

  lemma Spelled(s: string, b: seq<byte>)
    requires |s| == |b| && forall i :: 0 <= i < |s| ==> s[i] as int < 128 && s[i] as int == b[i]
    ensures Ascii(s) == b
  {}

  /** Each listed name names its character. */
  lemma NameIsNamed(i: nat)
    requires i < NAMED
    ensures NamedChar(Ascii(CharName(i).0)) == Some(CharName(i).1)
  {
    if i < 3 { FirstNames(i); } else if i < 6 { MiddleNames(i); } else { LastNames(i); }
  }

  lemma FirstNames(i: nat)
    requires i < 3
    ensures NamedChar(Ascii(CharName(i).0)) == Some(CharName(i).1)
  {
    if i == 0 { Spelled("alarm", [97, 108, 97, 114, 109]); }
    else if i == 1 { Spelled("backspace", [98, 97, 99, 107, 115, 112, 97, 99, 101]); }
    else { Spelled("delete", [100, 101, 108, 101, 116, 101]); }
  }

  lemma MiddleNames(i: nat)
    requires 3 <= i < 6
    ensures NamedChar(Ascii(CharName(i).0)) == Some(CharName(i).1)
  {
    if i == 3 { Spelled("escape", [101, 115, 99, 97, 112, 101]); }
    else if i == 4 { Spelled("newline", [110, 101, 119, 108, 105, 110, 101]); }
    else { Spelled("null", [110, 117, 108, 108]); }
  }

  lemma LastNames(i: nat)
    requires 6 <= i < NAMED
    ensures NamedChar(Ascii(CharName(i).0)) == Some(CharName(i).1)
  {
    if i == 6 { Spelled("return", [114, 101, 116, 117, 114, 110]); }
    else if i == 7 { Spelled("space", [115, 112, 97, 99, 101]); }
    else { Spelled("tab", [116, 97, 98]); }
  }

  /** And no other name does. */
  lemma NamedIsListed(name: seq<byte>) returns (i: nat)
    requires NamedChar(name).Some?
    ensures i < NAMED && name == Ascii(CharName(i).0)
  {
    if name == [97, 108, 97, 114, 109] { i := 0; Spelled("alarm", name); }
    else if name == [98, 97, 99, 107, 115, 112, 97, 99, 101] { i := 1; Spelled("backspace", name); }
    else if name == [100, 101, 108, 101, 116, 101] { i := 2; Spelled("delete", name); }
    else if name == [101, 115, 99, 97, 112, 101] { i := 3; Spelled("escape", name); }
    else if name == [110, 101, 119, 108, 105, 110, 101] { i := 4; Spelled("newline", name); }
    else if name == [110, 117, 108, 108] { i := 5; Spelled("null", name); }
    else if name == [114, 101, 116, 117, 114, 110] { i := 6; Spelled("return", name); }
    else if name == [115, 112, 97, 99, 101] { i := 7; Spelled("space", name); }
    else { i := 8; Spelled("tab", name); }
  }

  /** An encoding is a lead byte and continuation bytes, and reads back as its code. */
  lemma Utf8Reads(code: nat)
    requires Scalar(code) && code >= 128
    ensures var e := Utf8(code);
            e[0] >= 128 && FirstCode(e) == code && forall i :: 1 <= i < |e| ==> IsContinuation(e[i])
  {
    if 0x800 <= code < 0x10000 { ThreeRead(code); } else if 0x10000 <= code { FourRead(code); }
  }

  lemma ThreeRead(code: nat)
    requires Scalar(code) && 0x800 <= code < 0x10000
    ensures var e := Utf8(code);
            e[0] >= 128 && FirstCode(e) == code && forall i :: 1 <= i < |e| ==> IsContinuation(e[i])
  {
    var e := Utf8(code);
    Sixes(code);
    assert |e| == 3 && Low6(e[1]) == code / 0x40 % 0x40 && Low6(e[2]) == code % 0x40;
  }

  lemma FourRead(code: nat)
    requires 0x10000 <= code <= 0x10FFFF
    ensures var e := Utf8(code);
            e[0] >= 128 && FirstCode(e) == code && forall i :: 1 <= i < |e| ==> IsContinuation(e[i])
  {
    var e := Utf8(code);
    Sixes(code);
    assert |e| == 4 && Low6(e[1]) == code / 0x1000 % 0x40 && Low6(e[2]) == code / 0x40 % 0x40;
    assert Low6(e[3]) == code % 0x40;
  }

  /** A number by its groups of six bits. */
  lemma Sixes(n: nat)
    ensures n == n / 0x1000 * 0x1000 + n / 0x40 % 0x40 * 0x40 + n % 0x40
    ensures n / 0x1000 == n / 0x40000 * 0x40 + n / 0x1000 % 0x40
  {}

  lemma SixesBack(x: nat, y: nat, z: nat, u: nat)
    requires y < 0x40 && z < 0x40 && u < 0x40
    ensures var n := x * 0x40000 + y * 0x1000 + z * 0x40 + u;
            n / 0x40000 == x && n / 0x1000 % 0x40 == y && n / 0x40 % 0x40 == z && n % 0x40 == u
  {
    var n := x * 0x40000 + y * 0x1000 + z * 0x40 + u;
    assert n / 0x40 == x * 0x1000 + y * 0x40 + z;
    assert n / 0x1000 == x * 0x40 + y;
  }

  /** EVERY OTHER RUN READS AS THE REPLACEMENT CHARACTER: what is read of a lead byte and the
      continuation bytes behind it is the code whose encoding they begin with, if any. */
  lemma FirstCodeIs(s: seq<byte>)
    requires s != [] && s[0] >= 128 && forall i :: 1 <= i < |s| ==> IsContinuation(s[i])
    ensures var c := FirstCode(s);
            (c >= 128 && Scalar(c) && Utf8(c) <= s)
            || (c == 0xFFFD && forall d: nat :: d >= 128 && Scalar(d) ==> !(Utf8(d) <= s))
  {
    forall d: nat | d >= 128 && Scalar(d) && Utf8(d) <= s ensures FirstCode(s) == d { Utf8Begins(d, s); }
    if FirstCode(s) != 0xFFFD || (|s| >= 3 && s[0] == 0xEF && s[1] == 0xBF && s[2] == 0xBD) { Encoded(s); }
  }

  /** A code read is the one encoded. */
  lemma Encoded(s: seq<byte>)
    requires s != [] && s[0] >= 128 && forall i :: 1 <= i < |s| ==> IsContinuation(s[i])
    requires FirstCode(s) != 0xFFFD || (|s| >= 3 && s[0] == 0xEF && s[1] == 0xBF && s[2] == 0xBD)
    ensures FirstCode(s) >= 128 && Scalar(FirstCode(s)) && Utf8(FirstCode(s)) <= s
  {
    if s[0] <= 0xDF { TwoEncoded(s); } else if s[0] <= 0xEF { ThreeEncoded(s); } else { FourEncoded(s); }
  }

  lemma ThreeEncoded(s: seq<byte>)
    requires |s| >= 3 && 0xE0 <= s[0] <= 0xEF && IsContinuation(s[1]) && IsContinuation(s[2])
    requires (s[0] == 0xE0 ==> s[1] >= 0xA0) && (s[0] == 0xED ==> s[1] <= 0x9F)
    ensures 0x800 <= FirstCode(s) < 0x10000 && Scalar(FirstCode(s)) && Utf8(FirstCode(s)) <= s
  {
    var c: nat, x: nat := FirstCode(s), s[0] - 0xE0;
    SixesBack(0, x, Low6(s[1]), Low6(s[2]));
    assert c == x * 0x1000 + Low6(s[1]) * 0x40 + Low6(s[2]);
    assert c / 0x1000 == x;
    assert s[..3] == [0xE0 + x, 0x80 + Low6(s[1]), 0x80 + Low6(s[2])] == Utf8(c);
  }

  lemma FourEncoded(s: seq<byte>)
    requires |s| >= 4 && 0xF0 <= s[0] <= 0xF4
    requires IsContinuation(s[1]) && IsContinuation(s[2]) && IsContinuation(s[3])
    requires (s[0] == 0xF0 ==> s[1] >= 0x90) && (s[0] == 0xF4 ==> s[1] <= 0x8F)
    ensures 0x10000 <= FirstCode(s) <= 0x10FFFF && Utf8(FirstCode(s)) <= s
  {
    var c: nat, x: nat, y, z, u := FirstCode(s), s[0] - 0xF0, Low6(s[1]), Low6(s[2]), Low6(s[3]);
    assert c == x * 0x40000 + y * 0x1000 + z * 0x40 + u;
    FourInRange(x, y, z, u);
    SixesBack(x, y, z, u);
    assert s[..4] == [0xF0 + x, 0x80 + y, 0x80 + z, 0x80 + u];
    assert Utf8(c) == [0xF0 + x, 0x80 + y, 0x80 + z, 0x80 + u];
  }

  lemma FourInRange(x: nat, y: nat, z: nat, u: nat)
    requires x <= 4 && y < 0x40 && z < 0x40 && u < 0x40 && (x == 0 ==> y >= 0x10) && (x == 4 ==> y < 0x10)
    ensures 0x10000 <= x * 0x40000 + y * 0x1000 + z * 0x40 + u <= 0x10FFFF
  {}

  lemma TwoEncoded(s: seq<byte>)
    requires |s| >= 2 && 0xC2 <= s[0] <= 0xDF && IsContinuation(s[1])
    ensures 128 <= FirstCode(s) < 0x800 && Utf8(FirstCode(s)) <= s
  {
    assert Utf8(FirstCode(s)) == s[..2];
  }

  /** What follows an encoding changes nothing. */
  lemma Utf8Begins(d: nat, s: seq<byte>)
    requires d >= 128 && Scalar(d) && Utf8(d) <= s
    ensures FirstCode(s) == d
  {
    Utf8Reads(d);
    var e := Utf8(d);
    assert forall i :: 0 <= i < |e| ==> s[i] == e[i];
  }

  // ----- atoms ---------------------------------------------------------------------------------

  lemma {:induction false} AtomTakes(name: seq<byte>, after: seq<byte>)
    requires (forall i :: 0 <= i < |name| ==> !IsDelim(name[i])) && Delimited(after)
    ensures AtomLen(name + after) == |name|
    decreases |name|
  {
    if name == [] {
      assert name + after == after;
    } else {
      assert (name + after)[1..] == name[1..] + after && (name + after)[0] == name[0];
      AtomTakes(name[1..], after);
    }
  }

  lemma AtomReads(name: seq<byte>, after: seq<byte>)
    requires name != [] && (forall i :: 0 <= i < |name| ==> !IsDelim(name[i])) && Delimited(after)
    ensures ReadAtom(name + after) == (Atom(name), after)
  {
    AtomTakes(name, after);
    assert (name + after)[..|name|] == name && (name + after)[|name|..] == after;
  }

  lemma {:induction false} DecimalSpells(n: nat)
    ensures Digits(Decimal(n)) == n
    decreases n
  {
    if n >= 10 {
      DecimalSpells(n / 10);
      var r := Decimal(n);
      assert r[..|r| - 1] == Decimal(n / 10);
    } else {
      assert [48 + n][..0] == [];
    }
  }

  /** Every 64-bit integer reads back from its decimal text. */
  lemma IntSpells(v: int)
    requires MIN64 <= v <= MAX64
    ensures ParseInt(IntText(v)) == Some(v)
    ensures IntText(v) != [] && forall i :: 0 <= i < |IntText(v)| ==> IsDigit(IntText(v)[i]) || IntText(v)[i] == MINUS
  {
    if v < 0 {
      DecimalSpells(-v);
      assert IntText(v)[1..] == Decimal(-v);
    } else {
      DecimalSpells(v);
      assert IsDigit(IntText(v)[0]);
    }
  }

  // ----- the round trip --------------------------------------------------------------------------

  /** A document's text starts with no blank, comment or closing parenthesis. */
  lemma TextStarts(d: Doc, after: seq<byte>)
    requires DocOk(d, after)
    ensures Text(d) != [] && !IsBlank(Text(d)[0]) && Text(d)[0] != SEMI && Text(d)[0] != CLOSE
    ensures SkipBlanks(Text(d) + after) == Text(d) + after
  {
    if d.DInt? { IntSpells(d.v); }
    assert (Text(d) + after)[0] == Text(d)[0];
  }

  lemma GapThenDoc(gap: seq<byte>, d: Doc, after: seq<byte>)
    requires IsGap(gap) && DocOk(d, after)
    ensures SkipBlanks(gap + (Text(d) + after)) == Text(d) + after
  {
    GapSkipped(gap, Text(d) + after);
    TextStarts(d, after);
  }

  lemma AtomDocReads(name: seq<byte>, after: seq<byte>)
    requires name != [] && (forall i :: 0 <= i < |name| ==> !IsDelim(name[i])) && Delimited(after)
    requires name[0] != QUOTE && !(|name| > 1 && name[0] == HASH && name[1] == BSLASH)
    ensures ReadForm(name + after) == (Some(Atom(name)), after)
  {
    var s := name + after;
    assert s[0] == name[0] && !IsDelim(s[0]);
    assert SkipBlanks(s) == s;
    assert |s| > 1 ==> s[1] == if |name| > 1 then name[1] else after[0];
    AtomReads(name, after);
  }

  /** THE ROUND TRIP. Whatever its layout, a document reads back as its tree, and the
      reader stops right after it. */
  lemma {:induction false} DocReads(d: Doc, after: seq<byte>)
    requires DocOk(d, after)
    ensures ReadForm(Text(d) + after) == (Some(Tree(d)), after)
    decreases d, 0
  {
    match d {
      case DInt(v) =>
        TextStarts(d, after);
        IntSpells(v);
        AtomDocReads(IntText(v), after);
      case DSym(name) =>
        TextStarts(d, after);
        AtomDocReads(name, after);
      case DStr(gs) =>
        StrDocReads(gs, after);
      case DChar(t) =>
        CharDocReads(t, after);
      case DList(items) =>
        ItemsRead(items, after);
        ListDocReads(items, after);
    }
  }

  lemma CharDocReads(t: CharText, after: seq<byte>)
    requires CharOk(t, after)
    ensures ReadForm(Text(DChar(t)) + after) == (Some(Tree(DChar(t))), after)
  {
    var u := CharSpelling(t) + after;
    assert Text(DChar(t)) + after == [HASH, BSLASH] + u;
    HashReads(u);
    CharReads(t, after);
  }

  lemma HashReads(u: seq<byte>)
    ensures ReadForm([HASH, BSLASH] + u) == (Some(ReadChar(u).0), ReadChar(u).1)
  {
    var s := [HASH, BSLASH] + u;
    assert s[2..] == u && SkipBlanks(s) == s;
    FormStarts(s);
  }

  lemma StrDocReads(gs: seq<Glyph>, after: seq<byte>)
    requires DocOk(DStr(gs), after)
    ensures ReadForm(Text(DStr(gs)) + after) == (Some(Tree(DStr(gs))), after)
  {
    var s, t := Text(DStr(gs)) + after, GlyphsText(gs) + ([QUOTE] + after);
    assert s == [QUOTE] + t && s[1..] == t;
    GlyphsRead(gs, after);
  }

  lemma ListDocReads(items: Docs, after: seq<byte>)
    requires DocOk(DList(items), after) && ReadList(ItemsText(items) + after) == (Spine(items), after)
    ensures ReadForm(Text(DList(items)) + after) == (Some(Tree(DList(items))), after)
  {
    var s := Text(DList(items)) + after;
    TextStarts(DList(items), after);
    assert s[1..] == ItemsText(items) + after;
  }

  lemma {:induction false} ItemsRead(ds: Docs, after: seq<byte>)
    requires ItemsOk(ds, after)
    ensures ReadList(ItemsText(ds) + after) == (Spine(ds), after)
    decreases ds
  {
    match ds {
      case End(gap) =>
        GapSkipped(gap, [CLOSE] + after);
        assert ItemsText(ds) + after == gap + ([CLOSE] + after);
        assert SkipBlanks([CLOSE] + after) == [CLOSE] + after;
      case Item(gap, d, more) =>
        DocReads(d, ItemsText(more) + after);
        ItemsRead(more, after);
        ItemReads(gap, d, more, after);
      case Tail(gap, gap2, d, gap3) =>
        TailReads(gap, gap2, d, gap3, after);
    }
  }

  lemma ItemReads(gap: seq<byte>, d: Doc, more: Docs, after: seq<byte>)
    requires ItemsOk(Item(gap, d, more), after)
    requires ReadForm(Text(d) + (ItemsText(more) + after)) == (Some(Tree(d)), ItemsText(more) + after)
    requires ReadList(ItemsText(more) + after) == (Spine(more), after)
    ensures ReadList(ItemsText(Item(gap, d, more)) + after) == (Spine(Item(gap, d, more)), after)
  {
    var rest := ItemsText(more) + after;
    GapThenDoc(gap, d, rest);
    TextStarts(d, rest);
    Reassociate(gap, Text(d), ItemsText(more), after);
  }

  lemma Reassociate(a: seq<byte>, b: seq<byte>, c: seq<byte>, d: seq<byte>)
    ensures a + b + c + d == a + (b + (c + d))
  {}

  lemma {:induction false} TailReads(gap: seq<byte>, gap2: seq<byte>, d: Doc, gap3: seq<byte>, after: seq<byte>)
    requires ItemsOk(Tail(gap, gap2, d, gap3), after)
    ensures ReadList(ItemsText(Tail(gap, gap2, d, gap3)) + after) == (Tree(d), after)
    decreases d, 1
  {
    var close := gap3 + [CLOSE] + after;
    var y := gap2 + (Text(d) + close);
    TextStarts(d, close);
    assert ([DOT] + gap2 + Text(d))[1] == ([DOT] + y)[1];
    GapThenDoc(gap2, d, close);
    DocReads(d, close);
    GapSkipped(gap3, [CLOSE] + after);
    assert close == gap3 + ([CLOSE] + after);
    GapSkipped(gap, [DOT] + y);
    Regroup(gap, [DOT], gap2, Text(d), gap3, [CLOSE], after);
    DottedReads(gap + ([DOT] + y), y, Tree(d), close, after);
  }

  lemma Regroup(a: seq<byte>, b: seq<byte>, c: seq<byte>, d: seq<byte>, e: seq<byte>, f: seq<byte>, g: seq<byte>)
    ensures a + b + c + d + e + f + g == a + (b + (c + (d + (e + f + g))))
  {
    var cd := c + d;
    assert c + (d + (e + f + g)) == cd + (e + f + g);
    var bcd := b + cd;
    assert a + b + c + d == a + bcd;
    assert a + bcd + e + f + g == a + (bcd + (e + f + g));
  }

  /** A list whose next token is a separating dot is what follows the dot. */
  lemma DottedReads(s: seq<byte>, y: seq<byte>, tree: Form, close: seq<byte>, after: seq<byte>)
    requires SkipBlanks(s) == SkipBlanks([DOT] + y) && DotSeparates([DOT] + y)
    requires ReadForm(SkipBlanks(y)) == (Some(tree), close) && SkipBlanks(close) == SkipBlanks([CLOSE] + after)
    ensures ReadList(s) == (tree, after)
  {
    assert ([DOT] + y)[1..] == y;
    assert ([CLOSE] + after)[1..] == after;
  }

  /** A source of documents, each after its gap, with a last gap behind. */
  function SourceText(docs: seq<(seq<byte>, Doc)>, last: seq<byte>): seq<byte> {
    if docs == [] then last else docs[0].0 + (Text(docs[0].1) + SourceText(docs[1..], last))
  }

  predicate SourceOk(docs: seq<(seq<byte>, Doc)>, last: seq<byte>) {
    if docs == [] then IsGap(last)
    else IsGap(docs[0].0) && DocOk(docs[0].1, SourceText(docs[1..], last)) && SourceOk(docs[1..], last)
  }

  function Trees(docs: seq<(seq<byte>, Doc)>): seq<Form> {
    if docs == [] then [] else [Tree(docs[0].1)] + Trees(docs[1..])
  }

  /** A whole source reads as the trees of its documents, in order, and then ends. */
  lemma {:induction false} SourceReads(docs: seq<(seq<byte>, Doc)>, last: seq<byte>)
    requires SourceOk(docs, last)
    ensures ReadAll(SourceText(docs, last)) == Trees(docs)
    decreases |docs|
  {
    if docs == [] {
      GapSkipped(last, []);
      assert last + [] == last;
    } else {
      var rest := SourceText(docs[1..], last);
      GapThenDoc(docs[0].0, docs[0].1, rest);
      TextStarts(docs[0].1, rest);
      DocReads(docs[0].1, rest);
      SourceReads(docs[1..], last);
    }
  }
}
