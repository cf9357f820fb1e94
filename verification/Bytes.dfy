/** Bytes over words: the heap's byte view, little-endian within a word.

Masks and shifts are read arithmetically, a byte at a time: shifting a word right by
eight is dividing by 256, and its low byte is the remainder. A byte address beyond
the words reads zero and drops writes, as a word address does. */
module Bytes {
  import opened Layout

  type byte = n: int | 0 <= n < 256

  const NEWLINE: byte := 10

  // ----- one word ---------------------------------------------------------------------------

  /** Byte `k` of a word. */
  function Digit(w: nat, k: nat): byte { if k == 0 then w % 256 else Digit(w / 256, k - 1) }

  /** The word with byte `k` replaced. */
  function WithDigit(w: nat, k: nat, v: byte): nat {
    if k == 0 then w - w % 256 + v else w % 256 + 256 * WithDigit(w / 256, k - 1, v)
  }

  /** Writing one byte of a word: that byte reads back, the others stand. */
  lemma {:induction false} ByteRidesAlone(w: nat, k: nat, v: byte, j: nat)
    ensures Digit(WithDigit(w, k, v), j) == if j == k then v else Digit(w, j)
    decreases k
  {
    var w' := WithDigit(w, k, v);
    if k == 0 {
      assert w' / 256 == w / 256 && w' % 256 == v;
    } else {
      assert w' / 256 == WithDigit(w / 256, k - 1, v) && w' % 256 == w % 256;
      if j > 0 { ByteRidesAlone(w / 256, k - 1, v, j - 1); }
    }
  }

  /** The first number too big for `n` bytes. */
  function Bound(n: nat): (b: nat)
    ensures b >= 1
  {
    if n == 0 then 1 else 256 * Bound(n - 1)
  }

  /** A byte write keeps a word in its width. */
  lemma {:induction false} StaysIn(w: nat, k: nat, v: byte, n: nat)
    requires k < n && w < Bound(n)
    ensures WithDigit(w, k, v) < Bound(n)
    decreases k
  {
    if k > 0 { StaysIn(w / 256, k - 1, v, n - 1); }
  }

  // ----- the vector's bytes --------------------------------------------------------------------

  function ByteAt(ws: seq<u64>, a: nat): byte { Digit(Word(ws, a / 8), a % 8) }

  function WithByte(ws: seq<u64>, a: nat, v: byte): (r: seq<u64>)
    ensures |r| == |ws|
  {
    StaysIn(Word(ws, a / 8), a % 8, v, 8);
    assert Bound(8) == 0x1_0000_0000_0000_0000;
    SetWord(ws, a / 8, WithDigit(Word(ws, a / 8), a % 8, v))
  }

  /** One byte write: an address in range reads what was written, every other byte
      stands. */
  lemma ByteWritten(ws: seq<u64>, a: nat, v: byte, b: nat)
    ensures ByteAt(WithByte(ws, a, v), b) == if b == a && a / 8 < |ws| then v else ByteAt(ws, b)
  {
    if a / 8 < |ws| && b / 8 == a / 8 {
      ByteRidesAlone(ws[a / 8], a % 8, v, b % 8);
      assert b % 8 == a % 8 ==> b == a;
    }
  }

  predicate InBytes(ws: seq<u64>, a: nat, n: nat) { a + n <= 8 * |ws| }

  function BytesOf(ws: seq<u64>, a: nat, n: nat): (r: seq<byte>)
    ensures |r| == n && forall i :: 0 <= i < n ==> r[i] == ByteAt(ws, a + i)
    decreases n
  {
    if n == 0 then [] else [ByteAt(ws, a)] + BytesOf(ws, a + 1, n - 1)
  }

  // ----- little-endian integers -----------------------------------------------------------------

  /** The integer `bs` spells, low byte first. */
  function Value(bs: seq<byte>): nat { if bs == [] then 0 else bs[0] + 256 * Value(bs[1..]) }

  /** The low `n` bytes of `v`, low byte first. */
  function Spell(v: nat, n: nat): (r: seq<byte>)
    ensures |r| == n
  {
    if n == 0 then [] else [v % 256] + Spell(v / 256, n - 1)
  }

  /** Spelling and reading back keeps exactly the low `n` bytes. */
  lemma {:induction false} SpellsBack(v: nat, n: nat)
    ensures Value(Spell(v, n)) < Bound(n)
    ensures exists q: nat :: v == Value(Spell(v, n)) + q * Bound(n)
    decreases n
  {
    if n == 0 {
      assert v == Value(Spell(v, 0)) + v * Bound(0);
    } else {
      SpellsBack(v / 256, n - 1);
      var q: nat :| v / 256 == Value(Spell(v / 256, n - 1)) + q * Bound(n - 1);
      assert Spell(v, n)[1..] == Spell(v / 256, n - 1);
      assert q * Bound(n) == 256 * (q * Bound(n - 1));
      assert v == Value(Spell(v, n)) + q * Bound(n);
    }
  }

  lemma Remainder(v: nat, r: nat, q: nat, m: nat)
    requires m >= 1 && r < m && v == r + q * m
    ensures v % m == r
  {
    var k := v / m - q;
    assert v == (v / m) * m + v % m;
    assert k * m == r - v % m;
    TimesAtLeast(k, m);
  }

  lemma TimesAtLeast(k: int, m: int)
    requires m >= 1
    ensures k >= 1 ==> k * m >= m
    ensures k <= -1 ==> k * m <= -m
  {
    if k >= 1 { assert (k - 1) * m >= 0; }
    if k <= -1 { assert (k + 1) * m <= 0; }
  }

  /** The value read back after writing `v` at `n` bytes is `v` modulo 256 to the `n`. */
  lemma SpellIsModulo(v: nat, n: nat)
    ensures Value(Spell(v, n)) == v % Bound(n)
  {
    SpellsBack(v, n);
    var q: nat :| v == Value(Spell(v, n)) + q * Bound(n);
    Remainder(v, Value(Spell(v, n)), q, Bound(n));
  }

  lemma {:induction false} ValueSnoc(bs: seq<byte>, d: byte)
    ensures Value(bs + [d]) == Value(bs) + d * Bound(|bs|)
    decreases |bs|
  {
    if bs == [] {
      assert bs + [d] == [d];
    } else {
      assert (bs + [d])[1..] == bs[1..] + [d];
      ValueSnoc(bs[1..], d);
    }
  }

  /** A word shifted right by `i` bytes. */
  function Shift(v: nat, i: nat): nat { if i == 0 then v else Shift(v, i - 1) / 256 }

  lemma {:induction false} ShiftIn(v: nat, i: nat)
    ensures Shift(v / 256, i) == Shift(v, i + 1)
    decreases i
  {
    if i > 0 { ShiftIn(v, i - 1); }
  }

  lemma {:induction false} DigitIsShift(v: nat, i: nat)
    ensures Digit(v, i) == Shift(v, i) % 256
    decreases i
  {
    if i > 0 {
      DigitIsShift(v / 256, i - 1);
      ShiftIn(v, i - 1);
    }
  }

  lemma {:induction false} SpellAt(v: nat, n: nat, i: nat)
    requires i < n
    ensures Spell(v, n)[i] == Digit(v, i)
    decreases n
  {
    if i > 0 { SpellAt(v / 256, n - 1, i - 1); }
  }

  // ----- runs of bytes -----------------------------------------------------------------------------

  /** The bytes from `a` up to the first NUL. An address past the words reads NUL, so
      there is always one. */
  function TextAt(ws: seq<u64>, a: nat): seq<byte>
    decreases 8 * |ws| - a
  {
    if a >= 8 * |ws| || ByteAt(ws, a) == 0 then [] else [ByteAt(ws, a)] + TextAt(ws, a + 1)
  }

  function UpToNul(s: seq<byte>): seq<byte> { if s == [] || s[0] == 0 then [] else [s[0]] + UpToNul(s[1..]) }

  lemma {:induction false} TextIsUpToNul(ws: seq<u64>, a: nat, s: seq<byte>)
    requires InBytes(ws, a, |s| + 1) && ByteAt(ws, a + |s|) == 0
    requires forall i :: 0 <= i < |s| ==> ByteAt(ws, a + i) == s[i]
    ensures TextAt(ws, a) == UpToNul(s)
    decreases |s|
  {
    if s == [] {
      assert ByteAt(ws, a) == 0;
    } else {
      assert ByteAt(ws, a + 0) == s[0];
      forall i | 0 <= i < |s| - 1
        ensures ByteAt(ws, a + 1 + i) == s[1..][i]
      {
        assert ByteAt(ws, a + (i + 1)) == s[i + 1];
      }
      if s[0] != 0 { TextIsUpToNul(ws, a + 1, s[1..]); }
    }
  }

  /** Where byte `i` of a forward copy really came from: the source itself, or, when the
      destination starts inside it, the period it was smeared with. */
  function Origin(dst: nat, src: nat, i: nat): nat {
    if src < dst then src + i % (dst - src) else src + i
  }

  lemma OriginStep(dst: nat, src: nat, i: nat)
    ensures dst <= src + i < dst + i ==> Origin(dst, src, i) == Origin(dst, src, src + i - dst)
    ensures !(dst <= src + i < dst + i) ==> Origin(dst, src, i) == src + i
  {
    if dst <= src + i < dst + i { LessPeriod(i, dst - src); }
  }

  lemma LessPeriod(i: nat, d: nat)
    requires 1 <= d <= i
    ensures i % d == (i - d) % d
  {
    var q, r := (i - d) / d, (i - d) % d;
    assert i == r + (q + 1) * d;
    Remainder(i, r, q + 1, d);
  }

  /** The copy is a true move exactly when the destination starts at or before the
      source or the two do not overlap; otherwise the byte one period in comes out as the
      first one. */
  lemma MoveExactlyWhenClear(dst: nat, src: nat, n: nat)
    ensures (forall i: nat :: i < n ==> Origin(dst, src, i) == src + i) <==> dst <= src || src + n <= dst
  {
    if src < dst < src + n {
      Remainder(dst - src, 0, 1, dst - src);
      assert Origin(dst, src, dst - src) == src;
    }
  }

  /** `ws` is `ws0` with `n` bytes copied forward: each in range holds what its origin
      held, and every other byte stands. */
  ghost predicate Copied(ws0: seq<u64>, ws: seq<u64>, dst: nat, src: nat, n: nat) {
    && |ws| == |ws0|
    && (forall i: nat :: i < n && dst + i < 8 * |ws| ==> ByteAt(ws, dst + i) == ByteAt(ws0, Origin(dst, src, i)))
    && (forall b: nat :: !(dst <= b < dst + n) ==> ByteAt(ws, b) == ByteAt(ws0, b))
  }

  /** The byte about to be copied is what its origin held. */
  lemma CopySource(ws0: seq<u64>, ws: seq<u64>, dst: nat, src: nat, i: nat)
    requires Copied(ws0, ws, dst, src, i)
    ensures dst + i < 8 * |ws| ==> ByteAt(ws, src + i) == ByteAt(ws0, Origin(dst, src, i))
  {
    OriginStep(dst, src, i);
    if dst <= src + i < dst + i && dst + i < 8 * |ws| {
      assert ByteAt(ws, dst + (src + i - dst)) == ByteAt(ws0, Origin(dst, src, src + i - dst));
    }
  }

  lemma CopyStep(ws0: seq<u64>, ws: seq<u64>, dst: nat, src: nat, i: nat)
    requires Copied(ws0, ws, dst, src, i)
    ensures Copied(ws0, WithByte(ws, dst + i, ByteAt(ws, src + i)), dst, src, i + 1)
  {
    var v := ByteAt(ws, src + i);
    var ws' := WithByte(ws, dst + i, v);
    CopySource(ws0, ws, dst, src, i);
    forall b: nat ensures ByteAt(ws', b) == if b == dst + i && b / 8 < |ws| then v else ByteAt(ws, b) {
      ByteWritten(ws, dst + i, v, b);
    }
  }

  class Store {
    var words: seq<u64>

    constructor ()
      ensures words == []
    {
      words := [];
    }

    method SetByte(a: nat, v: byte)
      modifies this
      ensures words == WithByte(old(words), a, v)
    {
      ghost var w := Word(words, a / 8);
      StaysIn(w, a % 8, v, 8);
      assert Bound(8) == 0x1_0000_0000_0000_0000;
      words := SetWord(words, a / 8, WithDigit(Word(words, a / 8), a % 8, v));
    }

    /** Assemble `width` bytes, low byte first. */
    method ReadLe(a: nat, width: nat) returns (v: nat)
      ensures v == Value(BytesOf(words, a, width))
    {
      v := 0;
      var unit := 1;
      for i := 0 to width
        invariant unit == Bound(i) && v == Assembled(words, a, i)
      {
        v := v + ByteAt(words, a + i) * unit;
        unit := unit * 256;
      }
      AssembledIsValue(words, a, width);
    }

    /** Lay `width` bytes of `v` down, low byte first; a byte out of range is dropped and
        every other byte stands. */
    method WriteLe(a: nat, v: nat, width: nat)
      modifies this
      ensures |words| == |old(words)|
      ensures forall j: nat :: j < width && a + j < 8 * |words| ==> ByteAt(words, a + j) == Spell(v, width)[j]
      ensures forall b: nat :: !(a <= b < a + width) ==> ByteAt(words, b) == ByteAt(old(words), b)
    {
      var rest := v;
      for i := 0 to width
        invariant |words| == |old(words)|
        invariant rest == Shift(v, i)
        invariant forall j: nat :: j < i && a + j < 8 * |words| ==> ByteAt(words, a + j) == Digit(v, j)
        invariant forall b: nat :: !(a <= b < a + i) ==> ByteAt(words, b) == ByteAt(old(words), b)
      {
        ghost var before := words;
        SetByte(a + i, rest % 256);
        forall b: nat
          ensures ByteAt(words, b) == if b == a + i && b / 8 < |before| then rest % 256 else ByteAt(before, b) {
          ByteWritten(before, a + i, rest % 256, b);
        }
        DigitIsShift(v, i);
        rest := rest / 256;
      }
      forall j: nat | j < width ensures Spell(v, width)[j] == Digit(v, j) { SpellAt(v, width, j); }
    }

    /** READ AFTER WRITE. At any address in range, aligned or not, what is read back is
        `v` modulo 256 to the `width`. */
    method WriteThenRead(a: nat, v: nat, width: nat) returns (r: nat)
      requires InBytes(words, a, width)
      modifies this
      ensures r == v % Bound(width)
    {
      WriteLe(a, v, width);
      assert BytesOf(words, a, width) == Spell(v, width);
      r := ReadLe(a, width);
      SpellIsModulo(v, width);
    }

    /** Read a NUL-terminated run. */
    method BytesFrom(a: nat) returns (out: seq<byte>)
      ensures out == TextAt(words, a)
    {
      out := [];
      var i := a;
      while ByteAt(words, i) != 0
        invariant i >= a && out + TextAt(words, i) == TextAt(words, a)
        decreases 8 * |words| - i
      {
        InRange(words, i);
        out := out + [ByteAt(words, i)];
        i := i + 1;
      }
      assert TextAt(words, i) == [];
    }

    /** The forward byte copy; a byte out of range is dropped. */
    method CopyBytes(dst: nat, src: nat, n: nat)
      modifies this
      ensures Copied(old(words), words, dst, src, n)
    {
      for i := 0 to n
        invariant Copied(old(words), words, dst, src, i)
      {
        CopyStep(old(words), words, dst, src, i);
        var v := ByteAt(words, src + i);
        SetByte(dst + i, v);
      }
    }

    /** Append bytes, NUL-terminated, as whole words. Reading them back gives them up to
        their first NUL; nothing stored before changes. */
    method StoreBytes(s: seq<byte>) returns (start: nat)
      modifies this
      ensures start == 8 * |old(words)| && old(words) <= words
      ensures TextAt(words, start) == UpToNul(s)
    {
      start := 8 * |words|;
      var all: seq<byte> := s + [0];
      var w, n, i := 0, 0, 0;
      while i < |all|
        invariant 0 <= n < 8 && n <= i <= |all| && old(words) <= words
        invariant 8 * |words| + n == start + i && w == Value(all[i - n..i])
        invariant forall j: nat :: j < i - n ==> ByteAt(words, start + j) == all[j]
      {
        ValueSnoc(all[i - n..i], all[i]);
        assert all[i - n..i] + [all[i]] == all[i - n..i + 1];
        w := w + all[i] * Bound(n);
        n := n + 1;
        i := i + 1;
        if n == 8 {
          PushWord(words, all, start, i, n);
          words := words + [w];
          w, n := 0, 0;
        }
      }
      if n > 0 {
        PushWord(words, all, start, i, n);
        words := words + [w];
      }
      assert forall j: nat :: j < |all| ==> ByteAt(words, start + j) == all[j];
      forall j | 0 <= j < |s| ensures ByteAt(words, start + j) == s[j] { assert ByteAt(words, start + j) == all[j]; }
      assert ByteAt(words, start + |s|) == all[|s|];
      TextIsUpToNul(words, start, s);
    }
  }

  lemma {:induction false} ValueFits(bs: seq<byte>)
    ensures Value(bs) < Bound(|bs|)
    decreases |bs|
  {
    if bs != [] { ValueFits(bs[1..]); }
  }

  lemma {:induction false} ValueDigit(bs: seq<byte>, k: nat)
    requires k < |bs|
    ensures Digit(Value(bs), k) == bs[k]
    decreases k
  {
    assert Value(bs) / 256 == Value(bs[1..]);
    if k > 0 { ValueDigit(bs[1..], k - 1); }
  }

  lemma {:induction false} BoundGrows(m: nat, n: nat)
    requires m <= n
    ensures Bound(m) <= Bound(n)
    decreases n
  {
    if m < n { BoundGrows(m, n - 1); }
  }

  /** Pushing the last `n` bytes gathered, as one word. */
  lemma PushWord(ws: seq<u64>, all: seq<byte>, start: nat, i: nat, n: nat)
    requires n <= 8 && n <= i <= |all| && 8 * |ws| + n == start + i
    requires forall j: nat :: j < i - n ==> ByteAt(ws, start + j) == all[j]
    requires start <= 8 * |ws|
    ensures 0 <= Value(all[i - n..i]) < 0x1_0000_0000_0000_0000
    ensures forall j: nat :: j < i ==> ByteAt(ws + [Value(all[i - n..i])], start + j) == all[j]
  {
    var bs := all[i - n..i];
    ValueFits(bs);
    BoundGrows(n, 8);
    assert Bound(8) == 0x1_0000_0000_0000_0000;
    var ws': seq<u64> := ws + [Value(bs)];
    forall j: nat | j < i ensures ByteAt(ws', start + j) == all[j] {
      if j < i - n {
        assert start + j < 8 * |ws|;
        assert ByteAt(ws, start + j) == all[j];
      } else {
        var k := j - (i - n);
        assert start + j == 8 * |ws| + k;
        ValueDigit(bs, k);
      }
    }
  }

  lemma InRange(ws: seq<u64>, a: nat)
    requires ByteAt(ws, a) != 0
    ensures a < 8 * |ws|
  {
    if a / 8 >= |ws| { ZeroDigits(a % 8); }
  }

  lemma {:induction false} ZeroDigits(k: nat)
    ensures Digit(0, k) == 0
    decreases k
  {
    if k > 0 { ZeroDigits(k - 1); }
  }

  /** Bytes summed one at a time, each a place higher. */
  function Assembled(ws: seq<u64>, a: nat, n: nat): nat {
    if n == 0 then 0 else Assembled(ws, a, n - 1) + ByteAt(ws, a + n - 1) * Bound(n - 1)
  }

  lemma {:induction false} AssembledIsValue(ws: seq<u64>, a: nat, n: nat)
    ensures Assembled(ws, a, n) == Value(BytesOf(ws, a, n))
    decreases n
  {
    if n > 0 {
      AssembledIsValue(ws, a, n - 1);
      assert BytesOf(ws, a, n) == BytesOf(ws, a, n - 1) + [ByteAt(ws, a + n - 1)];
      ValueSnoc(BytesOf(ws, a, n - 1), ByteAt(ws, a + n - 1));
    }
  }
}
