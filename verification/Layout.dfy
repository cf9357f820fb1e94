/** The object layout over a flat vector of 64-bit words.

A reference is the byte address of a header. The header is four words (chain link, type,
flags, length) with the data after it and any meta words before it. The flags word
packs the kind, a meta bit, a meta count, an allocation-magic bit and the
collector's mark bit. Bits are read arithmetically: every field is a single bit or
a contiguous run. */
module Layout {

  type u64 = n: int | 0 <= n < 0x1_0000_0000_0000_0000

  const MARK_BIT: int := 0x8000_0000_0000_0000
  const MAGIC_BIT: int := 0x4000_0000_0000_0000
  const META_UNIT: int := 0x0100_0000_0000_0000
  const META_BIT: int := 0x80
  const META_LEN := 4
  const MAX_META := 16
  /** The flags word of a swept chunk. */
  const FREED: u64 := 0x00DE_AD0D_EAD0_DEAD
  /** The pinned reservation, in words. */
  const PINNED_WORDS := 0x4000_0000

  const PAIR: int := 0x0100
  const SPAIR: int := 0x0101
  const FALSE: int := 0x0400
  const OP: int := 0x0800
  const FN: int := 0x11
  const ENV: int := 0x1000
  const ENVH: int := 0x1001
  const ITER: int := 0x4000
  const WRAP: int := 0x8000
  const BUF: int := 0x20000
  const BUFMARKS: int := 0x20001
  const INSTANCE: int := 0

  // ----- the flags word -----------------------------------------------------------

  predicate Marked(f: u64) { f >= MARK_BIT }

  function WithMark(f: u64): u64 { if Marked(f) then f else f + MARK_BIT }

  function NoMark(f: u64): u64 { f % MARK_BIT }

  predicate HasMagic(f: u64) { (f / MAGIC_BIT) % 2 == 1 }

  function MetaCount(f: u64): nat { (f / META_UNIT) % 64 }

  /** The kind alone: the low seven bytes less the meta bit. */
  function Kind(f: u64): nat {
    var low := f % META_UNIT;
    if (low / META_BIT) % 2 == 1 then low - META_BIT else low
  }

  /** A kind an allocation may carry: it leaves every other field of the word free. */
  predicate IsKind(kind: int) { 0 <= kind < META_UNIT && (kind / META_BIT) % 2 == 0 }

  function Stored(kind: int, meta: nat): u64
    requires IsKind(kind) && meta <= MAX_META
  {
    kind + MAGIC_BIT + if meta > 0 then META_BIT + meta * META_UNIT else 0
  }

  /** The fields of a stored flags word read back what went in. */
  lemma StoredReads(kind: int, meta: nat)
    requires IsKind(kind) && meta <= MAX_META
    ensures var f := Stored(kind, meta);
            Kind(f) == kind && MetaCount(f) == meta && HasMagic(f) && !Marked(f)
  {}

  /** The mark bit rides alone: setting or clearing it disturbs no other field, and
      clearing undoes setting. */
  lemma MarkRidesAlone(f: u64)
    ensures Kind(WithMark(f)) == Kind(f) && MetaCount(WithMark(f)) == MetaCount(f)
    ensures HasMagic(WithMark(f)) <==> HasMagic(f)
    ensures Marked(WithMark(f)) && !Marked(NoMark(f)) && NoMark(WithMark(f)) == NoMark(f)
    ensures !Marked(f) ==> NoMark(f) == f
  {
    MarkedFields(f);
  }

  lemma MarkedFields(f: u64)
    ensures Kind(WithMark(f)) == Kind(f) && MetaCount(WithMark(f)) == MetaCount(f)
  {}

  lemma FreedIsBare()
    ensures !HasMagic(FREED) && !Marked(FREED) && MetaCount(FREED) == 0
  {}

  // ----- words and slots ------------------------------------------------------------

  /** A word by its index; past the end, zero. */
  function Word(ws: seq<u64>, i: nat): u64 { if i < |ws| then ws[i] else 0 }

  /** The words with one replaced; past the end, as they were. */
  function SetWord(ws: seq<u64>, i: nat, v: u64): (r: seq<u64>)
    ensures |r| == |ws|
  {
    if i < |ws| then ws[i := v] else ws
  }

  function Link(ws: seq<u64>, o: nat): u64 { Word(ws, o / 8) }
  function TypeWord(ws: seq<u64>, o: nat): u64 { Word(ws, o / 8 + 1) }
  function Flags(ws: seq<u64>, o: nat): u64 { Word(ws, o / 8 + 2) }
  function Len(ws: seq<u64>, o: nat): u64 { Word(ws, o / 8 + 3) }

  /** A data slot; nil's all read zero. */
  function Data(ws: seq<u64>, o: nat, i: nat): u64 {
    if o == 0 then 0 else Word(ws, o / 8 + META_LEN + i)
  }

  /** Aligned, not nil, and a whole header in range. */
  predicate Plausible(ws: seq<u64>, w: nat) {
    w != 0 && w % 8 == 0 && w / 8 + META_LEN <= |ws|
  }

  predicate ExtentOk(ws: seq<u64>, o: nat, n: nat) { o / 8 + META_LEN + n <= |ws| }

  // ----- what an object refers to -----------------------------------------------------

  function DataWords(ws: seq<u64>, o: nat, lo: nat, hi: nat): seq<u64>
    decreases hi - lo
  {
    if lo >= hi then [] else [Data(ws, o, lo)] + DataWords(ws, o, lo + 1, hi)
  }

  function PlausibleWords(ws: seq<u64>, o: nat, lo: nat, hi: nat): seq<u64>
    decreases hi - lo
  {
    if lo >= hi then []
    else (if Plausible(ws, Data(ws, o, lo)) then [Data(ws, o, lo)] else [])
         + PlausibleWords(ws, o, lo + 1, hi)
  }

  /** The references of an object's data, by kind. */
  function KindEdges(ws: seq<u64>, o: nat): seq<u64> {
    var k, n := Kind(Flags(ws, o)), Len(ws, o);
    if k == PAIR || k == SPAIR || k == ITER then [Data(ws, o, 0), Data(ws, o, 1)]
    else if k == FN || k == OP || k == WRAP then [Data(ws, o, 1)]
    else if k == ENV then [Data(ws, o, 0)]
    else if k == ENVH then [Data(ws, o, 0), Data(ws, o, 1), Data(ws, o, 2)]
    else if k == FALSE then (if ExtentOk(ws, o, n) then DataWords(ws, o, 0, n) else [])
    else if k == BUF then [Data(ws, o, 1), Data(ws, o, 2)]
    else if k == INSTANCE then (if ExtentOk(ws, o, n) then PlausibleWords(ws, o, 0, n) else [])
    else []
  }

  /** Everything marking an object puts on the work stack. */
  function Edges(ws: seq<u64>, o: nat): seq<u64> {
    (if TypeWord(ws, o) != 0 then [TypeWord(ws, o)] else []) + KindEdges(ws, o)
  }

  /** The words the collector follows: those carrying the allocation magic. */
  predicate Followed(ws: seq<u64>, w: nat) { Plausible(ws, w) && HasMagic(Flags(ws, w)) }

  /** A chain of followed references from a root, ending at the last element. */
  ghost predicate IsPath(ws: seq<u64>, roots: seq<u64>, p: seq<u64>) {
    && p != []
    && p[0] in roots
    && (forall i :: 0 <= i < |p| ==> Followed(ws, p[i]))
    && (forall i :: 0 < i < |p| ==> p[i] in Edges(ws, p[i - 1]))
  }

  ghost predicate Reachable(ws: seq<u64>, roots: seq<u64>, o: u64) {
    exists p :: IsPath(ws, roots, p) && p[|p| - 1] == o
  }

  lemma ReachRoot(ws: seq<u64>, roots: seq<u64>, o: u64)
    requires o in roots && Followed(ws, o)
    ensures Reachable(ws, roots, o)
  {
    assert IsPath(ws, roots, [o]);
  }

  lemma ReachEdge(ws: seq<u64>, roots: seq<u64>, o: u64, e: u64)
    requires Reachable(ws, roots, o) && e in Edges(ws, o) && Followed(ws, e)
    ensures Reachable(ws, roots, e)
  {
    var p :| IsPath(ws, roots, p) && p[|p| - 1] == o;
    var q := p + [e];
    forall i | 0 <= i < |q| ensures Followed(ws, q[i]) && (i > 0 ==> q[i] in Edges(ws, q[i - 1])) {
      if i < |p| { assert q[i] == p[i]; } else { assert q[i - 1] == o; }
    }
    assert IsPath(ws, roots, q);
  }

  /** A set holding the followed roots and closed under followed references holds
      everything reachable. */
  lemma {:induction false} ClosedHoldsReachable(ws: seq<u64>, roots: seq<u64>, s: set<u64>, p: seq<u64>)
    requires forall r :: r in roots && Followed(ws, r) ==> r in s
    requires forall o, e :: o in s && e in Edges(ws, o) && Followed(ws, e) ==> e in s
    requires IsPath(ws, roots, p)
    ensures p[|p| - 1] in s
    decreases |p|
  {
    if |p| > 1 {
      var q := p[..|p| - 1];
      assert IsPath(ws, roots, q);
      ClosedHoldsReachable(ws, roots, s, q);
    }
  }
}
