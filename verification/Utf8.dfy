/** UTF-8 as Node encodes strings of UTF-16 code units, the surrogate check that makes the
    encoding unambiguous, and the cutting of texts to a byte limit
    (src/attachment-execution-receipt.mjs, `hasLoneSurrogate`; src/convergence.mjs,
    `utf8Prefix`, `compactUtf8`). */
module Utf8 {
  import opened Prelude
  import opened JsonText

  type Byte = n: int | 0 <= n < 256

  predicate IsHigh(u: Unit) {
    0xD800 <= u <= 0xDBFF
  }

  predicate IsLow(u: Unit) {
    0xDC00 <= u <= 0xDFFF
  }

  /** The text begins with a surrogate pair. */
  predicate StartsPair(s: Text) {
    |s| >= 2 && IsHigh(s[0]) && IsLow(s[1])
  }

  type Point = n: int | 0 <= n < 0x110000

  function PairPoint(high: Unit, low: Unit): Point
    requires IsHigh(high) && IsLow(low)
  {
    0x10000 + (high - 0xD800) * 1024 + (low - 0xDC00)
  }

  /** The bytes of a code point, six bits a byte behind the first; an unpaired surrogate is
      replaced by U+FFFD. */
  function EncodePoint(p: Point): seq<Byte> {
    var p1 := p / 64;
    var p2 := p1 / 64;
    var p3 := p2 / 64;
    if p < 0x80 then [p]
    else if p < 0x800 then [0xC0 + p1, 0x80 + p % 64]
    else if 0xD800 <= p <= 0xDFFF then [0xEF, 0xBF, 0xBD]
    else if p < 0x10000 then [0xE0 + p2, 0x80 + p1 % 64, 0x80 + p % 64]
    else [0xF0 + p3, 0x80 + p2 % 64, 0x80 + p1 % 64, 0x80 + p % 64]
  }

  /** `Buffer.from(s, "utf8")`. */
  function Encode(s: Text): seq<Byte> {
    if s == [] then []
    else if StartsPair(s) then EncodePoint(PairPoint(s[0], s[1])) + Encode(s[2..])
    else EncodePoint(s[0]) + Encode(s[1..])
  }

  /** `Buffer.byteLength(s, "utf8")`. */
  function ByteLength(s: Text): nat {
    |Encode(s)|
  }

  // ---- surrogates -----------------------------------------------------

  /** Every surrogate is half of a pair. */
  predicate WellPaired(s: Text) {
    if s == [] then true
    else if StartsPair(s) then WellPaired(s[2..])
    else !IsHigh(s[0]) && !IsLow(s[0]) && WellPaired(s[1..])
  }

  method HasLoneSurrogate(value: Text) returns (lone: bool)
    ensures lone == !WellPaired(value)
  {
    var index := 0;
    while index < |value|
      invariant 0 <= index <= |value|
      invariant WellPaired(value) == WellPaired(value[index..])
    {
      var rest := value[index..];
      assert rest[1..] == value[index + 1..];
      assert |rest| >= 2 ==> rest[2..] == value[index + 2..];
      if IsHigh(value[index]) {
        if !(index + 1 < |value| && IsLow(value[index + 1])) { return true; }
        index := index + 1;
      } else if IsLow(value[index]) {
        return true;
      }
      index := index + 1;
    }
    lone := false;
  }

  // ---- unambiguity ----------------------------------------------------

  function Bits(b: seq<Byte>, i: nat, marker: int): int
    requires i < |b|
  {
    b[i] - marker
  }

  /** What the first bytes of an encoding say about its first code point. */
  function FirstPoint(b: seq<Byte>): int {
    if |b| >= 1 && b[0] < 0x80 then b[0]
    else if |b| >= 2 && b[0] < 0xE0 then Bits(b, 0, 0xC0) * 64 + Bits(b, 1, 0x80)
    else if |b| >= 3 && b[0] < 0xF0 then (Bits(b, 0, 0xE0) * 64 + Bits(b, 1, 0x80)) * 64 + Bits(b, 2, 0x80)
    else if |b| >= 4 then ((Bits(b, 0, 0xF0) * 64 + Bits(b, 1, 0x80)) * 64 + Bits(b, 2, 0x80)) * 64 + Bits(b, 3, 0x80)
    else -1
  }

  function FirstLength(b: seq<Byte>): nat {
    if b == [] then 0 else if b[0] < 0x80 then 1 else if b[0] < 0xE0 then 2 else if b[0] < 0xF0 then 3 else 4
  }

  lemma BytesStay(a: seq<Byte>, rest: seq<Byte>)
    requires a != [] && |a| == FirstLength(a)
    ensures FirstPoint(a + rest) == FirstPoint(a) && FirstLength(a + rest) == FirstLength(a)
  {
    var b := a + rest;
    assert forall i :: 0 <= i < |a| ==> b[i] == a[i];
  }

  lemma PointOfBytes(p: Point)
    requires !(0xD800 <= p <= 0xDFFF)
    ensures FirstPoint(EncodePoint(p)) == p && |EncodePoint(p)| == FirstLength(EncodePoint(p)) > 0
  {
    var p1 := p / 64;
    var p2 := p1 / 64;
    var p3 := p2 / 64;
    assert p == p1 * 64 + p % 64 && p1 == p2 * 64 + p1 % 64 && p2 == p3 * 64 + p2 % 64;
  }

  lemma PointRecovered(p: Point, rest: seq<Byte>)
    requires !(0xD800 <= p <= 0xDFFF)
    ensures FirstPoint(EncodePoint(p) + rest) == p
    ensures FirstLength(EncodePoint(p) + rest) == |EncodePoint(p)|
  {
    hide EncodePoint, FirstPoint, FirstLength;
    PointOfBytes(p);
    BytesStay(EncodePoint(p), rest);
  }

  lemma NotASurrogate(s: Text)
    requires WellPaired(s) && s != []
    ensures if StartsPair(s) then PairPoint(s[0], s[1]) >= 0x10000 else !(0xD800 <= s[0] <= 0xDFFF)
  {
  }

  lemma PairRecovered(a: Unit, b: Unit, c: Unit, d: Unit)
    requires IsHigh(a) && IsLow(b) && IsHigh(c) && IsLow(d) && PairPoint(a, b) == PairPoint(c, d)
    ensures a == c && b == d
  {
  }

  /** Texts without unpaired surrogates have different encodings. */
  lemma {:induction false} EncodingIsInjective(a: Text, b: Text)
    requires WellPaired(a) && WellPaired(b) && Encode(a) == Encode(b)
    ensures a == b
    decreases |a|
  {
    hide EncodePoint, FirstPoint, FirstLength;
    if a == [] || b == [] {
      if a != [] { EncodingNotEmpty(a); }
      if b != [] { EncodingNotEmpty(b); }
    } else {
      var pa: Point := if StartsPair(a) then PairPoint(a[0], a[1]) else a[0];
      var pb: Point := if StartsPair(b) then PairPoint(b[0], b[1]) else b[0];
      var ta := if StartsPair(a) then a[2..] else a[1..];
      var tb := if StartsPair(b) then b[2..] else b[1..];
      NotASurrogate(a);
      NotASurrogate(b);
      PointRecovered(pa, Encode(ta));
      PointRecovered(pb, Encode(tb));
      assert Encode(a)[|EncodePoint(pa)|..] == Encode(ta);
      assert Encode(b)[|EncodePoint(pb)|..] == Encode(tb);
      EncodingIsInjective(ta, tb);
      if StartsPair(a) {
        PairRecovered(a[0], a[1], b[0], b[1]);
        assert a == [a[0], a[1]] + ta && b == [b[0], b[1]] + tb;
      } else {
        assert a == [a[0]] + ta && b == [b[0]] + tb;
      }
    }
  }

  lemma EncodingNotEmpty(s: Text)
    requires s != []
    ensures Encode(s) != []
  {
  }

  /** Without the check the encoding is ambiguous: a lone surrogate is written like U+FFFD. */
  lemma LoneSurrogatesCollide(u: Unit)
    requires IsHigh(u) || IsLow(u)
    ensures !WellPaired([u]) && WellPaired([0xFFFD]) && [u] != [0xFFFD]
    ensures Encode([u]) == Encode([0xFFFD])
  {
    assert [u][1..] == [] && [0xFFFD][1..] == [];
  }

  // ---- lengths of prefixes --------------------------------------------

  /** Where two texts meet no pair is formed. */
  predicate Separable(a: Text, b: Text) {
    !(a != [] && b != [] && IsHigh(a[|a| - 1]) && IsLow(b[0]))
  }

  lemma {:induction false} EncodingSplits(a: Text, b: Text)
    requires Separable(a, b)
    ensures Encode(a + b) == Encode(a) + Encode(b)
    decreases |a|
  {
    hide EncodePoint, PairPoint;
    if a == [] {
      assert a + b == b;
    } else if StartsPair(a) {
      assert (a + b)[2..] == a[2..] + b && (a + b)[0] == a[0] && (a + b)[1] == a[1];
      EncodingSplits(a[2..], b);
    } else {
      assert (a + b)[1..] == a[1..] + b && (a + b)[0] == a[0];
      assert |a| >= 2 ==> (a + b)[1] == a[1];
      assert |a| == 1 && |a + b| >= 2 ==> (a + b)[1] == b[0];
      EncodingSplits(a[1..], b);
    }
  }

  lemma OneMoreUnit(s: Text, k: nat)
    requires k < |s|
    ensures ByteLength(s[..k]) <= ByteLength(s[..k + 1])
  {
    hide EncodePoint, PairPoint;
    if k > 0 && IsHigh(s[k - 1]) && IsLow(s[k]) {
      var before, high, pair := s[..k - 1], [s[k - 1]], [s[k - 1], s[k]];
      assert s[..k] == before + high && s[..k + 1] == before + pair;
      EncodingSplits(before, high);
      EncodingSplits(before, pair);
      PairLonger(s[k - 1], s[k]);
    } else {
      assert s[..k + 1] == s[..k] + [s[k]];
      EncodingSplits(s[..k], [s[k]]);
    }
  }

  lemma PairLonger(high: Unit, low: Unit)
    requires IsHigh(high) && IsLow(low)
    ensures ByteLength([high]) == 3 && ByteLength([high, low]) == 4
  {
    var one, two: Text := [high], [high, low];
    assert one[1..] == [] && two[2..] == [] && Encode([]) == [];
    assert Encode(one) == EncodePoint(high) + Encode(one[1..]);
    assert Encode(two) == EncodePoint(PairPoint(high, low)) + Encode(two[2..]);
  }

  lemma {:induction false} PrefixesGrow(s: Text, j: nat, k: nat)
    requires j <= k <= |s|
    ensures ByteLength(s[..j]) <= ByteLength(s[..k])
    decreases k - j
  {
    if j < k {
      OneMoreUnit(s, j);
      PrefixesGrow(s, j + 1, k);
    }
  }

  // ---- cutting at a byte limit ----------------------------------------

  /** The end of a prefix, one unit earlier if it would end in a high surrogate. */
  function Trimmed(s: Text, k: nat): (end: nat)
    requires k <= |s|
    ensures end <= k
  {
    if k > 0 && IsHigh(s[k - 1]) then k - 1 else k
  }

  predicate Fits(s: Text, k: nat, limit: nat)
    requires k <= |s|
  {
    ByteLength(s[..Trimmed(s, k)]) <= limit
  }

  /** Whether a prefix fits is monotone in its length, so a binary search finds the longest. */
  lemma FittingIsMonotone(s: Text, j: nat, k: nat, limit: nat)
    requires j <= k <= |s| && Fits(s, k, limit)
    ensures Fits(s, j, limit)
  {
    assert Trimmed(s, j) <= Trimmed(s, k);
    PrefixesGrow(s, Trimmed(s, j), Trimmed(s, k));
  }

  /** The longest fitting prefix among those of at most `k` units. */
  function CutFrom(s: Text, k: nat, limit: nat): (n: nat)
    requires k <= |s|
    ensures n <= k
  {
    if k == 0 || Fits(s, k, limit) then k else CutFrom(s, k - 1, limit)
  }

  function Prefix(s: Text, limit: nat): Text {
    s[..Trimmed(s, CutFrom(s, |s|, limit))]
  }

  lemma {:induction false} CutIsMaximal(s: Text, k: nat, limit: nat)
    requires k <= |s|
    ensures Fits(s, CutFrom(s, k, limit), limit)
    ensures forall j :: CutFrom(s, k, limit) < j <= k ==> !Fits(s, j, limit)
  {
    hide ByteLength;
    if k == 0 {
      NothingFits(s, limit);
    } else if !Fits(s, k, limit) {
      CutIsMaximal(s, k - 1, limit);
    }
  }

  lemma NothingFits(s: Text, limit: nat)
    ensures Fits(s, 0, limit)
  {
    assert s[..0] == [];
  }

  method Utf8Prefix(value: Text, maximumBytes: nat) returns (prefix: Text)
    ensures prefix == Prefix(value, maximumBytes)
  {
    hide Fits;
    var low, high := 0, |value|;
    NothingFits(value, maximumBytes);
    while low < high
      invariant 0 <= low <= high <= |value|
      invariant Fits(value, low, maximumBytes)
      invariant forall j :: high < j <= |value| ==> !Fits(value, j, maximumBytes)
    {
      var middle := (low + high + 1) / 2;
      var end := if IsHigh(value[middle - 1]) then middle - 1 else middle;
      FitsByLength(value, middle, maximumBytes);
      if ByteLength(value[..end]) <= maximumBytes {
        low := middle;
      } else {
        forall j | middle <= j <= |value| ensures !Fits(value, j, maximumBytes) {
          if Fits(value, j, maximumBytes) { FittingIsMonotone(value, middle, j, maximumBytes); }
        }
        high := middle - 1;
      }
    }
    CutIsMaximal(value, |value|, maximumBytes);
    assert low == CutFrom(value, |value|, maximumBytes);
    var end := if low > 0 && IsHigh(value[low - 1]) then low - 1 else low;
    prefix := value[..end];
  }

  lemma FitsByLength(s: Text, k: nat, limit: nat)
    requires k <= |s|
    ensures Fits(s, k, limit) <==> ByteLength(s[..Trimmed(s, k)]) <= limit
  {
  }

  /** The prefix is within the limit, no cut that does not end in a high surrogate and is within
      the limit is longer, and no surrogate pair is split. */
  lemma PrefixIsLongest(s: Text, limit: nat)
    ensures var r := Prefix(s, limit);
            && |r| <= |s| && r == s[..|r|]
            && ByteLength(r) <= limit
            && (forall j :: 0 <= j <= |s| && Trimmed(s, j) == j && ByteLength(s[..j]) <= limit ==> j <= |r|)
            && (|r| < |s| ==> Separable(r, s[|r|..]))
  {
    hide ByteLength;
    CutIsMaximal(s, |s|, limit);
    var k := CutFrom(s, |s|, limit);
    forall j | 0 <= j <= |s| && Trimmed(s, j) == j && ByteLength(s[..j]) <= limit ensures j <= Trimmed(s, k) {
      assert Fits(s, j, limit);
    }
  }

  // ---- compaction -----------------------------------------------------

  function TrimEnd(s: Text): (r: Text)
    ensures |r| <= |s| && r == s[..|r|]
  {
    if s != [] && IsSpace(s[|s| - 1]) then TrimEnd(s[..|s| - 1]) else s
  }

  datatype Compacted = Compacted(originalBytes: nat, truncated: bool, value: Text)

  function Shortened(value: Text, limit: nat, notice: Text): Text {
    var room := if limit >= ByteLength(notice) then limit - ByteLength(notice) else 0;
    TrimEnd(Prefix(value, room)) + notice
  }

  /** `compactUtf8`; the notice that replaces the cut part begins with a line feed. */
  function Compact(value: Text, limit: nat, notice: Text): Compacted {
    var bytes := ByteLength(value);
    if bytes <= limit then Compacted(bytes, false, value) else Compacted(bytes, true, Shortened(value, limit, notice))
  }

  method CompactUtf8(value: Text, maximumBytes: nat, notice: Text) returns (r: Compacted)
    ensures r == Compact(value, maximumBytes, notice)
  {
    var originalBytes := ByteLength(value);
    if originalBytes <= maximumBytes { return Compacted(originalBytes, false, value); }
    var noticeBytes := ByteLength(notice);
    var prefix := Utf8Prefix(value, if maximumBytes >= noticeBytes then maximumBytes - noticeBytes else 0);
    r := Compacted(originalBytes, true, TrimEnd(prefix) + notice);
  }

  /** A compacted text never exceeds the limit, unless the notice alone does; a text within the
      limit is not touched; a longer one is cut to one of its prefixes and carries the notice. */
  lemma CompactionFits(value: Text, limit: nat, notice: Text)
    requires notice != [] && notice[0] == 0x0A
    ensures var r := Compact(value, limit, notice);
            && ByteLength(r.value) <= (if ByteLength(notice) > limit then ByteLength(notice) else limit)
            && r.originalBytes == ByteLength(value)
            && (r.truncated <==> ByteLength(value) > limit)
            && (!r.truncated ==> r.value == value)
            && (r.truncated ==>
                  exists n :: 0 <= n <= |value| && r.value == value[..n] + notice
                              && ByteLength(r.value) == ByteLength(value[..n]) + ByteLength(notice))
  {
    hide ByteLength, Prefix;
    if ByteLength(value) > limit {
      var room := if limit >= ByteLength(notice) then limit - ByteLength(notice) else 0;
      var prefix := Prefix(value, room);
      var kept := TrimEnd(prefix);
      PrefixIsLongest(value, room);
      PrefixesGrow(prefix, |kept|, |prefix|);
      assert prefix[..|prefix|] == prefix && kept == value[..|kept|];
      LengthsAdd(kept, notice);
    }
  }

  lemma LengthsAdd(a: Text, b: Text)
    requires Separable(a, b)
    ensures ByteLength(a + b) == ByteLength(a) + ByteLength(b)
  {
    EncodingSplits(a, b);
  }
}
