/** What canonical text looks like, character by character (src/attachment-execution-receipt.mjs,
    `canonicalize`; RFC 8785, sections 3.2.2 and 3.2.3, and RFC 3629, section 3). */
module CanonicalForm {
  import opened Prelude
  import opened JsonText
  import opened JsonParser
  import JsonRepair
  import opened Utf8
  import opened CanonicalJson

  // ---- the order of keys ----------------------------------------------

  /** By the first unit at which the keys differ, or the shorter first when there is none. */
  ghost predicate KeyBefore(a: Text, b: Text) {
    exists k: nat ::
      && k <= |a| && k <= |b| && a[..k] == b[..k]
      && ((k == |a| && k < |b|) || (k < |a| && k < |b| && a[k] < b[k]))
  }

  lemma {:induction false} BeforeExactly(a: Text, b: Text)
    ensures Before(a, b) <==> KeyBefore(a, b)
  {
    if a == [] || b == [] {
      if b != [] { assert a[..0] == b[..0]; }
    } else {
      BeforeExactly(a[1..], b[1..]);
      if a[0] < b[0] { assert a[..0] == b[..0]; }
      if a[0] == b[0] { SameFirst(a, b); }
      if k: nat :| k <= |a| && k <= |b| && a[..k] == b[..k]
                   && ((k == |a| && k < |b|) || (k < |a| && k < |b| && a[k] < b[k])) {
        if k > 0 { assert a[0] == a[..k][0] && b[0] == b[..k][0]; }
      }
    }
  }

  lemma SameFirst(a: Text, b: Text)
    requires a != [] && b != [] && a[0] == b[0]
    ensures KeyBefore(a, b) <==> KeyBefore(a[1..], b[1..])
  {
    var c, d := a[1..], b[1..];
    if k: nat :| k <= |c| && k <= |d| && c[..k] == d[..k]
                 && ((k == |c| && k < |d|) || (k < |c| && k < |d| && c[k] < d[k])) {
      assert a[..k + 1] == [a[0]] + c[..k] && b[..k + 1] == [b[0]] + d[..k];
    }
    if k: nat :| k <= |a| && k <= |b| && a[..k] == b[..k]
                 && ((k == |a| && k < |b|) || (k < |a| && k < |b| && a[k] < b[k])) {
      assert k > 0;
      assert c[..k - 1] == a[..k][1..] && d[..k - 1] == b[..k][1..];
    }
  }

  // ---- how strings are written ----------------------------------------

  /** How one unit stands between the quotes: the quote and the backslash behind a backslash, five
      control characters by a letter, the other ones by four lower-case hexadecimal digits, and
      everything else as it is. */
  function UnitForm(u: Unit): Text {
    if u == 0x22 then [0x5C, 0x22]
    else if u == 0x5C then [0x5C, 0x5C]
    else if u == 0x08 then [0x5C, 0x62]
    else if u == 0x09 then [0x5C, 0x74]
    else if u == 0x0A then [0x5C, 0x6E]
    else if u == 0x0C then [0x5C, 0x66]
    else if u == 0x0D then [0x5C, 0x72]
    else if u < 0x10 then [0x5C, 0x75, 0x30, 0x30, 0x30, if u < 0x0A then 0x30 + u else 0x57 + u]
    else if u < 0x20 then [0x5C, 0x75, 0x30, 0x30, 0x31, if u < 0x1A then 0x20 + u else 0x47 + u]
    else [u]
  }

  function UnitForms(s: Text): Text {
    if s == [] then [] else UnitForm(s[0]) + UnitForms(s[1..])
  }

  lemma PieceForm(u: Unit, rest: Text)
    ensures PutPiece(PieceOf(u), rest) == UnitForm(u) + rest
  {
    if u < 0x20 { assert u / 16 == (if u < 0x10 then 0 else 1) && u % 16 == if u < 0x10 then u else u - 0x10; }
  }

  lemma PiecesStep(s: Text, rest: Text)
    requires s != []
    ensures PutPieces(PiecesOf(s), rest) == PutPiece(PieceOf(s[0]), PutPieces(PiecesOf(s[1..]), rest))
    ensures UnitForms(s) == UnitForm(s[0]) + UnitForms(s[1..])
  {
    hide PieceOf, UnitForm, PutPiece;
    assert PiecesOf(s)[1..] == PiecesOf(s[1..]) && PiecesOf(s)[0] == PieceOf(s[0]);
  }

  lemma {:induction false} PiecesForm(s: Text, rest: Text)
    ensures PutPieces(PiecesOf(s), rest) == UnitForms(s) + rest
  {
    hide PieceOf, UnitForm, PutPiece, PutPieces, PiecesOf, UnitForms;
    if s == [] {
      EmptyForm(rest);
    } else {
      PiecesForm(s[1..], rest);
      PiecesStep(s, rest);
      PieceForm(s[0], UnitForms(s[1..]) + rest);
      assert UnitForm(s[0]) + (UnitForms(s[1..]) + rest) == UnitForm(s[0]) + UnitForms(s[1..]) + rest;
    }
  }

  lemma EmptyForm(rest: Text)
    ensures PutPieces(PiecesOf([]), rest) == UnitForms([]) + rest
  {
    assert UnitForms([]) + rest == rest;
  }

  /** A string in the domain is its units in their form between quotes. */
  lemma StringForm(s: Text)
    ensures CanonicalString(s) == if WellPaired(s) then Some([0x22] + UnitForms(s) + [0x22]) else None
  {
    hide PutPieces, PiecesOf, UnitForms;
    PiecesForm(s, [QUOTE] + []);
    assert [QUOTE] + (UnitForms(s) + ([QUOTE] + [])) == [0x22] + UnitForms(s) + [0x22];
  }

  // ---- the form of a document -----------------------------------------

  /** A string written unit by unit in its form. */
  predicate StringInForm(pieces: seq<Piece>)
    requires LoosePieces(pieces)
  {
    PutPieces(pieces, []) == UnitForms(Decode(pieces))
  }

  function FirstKey(members: Members): seq<Piece> {
    members.key
  }

  /** No blank anywhere, integers without fraction, exponent, leading zero or negative zero, strings in
      their form, and in every object at every depth each key before the next. */
  ghost predicate InForm(v: Value)
    requires Loose(v)
  {
    match v
    case Constant(_) => true
    case Numeral(n) => n.fraction.None? && n.exponent.None? && (n.minus ==> n.whole != [0x30])
    case Quoted(pieces) => StringInForm(pieces)
    case EmptyArray(blank) => blank == []
    case Array(blank, items) => blank == [] && ItemsInForm(items)
    case EmptyObject(blank) => blank == []
    case Object(blank, members) => blank == [] && MembersInForm(members)
  }

  ghost predicate ItemsInForm(items: Items)
    requires LooseItems(items)
  {
    match items
    case LastItem(v, after, trailing) => InForm(v) && after == [] && trailing.None?
    case Item(v, after, before, more) => InForm(v) && after == [] && before == [] && ItemsInForm(more)
  }

  ghost predicate MembersInForm(members: Members)
    requires LooseMembers(members)
  {
    match members
    case LastMember(key, afterKey, beforeValue, v, after, trailing) =>
      StringInForm(key) && afterKey == [] && beforeValue == [] && InForm(v) && after == [] && trailing.None?
    case Member(key, afterKey, beforeValue, v, after, before, more) =>
      && StringInForm(key) && afterKey == [] && beforeValue == [] && InForm(v) && after == [] && before == []
      && MembersInForm(more) && KeyBefore(Decode(key), Decode(FirstKey(more)))
  }

  /** Every object, at every depth, lists its keys in order. */
  ghost predicate Ordered(t: Tree) {
    match t
    case List(items) => forall i :: 0 <= i < |items| ==> Ordered(items[i])
    case Record(fields) => InOrder(fields) && forall i :: 0 <= i < |fields| ==> Ordered(fields[i].value)
    case _ => true
  }

  lemma {:induction false} DigitsOfPositive(n: nat)
    requires n > 0
    ensures DigitsOf(n) != [ZERO]
  {
    DigitsReadBack(n);
    if DigitsOf(n) == [ZERO] { ZeroIsZero(); }
  }

  lemma ZeroIsZero()
    ensures DigitsValue([ZERO]) == 0
  {
    assert [ZERO][..0] == [];
  }

  lemma PiecesInForm(s: Text)
    ensures LoosePieces(PiecesOf(s)) && StringInForm(PiecesOf(s))
  {
    hide PutPieces, UnitForms;
    PiecesForm(s, []);
    assert UnitForms(s) + [] == UnitForms(s);
  }

  lemma {:induction false} SyntaxInForm(t: Tree)
    requires InDomain(t) && Ordered(t)
    ensures Loose(Syntax(t)) && InForm(Syntax(t))
    decreases t
  {
    SyntaxIsValid(t);
    match t
    case Integer(n) => if n < 0 { DigitsOfPositive(-n); }
    case Str(s) => PiecesInForm(s);
    case List(items) => if items != [] { ItemsSyntaxInForm(items); }
    case Record(fields) => if fields != [] { MembersSyntaxInForm(fields); }
    case _ =>
  }

  lemma {:induction false} ItemsSyntaxInForm(items: seq<Tree>)
    requires items != [] && forall i :: 0 <= i < |items| ==> InDomain(items[i]) && Ordered(items[i])
    ensures LooseItems(ItemsSyntax(items)) && ItemsInForm(ItemsSyntax(items))
    decreases items
  {
    hide Syntax, InForm, Loose, InDomain, Ordered;
    ItemsSyntaxIsValid(items);
    SyntaxInForm(items[0]);
    if |items| > 1 { ItemsSyntaxInForm(items[1..]); }
  }

  lemma {:induction false} MembersSyntaxInForm(fields: seq<Entry<Tree>>)
    requires fields != [] && InOrder(fields)
    requires forall i :: 0 <= i < |fields| ==> InDomain(fields[i].value) && Ordered(fields[i].value)
    ensures LooseMembers(MembersSyntax(fields)) && MembersInForm(MembersSyntax(fields))
    ensures LoosePieces(FirstKey(MembersSyntax(fields))) && Decode(FirstKey(MembersSyntax(fields))) == fields[0].key
    decreases fields
  {
    hide Syntax, InForm, Loose, InDomain, Ordered, Before, KeyBefore, StringInForm, PiecesOf, Decode;
    MembersSyntaxIsValid(fields);
    SyntaxInForm(fields[0].value);
    PiecesInForm(fields[0].key);
    PiecesDenote(fields[0].key);
    if |fields| > 1 {
      MembersSyntaxInForm(fields[1..]);
      BeforeExactly(fields[0].key, fields[1].key);
    }
  }

  lemma PiecesDenote(s: Text)
    ensures LoosePieces(PiecesOf(s)) && Decode(PiecesOf(s)) == s
  {
  }

  lemma {:induction false} SortedIsOrdered(t: Tree)
    requires Proper(t)
    ensures Ordered(Sorted(t)) && Proper(Sorted(t))
    decreases t
  {
    match t
    case List(items) =>
      forall i | 0 <= i < |items| ensures SortedItems(items)[i] == Sorted(items[i]) && Ordered(Sorted(items[i]))
                                          && Proper(Sorted(items[i])) {
        SortedItemAt(items, i);
        SortedIsOrdered(items[i]);
      }
    case Record(fields) => RecordIsOrdered(fields);
    case _ =>
  }

  lemma {:induction false} RecordIsOrdered(fields: seq<Entry<Tree>>)
    requires Proper(Record(fields))
    ensures Ordered(Sorted(Record(fields))) && Proper(Sorted(Record(fields)))
    decreases fields
  {
    hide Before;
    var r := SortedFields(fields);
    var s := SortByKey(r);
    SortedKeysDistinct(fields);
    SortOrders(r);
    forall i | 0 <= i < |s| ensures Ordered(s[i].value) && Proper(s[i].value) {
      var k :| 0 <= k < |r| && r[k] == s[i];
      SortedFieldAt(fields, k);
      SortedIsOrdered(fields[k].value);
    }
    OrderedIsDistinct(s);
  }

  lemma OrderedIsDistinct(s: seq<Entry<Tree>>)
    requires InOrder(s)
    ensures forall i, j :: 0 <= i < j < |s| ==> s[i].key != s[j].key
  {
    forall i, j | 0 <= i < j < |s| ensures s[i].key != s[j].key { BeforeIsTotal(s[i].key, s[j].key); }
  }

  /** Sorting a value that is in order changes nothing. */
  lemma {:induction false} OrderedIsSorted(t: Tree)
    requires Ordered(t)
    ensures Sorted(t) == t
    decreases t
  {
    match t
    case List(items) =>
      forall i | 0 <= i < |items| ensures SortedItems(items)[i] == items[i] {
        SortedItemAt(items, i);
        OrderedIsSorted(items[i]);
      }
      assert SortedItems(items) == items;
    case Record(fields) =>
      forall i | 0 <= i < |fields| ensures SortedFields(fields)[i] == fields[i] {
        SortedFieldAt(fields, i);
        OrderedIsSorted(fields[i].value);
      }
      assert SortedFields(fields) == fields;
      OrderedIsDistinct(fields);
      SortOfOrdered(fields);
    case _ =>
  }

  lemma SortOfOrdered(fields: seq<Entry<Tree>>)
    requires InOrder(fields) && DistinctKeys(fields)
    ensures SortByKey(fields) == fields
  {
    hide Before;
    var s := SortByKey(fields);
    SortOrders(fields);
    forall i | 0 <= i < |fields| ensures fields[i] in s { SortMember(fields, fields[i]); }
    OrderIsUnique(s, fields);
  }

  lemma ProperTwice(t: Tree)
    requires Proper(t)
    ensures SameUpToOrder(t, Sorted(t))
  {
    hide Proper, Sorted, SameUpToOrder, Ordered;
    SortedIsOrdered(t);
    OrderedIsSorted(Sorted(t));
    SortedExactly(t, Sorted(t));
  }

  /** The canonical text of a value, read by the parser, is a document in this form, and it denotes the
      value up to the order in which objects list their keys. */
  lemma CanonicalTextIsInForm(t: Tree)
    requires Proper(t) && Canonicalize(t).Some?
    ensures var r := Parse(Canonicalize(t).value);
      && r.Some? && r.value.before == [] && r.value.after == [] && Loose(r.value.value)
      && InForm(r.value.value) && SameUpToOrder(t, Read(r.value.value))
  {
    hide Canonicalize, Parse, Put, Syntax, Read, Sorted, InDomain, Valid, Loose, Proper, InForm, Ordered, SameUpToOrder;
    AcceptsExactly(t);
    TextIsPrinting(t);
    SortedIsOrdered(t);
    ProperTwice(t);
    var v := Syntax(Sorted(t));
    SyntaxIsValid(Sorted(t));
    SyntaxInForm(Sorted(t));
    SyntaxReadsBack(Sorted(t));
    assert [] + Put(v, []) == Put(v, []);
    ParsesItsPrinting(Document([], v, []));
  }

  // ---- bytes ----------------------------------------------------------

  function Over(u: int, base: int): int {
    u - base
  }

  /** The bytes of a code point: as few as its size allows, the first saying how many, the others of six
      bits each, and together its value. */
  lemma PointForm(p: Point)
    requires !(0xD800 <= p <= 0xDFFF)
    ensures var b := EncodePoint(p);
      && |b| == (if p < 0x80 then 1 else if p < 0x800 then 2 else if p < 0x10000 then 3 else 4)
      && (forall i :: 1 <= i < |b| ==> 0x80 <= b[i] <= 0xBF)
      && (|b| == 1 ==> b[0] == p)
      && (|b| == 2 ==> Over(b[0], 0xC0) * 64 + Over(b[1], 0x80) == p)
      && (|b| == 3 ==> Over(b[0], 0xE0) * 4096 + Over(b[1], 0x80) * 64 + Over(b[2], 0x80) == p)
      && (|b| == 4 ==>
            Over(b[0], 0xF0) * 262144 + Over(b[1], 0x80) * 4096 + Over(b[2], 0x80) * 64 + Over(b[3], 0x80) == p)
  {
    var p1 := p / 64;
    var p2 := p1 / 64;
    var p3 := p2 / 64;
    assert p == p1 * 64 + p % 64 && p1 == p2 * 64 + p1 % 64 && p2 == p3 * 64 + p2 % 64;
  }

  /** The bytes of a text: point by point, a surrogate pair being one point above U+FFFF. */
  lemma BytesForm(s: Text)
    requires WellPaired(s) && s != []
    ensures if 0xD800 <= s[0] <= 0xDBFF then
              && |s| >= 2 && 0xDC00 <= s[1] <= 0xDFFF && WellPaired(s[2..])
              && Encode(s) == EncodePoint(0x10000 + Over(s[0], 0xD800) * 0x400 + Over(s[1], 0xDC00)) + Encode(s[2..])
            else
              !(0xDC00 <= s[0] <= 0xDFFF) && WellPaired(s[1..]) && Encode(s) == EncodePoint(s[0]) + Encode(s[1..])
  {
    hide EncodePoint, PairPoint, WellPaired, Encode;
    FirstOfBytes(s);
    if IsHigh(s[0]) { PairIsPoint(s[0], s[1]); }
  }

  lemma FirstOfBytes(s: Text)
    requires WellPaired(s) && s != []
    ensures if IsHigh(s[0]) then
              StartsPair(s) && WellPaired(s[2..]) && Encode(s) == EncodePoint(PairPoint(s[0], s[1])) + Encode(s[2..])
            else
              !IsLow(s[0]) && WellPaired(s[1..]) && Encode(s) == EncodePoint(s[0]) + Encode(s[1..])
  {
    hide EncodePoint, PairPoint;
  }

  lemma PairIsPoint(high: Unit, low: Unit)
    requires IsHigh(high) && IsLow(low)
    ensures PairPoint(high, low) == 0x10000 + Over(high, 0xD800) * 0x400 + Over(low, 0xDC00)
  {
  }

  /** A value is signed over the bytes of its canonical text. */
  lemma SignedBytes(t: Tree)
    ensures CanonicalBytes(t).Some? <==> Canonicalize(t).Some?
    ensures CanonicalBytes(t).Some? ==> CanonicalBytes(t).value == Encode(Canonicalize(t).value)
  {
    hide Canonicalize, Encode;
  }
}
