/** JSON documents as texts of UTF-16 code units: a concrete syntax tree that keeps every
    character, its printing, and what it denotes (RFC 8259, sections 2 to 7). */
module JsonText {
  import opened Prelude

  type Unit = n: int | 0 <= n < 0x10000
  type Text = seq<Unit>

  const QUOTE: Unit := 0x22
  const BACKSLASH: Unit := 0x5C
  const COMMA: Unit := 0x2C
  const COLON: Unit := 0x3A
  const OPEN_BRACKET: Unit := 0x5B
  const CLOSE_BRACKET: Unit := 0x5D
  const OPEN_BRACE: Unit := 0x7B
  const CLOSE_BRACE: Unit := 0x7D
  const MINUS: Unit := 0x2D
  const PLUS: Unit := 0x2B
  const DOT: Unit := 0x2E
  const ZERO: Unit := 0x30

  /** The whitespace of the JSON grammar. */
  predicate IsBlank(u: Unit) {
    u == 0x20 || u == 0x09 || u == 0x0A || u == 0x0D
  }

  /** The wider class `\s` of regular expressions. */
  predicate IsSpace(u: Unit) {
    || 0x09 <= u <= 0x0D || u == 0x20 || u == 0xA0 || u == 0x1680 || 0x2000 <= u <= 0x200A
    || u == 0x2028 || u == 0x2029 || u == 0x202F || u == 0x205F || u == 0x3000 || u == 0xFEFF
  }

  predicate IsDigit(u: Unit) {
    0x30 <= u <= 0x39
  }

  predicate IsHex(u: Unit) {
    IsDigit(u) || 0x41 <= u <= 0x46 || 0x61 <= u <= 0x66
  }

  function HexValue(u: Unit): (n: nat)
    requires IsHex(u)
    ensures n < 16
  {
    if IsDigit(u) then u - 0x30 else if u <= 0x46 then u - 0x41 + 10 else u - 0x61 + 10
  }

  predicate IsEscapeLetter(u: Unit) {
    // the letters of the two-character escapes: quote, backslash, slash, b, f, n, r, t
    u == QUOTE || u == BACKSLASH || u == 0x2F || u == 0x62 || u == 0x66 || u == 0x6E || u == 0x72 || u == 0x74
  }

  function EscapeMeaning(letter: Unit): Unit {
    if letter == 0x62 then 0x08
    else if letter == 0x66 then 0x0C
    else if letter == 0x6E then 0x0A
    else if letter == 0x72 then 0x0D
    else if letter == 0x74 then 0x09
    else letter
  }

  // ---- syntax ---------------------------------------------------------

  /** One character of a string: written as itself, as a two-character escape or as four
      hexadecimal digits. */
  datatype Piece = Plain(unit: Unit) | Escape(letter: Unit) | Hex(a: Unit, b: Unit, c: Unit, d: Unit)

  datatype Exponent = Exponent(mark: Unit, sign: Option<Unit>, digits: Text)

  datatype Number = Number(minus: bool, whole: Text, fraction: Option<Text>, exponent: Option<Exponent>)

  datatype Word = True | False | Null

  /** `trailing` is a comma after the last entry and the blanks behind it, which JSON forbids. */
  datatype Value =
    | Constant(word: Word)
    | Numeral(number: Number)
    | Quoted(pieces: seq<Piece>)
    | EmptyArray(blank: Text)
    | Array(blank: Text, items: Items)
    | EmptyObject(blank: Text)
    | Object(blank: Text, members: Members)

  datatype Items =
    | LastItem(value: Value, after: Text, trailing: Option<Text>)
    | Item(value: Value, after: Text, before: Text, rest: Items)

  datatype Members =
    | LastMember(key: seq<Piece>, afterKey: Text, beforeValue: Text, value: Value, after: Text, trailing: Option<Text>)
    | Member(key: seq<Piece>, afterKey: Text, beforeValue: Text, value: Value, after: Text, before: Text, rest: Members)

  datatype Document = Document(before: Text, value: Value, after: Text)

  // ---- printing, with the text that follows ---------------------------

  function WordText(w: Word): Text {
    match w
    case True => [0x74, 0x72, 0x75, 0x65]
    case False => [0x66, 0x61, 0x6C, 0x73, 0x65]
    case Null => [0x6E, 0x75, 0x6C, 0x6C]
  }

  function PutExponent(e: Option<Exponent>, rest: Text): Text {
    if e.None? then rest
    else [e.value.mark] + ((if e.value.sign.Some? then [e.value.sign.value] else []) + (e.value.digits + rest))
  }

  function PutFraction(f: Option<Text>, rest: Text): Text {
    if f.None? then rest else [DOT] + (f.value + rest)
  }

  function PutNumber(n: Number, rest: Text): Text {
    (if n.minus then [MINUS] else []) + (n.whole + PutFraction(n.fraction, PutExponent(n.exponent, rest)))
  }

  function PutPiece(p: Piece, rest: Text): Text {
    match p
    case Plain(u) => [u] + rest
    case Escape(letter) => [BACKSLASH, letter] + rest
    case Hex(a, b, c, d) => [BACKSLASH, 0x75, a, b, c, d] + rest
  }

  function PutPieces(pieces: seq<Piece>, rest: Text): Text {
    if pieces == [] then rest else PutPiece(pieces[0], PutPieces(pieces[1..], rest))
  }

  function PutString(pieces: seq<Piece>, rest: Text): Text {
    [QUOTE] + PutPieces(pieces, [QUOTE] + rest)
  }

  function PutTrailing(trailing: Option<Text>, rest: Text): Text {
    if trailing.None? then rest else [COMMA] + (trailing.value + rest)
  }

  function Put(v: Value, rest: Text): Text {
    match v
    case Constant(w) => WordText(w) + rest
    case Numeral(n) => PutNumber(n, rest)
    case Quoted(pieces) => PutString(pieces, rest)
    case EmptyArray(blank) => [OPEN_BRACKET] + (blank + ([CLOSE_BRACKET] + rest))
    case Array(blank, items) => [OPEN_BRACKET] + (blank + PutItems(items, [CLOSE_BRACKET] + rest))
    case EmptyObject(blank) => [OPEN_BRACE] + (blank + ([CLOSE_BRACE] + rest))
    case Object(blank, members) => [OPEN_BRACE] + (blank + PutMembers(members, [CLOSE_BRACE] + rest))
  }

  function PutItems(items: Items, rest: Text): Text {
    match items
    case LastItem(v, after, trailing) => Put(v, after + PutTrailing(trailing, rest))
    case Item(v, after, before, more) => Put(v, after + ([COMMA] + (before + PutItems(more, rest))))
  }

  function PutMembers(members: Members, rest: Text): Text {
    match members
    case LastMember(key, afterKey, beforeValue, v, after, trailing) =>
      PutString(key, afterKey + ([COLON] + (beforeValue + Put(v, after + PutTrailing(trailing, rest)))))
    case Member(key, afterKey, beforeValue, v, after, before, more) =>
      PutString(key, afterKey +
        ([COLON] + (beforeValue + Put(v, after + ([COMMA] + (before + PutMembers(more, rest)))))))
  }

  /** The text of a document. */
  function Print(d: Document): Text {
    d.before + Put(d.value, d.after)
  }

  // ---- well-formedness ------------------------------------------------

  predicate Blank(t: Text) {
    forall i :: 0 <= i < |t| ==> IsBlank(t[i])
  }

  predicate Digits(t: Text) {
    |t| > 0 && forall i :: 0 <= i < |t| ==> IsDigit(t[i])
  }

  predicate ValidNumber(n: Number) {
    && Digits(n.whole) && (n.whole[0] == ZERO ==> |n.whole| == 1)
    && (n.fraction.Some? ==> Digits(n.fraction.value))
    && (n.exponent.Some? ==>
          && (n.exponent.value.mark == 0x65 || n.exponent.value.mark == 0x45)
          && (n.exponent.value.sign.Some? ==>
                n.exponent.value.sign.value == PLUS || n.exponent.value.sign.value == MINUS)
          && Digits(n.exponent.value.digits))
  }

  /** A character as it may be written if raw control characters are tolerated. */
  predicate LoosePiece(p: Piece) {
    match p
    case Plain(u) => u != QUOTE && u != BACKSLASH
    case Escape(letter) => IsEscapeLetter(letter)
    case Hex(a, b, c, d) => IsHex(a) && IsHex(b) && IsHex(c) && IsHex(d)
  }

  predicate ValidPiece(p: Piece) {
    LoosePiece(p) && (p.Plain? ==> p.unit >= 0x20)
  }

  predicate LoosePieces(pieces: seq<Piece>) {
    forall i :: 0 <= i < |pieces| ==> LoosePiece(pieces[i])
  }

  predicate ValidPieces(pieces: seq<Piece>) {
    forall i :: 0 <= i < |pieces| ==> ValidPiece(pieces[i])
  }

  predicate BlankTrailing(trailing: Option<Text>) {
    trailing.Some? ==> Blank(trailing.value)
  }

  /** The JSON grammar with raw control characters in strings and one trailing comma per
      container tolerated. */
  predicate Loose(v: Value) {
    match v
    case Constant(_) => true
    case Numeral(n) => ValidNumber(n)
    case Quoted(pieces) => LoosePieces(pieces)
    case EmptyArray(blank) => Blank(blank)
    case Array(blank, items) => Blank(blank) && LooseItems(items)
    case EmptyObject(blank) => Blank(blank)
    case Object(blank, members) => Blank(blank) && LooseMembers(members)
  }

  predicate LooseItems(items: Items) {
    match items
    case LastItem(v, after, trailing) => Loose(v) && Blank(after) && BlankTrailing(trailing)
    case Item(v, after, before, more) => Loose(v) && Blank(after) && Blank(before) && LooseItems(more)
  }

  predicate LooseMembers(members: Members) {
    match members
    case LastMember(key, afterKey, beforeValue, v, after, trailing) =>
      LoosePieces(key) && Blank(afterKey) && Blank(beforeValue) && Loose(v) && Blank(after) && BlankTrailing(trailing)
    case Member(key, afterKey, beforeValue, v, after, before, more) =>
      && LoosePieces(key) && Blank(afterKey) && Blank(beforeValue) && Loose(v) && Blank(after) && Blank(before)
      && LooseMembers(more)
  }

  /** The JSON grammar. */
  predicate Valid(v: Value) {
    match v
    case Constant(_) => true
    case Numeral(n) => ValidNumber(n)
    case Quoted(pieces) => ValidPieces(pieces)
    case EmptyArray(blank) => Blank(blank)
    case Array(blank, items) => Blank(blank) && ValidItems(items)
    case EmptyObject(blank) => Blank(blank)
    case Object(blank, members) => Blank(blank) && ValidMembers(members)
  }

  predicate ValidItems(items: Items) {
    match items
    case LastItem(v, after, trailing) => Valid(v) && Blank(after) && trailing.None?
    case Item(v, after, before, more) => Valid(v) && Blank(after) && Blank(before) && ValidItems(more)
  }

  predicate ValidMembers(members: Members) {
    match members
    case LastMember(key, afterKey, beforeValue, v, after, trailing) =>
      ValidPieces(key) && Blank(afterKey) && Blank(beforeValue) && Valid(v) && Blank(after) && trailing.None?
    case Member(key, afterKey, beforeValue, v, after, before, more) =>
      && ValidPieces(key) && Blank(afterKey) && Blank(beforeValue) && Valid(v) && Blank(after) && Blank(before)
      && ValidMembers(more)
  }

  predicate ValidDocument(d: Document) {
    Blank(d.before) && Valid(d.value) && Blank(d.after)
  }

  predicate LooseDocument(d: Document) {
    Blank(d.before) && Loose(d.value) && Blank(d.after)
  }

  // ---- meaning --------------------------------------------------------

  function Decoded(p: Piece): Unit
    requires LoosePiece(p)
  {
    match p
    case Plain(u) => u
    case Escape(letter) => EscapeMeaning(letter)
    case Hex(a, b, c, d) => HexValue(a) * 4096 + HexValue(b) * 256 + HexValue(c) * 16 + HexValue(d)
  }

  /** The string a sequence of pieces denotes. */
  function Decode(pieces: seq<Piece>): (t: Text)
    requires LoosePieces(pieces)
    ensures |t| == |pieces|
  {
    if pieces == [] then [] else [Decoded(pieces[0])] + Decode(pieces[1..])
  }

  /** A document without its concrete syntax; members keep their order and repetitions. */
  datatype Json =
    | JConstant(word: Word)
    | JNumber(number: Number)
    | JString(text: Text)
    | JArray(items: seq<Json>)
    | JObject(members: seq<(Text, Json)>)

  function Meaning(v: Value): Json
    requires Loose(v)
  {
    match v
    case Constant(w) => JConstant(w)
    case Numeral(n) => JNumber(n)
    case Quoted(pieces) => JString(Decode(pieces))
    case EmptyArray(_) => JArray([])
    case Array(_, items) => JArray(ItemsMeaning(items))
    case EmptyObject(_) => JObject([])
    case Object(_, members) => JObject(MembersMeaning(members))
  }

  function ItemsMeaning(items: Items): seq<Json>
    requires LooseItems(items)
  {
    match items
    case LastItem(v, _, _) => [Meaning(v)]
    case Item(v, _, _, more) => [Meaning(v)] + ItemsMeaning(more)
  }

  function MembersMeaning(members: Members): seq<(Text, Json)>
    requires LooseMembers(members)
  {
    match members
    case LastMember(key, _, _, v, _, _) => [(Decode(key), Meaning(v))]
    case Member(key, _, _, v, _, _, more) => [(Decode(key), Meaning(v))] + MembersMeaning(more)
  }

  // ---- where tokens end -----------------------------------------------

  /** The first unit that is not white space, if there is one. */
  function FirstVisible(t: Text): Option<Unit> {
    if t == [] then None else if IsSpace(t[0]) then FirstVisible(t[1..]) else Some(t[0])
  }

  lemma {:induction false} BlanksAreInvisible(blank: Text, rest: Text)
    requires Blank(blank)
    ensures FirstVisible(blank + rest) == FirstVisible(rest)
  {
    if blank == [] {
      assert blank + rest == rest;
    } else {
      assert (blank + rest)[1..] == blank[1..] + rest;
      BlanksAreInvisible(blank[1..], rest);
    }
  }

  /** The units a value may begin with. */
  predicate StartsValue(u: Unit) {
    || u == QUOTE || u == OPEN_BRACKET || u == OPEN_BRACE || u == MINUS || IsDigit(u)
    || u == 0x74 || u == 0x66 || u == 0x6E
  }

  lemma ValueStarts(v: Value, rest: Text)
    requires Loose(v)
    ensures Put(v, rest) != [] && StartsValue(Put(v, rest)[0])
    ensures FirstVisible(Put(v, rest)) == Some(Put(v, rest)[0])
  {
  }

  /** The text of a number, which ends with it. */
  function NumberText(n: Number): Text {
    PutNumber(n, [])
  }

  predicate IsNumberUnit(u: Unit) {
    IsDigit(u) || u == MINUS || u == PLUS || u == DOT || u == 0x65 || u == 0x45
  }

  predicate NumberUnits(t: Text) {
    forall i :: 0 <= i < |t| ==> IsNumberUnit(t[i])
  }

  lemma JoinedUnits(a: Text, b: Text)
    requires NumberUnits(a) && NumberUnits(b)
    ensures NumberUnits(a + b)
  {
    hide IsNumberUnit;
  }

  lemma Associates(a: Text, b: Text, c: Text)
    ensures a + (b + c) == (a + b) + c
  {
  }

  lemma NumberSplits(n: Number, rest: Text)
    requires ValidNumber(n)
    ensures PutNumber(n, rest) == NumberText(n) + rest
    ensures NumberUnits(NumberText(n))
  {
    hide IsNumberUnit, PutExponent, PutFraction, Digits, NumberUnits;
    var exponent := PutExponent(n.exponent, []);
    var tail := PutFraction(n.fraction, exponent);
    var sign: Text := if n.minus then [MINUS] else [];
    NumberParts(n);
    ExponentSplits(n.exponent, rest);
    FractionSplits(n.fraction, exponent, rest);
    Associates(n.whole, tail, rest);
    Associates(sign, n.whole + tail, rest);
    JoinedUnits(n.whole, tail);
    JoinedUnits(sign, n.whole + tail);
  }

  lemma NumberParts(n: Number)
    requires ValidNumber(n)
    ensures NumberUnits(n.whole) && NumberUnits(if n.minus then [MINUS] else [])
    ensures NumberUnits(PutExponent(n.exponent, []))
    ensures NumberUnits(PutFraction(n.fraction, PutExponent(n.exponent, [])))
  {
    if n.exponent.Some? {
      var e := n.exponent.value;
      var sign: Text := if e.sign.Some? then [e.sign.value] else [];
      assert e.digits + [] == e.digits;
      assert NumberUnits(sign) && NumberUnits([e.mark]) && NumberUnits(e.digits);
      JoinedUnits(sign, e.digits);
      JoinedUnits([e.mark], sign + e.digits);
    }
    if n.fraction.Some? {
      JoinedUnits(n.fraction.value, PutExponent(n.exponent, []));
      JoinedUnits([DOT], n.fraction.value + PutExponent(n.exponent, []));
    }
  }

  lemma ExponentSplits(e: Option<Exponent>, rest: Text)
    ensures PutExponent(e, rest) == PutExponent(e, []) + rest
  {
    if e.Some? {
      var sign: Text := if e.value.sign.Some? then [e.value.sign.value] else [];
      assert e.value.digits + [] == e.value.digits;
      Associates(sign, e.value.digits, rest);
      Associates([e.value.mark], sign + e.value.digits, rest);
    }
  }

  lemma FractionSplits(f: Option<Text>, tail: Text, rest: Text)
    ensures PutFraction(f, tail + rest) == PutFraction(f, tail) + rest
  {
    if f.Some? {
      Associates(f.value, tail, rest);
      Associates([DOT], f.value + tail, rest);
    }
  }

  // ---- printing in front of more text ---------------------------------

  lemma {:induction false} PiecesSplit(pieces: seq<Piece>, a: Text, b: Text)
    ensures PutPieces(pieces, a + b) == PutPieces(pieces, a) + b
  {
    hide PutPiece;
    if pieces == [] {
    } else {
      PiecesSplit(pieces[1..], a, b);
      PieceSplits(pieces[0], PutPieces(pieces[1..], a), b);
    }
  }

  lemma PieceSplits(p: Piece, a: Text, b: Text)
    ensures PutPiece(p, a + b) == PutPiece(p, a) + b
  {
  }

  lemma StringSplits(pieces: seq<Piece>, a: Text, b: Text)
    ensures PutString(pieces, a + b) == PutString(pieces, a) + b
  {
    Associates([QUOTE], a, b);
    PiecesSplit(pieces, [QUOTE] + a, b);
    Associates([QUOTE], PutPieces(pieces, [QUOTE] + a), b);
  }

  lemma TrailingSplits(after: Text, trailing: Option<Text>, a: Text, b: Text)
    ensures after + PutTrailing(trailing, a + b) == (after + PutTrailing(trailing, a)) + b
  {
    if trailing.Some? {
      Associates(trailing.value, a, b);
      Associates([COMMA], trailing.value + a, b);
    }
    Associates(after, PutTrailing(trailing, a), b);
  }

  lemma BracketSplits(open: Unit, blank: Text, a: Text, b: Text)
    ensures [open] + (blank + (a + b)) == ([open] + (blank + a)) + b
  {
    Associates(blank, a, b);
    Associates([open], blank + a, b);
  }

  /** What follows a printed value stays behind it. */
  lemma {:induction false} PrintingSplits(v: Value, a: Text, b: Text)
    requires Loose(v)
    ensures Put(v, a + b) == Put(v, a) + b
    decreases v
  {
    hide PutNumber, PutString;
    match v
    case Constant(w) => Associates(WordText(w), a, b);
    case Numeral(n) =>
      NumberSplits(n, a + b);
      NumberSplits(n, a);
      Associates(NumberText(n), a, b);
    case Quoted(pieces) => StringSplits(pieces, a, b);
    case EmptyArray(blank) =>
      Associates([CLOSE_BRACKET], a, b);
      BracketSplits(OPEN_BRACKET, blank, [CLOSE_BRACKET] + a, b);
    case EmptyObject(blank) =>
      Associates([CLOSE_BRACE], a, b);
      BracketSplits(OPEN_BRACE, blank, [CLOSE_BRACE] + a, b);
    case Array(blank, items) =>
      Associates([CLOSE_BRACKET], a, b);
      ItemsSplit(items, [CLOSE_BRACKET] + a, b);
      BracketSplits(OPEN_BRACKET, blank, PutItems(items, [CLOSE_BRACKET] + a), b);
    case Object(blank, members) =>
      Associates([CLOSE_BRACE], a, b);
      MembersSplit(members, [CLOSE_BRACE] + a, b);
      BracketSplits(OPEN_BRACE, blank, PutMembers(members, [CLOSE_BRACE] + a), b);
  }

  lemma {:induction false} ItemsSplit(items: Items, a: Text, b: Text)
    requires LooseItems(items)
    ensures PutItems(items, a + b) == PutItems(items, a) + b
    decreases items
  {
    hide Put, Loose, Blank;
    match items
    case LastItem(v, after, trailing) =>
      TrailingSplits(after, trailing, a, b);
      PrintingSplits(v, after + PutTrailing(trailing, a), b);
    case Item(v, after, before, more) =>
      ItemsSplit(more, a, b);
      SeparatorSplits(after, before, PutItems(more, a), b);
      PrintingSplits(v, after + ([COMMA] + (before + PutItems(more, a))), b);
  }

  lemma SeparatorSplits(after: Text, before: Text, a: Text, b: Text)
    ensures after + ([COMMA] + (before + (a + b))) == (after + ([COMMA] + (before + a))) + b
  {
    BracketSplits(COMMA, before, a, b);
    Associates(after, [COMMA] + (before + a), b);
  }

  lemma KeySplits(key: seq<Piece>, afterKey: Text, beforeValue: Text, a: Text, b: Text)
    ensures PutString(key, afterKey + ([COLON] + (beforeValue + (a + b)))) ==
            PutString(key, afterKey + ([COLON] + (beforeValue + a))) + b
  {
    hide PutString;
    BracketSplits(COLON, beforeValue, a, b);
    Associates(afterKey, [COLON] + (beforeValue + a), b);
    StringSplits(key, afterKey + ([COLON] + (beforeValue + a)), b);
  }

  lemma {:induction false} MembersSplit(members: Members, a: Text, b: Text)
    requires LooseMembers(members)
    ensures PutMembers(members, a + b) == PutMembers(members, a) + b
    decreases members
  {
    hide Put, Loose, Blank, PutString;
    match members
    case LastMember(key, afterKey, beforeValue, v, after, trailing) =>
      TrailingSplits(after, trailing, a, b);
      PrintingSplits(v, after + PutTrailing(trailing, a), b);
      KeySplits(key, afterKey, beforeValue, Put(v, after + PutTrailing(trailing, a)), b);
    case Member(key, afterKey, beforeValue, v, after, before, more) =>
      MembersSplit(more, a, b);
      SeparatorSplits(after, before, PutMembers(more, a), b);
      PrintingSplits(v, after + ([COMMA] + (before + PutMembers(more, a))), b);
      KeySplits(key, afterKey, beforeValue, Put(v, after + ([COMMA] + (before + PutMembers(more, a)))), b);
  }

  // ---- the units of the grammar ---------------------------------------

  /** Blanks, digits and escapes, unit by unit (RFC 8259, sections 2, 6 and 7), and what counts as white
      space in a text (ECMAScript, sections 12.2 and 12.3). */
  lemma UnitsExactly(u: Unit)
    ensures IsBlank(u) <==> u in {0x20, 0x09, 0x0A, 0x0D}
    ensures IsDigit(u) <==> u in {0x30, 0x31, 0x32, 0x33, 0x34, 0x35, 0x36, 0x37, 0x38, 0x39}
    ensures IsHex(u) <==> IsDigit(u) || u in {0x41, 0x42, 0x43, 0x44, 0x45, 0x46, 0x61, 0x62, 0x63, 0x64, 0x65, 0x66}
    ensures IsHex(u) ==> HexValue(u) == u - (if u < 0x3A then 0x30 else if u < 0x47 then 0x37 else 0x57)
    ensures IsEscapeLetter(u) <==> u in {0x22, 0x5C, 0x2F, 0x62, 0x66, 0x6E, 0x72, 0x74}
    ensures u in {0x22, 0x5C, 0x2F} ==> EscapeMeaning(u) == u
    ensures [EscapeMeaning(0x62), EscapeMeaning(0x66), EscapeMeaning(0x6E), EscapeMeaning(0x72), EscapeMeaning(0x74)] ==
            [0x08, 0x0C, 0x0A, 0x0D, 0x09]
    ensures IsSpace(u) <==>
            u in {0x09, 0x0A, 0x0B, 0x0C, 0x0D, 0x20, 0xA0, 0x1680, 0x2000, 0x2001, 0x2002, 0x2003, 0x2004, 0x2005,
                  0x2006, 0x2007, 0x2008, 0x2009, 0x200A, 0x2028, 0x2029, 0x202F, 0x205F, 0x3000, 0xFEFF}
  {
  }
}
