/** `JSON.parse` on texts of code units, keeping the concrete syntax. It accepts exactly the
    texts of the grammar and reads each of them in its only way. */
module JsonParser {
  import opened Prelude
  import opened JsonText

  function BlankLength(s: Text): (n: nat)
    ensures n <= |s| && Blank(s[..n]) && (n < |s| ==> !IsBlank(s[n]))
  {
    if s == [] || !IsBlank(s[0]) then 0 else 1 + BlankLength(s[1..])
  }

  function DigitsLength(s: Text): (n: nat)
    ensures n <= |s| && (forall i :: 0 <= i < n ==> IsDigit(s[i])) && (n < |s| ==> !IsDigit(s[n]))
  {
    if s == [] || !IsDigit(s[0]) then 0 else 1 + DigitsLength(s[1..])
  }

  datatype Parsed<T> = Parsed(value: T, rest: Text)

  // ---- strings --------------------------------------------------------

  /** The pieces up to the closing quote. */
  function ParsePieces(s: Text): (r: Option<Parsed<seq<Piece>>>)
    ensures r.Some? ==> |r.value.rest| < |s|
  {
    if s == [] then None
    else if s[0] == QUOTE then Some(Parsed([], s[1..]))
    else if s[0] == BACKSLASH then
      if |s| < 2 then None
      else if s[1] == 0x75 then
        if |s| >= 6 && IsHex(s[2]) && IsHex(s[3]) && IsHex(s[4]) && IsHex(s[5]) then
          Prepend(Hex(s[2], s[3], s[4], s[5]), ParsePieces(s[6..]))
        else None
      else if IsEscapeLetter(s[1]) then Prepend(Escape(s[1]), ParsePieces(s[2..]))
      else None
    else if s[0] < 0x20 then None
    else Prepend(Plain(s[0]), ParsePieces(s[1..]))
  }

  function Prepend(p: Piece, r: Option<Parsed<seq<Piece>>>): Option<Parsed<seq<Piece>>> {
    if r.None? then None else Some(Parsed([p] + r.value.value, r.value.rest))
  }

  // ---- numbers --------------------------------------------------------

  function ParseFraction(s: Text): (r: Option<Parsed<Option<Text>>>)
    ensures r.Some? ==> |r.value.rest| <= |s|
  {
    if s == [] || s[0] != DOT then Some(Parsed(None, s))
    else
      var n := DigitsLength(s[1..]);
      if n == 0 then None else Some(Parsed(Some(s[1..][..n]), s[1..][n..]))
  }

  function ParseExponent(s: Text): (r: Option<Parsed<Option<Exponent>>>)
    ensures r.Some? ==> |r.value.rest| <= |s|
  {
    if s == [] || (s[0] != 0x65 && s[0] != 0x45) then Some(Parsed(None, s))
    else if |s| > 1 && (s[1] == PLUS || s[1] == MINUS) then ParseExponentDigits(s[0], Some(s[1]), s[2..])
    else ParseExponentDigits(s[0], None, s[1..])
  }

  function ParseExponentDigits(mark: Unit, sign: Option<Unit>, t: Text): (r: Option<Parsed<Option<Exponent>>>)
    ensures r.Some? ==> |r.value.rest| <= |t|
  {
    var n := DigitsLength(t);
    if n == 0 then None else Some(Parsed(Some(Exponent(mark, sign, t[..n])), t[n..]))
  }

  function ParseNumber(s: Text): (r: Option<Parsed<Number>>)
    ensures r.Some? ==> |r.value.rest| < |s|
  {
    if s != [] && s[0] == MINUS then ParseUnsigned(true, s[1..]) else ParseUnsigned(false, s)
  }

  function ParseUnsigned(minus: bool, t: Text): (r: Option<Parsed<Number>>)
    ensures r.Some? ==> |r.value.rest| < |t|
  {
    if t == [] || !IsDigit(t[0]) then None
    else
      var n := if t[0] == ZERO then 1 else DigitsLength(t);
      match ParseFraction(t[n..])
      case None => None
      case Some(f) =>
        match ParseExponent(f.rest)
        case None => None
        case Some(e) => Some(Parsed(Number(minus, t[..n], f.value, e.value), e.rest))
  }

  // ---- values ---------------------------------------------------------

  function ParseWord(s: Text): (r: Option<Parsed<Word>>)
    ensures r.Some? ==> |r.value.rest| < |s| && s == WordText(r.value.value) + r.value.rest
  {
    if |s| >= 4 && s[..4] == WordText(True) then Some(Parsed(True, s[4..]))
    else if |s| >= 5 && s[..5] == WordText(False) then Some(Parsed(False, s[5..]))
    else if |s| >= 4 && s[..4] == WordText(Null) then Some(Parsed(Null, s[4..]))
    else None
  }

  function ParseValue(s: Text): (r: Option<Parsed<Value>>)
    ensures r.Some? ==> |r.value.rest| < |s|
    decreases |s|, 0
  {
    if s == [] then None
    else if s[0] == OPEN_BRACKET then
      var n := BlankLength(s[1..]);
      var blank, t := s[1..][..n], s[1..][n..];
      if t != [] && t[0] == CLOSE_BRACKET then Some(Parsed(EmptyArray(blank), t[1..]))
      else
        match ParseItems(t)
        case None => None
        case Some(items) => Some(Parsed(Array(blank, items.value), items.rest))
    else if s[0] == OPEN_BRACE then
      var n := BlankLength(s[1..]);
      var blank, t := s[1..][..n], s[1..][n..];
      if t != [] && t[0] == CLOSE_BRACE then Some(Parsed(EmptyObject(blank), t[1..]))
      else
        match ParseMembers(t)
        case None => None
        case Some(members) => Some(Parsed(Object(blank, members.value), members.rest))
    else if s[0] == QUOTE then
      match ParsePieces(s[1..])
      case None => None
      case Some(p) => Some(Parsed(Quoted(p.value), p.rest))
    else if s[0] == MINUS || IsDigit(s[0]) then
      match ParseNumber(s)
      case None => None
      case Some(n) => Some(Parsed(Numeral(n.value), n.rest))
    else
      match ParseWord(s)
      case None => None
      case Some(w) => Some(Parsed(Constant(w.value), w.rest))
  }

  /** The items and the closing bracket. */
  function ParseItems(s: Text): (r: Option<Parsed<Items>>)
    ensures r.Some? ==> |r.value.rest| < |s|
    decreases |s|, 1
  {
    match ParseValue(s)
    case None => None
    case Some(v) =>
      var n := BlankLength(v.rest);
      var after, t := v.rest[..n], v.rest[n..];
      if t == [] then None
      else if t[0] == CLOSE_BRACKET then Some(Parsed(LastItem(v.value, after, None), t[1..]))
      else if t[0] != COMMA then None
      else
        var k := BlankLength(t[1..]);
        match ParseItems(t[1..][k..])
        case None => None
        case Some(more) => Some(Parsed(Item(v.value, after, t[1..][..k], more.value), more.rest))
  }

  /** The members and the closing brace. */
  function ParseMembers(s: Text): (r: Option<Parsed<Members>>)
    ensures r.Some? ==> |r.value.rest| < |s|
    decreases |s|, 1
  {
    match ParseKey(s)
    case None => None
    case Some(key) =>
      match ParseValue(key.rest)
      case None => None
      case Some(v) =>
        var n := BlankLength(v.rest);
        var after, t := v.rest[..n], v.rest[n..];
        if t == [] then None
        else if t[0] == CLOSE_BRACE then
          Some(Parsed(LastMember(key.value.pieces, key.value.afterKey, key.value.beforeValue, v.value, after, None),
                      t[1..]))
        else if t[0] != COMMA then None
        else
          var k := BlankLength(t[1..]);
          match ParseMembers(t[1..][k..])
          case None => None
          case Some(more) =>
            Some(Parsed(Member(key.value.pieces, key.value.afterKey, key.value.beforeValue, v.value, after,
                               t[1..][..k], more.value), more.rest))
  }

  datatype Key = Key(pieces: seq<Piece>, afterKey: Text, beforeValue: Text)

  /** A quoted key, the colon and the blanks around it. */
  function ParseKey(s: Text): (r: Option<Parsed<Key>>)
    ensures r.Some? ==> |r.value.rest| < |s|
  {
    if s == [] || s[0] != QUOTE then None
    else
      match ParsePieces(s[1..])
      case None => None
      case Some(p) =>
        var n := BlankLength(p.rest);
        var t := p.rest[n..];
        if t == [] || t[0] != COLON then None
        else
          var k := BlankLength(t[1..]);
          Some(Parsed(Key(p.value, p.rest[..n], t[1..][..k]), t[1..][k..]))
  }

  /** `JSON.parse`. */
  function Parse(s: Text): Option<Document> {
    var n := BlankLength(s);
    match ParseValue(s[n..])
    case None => None
    case Some(v) =>
      if BlankLength(v.rest) == |v.rest| then Some(Document(s[..n], v.value, v.rest)) else None
  }

  // ---- every text of the grammar is read back -------------------------

  lemma {:induction false} BlankLengthOf(blank: Text, rest: Text)
    requires Blank(blank) && (rest != [] ==> !IsBlank(rest[0]))
    ensures BlankLength(blank + rest) == |blank|
    ensures (blank + rest)[..|blank|] == blank && (blank + rest)[|blank|..] == rest
  {
    if blank == [] {
      assert blank + rest == rest;
    } else {
      assert (blank + rest)[1..] == blank[1..] + rest;
      BlankLengthOf(blank[1..], rest);
    }
  }

  lemma {:induction false} DigitsLengthOf(digits: Text, rest: Text)
    requires forall i :: 0 <= i < |digits| ==> IsDigit(digits[i])
    requires rest != [] ==> !IsDigit(rest[0])
    ensures DigitsLength(digits + rest) == |digits|
    ensures (digits + rest)[..|digits|] == digits && (digits + rest)[|digits|..] == rest
  {
    if digits == [] {
      assert digits + rest == rest;
    } else {
      assert (digits + rest)[1..] == digits[1..] + rest;
      DigitsLengthOf(digits[1..], rest);
    }
  }

  /** What may follow a number without continuing it. */
  predicate EndsNumber(rest: Text) {
    rest != [] ==> !IsNumberUnit(rest[0])
  }

  lemma ReadsPiece(p: Piece, rest: Text)
    requires ValidPiece(p)
    ensures ParsePieces(PutPiece(p, rest)) == Prepend(p, ParsePieces(rest))
  {
    var t := PutPiece(p, rest);
    match p
    case Plain(u) => assert t[1..] == rest;
    case Escape(letter) => assert t[0] == BACKSLASH && t[1] == letter && t[2..] == rest;
    case Hex(a, b, c, d) =>
      assert t[0] == BACKSLASH && t[1] == 0x75 && t[2] == a && t[3] == b && t[4] == c && t[5] == d && t[6..] == rest;
  }

  lemma {:induction false} ReadsPieces(pieces: seq<Piece>, rest: Text)
    requires ValidPieces(pieces)
    ensures ParsePieces(PutPieces(pieces, [QUOTE] + rest)) == Some(Parsed(pieces, rest))
  {
    hide ParsePieces, PutPiece;
    if pieces == [] {
      ReadsQuote(rest);
    } else {
      ReadsPieces(pieces[1..], rest);
      ReadsPiece(pieces[0], PutPieces(pieces[1..], [QUOTE] + rest));
      assert [pieces[0]] + pieces[1..] == pieces;
    }
  }

  lemma ReadsQuote(rest: Text)
    ensures ParsePieces([QUOTE] + rest) == Some(Parsed([], rest))
  {
    assert ([QUOTE] + rest)[1..] == rest;
  }

  lemma ReadsExponent(e: Option<Exponent>, rest: Text)
    requires EndsNumber(rest)
    requires e.Some? ==> && (e.value.mark == 0x65 || e.value.mark == 0x45) && Digits(e.value.digits)
                         && (e.value.sign.Some? ==> e.value.sign.value == PLUS || e.value.sign.value == MINUS)
    ensures ParseExponent(PutExponent(e, rest)) == Some(Parsed(e, rest))
  {
    hide DigitsLength;
    if e.Some? {
      var t := PutExponent(e, rest);
      var tail := e.value.digits + rest;
      DigitsLengthOf(e.value.digits, rest);
      assert tail[0] == e.value.digits[0];
      if e.value.sign.Some? {
        assert t == [e.value.mark] + ([e.value.sign.value] + tail) && t[2..] == tail;
      } else {
        assert t == [e.value.mark] + tail && t[1..] == tail;
      }
    }
  }

  lemma ReadsFraction(f: Option<Text>, rest: Text)
    requires f.Some? ==> Digits(f.value)
    requires rest != [] ==> !IsDigit(rest[0]) && rest[0] != DOT
    ensures ParseFraction(PutFraction(f, rest)) == Some(Parsed(f, rest))
  {
    if f.Some? {
      var t := PutFraction(f, rest);
      DigitsLengthOf(f.value, rest);
      assert t[1..] == f.value + rest;
    }
  }

  lemma ExponentBegins(e: Option<Exponent>, rest: Text)
    requires EndsNumber(rest) && (e.Some? ==> e.value.mark == 0x65 || e.value.mark == 0x45)
    ensures var t := PutExponent(e, rest); t != [] ==> !IsDigit(t[0]) && t[0] != DOT
  {
  }

  lemma ReadsUnsigned(n: Number, rest: Text)
    requires ValidNumber(n) && EndsNumber(rest)
    ensures var t := n.whole + PutFraction(n.fraction, PutExponent(n.exponent, rest));
            ParseUnsigned(n.minus, t) == Some(Parsed(n, rest)) && IsDigit(t[0])
  {
    hide ParseExponent, ParseFraction, PutExponent, DigitsLength, EndsNumber;
    var exponent := PutExponent(n.exponent, rest);
    var tail := PutFraction(n.fraction, exponent);
    ReadsExponent(n.exponent, rest);
    ExponentBegins(n.exponent, rest);
    ReadsFraction(n.fraction, exponent);
    assert tail != [] ==> !IsDigit(tail[0]);
    hide PutFraction;
    DigitsLengthOf(n.whole, tail);
    assert (n.whole + tail)[0] == n.whole[0];
  }

  lemma ReadsNumber(n: Number, rest: Text)
    requires ValidNumber(n) && EndsNumber(rest)
    ensures ParseNumber(PutNumber(n, rest)) == Some(Parsed(n, rest))
  {
    hide ParseUnsigned, PutFraction, PutExponent, EndsNumber, ValidNumber;
    ReadsUnsigned(n, rest);
    var t := n.whole + PutFraction(n.fraction, PutExponent(n.exponent, rest));
    var s := PutNumber(n, rest);
    assert if n.minus then s[0] == MINUS && s[1..] == t else s == t;
  }

  predicate Closes(rest: Text) {
    rest != [] && (rest[0] == CLOSE_BRACKET || rest[0] == CLOSE_BRACE || rest[0] == COMMA)
  }

  lemma BlankEnds(after: Text, rest: Text)
    requires Blank(after) && (Closes(rest) || rest == [])
    ensures EndsNumber(after + rest)
    ensures BlankLength(after + rest) == |after|
    ensures (after + rest)[..|after|] == after && (after + rest)[|after|..] == rest
  {
    BlankLengthOf(after, rest);
    if after != [] { assert (after + rest)[0] == after[0]; }
  }

  lemma ReadsWord(w: Word, rest: Text)
    ensures ParseWord(WordText(w) + rest) == Some(Parsed(w, rest))
  {
    var s := WordText(w) + rest;
    assert s[..|WordText(w)|] == WordText(w) && s[|WordText(w)|..] == rest;
    match w
    case True =>
    case False => assert s[0] == 0x66 && s[..4][0] == 0x66;
    case Null => assert s[0] == 0x6E && s[..4][0] == 0x6E && (|s| >= 5 ==> s[..5][0] == 0x6E);
  }

  /** A value does not begin with a blank, nor with a closing bracket. */
  lemma ValueBegins(v: Value, rest: Text)
    requires Valid(v)
    ensures Put(v, rest) != [] && !IsBlank(Put(v, rest)[0])
    ensures Put(v, rest)[0] != CLOSE_BRACKET && Put(v, rest)[0] != CLOSE_BRACE
  {
  }

  lemma ItemsBegin(items: Items, rest: Text)
    requires ValidItems(items)
    ensures PutItems(items, rest) != [] && !IsBlank(PutItems(items, rest)[0])
    ensures PutItems(items, rest)[0] != CLOSE_BRACKET
  {
    hide Put, Valid;
    match items
    case LastItem(v, after, trailing) => ValueBegins(v, after + PutTrailing(trailing, rest));
    case Item(v, after, before, more) => ValueBegins(v, after + ([COMMA] + (before + PutItems(more, rest))));
  }

  lemma MembersBegin(members: Members, rest: Text)
    ensures PutMembers(members, rest) != [] && PutMembers(members, rest)[0] == QUOTE
  {
    hide Put, PutPieces;
  }

  lemma {:induction false} ReadsValue(v: Value, rest: Text)
    requires Valid(v) && EndsNumber(rest)
    ensures ParseValue(Put(v, rest)) == Some(Parsed(v, rest))
    decreases v
  {
    hide ParseItems, ParseMembers, ParsePieces, ParseNumber, ParseWord, PutNumber, PutPieces, EndsNumber, BlankLength;
    var s := Put(v, rest);
    match v
    case Constant(w) =>
      ReadsWord(w, rest);
    case Numeral(n) =>
      ReadsNumber(n, rest);
      NumberBegins(n, rest);
    case Quoted(pieces) =>
      ReadsPieces(pieces, rest);
      assert s[1..] == PutPieces(pieces, [QUOTE] + rest);
    case EmptyArray(blank) =>
      BlankLengthOf(blank, [CLOSE_BRACKET] + rest);
      assert s[1..] == blank + ([CLOSE_BRACKET] + rest) && ([CLOSE_BRACKET] + rest)[1..] == rest;
    case EmptyObject(blank) =>
      BlankLengthOf(blank, [CLOSE_BRACE] + rest);
      assert s[1..] == blank + ([CLOSE_BRACE] + rest) && ([CLOSE_BRACE] + rest)[1..] == rest;
    case Array(blank, items) =>
      var t := PutItems(items, [CLOSE_BRACKET] + rest);
      ItemsBegin(items, [CLOSE_BRACKET] + rest);
      BlankLengthOf(blank, t);
      assert s[1..] == blank + t;
      ReadsItems(items, rest);
    case Object(blank, members) =>
      var t := PutMembers(members, [CLOSE_BRACE] + rest);
      MembersBegin(members, [CLOSE_BRACE] + rest);
      BlankLengthOf(blank, t);
      assert s[1..] == blank + t;
      ReadsMembers(members, rest);
  }

  lemma NumberBegins(n: Number, rest: Text)
    requires ValidNumber(n)
    ensures PutNumber(n, rest) != [] && (PutNumber(n, rest)[0] == MINUS || IsDigit(PutNumber(n, rest)[0]))
  {
  }

  lemma {:induction false} ReadsItems(items: Items, rest: Text)
    requires ValidItems(items)
    ensures ParseItems(PutItems(items, [CLOSE_BRACKET] + rest)) == Some(Parsed(items, rest))
    decreases items
  {
    hide ParseValue, Put, Valid, EndsNumber, BlankLength;
    var close := [CLOSE_BRACKET] + rest;
    match items
    case LastItem(v, after, trailing) =>
      BlankEnds(after, close);
      ReadsValue(v, after + close);
      assert close[1..] == rest;
    case Item(v, after, before, more) =>
      var t := PutItems(more, close);
      var tail := [COMMA] + (before + t);
      BlankEnds(after, tail);
      ReadsValue(v, after + tail);
      ItemsBegin(more, close);
      BlankLengthOf(before, t);
      assert tail[1..] == before + t;
      ReadsItems(more, rest);
  }

  lemma ReadsKey(key: seq<Piece>, afterKey: Text, beforeValue: Text, rest: Text)
    requires ValidPieces(key) && Blank(afterKey) && Blank(beforeValue) && rest != [] && !IsBlank(rest[0])
    ensures ParseKey(PutString(key, afterKey + ([COLON] + (beforeValue + rest)))) ==
            Some(Parsed(Key(key, afterKey, beforeValue), rest))
  {
    hide ParsePieces, PutPieces, BlankLength;
    var tail := [COLON] + (beforeValue + rest);
    ReadsPieces(key, afterKey + tail);
    var s := PutString(key, afterKey + tail);
    assert s[1..] == PutPieces(key, [QUOTE] + (afterKey + tail));
    BlankLengthOf(afterKey, tail);
    BlankLengthOf(beforeValue, rest);
    assert tail[1..] == beforeValue + rest;
  }

  lemma {:induction false} ReadsMembers(members: Members, rest: Text)
    requires ValidMembers(members)
    ensures ParseMembers(PutMembers(members, [CLOSE_BRACE] + rest)) == Some(Parsed(members, rest))
    decreases members
  {
    hide ParseValue, ParseKey, Put, Valid, EndsNumber, BlankLength, PutString;
    var close := [CLOSE_BRACE] + rest;
    match members
    case LastMember(key, afterKey, beforeValue, v, after, trailing) =>
      BlankEnds(after, close);
      ReadsValue(v, after + close);
      ValueBegins(v, after + close);
      ReadsKey(key, afterKey, beforeValue, Put(v, after + close));
      assert close[1..] == rest;
    case Member(key, afterKey, beforeValue, v, after, before, more) =>
      var t := PutMembers(more, close);
      var tail := [COMMA] + (before + t);
      BlankEnds(after, tail);
      ReadsValue(v, after + tail);
      ValueBegins(v, after + tail);
      ReadsKey(key, afterKey, beforeValue, Put(v, after + tail));
      MembersBegin(more, close);
      BlankLengthOf(before, t);
      assert tail[1..] == before + t;
      ReadsMembers(more, rest);
  }

  /** Printing and parsing again gives the same document. */
  lemma ParsesItsPrinting(d: Document)
    requires ValidDocument(d)
    ensures Parse(Print(d)) == Some(d)
  {
    hide ParseValue, Put, Valid, BlankLength;
    ValueBegins(d.value, d.after);
    BlankLengthOf(d.before, Put(d.value, d.after));
    assert d.after + [] == d.after;
    BlankEnds(d.after, []);
    ReadsValue(d.value, d.after);
  }

  // ---- and nothing else is accepted -----------------------------------

  lemma {:induction false} PiecesWereText(s: Text)
    requires ParsePieces(s).Some?
    ensures var r := ParsePieces(s).value;
            ValidPieces(r.value) && s == PutPieces(r.value, [QUOTE] + r.rest)
    decreases |s|
  {
    hide PutPiece;
    if s[0] == QUOTE {
      assert s == [QUOTE] + s[1..];
    } else {
      var p := if s[0] != BACKSLASH then Plain(s[0])
               else if s[1] == 0x75 then Hex(s[2], s[3], s[4], s[5]) else Escape(s[1]);
      var tail := if s[0] != BACKSLASH then s[1..] else if s[1] == 0x75 then s[6..] else s[2..];
      PiecesWereText(tail);
      PieceWasText(p, s, tail);
      var r, later := ParsePieces(s).value, ParsePieces(tail).value;
      assert r.value == [p] + later.value && r.value[1..] == later.value;
    }
  }

  lemma PieceWasText(p: Piece, s: Text, tail: Text)
    requires s != []
    requires if s[0] != BACKSLASH then p == Plain(s[0]) && tail == s[1..]
             else |s| >= 2 && if s[1] == 0x75 then |s| >= 6 && p == Hex(s[2], s[3], s[4], s[5]) && tail == s[6..]
                              else p == Escape(s[1]) && tail == s[2..]
    ensures PutPiece(p, tail) == s
  {
  }

  lemma UnsignedWasText(minus: bool, t: Text)
    requires ParseUnsigned(minus, t).Some?
    ensures var r := ParseUnsigned(minus, t).value;
            && ValidNumber(r.value) && r.value.minus == minus
            && t == r.value.whole + PutFraction(r.value.fraction, PutExponent(r.value.exponent, r.rest))
  {
    hide ParseFraction, ParseExponent, PutFraction, PutExponent;
    var n := if t[0] == ZERO then 1 else DigitsLength(t);
    FractionWasText(t[n..]);
    ExponentWasText(ParseFraction(t[n..]).value.rest);
    assert t == t[..n] + t[n..];
  }

  lemma NumberWasText(s: Text)
    requires ParseNumber(s).Some?
    ensures var r := ParseNumber(s).value; ValidNumber(r.value) && s == PutNumber(r.value, r.rest)
  {
    hide ParseUnsigned, PutFraction, PutExponent, ValidNumber;
    if s[0] == MINUS {
      UnsignedWasText(true, s[1..]);
      assert s == [MINUS] + s[1..];
    } else {
      UnsignedWasText(false, s);
      assert s == [] + s;
    }
  }

  lemma FractionWasText(s: Text)
    requires ParseFraction(s).Some?
    ensures var r := ParseFraction(s).value;
            (r.value.Some? ==> Digits(r.value.value)) && s == PutFraction(r.value, r.rest)
  {
    if s != [] && s[0] == DOT {
      var n := DigitsLength(s[1..]);
      assert s == [DOT] + (s[1..][..n] + s[1..][n..]);
    }
  }

  lemma ExponentDigitsWereText(mark: Unit, sign: Option<Unit>, t: Text)
    requires ParseExponentDigits(mark, sign, t).Some?
    ensures var r := ParseExponentDigits(mark, sign, t).value;
            && r.value.Some? && r.value.value.mark == mark && r.value.value.sign == sign
            && Digits(r.value.value.digits) && t == r.value.value.digits + r.rest
  {
    var n := DigitsLength(t);
    assert t == t[..n] + t[n..];
  }

  lemma ExponentWasText(s: Text)
    requires ParseExponent(s).Some?
    ensures var r := ParseExponent(s).value;
            && (r.value.Some? ==>
                  && (r.value.value.mark == 0x65 || r.value.value.mark == 0x45) && Digits(r.value.value.digits)
                  && (r.value.value.sign.Some? ==>
                        r.value.value.sign.value == PLUS || r.value.value.sign.value == MINUS))
            && s == PutExponent(r.value, r.rest)
  {
    hide ParseExponentDigits, Digits;
    if s != [] && (s[0] == 0x65 || s[0] == 0x45) {
      if |s| > 1 && (s[1] == PLUS || s[1] == MINUS) {
        ExponentDigitsWereText(s[0], Some(s[1]), s[2..]);
        assert s == [s[0]] + ([s[1]] + s[2..]);
      } else {
        ExponentDigitsWereText(s[0], None, s[1..]);
        assert s == [s[0]] + ([] + s[1..]);
      }
    }
  }

  lemma {:induction false} ValueWasText(s: Text)
    requires ParseValue(s).Some?
    ensures var r := ParseValue(s).value; Valid(r.value) && s == Put(r.value, r.rest)
    decreases |s|, 1
  {
    if s[0] == OPEN_BRACKET {
      ArrayWasText(s);
    } else if s[0] == OPEN_BRACE {
      ObjectWasText(s);
    } else {
      ScalarWasText(s);
    }
  }

  lemma ScalarWasText(s: Text)
    requires ParseValue(s).Some? && s[0] != OPEN_BRACKET && s[0] != OPEN_BRACE
    ensures var r := ParseValue(s).value; Valid(r.value) && s == Put(r.value, r.rest)
  {
    hide ParsePieces, ParseNumber, ParseWord, PutPieces, PutNumber, ValidPieces, ValidNumber, BlankLength;
    if s[0] == QUOTE {
      PiecesWereText(s[1..]);
      assert s == [QUOTE] + s[1..];
    } else if s[0] == MINUS || IsDigit(s[0]) {
      NumberWasText(s);
    }
  }

  lemma {:induction false} ArrayWasText(s: Text)
    requires ParseValue(s).Some? && s[0] == OPEN_BRACKET
    ensures var r := ParseValue(s).value; Valid(r.value) && s == Put(r.value, r.rest)
    decreases |s|, 0
  {
    hide ParseItems, PutItems, ValidItems, BlankLength, Blank;
    var blank, t := OpenedText(s);
    if t != [] && t[0] == CLOSE_BRACKET {
      assert t == [CLOSE_BRACKET] + t[1..];
    } else {
      ItemsWereText(t);
    }
  }

  lemma {:induction false} ObjectWasText(s: Text)
    requires ParseValue(s).Some? && s[0] == OPEN_BRACE
    ensures var r := ParseValue(s).value; Valid(r.value) && s == Put(r.value, r.rest)
    decreases |s|, 0
  {
    hide ParseMembers, PutMembers, ValidMembers, BlankLength, Blank;
    var blank, t := OpenedText(s);
    if t != [] && t[0] == CLOSE_BRACE {
      assert t == [CLOSE_BRACE] + t[1..];
    } else {
      MembersWereText(t);
    }
  }

  lemma OpenedText(s: Text) returns (blank: Text, t: Text)
    requires s != []
    ensures var n := BlankLength(s[1..]); blank == s[1..][..n] && t == s[1..][n..]
    ensures s == [s[0]] + (blank + t) && Blank(blank) && |t| < |s|
  {
    var n := BlankLength(s[1..]);
    blank, t := s[1..][..n], s[1..][n..];
  }

  /** One unfolding of `ParseItems` that succeeds. */
  lemma ItemsUnfold(s: Text) returns (v: Parsed<Value>, after: Text, t: Text)
    requires ParseItems(s).Some?
    ensures ParseValue(s) == Some(v) && v.rest == after + t && Blank(after)
    ensures t != [] && |t| < |s|
    ensures t[0] == CLOSE_BRACKET ==> ParseItems(s).value == Parsed(LastItem(v.value, after, None), t[1..])
    ensures t[0] != CLOSE_BRACKET ==>
              && t[0] == COMMA
              && var k := BlankLength(t[1..]);
                 var more := ParseItems(t[1..][k..]);
                 && more.Some?
                 && ParseItems(s).value == Parsed(Item(v.value, after, t[1..][..k], more.value.value), more.value.rest)
  {
    hide ParseValue;
    v := ParseValue(s).value;
    var n := BlankLength(v.rest);
    after, t := v.rest[..n], v.rest[n..];
  }

  lemma {:induction false} ItemsWereText(s: Text)
    requires ParseItems(s).Some?
    ensures var r := ParseItems(s).value; ValidItems(r.value) && s == PutItems(r.value, [CLOSE_BRACKET] + r.rest)
    decreases |s|, 2
  {
    hide ParseItems, ParseValue, Put, Valid, Blank;
    var v, after, t := ItemsUnfold(s);
    ValueWasText(s);
    assert t == [t[0]] + t[1..];
    if t[0] != CLOSE_BRACKET {
      var k := BlankLength(t[1..]);
      assert t[1..] == t[1..][..k] + t[1..][k..];
      ItemsWereText(t[1..][k..]);
    }
  }

  lemma KeyUnfold(s: Text) returns (p: Parsed<seq<Piece>>, t: Text)
    requires ParseKey(s).Some?
    ensures s[0] == QUOTE && ParsePieces(s[1..]) == Some(p) && t != [] && t[0] == COLON
    ensures var r := ParseKey(s).value;
            && r.value.pieces == p.value && Blank(r.value.afterKey) && Blank(r.value.beforeValue)
            && p.rest == r.value.afterKey + t && t[1..] == r.value.beforeValue + r.rest
  {
    hide ParsePieces, BlankLength, Blank, IsBlank;
    p := ParsePieces(s[1..]).value;
    t := p.rest[BlankLength(p.rest)..];
    SplitBlank(p.rest);
    SplitBlank(t[1..]);
  }

  lemma SplitBlank(s: Text)
    ensures var n := BlankLength(s); Blank(s[..n]) && s == s[..n] + s[n..]
  {
    hide BlankLength, IsBlank;
  }

  lemma KeyWasText(s: Text)
    requires ParseKey(s).Some?
    ensures var r := ParseKey(s).value;
            && ValidPieces(r.value.pieces) && Blank(r.value.afterKey) && Blank(r.value.beforeValue)
            && s == PutString(r.value.pieces, r.value.afterKey + ([COLON] + (r.value.beforeValue + r.rest)))
  {
    hide ParseKey, ParsePieces, PutPieces, Blank, ValidPieces;
    var p, t := KeyUnfold(s);
    PiecesWereText(s[1..]);
    assert t == [COLON] + t[1..];
    assert s == [QUOTE] + s[1..];
  }

  /** One unfolding of `ParseMembers` that succeeds. */
  lemma MembersUnfold(s: Text) returns (key: Parsed<Key>, v: Parsed<Value>, after: Text, t: Text)
    requires ParseMembers(s).Some?
    ensures ParseKey(s) == Some(key) && ParseValue(key.rest) == Some(v) && v.rest == after + t && Blank(after)
    ensures t != [] && |t| < |s|
    ensures t[0] == CLOSE_BRACE ==>
              ParseMembers(s).value == Parsed(LastMember(key.value.pieces, key.value.afterKey, key.value.beforeValue,
                                                         v.value, after, None), t[1..])
    ensures t[0] != CLOSE_BRACE ==>
              && t[0] == COMMA
              && var k := BlankLength(t[1..]);
                 var more := ParseMembers(t[1..][k..]);
                 && more.Some?
                 && ParseMembers(s).value ==
                    Parsed(Member(key.value.pieces, key.value.afterKey, key.value.beforeValue, v.value, after,
                                  t[1..][..k], more.value.value), more.value.rest)
  {
    hide ParseKey, ParseValue;
    key := ParseKey(s).value;
    v := ParseValue(key.rest).value;
    var n := BlankLength(v.rest);
    after, t := v.rest[..n], v.rest[n..];
  }

  lemma {:induction false} MembersWereText(s: Text)
    requires ParseMembers(s).Some?
    ensures var r := ParseMembers(s).value; ValidMembers(r.value) && s == PutMembers(r.value, [CLOSE_BRACE] + r.rest)
    decreases |s|, 2
  {
    hide ParseMembers, ParseValue, ParseKey, Put, PutString, Valid, Blank;
    var key, v, after, t := MembersUnfold(s);
    KeyWasText(s);
    ValueWasText(key.rest);
    assert t == [t[0]] + t[1..];
    if t[0] != CLOSE_BRACE {
      var k := BlankLength(t[1..]);
      assert t[1..] == t[1..][..k] + t[1..][k..];
      MembersWereText(t[1..][k..]);
    }
  }

  lemma ParsedWasText(s: Text)
    requires Parse(s).Some?
    ensures ValidDocument(Parse(s).value) && s == Print(Parse(s).value)
  {
    hide ParseValue, Put, Valid;
    var n := BlankLength(s);
    ValueWasText(s[n..]);
    assert s == s[..n] + s[n..];
    var v := ParseValue(s[n..]).value;
    assert v.rest[..|v.rest|] == v.rest;
  }

  /** The parser accepts exactly the texts of the grammar, each as the one document it prints. */
  lemma ParsesExactly(s: Text, d: Document)
    ensures Parse(s) == Some(d) <==> ValidDocument(d) && s == Print(d)
  {
    hide Parse, Print, ValidDocument;
    if Parse(s) == Some(d) { ParsedWasText(s); }
    if ValidDocument(d) && s == Print(d) { ParsesItsPrinting(d); }
  }
}
