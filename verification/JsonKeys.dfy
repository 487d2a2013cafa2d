/** The recursive-descent check for duplicate keys, depth and size that every review envelope
    passes before it is believed (src/convergence.mjs, `hasUniqueJsonObjectKeys`). */
module JsonKeys {
  import opened Prelude
  import opened JsonText
  import opened JsonParser

  const MAX_DEPTH: nat := 64
  const MAX_NODES: nat := 10_000

  // ---- the check as functions of what is left to read -----------------

  function Skip(s: Text): (r: Text)
    ensures |r| <= |s|
    ensures r != [] ==> !IsSpace(r[0])
  {
    if s == [] || !IsSpace(s[0]) then s else Skip(s[1..])
  }

  /** The number of units up to the closing quote, if there is one. */
  function QuoteAt(s: Text): (r: Option<nat>)
    ensures r.Some? ==> r.value < |s| && s[r.value] == QUOTE
  {
    if s == [] then None
    else if s[0] == BACKSLASH then
      if |s| < 2 then None else Further(2, QuoteAt(s[2..]))
    else if s[0] == QUOTE then Some(0)
    else Further(1, QuoteAt(s[1..]))
  }

  function Further(n: nat, r: Option<nat>): Option<nat> {
    if r.None? then None else Some(n + r.value)
  }

  lemma QuoteStep(s: Text)
    ensures s == [] ==> QuoteAt(s).None?
    ensures s != [] && s[0] == BACKSLASH ==>
              QuoteAt(s) == if |s| < 2 then None else Further(2, QuoteAt(s[2..]))
    ensures s != [] && s[0] == QUOTE ==> QuoteAt(s) == Some(0)
    ensures s != [] && s[0] != BACKSLASH && s[0] != QUOTE ==> QuoteAt(s) == Further(1, QuoteAt(s[1..]))
  {
    hide Further;
  }

  /** The string a quoted token denotes, by `JSON.parse`. */
  function TokenMeaning(token: Text): Option<Text> {
    match Parse(token)
    case None => None
    case Some(d) => if d.value.Quoted? && LoosePieces(d.value.pieces) then Some(Decode(d.value.pieces)) else None
  }

  function ReadString(s: Text): (r: Option<Parsed<Text>>)
    ensures r.Some? ==> |r.value.rest| < |s|
  {
    if s == [] || s[0] != QUOTE then None
    else
      match QuoteAt(s[1..])
      case None => None
      case Some(n) =>
        match TokenMeaning(s[..n + 2])
        case None => None
        case Some(key) => Some(Parsed(key, s[n + 2..]))
  }

  function FractionLength(s: Text): (n: nat)
    ensures n <= |s|
  {
    if s == [] || s[0] != DOT || DigitsLength(s[1..]) == 0 then 0 else 1 + DigitsLength(s[1..])
  }

  function ExponentLength(s: Text): (n: nat)
    ensures n <= |s|
  {
    if s == [] || (s[0] != 0x65 && s[0] != 0x45) then 0
    else if |s| > 1 && (s[1] == PLUS || s[1] == MINUS) then
      if DigitsLength(s[2..]) == 0 then 0 else 2 + DigitsLength(s[2..])
    else if DigitsLength(s[1..]) == 0 then 0
    else 1 + DigitsLength(s[1..])
  }

  function UnsignedLength(s: Text): (n: nat)
    ensures n <= |s|
  {
    if s == [] || !IsDigit(s[0]) then 0
    else
      var whole := if s[0] == ZERO then 1 else DigitsLength(s);
      var fraction := FractionLength(s[whole..]);
      whole + fraction + ExponentLength(s[whole..][fraction..])
  }

  /** The length of the longest scalar the text begins with; zero if there is none. */
  function ScalarLength(s: Text): (n: nat)
    ensures n <= |s|
  {
    if |s| >= 4 && (s[..4] == WordText(True) || s[..4] == WordText(Null)) then 4
    else if |s| >= 5 && s[..5] == WordText(False) then 5
    else if s != [] && s[0] == MINUS then
      if UnsignedLength(s[1..]) == 0 then 0 else 1 + UnsignedLength(s[1..])
    else UnsignedLength(s)
  }

  datatype Progress = Progress(rest: Text, nodes: nat)

  function CheckValue(s: Text, depth: nat, nodes: nat): (r: Option<Progress>)
    ensures r.Some? ==> |r.value.rest| < |s|
    decreases |s|, 0
  {
    if depth > MAX_DEPTH || nodes >= MAX_NODES then None
    else
      var t := Skip(s);
      if t == [] then None
      else if t[0] == OPEN_BRACE then
        var u := Skip(t[1..]);
        if u != [] && u[0] == CLOSE_BRACE then Some(Progress(u[1..], nodes + 1))
        else CheckMembers(u, depth, nodes + 1, {})
      else if t[0] == OPEN_BRACKET then
        var u := Skip(t[1..]);
        if u != [] && u[0] == CLOSE_BRACKET then Some(Progress(u[1..], nodes + 1))
        else CheckItems(u, depth, nodes + 1)
      else if t[0] == QUOTE then
        match ReadString(t)
        case None => None
        case Some(p) => Some(Progress(p.rest, nodes + 1))
      else if ScalarLength(t) == 0 then None
      else Some(Progress(t[ScalarLength(t)..], nodes + 1))
  }

  /** A key that is new to its object, and the colon behind it. */
  function NewKey(s: Text, keys: set<Text>): (r: Option<Parsed<Text>>)
    ensures r.Some? ==> |r.value.rest| < |s|
  {
    match ReadString(s)
    case None => None
    case Some(key) =>
      var t := Skip(key.rest);
      if key.value in keys || t == [] || t[0] != COLON then None else Some(Parsed(key.value, t[1..]))
  }

  /** What follows an entry: the end of its container, or a comma. */
  function Delimiter(s: Text, close: Unit): (r: Option<Parsed<Unit>>)
    ensures r.Some? ==> |r.value.rest| < |s|
  {
    var u := Skip(s);
    if u == [] || (u[0] != close && u[0] != COMMA) then None else Some(Parsed(u[0], u[1..]))
  }

  function CheckMembers(s: Text, depth: nat, nodes: nat, keys: set<Text>): (r: Option<Progress>)
    ensures r.Some? ==> |r.value.rest| < |s|
    decreases |s|, 1
  {
    match NewKey(s, keys)
    case None => None
    case Some(key) =>
      match CheckValue(key.rest, depth + 1, nodes)
      case None => None
      case Some(p) =>
        match Delimiter(p.rest, CLOSE_BRACE)
        case None => None
        case Some(d) =>
          if d.value == CLOSE_BRACE then Some(Progress(d.rest, p.nodes))
          else CheckMembers(Skip(d.rest), depth, p.nodes, keys + {key.value})
  }

  function CheckItems(s: Text, depth: nat, nodes: nat): (r: Option<Progress>)
    ensures r.Some? ==> |r.value.rest| < |s|
    decreases |s|, 1
  {
    if s == [] then None
    else
      match CheckValue(s, depth + 1, nodes)
      case None => None
      case Some(p) =>
        match Delimiter(p.rest, CLOSE_BRACKET)
        case None => None
        case Some(d) =>
          if d.value == CLOSE_BRACKET then Some(Progress(d.rest, p.nodes))
          else CheckItems(d.rest, depth, p.nodes)
  }

  predicate HasUniqueKeys(s: Text) {
    var r := CheckValue(s, 0, 0);
    r.Some? && Skip(r.value.rest) == []
  }

  // ---- the check as the source carries it out -------------------------

  /** The shared index and node count of the recursive descent. A thrown error is `false`. */
  class Checker {
    const value: Text
    var index: nat
    var nodes: nat

    ghost predicate Valid()
      reads this
    {
      index <= |value|
    }

    ghost function Left(): Text
      requires Valid()
      reads this
    {
      value[index..]
    }

    constructor (value: Text)
      ensures Valid() && this.value == value && Left() == value && nodes == 0
    {
      this.value := value;
      index := 0;
      nodes := 0;
    }

    method SkipWhitespace()
      requires Valid()
      modifies this`index
      ensures Valid() && Left() == Skip(old(Left())) && index >= old(index)
    {
      while index < |value| && IsSpace(value[index])
        invariant old(index) <= index <= |value|
        invariant Skip(Left()) == Skip(old(Left()))
        decreases |value| - index
      {
        assert Left()[1..] == value[index + 1..];
        index := index + 1;
      }
    }

    /** Looks for the closing quote, passing over whatever a backslash escapes. */
    method ClosingQuote(start: nat) returns (r: Option<nat>)
      requires start <= |value|
      ensures r == QuoteAt(value[start..])
    {
      hide QuoteAt;
      var cursor := start;
      ghost var whole := QuoteAt(value[start..]);
      while cursor < |value|
        invariant start <= cursor
        invariant cursor <= |value| ==> whole == Further(cursor - start, QuoteAt(value[cursor..]))
        invariant cursor > |value| ==> whole.None?
        decreases |value| - cursor
      {
        ghost var here := value[cursor..];
        assert here[0] == value[cursor] && here[1..] == value[cursor + 1..];
        assert |here| >= 2 ==> here[2..] == value[cursor + 2..];
        QuoteStep(here);
        if value[cursor] == BACKSLASH {
          cursor := cursor + 2;
          continue;
        }
        if value[cursor] == QUOTE { return Some(cursor - start); }
        cursor := cursor + 1;
      }
      QuoteStep([]);
      assert cursor == |value| ==> value[cursor..] == [];
      r := None;
    }

    method ParseString() returns (key: Option<Text>)
      requires Valid()
      modifies this`index
      ensures Valid()
      ensures var r := ReadString(old(Left()));
              && (key.Some? <==> r.Some?)
              && (key.Some? ==> key.value == r.value.value && Left() == r.value.rest && index > old(index))
    {
      hide QuoteAt, TokenMeaning;
      if index >= |value| || value[index] != QUOTE { return None; }
      assert old(Left())[1..] == value[index + 1..];
      var length := ClosingQuote(index + 1);
      if length.None? { return None; }
      var start := index;
      index := index + length.value + 2;
      assert value[start..index] == old(Left())[..length.value + 2];
      assert Left() == old(Left())[length.value + 2..];
      key := TokenMeaning(value[start..index]);
    }

    /** One value and everything inside it. */
    method ParseValue(depth: nat) returns (ok: bool)
      requires Valid()
      modifies this
      ensures Valid()
      ensures var r := CheckValue(old(Left()), depth, old(nodes));
              && (ok <==> r.Some?)
              && (ok ==> r.value == Progress(Left(), nodes) && index > old(index))
      decreases |value| - index, 0
    {
      hide ReadString, ScalarLength, CheckMembers, CheckItems, Skip;
      if depth > MAX_DEPTH || nodes >= MAX_NODES { return false; }
      nodes := nodes + 1;
      SkipWhitespace();
      if index == |value| { return false; }
      ghost var t := Left();
      if value[index] == OPEN_BRACE {
        index := index + 1;
        assert Left() == t[1..];
        SkipWhitespace();
        if index < |value| && value[index] == CLOSE_BRACE {
          ghost var u := Left();
          index := index + 1;
          assert Left() == u[1..];
          return true;
        }
        ok := ParseMembers(depth);
        return;
      }
      if value[index] == OPEN_BRACKET {
        index := index + 1;
        assert Left() == t[1..];
        SkipWhitespace();
        if index < |value| && value[index] == CLOSE_BRACKET {
          ghost var u := Left();
          index := index + 1;
          assert Left() == u[1..];
          return true;
        }
        ok := ParseItems(depth);
        return;
      }
      if value[index] == QUOTE {
        var key := ParseString();
        return key.Some?;
      }
      var length := ScalarLength(value[index..]);
      if length == 0 { return false; }
      index := index + length;
      assert Left() == t[length..];
      ok := true;
    }

    /** A key that is new to its object, and the colon behind it. */
    method ParseNewKey(keys: set<Text>) returns (key: Option<Text>)
      requires Valid()
      modifies this`index
      ensures Valid()
      ensures var r := NewKey(old(Left()), keys);
              && (key.Some? <==> r.Some?)
              && (key.Some? ==> Parsed(key.value, Left()) == r.value && index > old(index))
    {
      hide ReadString, Skip;
      key := ParseString();
      if key.None? || key.value in keys { return None; }
      SkipWhitespace();
      if index == |value| || value[index] != COLON { return None; }
      ghost var t := Left();
      index := index + 1;
      assert Left() == t[1..];
    }

    /** What follows an entry: the end of its container, or a comma. */
    method ParseDelimiter(close: Unit) returns (found: Option<Unit>)
      requires Valid()
      modifies this`index
      ensures Valid()
      ensures var r := Delimiter(old(Left()), close);
              && (found.Some? <==> r.Some?)
              && (found.Some? ==> Parsed(found.value, Left()) == r.value && index > old(index))
    {
      hide Skip;
      SkipWhitespace();
      if index == |value| || (value[index] != close && value[index] != COMMA) { return None; }
      ghost var u := Left();
      found := Some(value[index]);
      index := index + 1;
      assert Left() == u[1..];
    }

    /** The members of an object behind its opening brace. */
    method ParseMembers(depth: nat) returns (ok: bool)
      requires Valid()
      modifies this
      ensures Valid()
      ensures var r := CheckMembers(old(Left()), depth, old(nodes), {});
              && (ok <==> r.Some?)
              && (ok ==> r.value == Progress(Left(), nodes) && index > old(index))
      decreases |value| - index, 1
    {
      hide CheckValue, Skip, NewKey, Delimiter;
      var keys: set<Text> := {};
      ghost var whole := CheckMembers(Left(), depth, nodes, keys);
      while true
        invariant Valid() && index >= old(index)
        invariant whole == CheckMembers(Left(), depth, nodes, keys)
        decreases |value| - index
      {
        var key := ParseNewKey(keys);
        if key.None? { return false; }
        keys := keys + {key.value};
        ok := ParseValue(depth + 1);
        if !ok { return; }
        var delimiter := ParseDelimiter(CLOSE_BRACE);
        if delimiter.None? { return false; }
        if delimiter.value == CLOSE_BRACE { return true; }
        SkipWhitespace();
      }
    }

    /** The items of an array behind its opening bracket. */
    method ParseItems(depth: nat) returns (ok: bool)
      requires Valid()
      modifies this
      ensures Valid()
      ensures var r := CheckItems(old(Left()), depth, old(nodes));
              && (ok <==> r.Some?)
              && (ok ==> r.value == Progress(Left(), nodes) && index > old(index))
      decreases |value| - index, 1
    {
      hide CheckValue, Delimiter;
      ghost var whole := CheckItems(Left(), depth, nodes);
      while index < |value|
        invariant Valid() && index >= old(index)
        invariant whole == CheckItems(Left(), depth, nodes)
        decreases |value| - index
      {
        ok := ParseValue(depth + 1);
        if !ok { return; }
        var delimiter := ParseDelimiter(CLOSE_BRACKET);
        if delimiter.None? { return false; }
        if delimiter.value == CLOSE_BRACKET { return true; }
      }
      ok := false;
    }
  }

  method HasUniqueJsonObjectKeys(value: Text) returns (unique: bool)
    ensures unique == HasUniqueKeys(value)
  {
    var checker := new Checker(value);
    unique := checker.ParseValue(0);
    if unique {
      checker.SkipWhitespace();
      unique := checker.index == |value|;
    }
  }

  // ---- what the check decides -----------------------------------------

  function KeysOf(members: Members): seq<Text>
    requires ValidMembers(members)
  {
    match members
    case LastMember(key, _, _, _, _, _) => [KeyText(key)]
    case Member(key, _, _, _, _, _, more) => [KeyText(key)] + KeysOf(more)
  }

  function KeyText(key: seq<Piece>): Text
    requires ValidPieces(key)
  {
    ValidAreLoose(key);
    Decode(key)
  }

  lemma ValidAreLoose(pieces: seq<Piece>)
    requires ValidPieces(pieces)
    ensures LoosePieces(pieces)
  {
  }

  /** In every object at every depth the decoded keys are pairwise distinct. */
  predicate Unique(v: Value)
    requires Valid(v)
  {
    match v
    case Array(_, items) => UniqueItems(items)
    case Object(_, members) => Distinct(KeysOf(members)) && UniqueMembers(members)
    case _ => true
  }

  predicate UniqueItems(items: Items)
    requires ValidItems(items)
  {
    match items
    case LastItem(v, _, _) => Unique(v)
    case Item(v, _, _, more) => Unique(v) && UniqueItems(more)
  }

  predicate UniqueMembers(members: Members)
    requires ValidMembers(members)
  {
    match members
    case LastMember(_, _, _, v, _, _) => Unique(v)
    case Member(_, _, _, v, _, _, more) => Unique(v) && UniqueMembers(more)
  }

  function Max(a: nat, b: nat): nat {
    if a < b then b else a
  }

  /** How deep values are nested inside this one. */
  function Depth(v: Value): nat {
    match v
    case Array(_, items) => ItemsDepth(items)
    case Object(_, members) => MembersDepth(members)
    case _ => 0
  }

  function ItemsDepth(items: Items): nat {
    match items
    case LastItem(v, _, _) => 1 + Depth(v)
    case Item(v, _, _, more) => Max(1 + Depth(v), ItemsDepth(more))
  }

  function MembersDepth(members: Members): nat {
    match members
    case LastMember(_, _, _, v, _, _) => 1 + Depth(v)
    case Member(_, _, _, v, _, _, more) => Max(1 + Depth(v), MembersDepth(more))
  }

  /** The number of values, this one included. */
  function Count(v: Value): (n: nat)
    ensures n >= 1
  {
    match v
    case Array(_, items) => 1 + ItemsCount(items)
    case Object(_, members) => 1 + MembersCount(members)
    case _ => 1
  }

  function ItemsCount(items: Items): (n: nat)
    ensures n >= 1
  {
    match items
    case LastItem(v, _, _) => Count(v)
    case Item(v, _, _, more) => Count(v) + ItemsCount(more)
  }

  function MembersCount(members: Members): (n: nat)
    ensures n >= 1
  {
    match members
    case LastMember(_, _, _, v, _, _) => Count(v)
    case Member(_, _, _, v, _, _, more) => Count(v) + MembersCount(more)
  }

  // ---- tokens are read as they were written ---------------------------

  lemma {:induction false} SkipsBlanks(blank: Text, rest: Text)
    requires Blank(blank) && (rest != [] ==> !IsSpace(rest[0]))
    ensures Skip(blank + rest) == rest
  {
    if blank == [] {
      assert blank + rest == rest;
    } else {
      assert (blank + rest)[1..] == blank[1..] + rest;
      SkipsBlanks(blank[1..], rest);
    }
  }

  lemma QuoteInPiece(p: Piece, rest: Text)
    requires ValidPiece(p)
    ensures QuoteAt(PutPiece(p, rest)) == Further(|PutPiece(p, [])|, QuoteAt(rest))
    ensures PutPiece(p, rest) == PutPiece(p, []) + rest
  {
    hide QuoteAt;
    match p
    case Plain(u) => PlainUnit(u, rest);
    case Escape(letter) =>
      EscapedUnit(letter, rest);
      assert PutPiece(p, rest) == [BACKSLASH] + ([letter] + rest);
    case Hex(a, b, c, d) => QuoteInHex(a, b, c, d, rest);
  }

  lemma QuoteInHex(a: Unit, b: Unit, c: Unit, d: Unit, rest: Text)
    requires IsHex(a) && IsHex(b) && IsHex(c) && IsHex(d)
    ensures QuoteAt(PutPiece(Hex(a, b, c, d), rest)) == Further(6, QuoteAt(rest))
  {
    hide QuoteAt;
    PlainUnit(d, rest);
    PlainUnit(c, [d] + rest);
    PlainUnit(b, [c] + ([d] + rest));
    PlainUnit(a, [b] + ([c] + ([d] + rest)));
    var digits := [a] + ([b] + ([c] + ([d] + rest)));
    EscapedUnit(0x75, digits);
    assert PutPiece(Hex(a, b, c, d), rest) == [BACKSLASH] + ([0x75] + digits);
  }

  lemma EscapedUnit(mark: Unit, rest: Text)
    ensures QuoteAt([BACKSLASH] + ([mark] + rest)) == Further(2, QuoteAt(rest))
  {
    assert ([BACKSLASH] + ([mark] + rest))[2..] == rest;
  }

  lemma PlainUnit(u: Unit, rest: Text)
    requires u != QUOTE && u != BACKSLASH
    ensures QuoteAt([u] + rest) == Further(1, QuoteAt(rest))
  {
    assert ([u] + rest)[1..] == rest;
  }

  /** The first unescaped quote is the closing one. */
  lemma {:induction false} QuoteAfterPieces(pieces: seq<Piece>, rest: Text)
    requires ValidPieces(pieces)
    ensures var body := PutPieces(pieces, []);
            && QuoteAt(PutPieces(pieces, [QUOTE] + rest)) == Some(|body|)
            && PutPieces(pieces, [QUOTE] + rest) == body + ([QUOTE] + rest)
  {
    hide QuoteAt, PutPiece;
    if pieces == [] {
      QuoteStep([QUOTE] + rest);
    } else {
      var tail := PutPieces(pieces[1..], [QUOTE] + rest);
      QuoteAfterPieces(pieces[1..], rest);
      QuoteInPiece(pieces[0], tail);
      QuoteInPiece(pieces[0], PutPieces(pieces[1..], []));
      Associates(PutPiece(pieces[0], []), PutPieces(pieces[1..], []), [QUOTE] + rest);
    }
  }

  lemma ReadsWholeString(pieces: seq<Piece>, rest: Text)
    requires ValidPieces(pieces)
    ensures ReadString(PutString(pieces, rest)) == Some(Parsed(KeyText(pieces), rest))
  {
    hide QuoteAt, Parse, PutPieces, Decode;
    var s, body := PutString(pieces, rest), PutPieces(pieces, []);
    QuoteAfterPieces(pieces, rest);
    QuoteAfterPieces(pieces, []);
    var token := PutString(pieces, []);
    assert s[1..] == body + ([QUOTE] + rest);
    assert token == [QUOTE] + (body + ([QUOTE] + []));
    assert s[..|body| + 2] == token && s[|body| + 2..] == rest;
    ParsesToken(pieces);
    ValidAreLoose(pieces);
  }

  lemma ParsesToken(pieces: seq<Piece>)
    requires ValidPieces(pieces)
    ensures Parse(PutString(pieces, [])) == Some(Document([], Quoted(pieces), []))
  {
    hide Parse, PutString;
    ParsesItsPrinting(Document([], Quoted(pieces), []));
    assert [] + PutString(pieces, []) == PutString(pieces, []);
  }

  /** A number token has no continuation, so the longest match is the whole of it. */
  lemma ExponentMeasured(e: Option<Exponent>, rest: Text)
    requires EndsNumber(rest)
    requires e.Some? ==> && (e.value.mark == 0x65 || e.value.mark == 0x45) && Digits(e.value.digits)
                         && (e.value.sign.Some? ==> e.value.sign.value == PLUS || e.value.sign.value == MINUS)
    ensures ExponentLength(PutExponent(e, rest)) == |PutExponent(e, [])|
  {
    hide DigitsLength;
    if e.Some? {
      var tail := e.value.digits + rest;
      DigitsLengthOf(e.value.digits, rest);
      assert tail[0] == e.value.digits[0];
      MarkMeasured(e.value.mark, e.value.sign, tail);
    }
  }

  lemma MarkMeasured(mark: Unit, sign: Option<Unit>, tail: Text)
    requires (mark == 0x65 || mark == 0x45) && (sign.Some? ==> sign.value == PLUS || sign.value == MINUS)
    requires tail != [] && tail[0] != PLUS && tail[0] != MINUS && DigitsLength(tail) > 0
    ensures var signs: Text := if sign.Some? then [sign.value] else [];
            ExponentLength([mark] + (signs + tail)) == 1 + |signs| + DigitsLength(tail)
  {
    hide DigitsLength, IsDigit;
    if sign.Some? {
      var t := [mark] + ([sign.value] + tail);
      assert t[0] == mark && t[1] == sign.value && t[2..] == tail;
    } else {
      var t := [mark] + tail;
      assert [] + tail == tail && t[0] == mark && t[1] == tail[0] && t[1..] == tail;
    }
  }

  lemma FractionMeasured(f: Option<Text>, rest: Text)
    requires f.Some? ==> Digits(f.value)
    requires rest != [] ==> !IsDigit(rest[0]) && rest[0] != DOT
    ensures FractionLength(PutFraction(f, rest)) == |PutFraction(f, [])|
    ensures PutFraction(f, rest) == PutFraction(f, []) + rest
  {
    hide DigitsLength;
    if f.Some? {
      var t := PutFraction(f, rest);
      DigitsLengthOf(f.value, rest);
      assert t[1..] == f.value + rest;
    }
  }

  lemma UnsignedMeasured(n: Number, rest: Text)
    requires ValidNumber(n) && EndsNumber(rest)
    ensures var t := n.whole + PutFraction(n.fraction, PutExponent(n.exponent, rest));
            && UnsignedLength(t) == |n.whole + PutFraction(n.fraction, PutExponent(n.exponent, []))|
            && t != [] && IsDigit(t[0])
  {
    hide ExponentLength, FractionLength, DigitsLength, EndsNumber;
    var exponent := PutExponent(n.exponent, rest);
    ExponentMeasured(n.exponent, rest);
    ExponentBegins(n.exponent, rest);
    FractionMeasured(n.fraction, exponent);
    var tail := PutFraction(n.fraction, exponent);
    assert tail != [] ==> !IsDigit(tail[0]);
    DigitsLengthOf(n.whole, tail);
    assert (n.whole + tail)[0] == n.whole[0];
    var plain := PutFraction(n.fraction, []);
    assert tail[|plain|..] == exponent;
    FractionSplits(n.fraction, [], PutExponent(n.exponent, []));
    assert [] + PutExponent(n.exponent, []) == PutExponent(n.exponent, []);
  }

  lemma NumberMeasured(n: Number, rest: Text)
    requires ValidNumber(n) && EndsNumber(rest)
    ensures ScalarLength(PutNumber(n, rest)) == |NumberText(n)| > 0
    ensures PutNumber(n, rest)[|NumberText(n)|..] == rest
  {
    hide UnsignedLength, PutFraction, PutExponent, EndsNumber;
    UnsignedMeasured(n, rest);
    NumberSplits(n, rest);
    var t := n.whole + PutFraction(n.fraction, PutExponent(n.exponent, rest));
    var s := PutNumber(n, rest);
    assert if n.minus then s[0] == MINUS && s[1..] == t else s == t;
    assert s[0] == MINUS || IsDigit(s[0]);
    assert |s| >= 4 ==> s[..4][0] == s[0] && s[..4] != WordText(True) && s[..4] != WordText(Null);
    assert |s| >= 5 ==> s[..5][0] == s[0] && s[..5] != WordText(False);
  }

  lemma WordMeasured(w: Word, rest: Text)
    ensures ScalarLength(WordText(w) + rest) == |WordText(w)| > 0
    ensures (WordText(w) + rest)[|WordText(w)|..] == rest
  {
    var s := WordText(w) + rest;
    match w
    case True => assert s[..4] == WordText(True);
    case Null => assert s[..4] == WordText(Null);
    case False =>
      assert s[..5] == WordText(False);
      assert s[..4][0] == 0x66;
  }

  // ---- the check decides exactly that ---------------------------------

  predicate Conforms(unique: bool, depth: nat, nodes: nat) {
    unique && depth <= MAX_DEPTH && nodes <= MAX_NODES
  }

  function Outcome(conforms: bool, rest: Text, nodes: nat): Option<Progress> {
    if conforms then Some(Progress(rest, nodes)) else None
  }

  lemma ValueVisible(v: Value, rest: Text)
    requires Valid(v)
    ensures var t := Put(v, rest); t != [] && !IsSpace(t[0]) && t[0] != CLOSE_BRACKET && t[0] != CLOSE_BRACE
  {
  }

  lemma ItemsVisible(items: Items, rest: Text)
    requires ValidItems(items)
    ensures var t := PutItems(items, rest); t != [] && !IsSpace(t[0]) && t[0] != CLOSE_BRACKET
  {
    hide Put, Valid;
    match items
    case LastItem(v, after, trailing) => ValueVisible(v, after + PutTrailing(trailing, rest));
    case Item(v, after, before, more) => ValueVisible(v, after + ([COMMA] + (before + PutItems(more, rest))));
  }

  lemma DelimiterFound(after: Text, u: Unit, rest: Text, close: Unit)
    requires Blank(after) && (u == close || u == COMMA) && (close == CLOSE_BRACKET || close == CLOSE_BRACE)
    ensures Delimiter(after + ([u] + rest), close) == Some(Parsed(u, rest))
  {
    SkipsBlanks(after, [u] + rest);
    assert ([u] + rest)[1..] == rest;
  }

  /** A scalar passes if the bounds admit one more value. */
  lemma ScalarChecked(blank: Text, v: Value, rest: Text, depth: nat, nodes: nat)
    requires Blank(blank) && Valid(v) && EndsNumber(rest)
    requires v.Constant? || v.Numeral? || v.Quoted?
    ensures CheckValue(blank + Put(v, rest), depth, nodes) ==
            Outcome(Conforms(true, depth, nodes + 1), rest, nodes + 1)
  {
    hide ReadString, ScalarLength, Skip, PutNumber, PutString, EndsNumber;
    var t := Put(v, rest);
    ValueVisible(v, rest);
    SkipsBlanks(blank, t);
    match v
    case Constant(w) =>
      WordMeasured(w, rest);
      assert t[0] == WordText(w)[0];
    case Numeral(n) =>
      NumberMeasured(n, rest);
      NumberBegins(n, rest);
    case Quoted(pieces) =>
      ReadsWholeString(pieces, rest);
      StringBegins(pieces, rest);
  }

  lemma StringBegins(pieces: seq<Piece>, rest: Text)
    ensures PutString(pieces, rest) != [] && PutString(pieces, rest)[0] == QUOTE
  {
    hide PutPieces;
  }

  lemma EmptyChecked(blank: Text, v: Value, rest: Text, depth: nat, nodes: nat)
    requires Blank(blank) && Valid(v) && (v.EmptyArray? || v.EmptyObject?)
    ensures CheckValue(blank + Put(v, rest), depth, nodes) ==
            Outcome(Conforms(true, depth, nodes + 1), rest, nodes + 1)
  {
    hide Skip, CheckItems, CheckMembers;
    var t := Put(v, rest);
    ValueVisible(v, rest);
    SkipsBlanks(blank, t);
    var close := [if v.EmptyArray? then CLOSE_BRACKET else CLOSE_BRACE] + rest;
    assert t[1..] == v.blank + close && close[1..] == rest;
    SkipsBlanks(v.blank, close);
  }

  lemma {:induction false} ValueChecked(blank: Text, v: Value, rest: Text, depth: nat, nodes: nat)
    requires Blank(blank) && Valid(v) && EndsNumber(rest)
    ensures CheckValue(blank + Put(v, rest), depth, nodes) ==
            Outcome(Conforms(Unique(v), depth + Depth(v), nodes + Count(v)), rest, nodes + Count(v))
    decreases v
  {
    if v.Array? {
      ArrayChecked(blank, v, rest, depth, nodes);
    } else if v.Object? {
      ObjectChecked(blank, v, rest, depth, nodes);
    } else if v.EmptyArray? || v.EmptyObject? {
      EmptyChecked(blank, v, rest, depth, nodes);
    } else {
      ScalarChecked(blank, v, rest, depth, nodes);
    }
  }

  lemma {:induction false} ArrayChecked(blank: Text, v: Value, rest: Text, depth: nat, nodes: nat)
    requires Blank(blank) && Valid(v) && v.Array?
    ensures CheckValue(blank + Put(v, rest), depth, nodes) ==
            Outcome(Conforms(Unique(v), depth + Depth(v), nodes + Count(v)), rest, nodes + Count(v))
    decreases v, 0
  {
    hide Skip, CheckItems, CheckMembers, PutItems, ValidItems, UniqueItems, ItemsDepth, ItemsCount;
    var t, u := Put(v, rest), PutItems(v.items, [CLOSE_BRACKET] + rest);
    SkipsBlanks(blank, t);
    assert t[1..] == v.blank + u;
    ItemsVisible(v.items, [CLOSE_BRACKET] + rest);
    SkipsBlanks(v.blank, u);
    ItemsChecked([], v.items, rest, depth, nodes + 1);
    assert [] + u == u;
  }

  lemma {:induction false} ObjectChecked(blank: Text, v: Value, rest: Text, depth: nat, nodes: nat)
    requires Blank(blank) && Valid(v) && v.Object?
    ensures CheckValue(blank + Put(v, rest), depth, nodes) ==
            Outcome(Conforms(Unique(v), depth + Depth(v), nodes + Count(v)), rest, nodes + Count(v))
    decreases v, 0
  {
    hide Skip, CheckItems, CheckMembers, PutMembers, ValidMembers, UniqueMembers, MembersDepth, MembersCount, KeysOf;
    var t, u := Put(v, rest), PutMembers(v.members, [CLOSE_BRACE] + rest);
    SkipsBlanks(blank, t);
    assert t[1..] == v.blank + u;
    MembersBegin(v.members, [CLOSE_BRACE] + rest);
    SkipsBlanks(v.blank, u);
    MembersChecked(v.members, rest, depth, nodes + 1, {});
  }

  lemma {:induction false} ItemsChecked(blank: Text, items: Items, rest: Text, depth: nat, nodes: nat)
    requires Blank(blank) && ValidItems(items)
    ensures CheckItems(blank + PutItems(items, [CLOSE_BRACKET] + rest), depth, nodes) ==
            Outcome(Conforms(UniqueItems(items), depth + ItemsDepth(items), nodes + ItemsCount(items)),
                    rest, nodes + ItemsCount(items))
    decreases items
  {
    hide CheckValue, Put, Valid, Delimiter, EndsNumber, Unique, Depth, Count, Blank;
    var close := [CLOSE_BRACKET] + rest;
    match items
    case LastItem(v, after, trailing) =>
      BlankEnds(after, close);
      ValueChecked(blank, v, after + close, depth + 1, nodes);
      ValueVisible(v, after + close);
      DelimiterFound(after, CLOSE_BRACKET, rest, CLOSE_BRACKET);
    case Item(v, after, before, more) =>
      var t := before + PutItems(more, close);
      BlankEnds(after, [COMMA] + t);
      ValueChecked(blank, v, after + ([COMMA] + t), depth + 1, nodes);
      ValueVisible(v, after + ([COMMA] + t));
      DelimiterFound(after, COMMA, t, CLOSE_BRACKET);
      ItemsChecked(before, more, rest, depth, nodes + Count(v));
  }

  /** The keys are distinct and none of them has been seen. */
  predicate Fresh(keys: seq<Text>, seen: set<Text>) {
    Distinct(keys) && forall i :: 0 <= i < |keys| ==> keys[i] !in seen
  }

  lemma FreshUnfolds(key: Text, more: seq<Text>, seen: set<Text>)
    ensures Fresh([key] + more, seen) <==> key !in seen && Fresh(more, seen + {key})
  {
    var all := [key] + more;
    if key !in seen && Fresh(more, seen + {key}) {
      forall i, j | 0 <= i < j < |all| ensures all[i] != all[j] {
        assert all[j] == more[j - 1] && (i > 0 ==> all[i] == more[i - 1]);
      }
    }
    if Fresh(all, seen) {
      assert all[0] == key;
      forall i | 0 <= i < |more| ensures more[i] !in seen + {key} {
        assert all[i + 1] == more[i] && all[0] != all[i + 1];
      }
      forall i, j | 0 <= i < j < |more| ensures more[i] != more[j] { assert all[i + 1] != all[j + 1]; }
    }
  }

  lemma NewKeyRead(key: seq<Piece>, afterKey: Text, rest: Text, seen: set<Text>)
    requires ValidPieces(key) && Blank(afterKey)
    ensures NewKey(PutString(key, afterKey + ([COLON] + rest)), seen) ==
            if KeyText(key) in seen then None else Some(Parsed(KeyText(key), rest))
  {
    hide ReadString, PutString, Skip, KeyText;
    ReadsWholeString(key, afterKey + ([COLON] + rest));
    SkipsBlanks(afterKey, [COLON] + rest);
    assert ([COLON] + rest)[1..] == rest;
  }

  lemma {:induction false} LastMemberChecked(members: Members, rest: Text, depth: nat, nodes: nat, seen: set<Text>)
    requires ValidMembers(members) && members.LastMember?
    ensures CheckMembers(PutMembers(members, [CLOSE_BRACE] + rest), depth, nodes, seen) ==
            Outcome(Conforms(Fresh(KeysOf(members), seen) && UniqueMembers(members),
                             depth + MembersDepth(members), nodes + MembersCount(members)),
                    rest, nodes + MembersCount(members))
    decreases members, 0
  {
    hide CheckValue, Put, Valid, Delimiter, EndsNumber, Unique, Depth, Count, Blank, NewKey, PutString, KeyText, Fresh,
      Skip;
    var LastMember(key, afterKey, beforeValue, v, after, _) := members;
    var close := [CLOSE_BRACE] + rest;
    NewKeyRead(key, afterKey, beforeValue + Put(v, after + close), seen);
    FreshUnfolds(KeyText(key), [], seen);
    NothingFresh(seen + {KeyText(key)});
    assert KeysOf(members) == [KeyText(key)] + [];
    BlankEnds(after, close);
    ValueChecked(beforeValue, v, after + close, depth + 1, nodes);
    DelimiterFound(after, CLOSE_BRACE, rest, CLOSE_BRACE);
  }

  lemma {:induction false} NextMemberChecked(members: Members, rest: Text, depth: nat, nodes: nat, seen: set<Text>)
    requires ValidMembers(members) && members.Member?
    ensures CheckMembers(PutMembers(members, [CLOSE_BRACE] + rest), depth, nodes, seen) ==
            Outcome(Conforms(Fresh(KeysOf(members), seen) && UniqueMembers(members),
                             depth + MembersDepth(members), nodes + MembersCount(members)),
                    rest, nodes + MembersCount(members))
    decreases members, 0
  {
    hide CheckValue, Put, Valid, Delimiter, EndsNumber, Unique, Depth, Count, Blank, NewKey, PutString, KeyText, Fresh,
      Skip;
    var Member(key, afterKey, beforeValue, v, after, before, more) := members;
    var close := [CLOSE_BRACE] + rest;
    var u := PutMembers(more, close);
    var t := before + u;
    NewKeyRead(key, afterKey, beforeValue + Put(v, after + ([COMMA] + t)), seen);
    FreshUnfolds(KeyText(key), KeysOf(more), seen);
    BlankEnds(after, [COMMA] + t);
    ValueChecked(beforeValue, v, after + ([COMMA] + t), depth + 1, nodes);
    DelimiterFound(after, COMMA, t, CLOSE_BRACE);
    MembersBegin(more, close);
    SkipsBlanks(before, u);
    MembersChecked(more, rest, depth, nodes + Count(v), seen + {KeyText(key)});
  }

  lemma {:induction false} MembersChecked(members: Members, rest: Text, depth: nat, nodes: nat, seen: set<Text>)
    requires ValidMembers(members)
    ensures CheckMembers(PutMembers(members, [CLOSE_BRACE] + rest), depth, nodes, seen) ==
            Outcome(Conforms(Fresh(KeysOf(members), seen) && UniqueMembers(members),
                             depth + MembersDepth(members), nodes + MembersCount(members)),
                    rest, nodes + MembersCount(members))
    decreases members, 1
  {
    hide *;
    if members.LastMember? {
      LastMemberChecked(members, rest, depth, nodes, seen);
    } else {
      NextMemberChecked(members, rest, depth, nodes, seen);
    }
  }

  lemma NothingFresh(seen: set<Text>)
    ensures Fresh([], seen)
  {
  }

  /** On every text that `JSON.parse` accepts, the check passes if and only if in every object at
      every depth the decoded keys are pairwise distinct, values are nested at most 64 deep and
      there are at most 10,000 of them. */
  lemma UniqueKeysExactly(s: Text)
    requires Parse(s).Some?
    ensures var v := Parse(s).value.value;
            Valid(v) && (HasUniqueKeys(s) <==> Unique(v) && Depth(v) <= 64 && Count(v) <= 10_000)
  {
    hide Parse, CheckValue, Put, Valid, Unique, Depth, Count, Skip;
    ParsedWasText(s);
    var d := Parse(s).value;
    assert d.after + [] == d.after;
    BlankEnds(d.after, []);
    SkipsBlanks(d.after, []);
    ValueChecked(d.before, d.value, d.after, 0, 0);
  }
}
