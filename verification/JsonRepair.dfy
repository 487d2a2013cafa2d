/** The two syntax passes that repair a review envelope before it is parsed
    (src/convergence.mjs, `escapeJsonStringControls`, `removeJsonTrailingCommas`). */
module JsonRepair {
  import opened Prelude
  import opened JsonText

  // ---- the passes as functions of what is left to read ----------------

  function HexDigit(n: nat): (u: Unit)
    requires n < 16
    ensures IsHex(u) && HexValue(u) == n
  {
    if n < 10 then 0x30 + n else 0x61 + n - 10
  }

  /** How `JSON.stringify` writes a control character. */
  function ControlPiece(u: Unit): (p: Piece)
    requires u <= 0x1F
    ensures ValidPiece(p) && Decoded(p) == u
  {
    if u == 0x08 then Escape(0x62)
    else if u == 0x09 then Escape(0x74)
    else if u == 0x0A then Escape(0x6E)
    else if u == 0x0C then Escape(0x66)
    else if u == 0x0D then Escape(0x72)
    else Hex(ZERO, ZERO, HexDigit(u / 16), HexDigit(u % 16))
  }

  datatype Repair = Repair(text: Text, count: nat)

  function Keep(u: Unit, later: Repair): Repair {
    Repair([u] + later.text, later.count)
  }

  function EscapeControls(t: Text, inString: bool, escaped: bool): Repair {
    if t == [] then Repair([], 0)
    else
      var u, rest := t[0], t[1..];
      if !inString then Keep(u, EscapeControls(rest, u == QUOTE, false))
      else if escaped then Keep(u, EscapeControls(rest, true, false))
      else if u == BACKSLASH then Keep(u, EscapeControls(rest, true, true))
      else if u == QUOTE then Keep(u, EscapeControls(rest, false, false))
      else if u <= 0x1F then
        var later := EscapeControls(rest, true, false);
        Repair(PutPiece(ControlPiece(u), later.text), later.count + 1)
      else Keep(u, EscapeControls(rest, true, false))
  }

  predicate ClosesNext(t: Text) {
    FirstVisible(t) == Some(CLOSE_BRACKET) || FirstVisible(t) == Some(CLOSE_BRACE)
  }

  function RemoveCommas(t: Text, inString: bool, escaped: bool): Repair {
    if t == [] then Repair([], 0)
    else
      var u, rest := t[0], t[1..];
      if inString then
        Keep(u, if escaped then RemoveCommas(rest, true, false)
                else if u == BACKSLASH then RemoveCommas(rest, true, true)
                else RemoveCommas(rest, u != QUOTE, false))
      else if u == COMMA && ClosesNext(rest) then
        var later := RemoveCommas(rest, false, false);
        Repair(later.text, later.count + 1)
      else Keep(u, RemoveCommas(rest, u == QUOTE, false))
  }

  /** `normalizeJsonSyntax`. */
  function Normalize(t: Text): Repair {
    var controls := EscapeControls(t, false, false);
    var commas := RemoveCommas(controls.text, false, false);
    Repair(commas.text, controls.count + commas.count)
  }

  // ---- the passes as the source carries them out ----------------------

  lemma PieceText(p: Piece, rest: Text)
    ensures PutPiece(p, rest) == PutPiece(p, []) + rest
  {
  }

  /** What the first pass appends for one unit, the state it goes on in, and whether it counts. */
  lemma EscapeUnit(value: Text, i: nat, inString: bool, escaped: bool)
    requires i < |value| && (!inString ==> !escaped)
    ensures var u := value[i];
            var control := inString && !escaped && u <= 0x1F;
            var nextInString := if inString then escaped || u != QUOTE else u == QUOTE;
            var nextEscaped := inString && !escaped && u == BACKSLASH;
            var later := EscapeControls(value[i + 1..], nextInString, nextEscaped);
            EscapeControls(value[i..], inString, escaped) ==
            Repair((if control then PutPiece(ControlPiece(u), []) else [u]) + later.text,
                   later.count + if control then 1 else 0)
  {
    hide PutPiece, ControlPiece;
    assert value[i..][0] == value[i] && value[i..][1..] == value[i + 1..];
    if value[i] <= 0x1F { PieceText(ControlPiece(value[i]), EscapeControls(value[i + 1..], true, false).text); }
  }

  method EscapeJsonStringControls(value: Text) returns (normalized: Text, controlEscapes: nat)
    ensures Repair(normalized, controlEscapes) == EscapeControls(value, false, false)
  {
    hide EscapeControls, PutPiece, ControlPiece;
    var escaped, inString := false, false;
    normalized, controlEscapes := [], 0;
    ghost var whole := EscapeControls(value, false, false);
    assert value[0..] == value;
    for i := 0 to |value|
      invariant !inString ==> !escaped
      invariant var later := EscapeControls(value[i..], inString, escaped);
                whole == Repair(normalized + later.text, controlEscapes + later.count)
    {
      var character := value[i];
      EscapeUnit(value, i, inString, escaped);
      ghost var before := normalized;
      ghost var emitted := [character];
      if !inString {
        normalized := normalized + [character];
        inString := character == QUOTE;
      } else if escaped {
        normalized := normalized + [character];
        escaped := false;
      } else if character == BACKSLASH {
        normalized := normalized + [character];
        escaped := true;
      } else if character == QUOTE {
        normalized := normalized + [character];
        inString := false;
      } else if character <= 0x1F {
        normalized := normalized + PutPiece(ControlPiece(character), []);
        controlEscapes := controlEscapes + 1;
        emitted := PutPiece(ControlPiece(character), []);
      } else {
        normalized := normalized + [character];
      }
      assert normalized == before + emitted;
      Associates(before, emitted, EscapeControls(value[i + 1..], inString, escaped).text);
    }
    NothingLeft(value);
  }

  lemma NothingLeft(value: Text)
    ensures EscapeControls(value[|value|..], false, false) == Repair([], 0)
    ensures EscapeControls(value[|value|..], true, false) == Repair([], 0)
    ensures EscapeControls(value[|value|..], true, true) == Repair([], 0)
  {
  }

  /** What the second pass appends for one unit, and the state it goes on in. */
  lemma RemoveUnit(value: Text, i: nat, inString: bool, escaped: bool)
    requires i < |value| && (!inString ==> !escaped)
    ensures var u := value[i];
            var drops := !inString && u == COMMA && ClosesNext(value[i + 1..]);
            var nextInString := if inString then escaped || u != QUOTE else u == QUOTE;
            var nextEscaped := inString && !escaped && u == BACKSLASH;
            var later := RemoveCommas(value[i + 1..], nextInString, nextEscaped);
            RemoveCommas(value[i..], inString, escaped) ==
            Repair((if drops then [] else [u]) + later.text, later.count + if drops then 1 else 0)
  {
    hide ClosesNext;
    assert value[i..][0] == value[i] && value[i..][1..] == value[i + 1..];
  }

  /** The look-ahead: skips white space and answers whether a closing bracket follows. */
  method ClosingFollows(value: Text, start: nat) returns (closes: bool)
    requires start <= |value|
    ensures closes == ClosesNext(value[start..])
  {
    var nextIndex := start;
    while nextIndex < |value| && IsSpace(value[nextIndex])
      invariant start <= nextIndex <= |value|
      invariant FirstVisible(value[start..]) == FirstVisible(value[nextIndex..])
    {
      assert value[nextIndex..][1..] == value[nextIndex + 1..];
      nextIndex := nextIndex + 1;
    }
    closes := nextIndex < |value| && (value[nextIndex] == CLOSE_BRACKET || value[nextIndex] == CLOSE_BRACE);
  }

  method RemoveJsonTrailingCommas(value: Text) returns (normalized: Text, removedCommas: nat)
    ensures Repair(normalized, removedCommas) == RemoveCommas(value, false, false)
  {
    hide RemoveCommas, ClosesNext;
    var escaped, inString := false, false;
    normalized, removedCommas := [], 0;
    ghost var whole := RemoveCommas(value, false, false);
    assert value[0..] == value;
    for index := 0 to |value|
      invariant !inString ==> !escaped
      invariant var later := RemoveCommas(value[index..], inString, escaped);
                whole == Repair(normalized + later.text, removedCommas + later.count)
    {
      var character := value[index];
      RemoveUnit(value, index, inString, escaped);
      ghost var before := normalized;
      ghost var emitted := [character];
      if inString {
        normalized := normalized + [character];
        if escaped {
          escaped := false;
        } else if character == BACKSLASH {
          escaped := true;
        } else if character == QUOTE {
          inString := false;
        }
      } else if character == QUOTE {
        normalized := normalized + [character];
        inString := true;
      } else {
        var removed := false;
        if character == COMMA { removed := ClosingFollows(value, index + 1); }
        if removed {
          removedCommas := removedCommas + 1;
          emitted := [];
        } else {
          normalized := normalized + [character];
        }
      }
      assert normalized == before + emitted;
      Associates(before, emitted, RemoveCommas(value[index + 1..], inString, escaped).text);
    }
    NothingLeftToRemove(value);
  }

  lemma NothingLeftToRemove(value: Text)
    ensures RemoveCommas(value[|value|..], false, false) == Repair([], 0)
    ensures RemoveCommas(value[|value|..], true, false) == Repair([], 0)
    ensures RemoveCommas(value[|value|..], true, true) == Repair([], 0)
  {
  }

  method NormalizeJsonSyntax(value: Text) returns (normalized: Text, repairs: nat)
    ensures Repair(normalized, repairs) == Normalize(value)
  {
    var controls, escapes := EscapeJsonStringControls(value);
    var removals;
    normalized, removals := RemoveJsonTrailingCommas(controls);
    repairs := escapes + removals;
  }

  // ---- the clean document ---------------------------------------------

  function CleanPiece(p: Piece): (q: Piece)
    requires LoosePiece(p)
    ensures ValidPiece(q) && Decoded(q) == Decoded(p)
  {
    if p.Plain? && p.unit <= 0x1F then ControlPiece(p.unit) else p
  }

  function CleanPieces(pieces: seq<Piece>): (r: seq<Piece>)
    requires LoosePieces(pieces)
    ensures ValidPieces(r) && Decode(r) == Decode(pieces)
  {
    if pieces == [] then [] else [CleanPiece(pieces[0])] + CleanPieces(pieces[1..])
  }

  /** The same document, with every raw control character escaped. */
  function Escaped(v: Value): (r: Value)
    requires Loose(v)
    ensures Loose(r)
  {
    match v
    case Quoted(pieces) => Quoted(CleanPieces(pieces))
    case Array(blank, items) => Array(blank, EscapedItems(items))
    case Object(blank, members) => Object(blank, EscapedMembers(members))
    case _ => v
  }

  function EscapedItems(items: Items): (r: Items)
    requires LooseItems(items)
    ensures LooseItems(r)
  {
    match items
    case LastItem(v, after, trailing) => LastItem(Escaped(v), after, trailing)
    case Item(v, after, before, more) => Item(Escaped(v), after, before, EscapedItems(more))
  }

  function EscapedMembers(members: Members): (r: Members)
    requires LooseMembers(members)
    ensures LooseMembers(r)
  {
    match members
    case LastMember(key, afterKey, beforeValue, v, after, trailing) =>
      LastMember(CleanPieces(key), afterKey, beforeValue, Escaped(v), after, trailing)
    case Member(key, afterKey, beforeValue, v, after, before, more) =>
      Member(CleanPieces(key), afterKey, beforeValue, Escaped(v), after, before, EscapedMembers(more))
  }

  function JoinBlanks(after: Text, trailing: Option<Text>): Text {
    if trailing.None? then after else after + trailing.value
  }

  /** The same document without trailing commas; the blanks around one stay. */
  function Untrailed(v: Value): Value {
    match v
    case Array(blank, items) => Array(blank, UntrailedItems(items))
    case Object(blank, members) => Object(blank, UntrailedMembers(members))
    case _ => v
  }

  function UntrailedItems(items: Items): Items {
    match items
    case LastItem(v, after, trailing) => LastItem(Untrailed(v), JoinBlanks(after, trailing), None)
    case Item(v, after, before, more) => Item(Untrailed(v), after, before, UntrailedItems(more))
  }

  function UntrailedMembers(members: Members): Members {
    match members
    case LastMember(key, afterKey, beforeValue, v, after, trailing) =>
      LastMember(key, afterKey, beforeValue, Untrailed(v), JoinBlanks(after, trailing), None)
    case Member(key, afterKey, beforeValue, v, after, before, more) =>
      Member(key, afterKey, beforeValue, Untrailed(v), after, before, UntrailedMembers(more))
  }

  // ---- counting what is repaired --------------------------------------

  function ControlsIn(pieces: seq<Piece>): nat {
    if pieces == [] then 0
    else (if pieces[0].Plain? && pieces[0].unit <= 0x1F then 1 else 0) + ControlsIn(pieces[1..])
  }

  function Controls(v: Value): nat {
    match v
    case Quoted(pieces) => ControlsIn(pieces)
    case Array(_, items) => ItemControls(items)
    case Object(_, members) => MemberControls(members)
    case _ => 0
  }

  function ItemControls(items: Items): nat {
    match items
    case LastItem(v, _, _) => Controls(v)
    case Item(v, _, _, more) => Controls(v) + ItemControls(more)
  }

  function MemberControls(members: Members): nat {
    match members
    case LastMember(key, _, _, v, _, _) => ControlsIn(key) + Controls(v)
    case Member(key, _, _, v, _, _, more) => ControlsIn(key) + Controls(v) + MemberControls(more)
  }

  function Commas(v: Value): nat {
    match v
    case Array(_, items) => ItemCommas(items)
    case Object(_, members) => MemberCommas(members)
    case _ => 0
  }

  function ItemCommas(items: Items): nat {
    match items
    case LastItem(v, _, trailing) => Commas(v) + (if trailing.Some? then 1 else 0)
    case Item(v, _, _, more) => Commas(v) + ItemCommas(more)
  }

  function MemberCommas(members: Members): nat {
    match members
    case LastMember(_, _, _, v, _, trailing) => Commas(v) + (if trailing.Some? then 1 else 0)
    case Member(_, _, _, v, _, _, more) => Commas(v) + MemberCommas(more)
  }

  // ---- the first pass -------------------------------------------------

  predicate NoQuote(t: Text) {
    forall i :: 0 <= i < |t| ==> t[i] != QUOTE
  }

  lemma {:induction false} EscapeOutside(t: Text, rest: Text)
    requires NoQuote(t)
    ensures var later := EscapeControls(rest, false, false);
            EscapeControls(t + rest, false, false) == Repair(t + later.text, later.count)
  {
    if t == [] {
      assert t + rest == rest;
    } else {
      assert (t + rest)[1..] == t[1..] + rest && (t + rest)[0] == t[0];
      EscapeOutside(t[1..], rest);
      var later := EscapeControls(rest, false, false);
      assert [t[0]] + (t[1..] + later.text) == t + later.text;
    }
  }

  lemma EscapeOne(u: Unit, rest: Text)
    requires u != QUOTE
    ensures EscapeControls([u] + rest, false, false) == Keep(u, EscapeControls(rest, false, false))
  {
    assert ([u] + rest)[1..] == rest;
  }

  /** Inside a string, one piece at a time. */
  lemma EscapePiece(p: Piece, rest: Text)
    requires LoosePiece(p)
    ensures var later := EscapeControls(rest, true, false);
            EscapeControls(PutPiece(p, rest), true, false) ==
            Repair(PutPiece(CleanPiece(p), later.text), later.count + if p.Plain? && p.unit <= 0x1F then 1 else 0)
  {
    match p
    case Plain(u) => EscapePlain(u, rest);
    case Escape(letter) =>
      EscapeMark(letter, rest);
      assert PutPiece(p, rest) == [BACKSLASH] + ([letter] + rest);
    case Hex(a, b, c, d) => EscapeHex(a, b, c, d, rest);
  }

  lemma EscapePlain(u: Unit, rest: Text)
    requires u != QUOTE && u != BACKSLASH
    ensures var later := EscapeControls(rest, true, false);
            EscapeControls([u] + rest, true, false) ==
            if u <= 0x1F then Repair(PutPiece(ControlPiece(u), later.text), later.count + 1) else Keep(u, later)
  {
    hide ControlPiece, PutPiece;
    assert ([u] + rest)[0] == u && ([u] + rest)[1..] == rest;
  }

  lemma EscapeHex(a: Unit, b: Unit, c: Unit, d: Unit, rest: Text)
    requires IsHex(a) && IsHex(b) && IsHex(c) && IsHex(d)
    ensures var later := EscapeControls(rest, true, false);
            EscapeControls(PutPiece(Hex(a, b, c, d), rest), true, false) ==
            Repair(PutPiece(Hex(a, b, c, d), later.text), later.count)
  {
    hide EscapeControls;
    var later := EscapeControls(rest, true, false);
    EscapePlain(d, rest);
    EscapePlain(c, [d] + rest);
    EscapePlain(b, [c] + ([d] + rest));
    EscapePlain(a, [b] + ([c] + ([d] + rest)));
    EscapeMark(0x75, [a] + ([b] + ([c] + ([d] + rest))));
    HexSpelled(a, b, c, d, rest);
    HexSpelled(a, b, c, d, later.text);
  }

  lemma HexSpelled(a: Unit, b: Unit, c: Unit, d: Unit, rest: Text)
    ensures PutPiece(Hex(a, b, c, d), rest) == [BACKSLASH] + ([0x75] + ([a] + ([b] + ([c] + ([d] + rest)))))
  {
  }

  /** A backslash passes whatever follows it. */
  lemma EscapeMark(mark: Unit, rest: Text)
    ensures var later := EscapeControls(rest, true, false);
            EscapeControls([BACKSLASH] + ([mark] + rest), true, false) ==
            Repair([BACKSLASH] + ([mark] + later.text), later.count)
  {
    var t := [BACKSLASH] + ([mark] + rest);
    assert t[1..] == [mark] + rest && t[1..][1..] == rest;
  }

  lemma {:induction false} EscapePieces(pieces: seq<Piece>, rest: Text)
    requires LoosePieces(pieces)
    ensures var later := EscapeControls(rest, false, false);
            EscapeControls(PutPieces(pieces, [QUOTE] + rest), true, false) ==
            Repair(PutPieces(CleanPieces(pieces), [QUOTE] + later.text), ControlsIn(pieces) + later.count)
  {
    hide CleanPiece, PutPiece, EscapeControls;
    var later := EscapeControls(rest, false, false);
    if pieces == [] {
      EscapeClosing(rest);
    } else {
      EscapePieces(pieces[1..], rest);
      EscapePiece(pieces[0], PutPieces(pieces[1..], [QUOTE] + rest));
      var clean := CleanPieces(pieces);
      assert clean[0] == CleanPiece(pieces[0]) && clean[1..] == CleanPieces(pieces[1..]);
    }
  }

  lemma EscapeClosing(rest: Text)
    ensures EscapeControls([QUOTE] + rest, true, false) == Keep(QUOTE, EscapeControls(rest, false, false))
    ensures EscapeControls([QUOTE] + rest, false, false) == Keep(QUOTE, EscapeControls(rest, true, false))
  {
    assert ([QUOTE] + rest)[1..] == rest;
  }

  lemma EscapeString(pieces: seq<Piece>, rest: Text)
    requires LoosePieces(pieces)
    ensures var later := EscapeControls(rest, false, false);
            EscapeControls(PutString(pieces, rest), false, false) ==
            Repair(PutString(CleanPieces(pieces), later.text), ControlsIn(pieces) + later.count)
  {
    hide EscapeControls, PutPieces, CleanPieces;
    EscapeClosing(PutPieces(pieces, [QUOTE] + rest));
    EscapePieces(pieces, rest);
  }

  lemma BlankHasNoQuote(t: Text)
    requires Blank(t)
    ensures NoQuote(t)
  {
  }

  lemma EscapeTrailing(after: Text, trailing: Option<Text>, rest: Text)
    requires Blank(after) && BlankTrailing(trailing)
    ensures var later := EscapeControls(rest, false, false);
            EscapeControls(after + PutTrailing(trailing, rest), false, false) ==
            Repair(after + PutTrailing(trailing, later.text), later.count)
  {
    hide EscapeControls;
    BlankHasNoQuote(after);
    EscapeOutside(after, PutTrailing(trailing, rest));
    if trailing.Some? {
      BlankHasNoQuote(trailing.value);
      EscapeOutside(trailing.value, rest);
      EscapeOne(COMMA, trailing.value + rest);
    }
  }

  /** The first pass on a value turns it into the same value with its controls escaped and
      continues with what follows. */
  lemma {:induction false} EscapeValue(v: Value, rest: Text)
    requires Loose(v)
    ensures var later := EscapeControls(rest, false, false);
            EscapeControls(Put(v, rest), false, false) == Repair(Put(Escaped(v), later.text), Controls(v) + later.count)
    decreases v
  {
    hide EscapeControls, PutNumber, PutString, CleanPieces;
    var later := EscapeControls(rest, false, false);
    match v
    case Constant(w) => EscapeOutside(WordText(w), rest);
    case Numeral(n) =>
      NumberSplits(n, rest);
      NumberSplits(n, later.text);
      EscapeOutside(NumberText(n), rest);
    case Quoted(pieces) => EscapeString(pieces, rest);
    case EmptyArray(blank) => EscapeBrackets(OPEN_BRACKET, blank, CLOSE_BRACKET, rest);
    case EmptyObject(blank) => EscapeBrackets(OPEN_BRACE, blank, CLOSE_BRACE, rest);
    case Array(blank, items) =>
      EscapeOne(CLOSE_BRACKET, rest);
      EscapeItems(items, [CLOSE_BRACKET] + rest);
      BlankHasNoQuote(blank);
      EscapeOutside(blank, PutItems(items, [CLOSE_BRACKET] + rest));
      EscapeOne(OPEN_BRACKET, blank + PutItems(items, [CLOSE_BRACKET] + rest));
    case Object(blank, members) =>
      EscapeOne(CLOSE_BRACE, rest);
      EscapeMembers(members, [CLOSE_BRACE] + rest);
      BlankHasNoQuote(blank);
      EscapeOutside(blank, PutMembers(members, [CLOSE_BRACE] + rest));
      EscapeOne(OPEN_BRACE, blank + PutMembers(members, [CLOSE_BRACE] + rest));
  }

  lemma EscapeBrackets(open: Unit, blank: Text, close: Unit, rest: Text)
    requires open != QUOTE && close != QUOTE && Blank(blank)
    ensures var later := EscapeControls(rest, false, false);
            EscapeControls([open] + (blank + ([close] + rest)), false, false) ==
            Repair([open] + (blank + ([close] + later.text)), later.count)
  {
    hide EscapeControls;
    BlankHasNoQuote(blank);
    EscapeOne(close, rest);
    EscapeOutside(blank, [close] + rest);
    EscapeOne(open, blank + ([close] + rest));
  }

  /** A comma between two entries and the blanks around it. */
  lemma EscapeSeparator(after: Text, before: Text, rest: Text)
    requires Blank(after) && Blank(before)
    ensures var later := EscapeControls(rest, false, false);
            EscapeControls(after + ([COMMA] + (before + rest)), false, false) ==
            Repair(after + ([COMMA] + (before + later.text)), later.count)
  {
    hide EscapeControls;
    BlankHasNoQuote(after);
    BlankHasNoQuote(before);
    EscapeOutside(before, rest);
    EscapeOne(COMMA, before + rest);
    EscapeOutside(after, [COMMA] + (before + rest));
  }

  lemma {:induction false} EscapeItems(items: Items, rest: Text)
    requires LooseItems(items)
    ensures var later := EscapeControls(rest, false, false);
            EscapeControls(PutItems(items, rest), false, false) ==
            Repair(PutItems(EscapedItems(items), later.text), ItemControls(items) + later.count)
    decreases items
  {
    hide EscapeControls, Put, Escaped, Controls;
    match items
    case LastItem(v, after, trailing) =>
      EscapeTrailing(after, trailing, rest);
      EscapeValue(v, after + PutTrailing(trailing, rest));
    case Item(v, after, before, more) =>
      EscapeItems(more, rest);
      EscapeSeparator(after, before, PutItems(more, rest));
      EscapeValue(v, after + ([COMMA] + (before + PutItems(more, rest))));
  }

  /** A key, its colon and the blanks around it. */
  lemma EscapeKey(key: seq<Piece>, afterKey: Text, beforeValue: Text, rest: Text)
    requires LoosePieces(key) && Blank(afterKey) && Blank(beforeValue)
    ensures var later := EscapeControls(rest, false, false);
            EscapeControls(PutString(key, afterKey + ([COLON] + (beforeValue + rest))), false, false) ==
            Repair(PutString(CleanPieces(key), afterKey + ([COLON] + (beforeValue + later.text))),
                   ControlsIn(key) + later.count)
  {
    hide EscapeControls, PutString, CleanPieces;
    BlankHasNoQuote(afterKey);
    BlankHasNoQuote(beforeValue);
    EscapeOutside(beforeValue, rest);
    EscapeOne(COLON, beforeValue + rest);
    EscapeOutside(afterKey, [COLON] + (beforeValue + rest));
    EscapeString(key, afterKey + ([COLON] + (beforeValue + rest)));
  }

  lemma {:induction false} EscapeMembers(members: Members, rest: Text)
    requires LooseMembers(members)
    ensures var later := EscapeControls(rest, false, false);
            EscapeControls(PutMembers(members, rest), false, false) ==
            Repair(PutMembers(EscapedMembers(members), later.text), MemberControls(members) + later.count)
    decreases members
  {
    hide EscapeControls, Put, Escaped, Controls, PutString, CleanPieces;
    match members
    case LastMember(key, afterKey, beforeValue, v, after, trailing) =>
      EscapeTrailing(after, trailing, rest);
      EscapeValue(v, after + PutTrailing(trailing, rest));
      EscapeKey(key, afterKey, beforeValue, Put(v, after + PutTrailing(trailing, rest)));
    case Member(key, afterKey, beforeValue, v, after, before, more) =>
      EscapeMembers(more, rest);
      EscapeSeparator(after, before, PutMembers(more, rest));
      EscapeValue(v, after + ([COMMA] + (before + PutMembers(more, rest))));
      EscapeKey(key, afterKey, beforeValue, Put(v, after + ([COMMA] + (before + PutMembers(more, rest)))));
  }

  // ---- the second pass ------------------------------------------------

  predicate NoQuoteNorComma(t: Text) {
    forall i :: 0 <= i < |t| ==> t[i] != QUOTE && t[i] != COMMA
  }

  lemma RemoveOne(u: Unit, rest: Text)
    requires u != QUOTE && (u == COMMA ==> !ClosesNext(rest))
    ensures RemoveCommas([u] + rest, false, false) == Keep(u, RemoveCommas(rest, false, false))
  {
    assert ([u] + rest)[1..] == rest;
  }

  lemma RemoveComma(rest: Text)
    requires ClosesNext(rest)
    ensures var later := RemoveCommas(rest, false, false);
            RemoveCommas([COMMA] + rest, false, false) == Repair(later.text, later.count + 1)
  {
    assert ([COMMA] + rest)[1..] == rest;
  }

  lemma {:induction false} RemoveOutside(t: Text, rest: Text)
    requires NoQuoteNorComma(t)
    ensures var later := RemoveCommas(rest, false, false);
            RemoveCommas(t + rest, false, false) == Repair(t + later.text, later.count)
  {
    hide RemoveCommas, ClosesNext;
    if t == [] {
      assert t + rest == rest;
    } else {
      assert t + rest == [t[0]] + (t[1..] + rest);
      RemoveOutside(t[1..], rest);
      RemoveOne(t[0], t[1..] + rest);
      var later := RemoveCommas(rest, false, false);
      assert [t[0]] + (t[1..] + later.text) == t + later.text;
    }
  }

  lemma RemoveQuoted(u: Unit, rest: Text)
    requires u != QUOTE && u != BACKSLASH
    ensures RemoveCommas([u] + rest, true, false) == Keep(u, RemoveCommas(rest, true, false))
  {
    assert ([u] + rest)[1..] == rest;
  }

  lemma RemoveMark(mark: Unit, rest: Text)
    ensures RemoveCommas([BACKSLASH] + ([mark] + rest), true, false) ==
            Keep(BACKSLASH, Keep(mark, RemoveCommas(rest, true, false)))
  {
    var t := [BACKSLASH] + ([mark] + rest);
    assert t[1..] == [mark] + rest && t[1..][1..] == rest;
  }

  lemma RemovePiece(p: Piece, rest: Text)
    requires LoosePiece(p)
    ensures var later := RemoveCommas(rest, true, false);
            RemoveCommas(PutPiece(p, rest), true, false) == Repair(PutPiece(p, later.text), later.count)
  {
    hide RemoveCommas;
    var later := RemoveCommas(rest, true, false);
    match p
    case Plain(u) => RemoveQuoted(u, rest);
    case Escape(letter) =>
      RemoveMark(letter, rest);
      assert PutPiece(p, rest) == [BACKSLASH] + ([letter] + rest);
      assert PutPiece(p, later.text) == [BACKSLASH] + ([letter] + later.text);
    case Hex(a, b, c, d) =>
      RemoveQuoted(d, rest);
      RemoveQuoted(c, [d] + rest);
      RemoveQuoted(b, [c] + ([d] + rest));
      RemoveQuoted(a, [b] + ([c] + ([d] + rest)));
      RemoveMark(0x75, [a] + ([b] + ([c] + ([d] + rest))));
      HexSpelled(a, b, c, d, rest);
      HexSpelled(a, b, c, d, later.text);
  }

  lemma RemoveClosing(rest: Text)
    ensures RemoveCommas([QUOTE] + rest, true, false) == Keep(QUOTE, RemoveCommas(rest, false, false))
    ensures RemoveCommas([QUOTE] + rest, false, false) == Keep(QUOTE, RemoveCommas(rest, true, false))
  {
    assert ([QUOTE] + rest)[1..] == rest;
  }

  lemma {:induction false} RemovePieces(pieces: seq<Piece>, rest: Text)
    requires LoosePieces(pieces)
    ensures var later := RemoveCommas(rest, false, false);
            RemoveCommas(PutPieces(pieces, [QUOTE] + rest), true, false) ==
            Repair(PutPieces(pieces, [QUOTE] + later.text), later.count)
  {
    hide RemoveCommas, PutPiece;
    if pieces == [] {
      RemoveClosing(rest);
    } else {
      RemovePieces(pieces[1..], rest);
      RemovePiece(pieces[0], PutPieces(pieces[1..], [QUOTE] + rest));
    }
  }

  lemma RemoveString(pieces: seq<Piece>, rest: Text)
    requires LoosePieces(pieces)
    ensures var later := RemoveCommas(rest, false, false);
            RemoveCommas(PutString(pieces, rest), false, false) == Repair(PutString(pieces, later.text), later.count)
  {
    hide RemoveCommas, PutPieces;
    RemoveClosing(PutPieces(pieces, [QUOTE] + rest));
    RemovePieces(pieces, rest);
  }

  lemma BlankIsPlain(t: Text)
    requires Blank(t)
    ensures NoQuoteNorComma(t)
  {
  }

  /** A comma and blanks in front of a closing bracket are reduced to the blanks. */
  lemma RemoveTrailing(after: Text, trailing: Option<Text>, rest: Text)
    requires Blank(after) && BlankTrailing(trailing) && ClosesNext(rest)
    ensures var later := RemoveCommas(rest, false, false);
            RemoveCommas(after + PutTrailing(trailing, rest), false, false) ==
            Repair(JoinBlanks(after, trailing) + later.text, later.count + if trailing.Some? then 1 else 0)
  {
    hide RemoveCommas, FirstVisible;
    var later := RemoveCommas(rest, false, false);
    BlankIsPlain(after);
    RemoveOutside(after, PutTrailing(trailing, rest));
    if trailing.Some? {
      BlankIsPlain(trailing.value);
      BlanksAreInvisible(trailing.value, rest);
      RemoveOutside(trailing.value, rest);
      RemoveComma(trailing.value + rest);
      assert after + (trailing.value + later.text) == (after + trailing.value) + later.text;
    }
  }

  /** A comma in front of another entry stays. */
  lemma RemoveSeparator(after: Text, before: Text, rest: Text)
    requires Blank(after) && Blank(before) && !ClosesNext(rest)
    ensures var later := RemoveCommas(rest, false, false);
            RemoveCommas(after + ([COMMA] + (before + rest)), false, false) ==
            Repair(after + ([COMMA] + (before + later.text)), later.count)
  {
    hide RemoveCommas, FirstVisible;
    BlankIsPlain(after);
    BlankIsPlain(before);
    BlanksAreInvisible(before, rest);
    RemoveOutside(before, rest);
    RemoveOne(COMMA, before + rest);
    RemoveOutside(after, [COMMA] + (before + rest));
  }

  lemma RemoveBrackets(open: Unit, blank: Text, close: Unit, rest: Text)
    requires open != QUOTE && close != QUOTE && open != COMMA && close != COMMA && Blank(blank)
    ensures var later := RemoveCommas(rest, false, false);
            RemoveCommas([open] + (blank + ([close] + rest)), false, false) ==
            Repair([open] + (blank + ([close] + later.text)), later.count)
  {
    hide RemoveCommas, ClosesNext;
    BlankIsPlain(blank);
    RemoveOne(close, rest);
    RemoveOutside(blank, [close] + rest);
    RemoveOne(open, blank + ([close] + rest));
  }

  lemma NumberIsPlain(n: Number)
    requires ValidNumber(n)
    ensures NoQuoteNorComma(NumberText(n))
  {
    hide PutNumber;
    NumberSplits(n, []);
  }

  lemma BracketCloses(close: Unit, rest: Text)
    requires close == CLOSE_BRACKET || close == CLOSE_BRACE
    ensures ClosesNext([close] + rest)
  {
  }

  lemma ValuesOpen(v: Value, rest: Text)
    requires Loose(v)
    ensures !ClosesNext(Put(v, rest))
  {
    hide Put, Loose;
    ValueStarts(v, rest);
  }

  lemma ItemsOpen(items: Items, rest: Text)
    requires LooseItems(items)
    ensures !ClosesNext(PutItems(items, rest))
  {
    hide Put, Loose, ClosesNext;
    match items
    case LastItem(v, after, trailing) => ValuesOpen(v, after + PutTrailing(trailing, rest));
    case Item(v, after, before, more) => ValuesOpen(v, after + ([COMMA] + (before + PutItems(more, rest))));
  }

  lemma MembersOpen(members: Members, rest: Text)
    requires LooseMembers(members)
    ensures !ClosesNext(PutMembers(members, rest))
  {
    hide Put, PutPieces;
    var t := PutMembers(members, rest);
    assert t[0] == QUOTE && FirstVisible(t) == Some(QUOTE);
  }

  /** The second pass on a value drops its trailing commas and continues with what follows. */
  lemma {:induction false} RemoveValue(v: Value, rest: Text)
    requires Loose(v)
    ensures var later := RemoveCommas(rest, false, false);
            RemoveCommas(Put(v, rest), false, false) == Repair(Put(Untrailed(v), later.text), Commas(v) + later.count)
    decreases v
  {
    hide RemoveCommas, PutNumber, PutString, ClosesNext;
    var later := RemoveCommas(rest, false, false);
    match v
    case Constant(w) => RemoveOutside(WordText(w), rest);
    case Numeral(n) =>
      NumberSplits(n, rest);
      NumberSplits(n, later.text);
      NumberIsPlain(n);
      RemoveOutside(NumberText(n), rest);
    case Quoted(pieces) => RemoveString(pieces, rest);
    case EmptyArray(blank) => RemoveBrackets(OPEN_BRACKET, blank, CLOSE_BRACKET, rest);
    case EmptyObject(blank) => RemoveBrackets(OPEN_BRACE, blank, CLOSE_BRACE, rest);
    case Array(blank, items) =>
      BracketCloses(CLOSE_BRACKET, rest);
      RemoveOne(CLOSE_BRACKET, rest);
      RemoveItems(items, [CLOSE_BRACKET] + rest);
      BlankIsPlain(blank);
      RemoveOutside(blank, PutItems(items, [CLOSE_BRACKET] + rest));
      RemoveOne(OPEN_BRACKET, blank + PutItems(items, [CLOSE_BRACKET] + rest));
    case Object(blank, members) =>
      BracketCloses(CLOSE_BRACE, rest);
      RemoveOne(CLOSE_BRACE, rest);
      RemoveMembers(members, [CLOSE_BRACE] + rest);
      BlankIsPlain(blank);
      RemoveOutside(blank, PutMembers(members, [CLOSE_BRACE] + rest));
      RemoveOne(OPEN_BRACE, blank + PutMembers(members, [CLOSE_BRACE] + rest));
  }

  lemma {:induction false} RemoveItems(items: Items, rest: Text)
    requires LooseItems(items) && ClosesNext(rest)
    ensures var later := RemoveCommas(rest, false, false);
            RemoveCommas(PutItems(items, rest), false, false) ==
            Repair(PutItems(UntrailedItems(items), later.text), ItemCommas(items) + later.count)
    decreases items
  {
    hide RemoveCommas, Put, Untrailed, Commas, ClosesNext;
    match items
    case LastItem(v, after, trailing) =>
      RemoveTrailing(after, trailing, rest);
      RemoveValue(v, after + PutTrailing(trailing, rest));
    case Item(v, after, before, more) =>
      RemoveItems(more, rest);
      ItemsOpen(more, rest);
      RemoveSeparator(after, before, PutItems(more, rest));
      RemoveValue(v, after + ([COMMA] + (before + PutItems(more, rest))));
  }

  lemma RemoveKey(key: seq<Piece>, afterKey: Text, beforeValue: Text, rest: Text)
    requires LoosePieces(key) && Blank(afterKey) && Blank(beforeValue)
    ensures var later := RemoveCommas(rest, false, false);
            RemoveCommas(PutString(key, afterKey + ([COLON] + (beforeValue + rest))), false, false) ==
            Repair(PutString(key, afterKey + ([COLON] + (beforeValue + later.text))), later.count)
  {
    hide RemoveCommas, PutString, ClosesNext;
    BlankIsPlain(afterKey);
    BlankIsPlain(beforeValue);
    RemoveOutside(beforeValue, rest);
    RemoveOne(COLON, beforeValue + rest);
    RemoveOutside(afterKey, [COLON] + (beforeValue + rest));
    RemoveString(key, afterKey + ([COLON] + (beforeValue + rest)));
  }

  lemma {:induction false} RemoveMembers(members: Members, rest: Text)
    requires LooseMembers(members) && ClosesNext(rest)
    ensures var later := RemoveCommas(rest, false, false);
            RemoveCommas(PutMembers(members, rest), false, false) ==
            Repair(PutMembers(UntrailedMembers(members), later.text), MemberCommas(members) + later.count)
    decreases members
  {
    hide RemoveCommas, Put, Untrailed, Commas, PutString, ClosesNext;
    match members
    case LastMember(key, afterKey, beforeValue, v, after, trailing) =>
      RemoveTrailing(after, trailing, rest);
      RemoveValue(v, after + PutTrailing(trailing, rest));
      RemoveKey(key, afterKey, beforeValue, Put(v, after + PutTrailing(trailing, rest)));
    case Member(key, afterKey, beforeValue, v, after, before, more) =>
      RemoveMembers(more, rest);
      MembersOpen(more, rest);
      RemoveSeparator(after, before, PutMembers(more, rest));
      RemoveValue(v, after + ([COMMA] + (before + PutMembers(more, rest))));
      RemoveKey(key, afterKey, beforeValue, Put(v, after + ([COMMA] + (before + PutMembers(more, rest)))));
  }

  // ---- what the passes do to documents --------------------------------

  /** The same document without raw control characters and trailing commas. */
  function Clean(v: Value): Value
    requires Loose(v)
  {
    Untrailed(Escaped(v))
  }

  lemma JoinedBlank(after: Text, trailing: Option<Text>)
    requires Blank(after) && BlankTrailing(trailing)
    ensures Blank(JoinBlanks(after, trailing))
  {
  }

  /** Cleaning yields a document of the grammar that means the same. */
  lemma {:induction false} CleanMeansTheSame(v: Value)
    requires Loose(v)
    ensures Valid(Clean(v)) && Loose(Clean(v)) && Meaning(Clean(v)) == Meaning(v)
    ensures Commas(Escaped(v)) == Commas(v)
    decreases v
  {
    match v
    case Array(blank, items) => CleanItemsMeanTheSame(items);
    case Object(blank, members) => CleanMembersMeanTheSame(members);
    case Quoted(pieces) => ValidIsLoose(CleanPieces(pieces));
    case _ =>
  }

  lemma ValidIsLoose(pieces: seq<Piece>)
    requires ValidPieces(pieces)
    ensures LoosePieces(pieces)
  {
  }

  lemma {:induction false} CleanItemsMeanTheSame(items: Items)
    requires LooseItems(items)
    ensures var clean := UntrailedItems(EscapedItems(items));
            ValidItems(clean) && LooseItems(clean) && ItemsMeaning(clean) == ItemsMeaning(items)
    ensures ItemCommas(EscapedItems(items)) == ItemCommas(items)
    decreases items
  {
    hide Valid, Loose, Meaning, Escaped, Untrailed, Commas, JoinBlanks;
    match items
    case LastItem(v, after, trailing) =>
      CleanMeansTheSame(v);
      JoinedBlank(after, trailing);
    case Item(v, after, before, more) =>
      CleanMeansTheSame(v);
      CleanItemsMeanTheSame(more);
  }

  lemma {:induction false} CleanMembersMeanTheSame(members: Members)
    requires LooseMembers(members)
    ensures var clean := UntrailedMembers(EscapedMembers(members));
            ValidMembers(clean) && LooseMembers(clean) && MembersMeaning(clean) == MembersMeaning(members)
    ensures MemberCommas(EscapedMembers(members)) == MemberCommas(members)
    decreases members
  {
    hide Valid, Loose, Meaning, Escaped, Untrailed, Commas, JoinBlanks, Blank;
    match members
    case LastMember(key, afterKey, beforeValue, v, after, trailing) =>
      CleanMeansTheSame(v);
      JoinedBlank(after, trailing);
      ValidIsLoose(CleanPieces(key));
    case Member(key, afterKey, beforeValue, v, after, before, more) =>
      CleanMeansTheSame(v);
      CleanMembersMeanTheSame(more);
      ValidIsLoose(CleanPieces(key));
  }

  /** Repair is exact: on any document written with raw control characters in its strings and
      with a trailing comma in any of its containers, the passes produce the printing of the same
      document in the grammar, and count every repair. */
  lemma RepairIsExact(d: Document)
    requires LooseDocument(d)
    ensures var clean := Document(d.before, Clean(d.value), d.after);
            && Normalize(Print(d)) == Repair(Print(clean), Controls(d.value) + Commas(d.value))
            && ValidDocument(clean) && Loose(clean.value) && Meaning(clean.value) == Meaning(d.value)
  {
    hide EscapeControls, RemoveCommas, Put, Escaped, Untrailed, Meaning, Valid, Loose;
    CleanMeansTheSame(d.value);
    BlankHasNoQuote(d.before);
    BlankHasNoQuote(d.after);
    EscapeOutside(d.before, Put(d.value, d.after));
    EscapeValue(d.value, d.after);
    EscapeOutside(d.after, []);
    NothingToRepair();
    assert d.after + [] == d.after;
    BlankIsPlain(d.before);
    BlankIsPlain(d.after);
    RemoveOutside(d.before, Put(Escaped(d.value), d.after));
    RemoveValue(Escaped(d.value), d.after);
    RemoveOutside(d.after, []);
  }

  lemma NothingToRepair()
    ensures EscapeControls([], false, false) == Repair([], 0) && RemoveCommas([], false, false) == Repair([], 0)
  {
  }

  lemma {:induction false} ValidPiecesAreClean(pieces: seq<Piece>)
    requires ValidPieces(pieces)
    ensures LoosePieces(pieces) && CleanPieces(pieces) == pieces && ControlsIn(pieces) == 0
  {
    if pieces == [] {
    } else {
      ValidPiecesAreClean(pieces[1..]);
      assert ValidPiece(pieces[0]);
      assert [pieces[0]] + pieces[1..] == pieces;
    }
  }

  lemma {:induction false} ValidIsClean(v: Value)
    requires Valid(v)
    ensures Loose(v) && Escaped(v) == v && Untrailed(v) == v && Controls(v) == 0 && Commas(v) == 0
    decreases v
  {
    match v
    case Array(blank, items) => ValidItemsAreClean(items);
    case Object(blank, members) => ValidMembersAreClean(members);
    case Quoted(pieces) => ValidPiecesAreClean(pieces);
    case _ =>
  }

  lemma {:induction false} ValidItemsAreClean(items: Items)
    requires ValidItems(items)
    ensures LooseItems(items) && EscapedItems(items) == items && UntrailedItems(items) == items
    ensures ItemControls(items) == 0 && ItemCommas(items) == 0
    decreases items
  {
    hide Valid, Loose, Escaped, Untrailed, Commas, Controls;
    match items
    case LastItem(v, _, _) => ValidIsClean(v);
    case Item(v, _, _, more) =>
      ValidIsClean(v);
      ValidItemsAreClean(more);
  }

  lemma {:induction false} ValidMembersAreClean(members: Members)
    requires ValidMembers(members)
    ensures LooseMembers(members) && EscapedMembers(members) == members && UntrailedMembers(members) == members
    ensures MemberControls(members) == 0 && MemberCommas(members) == 0
    decreases members
  {
    hide Valid, Loose, Escaped, Untrailed, Commas, Controls;
    match members
    case LastMember(key, _, _, v, _, _) =>
      ValidIsClean(v);
      ValidPiecesAreClean(key);
    case Member(key, _, _, v, _, _, more) =>
      ValidIsClean(v);
      ValidPiecesAreClean(key);
      ValidMembersAreClean(more);
  }

  /** Both passes leave every text of the JSON grammar as it is and record nothing. */
  lemma ValidTextIsUntouched(d: Document)
    requires ValidDocument(d)
    ensures EscapeControls(Print(d), false, false) == Repair(Print(d), 0)
    ensures RemoveCommas(Print(d), false, false) == Repair(Print(d), 0)
    ensures Normalize(Print(d)) == Repair(Print(d), 0)
  {
    hide EscapeControls, RemoveCommas, Put, Escaped, Untrailed, Meaning, Valid, Loose, Controls, Commas;
    ValidIsClean(d.value);
    NothingToRepair();
    BlankHasNoQuote(d.before);
    BlankHasNoQuote(d.after);
    EscapeOutside(d.after, []);
    EscapeValue(d.value, d.after);
    EscapeOutside(d.before, Put(d.value, d.after));
    BlankIsPlain(d.before);
    BlankIsPlain(d.after);
    assert d.after + [] == d.after;
    RemoveOutside(d.after, []);
    RemoveValue(d.value, d.after);
    RemoveOutside(d.before, Put(d.value, d.after));
  }
}
