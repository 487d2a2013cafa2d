/** The criteria in a review prompt are JSON, and reading them gives back exactly those criteria
    (src/convergence.mjs, `buildChatGptPrompt`; `JSON.stringify` of ECMAScript, section 25.5.2). */
module CriteriaJson {
  import opened Prelude
  import opened JsonText
  import JsonParser
  import JsonRepair
  import Utf8
  import Compaction

  // ---- strings --------------------------------------------------------

  function PiecesOf(s: Text): seq<Piece> {
    if s == [] then []
    else if Utf8.StartsPair(s) then [Plain(s[0]), Plain(s[1])] + PiecesOf(s[2..])
    else [Compaction.UnitPiece(s[0])] + PiecesOf(s[1..])
  }

  lemma HexSum(u: Unit)
    ensures (u / 4096) * 4096 + (u / 256 % 16) * 256 + (u / 16 % 16) * 16 + u % 16 == u && u / 4096 < 16
  {
    var p1 := u / 16;
    var p2 := p1 / 16;
    var p3 := p2 / 16;
    assert u == p1 * 16 + u % 16 && p1 == p2 * 16 + p1 % 16 && p2 == p3 * 16 + p2 % 16;
    assert u / 256 == p2 && u / 4096 == p3;
  }

  lemma HexDenotes(u: Unit)
    ensures LoosePiece(Compaction.HexPiece(u)) && Decoded(Compaction.HexPiece(u)) == u
  {
    hide HexValue, IsHex;
    HexSum(u);
  }

  lemma UnitDenotes(u: Unit)
    ensures ValidPiece(Compaction.UnitPiece(u)) && Decoded(Compaction.UnitPiece(u)) == u
  {
    hide Compaction.HexPiece;
    HexDenotes(u);
  }

  /** How a unit that is not half of a pair is written. */
  lemma UnitExactly(u: Unit)
    ensures var t := PutPiece(Compaction.UnitPiece(u), []);
      && (u == 0x22 || u == 0x5C ==> t == [0x5C, u])
      && (u == 0x08 ==> t == [0x5C, 0x62]) && (u == 0x09 ==> t == [0x5C, 0x74]) && (u == 0x0A ==> t == [0x5C, 0x6E])
      && (u == 0x0C ==> t == [0x5C, 0x66]) && (u == 0x0D ==> t == [0x5C, 0x72])
      && ((u < 0x20 && u !in {0x08, 0x09, 0x0A, 0x0C, 0x0D}) || 0xD800 <= u <= 0xDFFF ==>
            && |t| == 6 && t[..2] == [0x5C, 0x75]
            && (forall i :: 2 <= i < 6 ==> 0x30 <= t[i] <= 0x39 || 0x61 <= t[i] <= 0x66))
      && (u >= 0x20 && u != 0x22 && u != 0x5C && !(0xD800 <= u <= 0xDFFF) ==> t == [u])
  {
    UnitDenotes(u);
  }

  lemma {:induction false} PiecesDenote(s: Text)
    ensures ValidPieces(PiecesOf(s)) && LoosePieces(PiecesOf(s)) && Decode(PiecesOf(s)) == s
    decreases |s|
  {
    hide Compaction.UnitPiece;
    if s == [] {
    } else if Utf8.StartsPair(s) {
      PiecesDenote(s[2..]);
      var more := PiecesOf(s[2..]);
      var all := [Plain(s[0]), Plain(s[1])] + more;
      assert all[1..][1..] == more && all[1..][0] == Plain(s[1]);
      assert Decode(all) == [s[0]] + ([s[1]] + Decode(more));
    } else {
      UnitDenotes(s[0]);
      PiecesDenote(s[1..]);
      var more := PiecesOf(s[1..]);
      assert ([Compaction.UnitPiece(s[0])] + more)[1..] == more;
    }
  }

  lemma {:induction false} BodyIsPrinted(s: Text, rest: Text)
    ensures PutPieces(PiecesOf(s), rest) == Compaction.QuotedBody(s) + rest
    decreases |s|
  {
    hide PutPieces, PiecesOf, Compaction.QuotedBody, Compaction.UnitPiece, PutPiece;
    if s == [] {
      NothingPrinted(rest);
    } else {
      var lead := if Utf8.StartsPair(s) then 2 else 1;
      BodyIsPrinted(s[lead..], rest);
      BodyStep(s);
      if lead == 2 {
        PairPrinted(s, rest);
        Append2(s[0], s[1], Compaction.QuotedBody(s[2..]), rest);
      } else {
        PieceBefore(Compaction.UnitPiece(s[0]), Compaction.QuotedBody(s[1..]) + rest);
        UnitPrinted(s, rest);
        Append(PutPiece(Compaction.UnitPiece(s[0]), []), Compaction.QuotedBody(s[1..]), rest);
      }
    }
  }

  lemma NothingPrinted(rest: Text)
    ensures PutPieces(PiecesOf([]), rest) == Compaction.QuotedBody([]) + rest
  {
    assert Compaction.QuotedBody([]) + rest == rest;
  }

  lemma Append(a: Text, b: Text, c: Text)
    ensures a + (b + c) == a + b + c
  {
  }

  lemma Append2(u: Unit, v: Unit, b: Text, c: Text)
    ensures [u] + ([v] + (b + c)) == [u, v] + b + c
  {
  }

  lemma BodyStep(s: Text)
    requires s != []
    ensures Compaction.QuotedBody(s) ==
            if Utf8.StartsPair(s) then [s[0], s[1]] + Compaction.QuotedBody(s[2..])
            else PutPiece(Compaction.UnitPiece(s[0]), []) + Compaction.QuotedBody(s[1..])
  {
  }

  lemma UnitPrinted(s: Text, rest: Text)
    requires s != [] && !Utf8.StartsPair(s)
    ensures PutPieces(PiecesOf(s), rest) == PutPiece(Compaction.UnitPiece(s[0]), PutPieces(PiecesOf(s[1..]), rest))
  {
    hide Compaction.UnitPiece;
    assert PiecesOf(s)[1..] == PiecesOf(s[1..]);
  }

  lemma PairPrinted(s: Text, rest: Text)
    requires Utf8.StartsPair(s)
    ensures PutPieces(PiecesOf(s), rest) == [s[0]] + ([s[1]] + PutPieces(PiecesOf(s[2..]), rest))
  {
    var more := PiecesOf(s[2..]);
    var all := [Plain(s[0]), Plain(s[1])] + more;
    assert all[1..][1..] == more && all[1..][0] == Plain(s[1]) && all[1..] == [Plain(s[1])] + more;
  }

  lemma PieceBefore(p: Piece, rest: Text)
    ensures PutPiece(p, rest) == PutPiece(p, []) + rest
  {
  }

  lemma QuotedIsPrinted(s: Text, rest: Text)
    ensures PutString(PiecesOf(s), rest) == Compaction.Quoted(s) + rest
  {
    hide PutPieces, PiecesOf, Compaction.QuotedBody;
    BodyIsPrinted(s, [QUOTE] + rest);
    assert [QUOTE] + (Compaction.QuotedBody(s) + ([QUOTE] + rest)) == Compaction.Quoted(s) + rest;
  }

  // ---- criteria -------------------------------------------------------

  function CriterionSyntax(c: Compaction.Criterion): Value {
    Object([], Member(PiecesOf(Compaction.EVIDENCE), [], [], Value.Quoted(PiecesOf(c.evidence)), [], [],
               Member(PiecesOf(Compaction.ID), [], [], Value.Quoted(PiecesOf(c.id)), [], [],
               LastMember(PiecesOf(Compaction.STATUS), [], [], Value.Quoted(PiecesOf(c.status)), [], None))))
  }

  function ItemsSyntax(criteria: seq<Compaction.Criterion>): Items
    requires criteria != []
  {
    if |criteria| == 1 then LastItem(CriterionSyntax(criteria[0]), [], None)
    else Item(CriterionSyntax(criteria[0]), [], [], ItemsSyntax(criteria[1..]))
  }

  function CriteriaSyntax(criteria: seq<Compaction.Criterion>): Value {
    if criteria == [] then EmptyArray([]) else Array([], ItemsSyntax(criteria))
  }

  lemma PropertyPrinted(lead: Text, name: Text, rest: Text)
    ensures lead + PutString(PiecesOf(name), [COLON] + rest) == Compaction.PropertyName(lead, name) + rest
  {
    hide PutString, PiecesOf, Compaction.Quoted;
    QuotedIsPrinted(name, [COLON] + rest);
    assert lead + (Compaction.Quoted(name) + ([COLON] + rest)) == Compaction.PropertyName(lead, name) + rest;
  }

  lemma MemberPrinted(lead: Text, name: Text, value: Text, rest: Text)
    ensures lead + PutString(PiecesOf(name), [] + ([COLON] + ([] + Put(Value.Quoted(PiecesOf(value)), rest)))) ==
            Compaction.PropertyName(lead, name) + (Compaction.Quoted(value) + rest)
  {
    hide PutString, PiecesOf, Compaction.Quoted, Compaction.PropertyName;
    var body := PutString(PiecesOf(value), rest);
    assert [] + body == body && [] + ([COLON] + body) == [COLON] + body;
    QuotedIsPrinted(value, rest);
    PropertyPrinted(lead, name, body);
  }

  lemma CriterionPrinted(c: Compaction.Criterion, rest: Text)
    ensures Put(CriterionSyntax(c), rest) == Compaction.CriterionText(c) + rest
  {
    hide PutString, PiecesOf, Compaction.Quoted, Compaction.PropertyName;
    var close := [CLOSE_BRACE] + rest;
    var t3 := PutString(PiecesOf(Compaction.STATUS),
                        [] + ([COLON] + ([] + Put(Value.Quoted(PiecesOf(c.status)), close))));
    var t2 := PutString(PiecesOf(Compaction.ID),
                        [] + ([COLON] + ([] + Put(Value.Quoted(PiecesOf(c.id)), [COMMA] + t3))));
    MemberPrinted([OPEN_BRACE], Compaction.EVIDENCE, c.evidence, [COMMA] + t2);
    MemberPrinted([COMMA], Compaction.ID, c.id, [COMMA] + t3);
    MemberPrinted([COMMA], Compaction.STATUS, c.status, close);
    CriterionUnfolds(c, rest, t2, t3);
    Regroup(Compaction.PropertyName([OPEN_BRACE], Compaction.EVIDENCE), Compaction.Quoted(c.evidence),
            Compaction.PropertyName([COMMA], Compaction.ID), Compaction.Quoted(c.id),
            Compaction.PropertyName([COMMA], Compaction.STATUS), Compaction.Quoted(c.status), [CLOSE_BRACE], rest);
  }

  lemma CriterionUnfolds(c: Compaction.Criterion, rest: Text, t2: Text, t3: Text)
    requires t3 == PutString(PiecesOf(Compaction.STATUS),
                             [] + ([COLON] + ([] + Put(Value.Quoted(PiecesOf(c.status)), [CLOSE_BRACE] + rest))))
    requires t2 == PutString(PiecesOf(Compaction.ID),
                             [] + ([COLON] + ([] + Put(Value.Quoted(PiecesOf(c.id)), [COMMA] + t3))))
    ensures Put(CriterionSyntax(c), rest) ==
            [OPEN_BRACE] + PutString(PiecesOf(Compaction.EVIDENCE),
                             [] + ([COLON] + ([] + Put(Value.Quoted(PiecesOf(c.evidence)), [COMMA] + t2))))
  {
    hide PutString, PiecesOf;
    var close := [CLOSE_BRACE] + rest;
    var m3 := LastMember(PiecesOf(Compaction.STATUS), [], [], Value.Quoted(PiecesOf(c.status)), [], None);
    var m2 := Member(PiecesOf(Compaction.ID), [], [], Value.Quoted(PiecesOf(c.id)), [], [], m3);
    var m1 := Member(PiecesOf(Compaction.EVIDENCE), [], [], Value.Quoted(PiecesOf(c.evidence)), [], [], m2);
    assert [] + PutTrailing(None, close) == close;
    assert PutMembers(m3, close) == t3;
    assert [] + ([COMMA] + ([] + t3)) == [COMMA] + t3;
    assert PutMembers(m2, close) == t2;
    assert [] + ([COMMA] + ([] + t2)) == [COMMA] + t2;
    var t1 := PutMembers(m1, close);
    assert [OPEN_BRACE] + ([] + t1) == [OPEN_BRACE] + t1;
  }

  lemma Regroup(a: Text, b: Text, c: Text, d: Text, e: Text, f: Text, g: Text, rest: Text)
    ensures a + (b + (c + (d + (e + (f + (g + rest)))))) == (a + (b + (c + (d + (e + (f + g)))))) + rest
  {
  }

  lemma {:induction false} ItemsPrinted(criteria: seq<Compaction.Criterion>, rest: Text)
    requires criteria != []
    ensures PutItems(ItemsSyntax(criteria), rest) ==
            Compaction.JoinWith([COMMA], Compaction.CriterionTexts(criteria)) + rest
    decreases |criteria|
  {
    hide CriterionSyntax, Compaction.CriterionText, Put;
    var texts, first := Compaction.CriterionTexts(criteria), Compaction.CriterionText(criteria[0]);
    if |criteria| == 1 {
      OneText(criteria);
      assert [] + rest == rest;
      CriterionPrinted(criteria[0], rest);
    } else {
      ItemsPrinted(criteria[1..], rest);
      assert texts[1..] == Compaction.CriterionTexts(criteria[1..]) && texts[0] == first && |texts| > 1;
      var joined := Compaction.JoinWith([COMMA], texts[1..]);
      var more := [] + ([COMMA] + ([] + (joined + rest)));
      assert more == [COMMA] + (joined + rest);
      CriterionPrinted(criteria[0], more);
      assert first + ([COMMA] + (joined + rest)) == first + ([COMMA] + joined) + rest;
    }
  }

  lemma OneText(criteria: seq<Compaction.Criterion>)
    requires |criteria| == 1
    ensures Compaction.CriterionTexts(criteria) == [Compaction.CriterionText(criteria[0])]
  {
    hide Compaction.CriterionText;
    assert Compaction.CriterionTexts(criteria[1..]) == [];
  }

  lemma CriteriaPrinted(criteria: seq<Compaction.Criterion>)
    ensures Put(CriteriaSyntax(criteria), []) == Compaction.CriteriaText(criteria)
  {
    hide ItemsSyntax, Compaction.CriterionTexts, PutItems;
    var joined := Compaction.JoinWith([COMMA], Compaction.CriterionTexts(criteria));
    assert [CLOSE_BRACKET] + [] == [CLOSE_BRACKET];
    if criteria == [] {
      NoTexts();
      assert [] + [CLOSE_BRACKET] == [CLOSE_BRACKET];
    } else {
      ItemsPrinted(criteria, [CLOSE_BRACKET]);
      assert [] + (joined + [CLOSE_BRACKET]) == joined + [CLOSE_BRACKET];
    }
  }

  lemma NoTexts()
    ensures Compaction.JoinWith([COMMA], Compaction.CriterionTexts([])) == []
  {
  }

  // ---- reading them back ----------------------------------------------

  /** "evidence", "id" and "status", each with its text. */
  function CriterionMeaning(c: Compaction.Criterion): Json {
    JObject([([0x65, 0x76, 0x69, 0x64, 0x65, 0x6E, 0x63, 0x65], JString(c.evidence)),
             ([0x69, 0x64], JString(c.id)),
             ([0x73, 0x74, 0x61, 0x74, 0x75, 0x73], JString(c.status))])
  }

  lemma TextMeans(t: Text)
    ensures var v := Value.Quoted(PiecesOf(t)); Valid(v) && Loose(v) && Meaning(v) == JString(t)
    ensures ValidPieces(PiecesOf(t)) && LoosePieces(PiecesOf(t)) && Decode(PiecesOf(t)) == t
  {
    hide PiecesOf, Decode, ValidPieces, LoosePieces;
    PiecesDenote(t);
  }

  lemma CriterionMeans(c: Compaction.Criterion)
    ensures Valid(CriterionSyntax(c)) && Loose(CriterionSyntax(c)) && Meaning(CriterionSyntax(c)) == CriterionMeaning(c)
  {
    hide PiecesOf, Decode, ValidPieces, LoosePieces;
    TextMeans(Compaction.EVIDENCE);
    TextMeans(Compaction.ID);
    TextMeans(Compaction.STATUS);
    TextMeans(c.evidence);
    TextMeans(c.id);
    TextMeans(c.status);
    var m3 := LastMember(PiecesOf(Compaction.STATUS), [], [], Value.Quoted(PiecesOf(c.status)), [], None);
    var m2 := Member(PiecesOf(Compaction.ID), [], [], Value.Quoted(PiecesOf(c.id)), [], [], m3);
    var m1 := Member(PiecesOf(Compaction.EVIDENCE), [], [], Value.Quoted(PiecesOf(c.evidence)), [], [], m2);
    assert ValidMembers(m3) && LooseMembers(m3) && MembersMeaning(m3) == [(Compaction.STATUS, JString(c.status))];
    assert ValidMembers(m2) && LooseMembers(m2)
           && MembersMeaning(m2) == [(Compaction.ID, JString(c.id)), (Compaction.STATUS, JString(c.status))];
    assert ValidMembers(m1) && LooseMembers(m1)
           && MembersMeaning(m1) == [(Compaction.EVIDENCE, JString(c.evidence)), (Compaction.ID, JString(c.id)),
                                     (Compaction.STATUS, JString(c.status))];
  }

  lemma {:induction false} ItemsMean(criteria: seq<Compaction.Criterion>)
    requires criteria != []
    ensures var items := ItemsSyntax(criteria);
      && ValidItems(items) && LooseItems(items) && |ItemsMeaning(items)| == |criteria|
      && forall i :: 0 <= i < |criteria| ==> ItemsMeaning(items)[i] == CriterionMeaning(criteria[i])
    decreases |criteria|
  {
    hide CriterionSyntax, CriterionMeaning, Valid, Loose, Meaning;
    CriterionMeans(criteria[0]);
    if |criteria| > 1 { ItemsMean(criteria[1..]); }
  }

  /** The criteria of a prompt parse as an array of one object per criterion, in order, with its
      evidence, identity and status as they are. */
  lemma CriteriaReadBack(criteria: seq<Compaction.Criterion>)
    ensures var r := JsonParser.Parse(Compaction.CriteriaText(criteria));
      && r.Some? && Loose(r.value.value) && Meaning(r.value.value).JArray?
      && var items := Meaning(r.value.value).items;
         && |items| == |criteria|
         && forall i :: 0 <= i < |criteria| ==> items[i] == CriterionMeaning(criteria[i])
  {
    hide JsonParser.Parse, ItemsSyntax, CriterionMeaning, Compaction.CriteriaText;
    var v := CriteriaSyntax(criteria);
    CriteriaPrinted(criteria);
    if criteria != [] { ItemsMean(criteria); }
    assert [] + Put(v, []) == Put(v, []);
    JsonParser.ParsesItsPrinting(Document([], v, []));
  }
}
