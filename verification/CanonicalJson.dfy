/** The canonical form under which receipts are signed (src/attachment-execution-receipt.mjs,
    `canonicalize`, `canonicalJsonBytes`; RFC 8785, section 3.2). */
module CanonicalJson {
  import opened Prelude
  import opened JsonText
  import opened JsonParser
  import JsonRepair
  import opened Utf8

  const MAX_IJSON_INTEGER := 9_007_199_254_740_991

  datatype Entry<V> = Entry(key: Text, value: V)

  /** A value as the program holds it. A record lists its own keys in their insertion order;
      `Foreign` stands for everything outside JSON: fractions, undefined, sparse arrays, class
      instances. */
  datatype Tree =
    | Nothing
    | Boolean(value: bool)
    | Integer(n: int)
    | Str(text: Text)
    | List(items: seq<Tree>)
    | Record(fields: seq<Entry<Tree>>)
    | Foreign

  // ---- strings and integers -------------------------------------------

  /** How `JSON.stringify` writes one unit. */
  function PieceOf(u: Unit): (p: Piece)
    ensures ValidPiece(p) && Decoded(p) == u
  {
    if u == QUOTE || u == BACKSLASH then Escape(u) else if u <= 0x1F then JsonRepair.ControlPiece(u) else Plain(u)
  }

  function PiecesOf(s: Text): (r: seq<Piece>)
    ensures ValidPieces(r) && LoosePieces(r) && Decode(r) == s
  {
    if s == [] then [] else [PieceOf(s[0])] + PiecesOf(s[1..])
  }

  function CanonicalString(s: Text): Option<Text> {
    if WellPaired(s) then Some(PutString(PiecesOf(s), [])) else None
  }

  function DigitsOf(n: nat): (t: Text)
    ensures Digits(t) && (t[0] == ZERO ==> n == 0 && |t| == 1)
  {
    if n < 10 then [ZERO + n] else DigitsOf(n / 10) + [ZERO + n % 10]
  }

  function DigitsValue(t: Text): nat
    requires forall i :: 0 <= i < |t| ==> IsDigit(t[i])
  {
    if t == [] then 0 else DigitsValue(t[..|t| - 1]) * 10 + HexValue(t[|t| - 1])
  }

  lemma {:induction false} DigitsReadBack(n: nat)
    ensures DigitsValue(DigitsOf(n)) == n
  {
    if n < 10 {
      assert DigitsOf(n)[..0] == [];
    } else {
      DigitsReadBack(n / 10);
      var t := DigitsOf(n);
      assert t[..|t| - 1] == DigitsOf(n / 10);
    }
  }

  function NumberOf(n: int): (r: Number)
    ensures ValidNumber(r)
  {
    Number(n < 0, DigitsOf(if n < 0 then -n else n), None, None)
  }

  // ---- members in key order -------------------------------------------

  /** The order of keys by code units (RFC 8785, section 3.2.3). */
  predicate Before(a: Text, b: Text) {
    if b == [] then false
    else if a == [] then true
    else if a[0] != b[0] then a[0] < b[0]
    else Before(a[1..], b[1..])
  }

  function Insert<V>(m: Entry<V>, ms: seq<Entry<V>>): seq<Entry<V>> {
    if ms == [] || Before(m.key, ms[0].key) then [m] + ms else [ms[0]] + Insert(m, ms[1..])
  }

  function SortByKey<V>(ms: seq<Entry<V>>): (r: seq<Entry<V>>)
    decreases |ms|
  {
    if ms == [] then [] else Insert(ms[0], SortByKey(ms[1..]))
  }

  // ---- canonical text -------------------------------------------------

  /** `join(",")`. */
  function Join(texts: seq<Text>): Text {
    if texts == [] then []
    else if |texts| == 1 then texts[0]
    else texts[0] + ([COMMA] + Join(texts[1..]))
  }

  function MemberTexts(ms: seq<Entry<Text>>): (r: seq<Text>)
    ensures |r| == |ms|
  {
    if ms == [] then [] else [PutString(PiecesOf(ms[0].key), []) + ([COLON] + ms[0].value)] + MemberTexts(ms[1..])
  }

  /** `canonicalize`; `None` is the refusal of a value outside the domain. The source orders the
      keys before it visits their values, which no result depends on. */
  function Canonicalize(t: Tree): Option<Text> {
    match t
    case Nothing => Some(WordText(Null))
    case Boolean(b) => Some(WordText(if b then True else False))
    case Integer(n) => if -MAX_IJSON_INTEGER <= n <= MAX_IJSON_INTEGER then Some(NumberText(NumberOf(n))) else None
    case Str(s) => CanonicalString(s)
    case List(items) =>
      (match ItemTexts(items)
       case None => None
       case Some(texts) => Some([OPEN_BRACKET] + Join(texts) + [CLOSE_BRACKET]))
    case Record(fields) =>
      (match FieldTexts(fields)
       case None => None
       case Some(texts) => Some([OPEN_BRACE] + Join(MemberTexts(SortByKey(texts))) + [CLOSE_BRACE]))
    case Foreign => None
  }

  function ItemTexts(items: seq<Tree>): (r: Option<seq<Text>>)
    ensures r.Some? ==> |r.value| == |items|
  {
    if items == [] then Some([])
    else
      match (Canonicalize(items[0]), ItemTexts(items[1..]))
      case (Some(first), Some(more)) => Some([first] + more)
      case _ => None
  }

  function FieldTexts(fields: seq<Entry<Tree>>): (r: Option<seq<Entry<Text>>>)
    ensures r.Some? ==> |r.value| == |fields| && forall i :: 0 <= i < |fields| ==> r.value[i].key == fields[i].key
  {
    if fields == [] then Some([])
    else
      match (Canonicalize(fields[0].value), FieldTexts(fields[1..]))
      case (Some(first), Some(more)) =>
        if WellPaired(fields[0].key) then Some([Entry(fields[0].key, first)] + more) else None
      case _ => None
  }

  /** `canonicalJsonBytes`. */
  function CanonicalBytes(t: Tree): Option<seq<Byte>> {
    match Canonicalize(t)
    case None => None
    case Some(text) => Some(Encode(text))
  }

  // ---- the domain -----------------------------------------------------

  /** Objects have each key once. */
  predicate Proper(t: Tree) {
    match t
    case List(items) => forall i :: 0 <= i < |items| ==> Proper(items[i])
    case Record(fields) =>
      && (forall i, j :: 0 <= i < j < |fields| ==> fields[i].key != fields[j].key)
      && forall i :: 0 <= i < |fields| ==> Proper(fields[i].value)
    case _ => true
  }

  /** The closed I-JSON domain: safe integers and strings without unpaired surrogates. */
  predicate InDomain(t: Tree) {
    match t
    case Integer(n) => -MAX_IJSON_INTEGER <= n <= MAX_IJSON_INTEGER
    case Str(s) => WellPaired(s)
    case List(items) => forall i :: 0 <= i < |items| ==> InDomain(items[i])
    case Record(fields) => forall i :: 0 <= i < |fields| ==> WellPaired(fields[i].key) && InDomain(fields[i].value)
    case Foreign => false
    case _ => true
  }

  /** A value is refused exactly when it is outside the domain. */
  lemma {:induction false} AcceptsExactly(t: Tree)
    ensures Canonicalize(t).Some? <==> InDomain(t)
    decreases t
  {
    match t
    case List(items) => AcceptsItems(items);
    case Record(fields) => AcceptsFields(fields);
    case _ =>
  }

  lemma {:induction false} AcceptsItems(items: seq<Tree>)
    ensures ItemTexts(items).Some? <==> forall i :: 0 <= i < |items| ==> InDomain(items[i])
    decreases items
  {
    hide Canonicalize, InDomain;
    if items == [] {
    } else {
      AcceptsExactly(items[0]);
      AcceptsItems(items[1..]);
      assert forall i :: 0 < i < |items| ==> items[i] == items[1..][i - 1];
    }
  }

  lemma {:induction false} AcceptsFields(fields: seq<Entry<Tree>>)
    ensures FieldTexts(fields).Some? <==>
            forall i :: 0 <= i < |fields| ==> WellPaired(fields[i].key) && InDomain(fields[i].value)
    decreases fields
  {
    hide Canonicalize, InDomain, WellPaired;
    if fields == [] {
    } else {
      AcceptsExactly(fields[0].value);
      AcceptsFields(fields[1..]);
      assert forall i :: 0 < i < |fields| ==> fields[i] == fields[1..][i - 1];
    }
  }

  // ---- the document the canonical text prints -------------------------

  /** The value with the keys of every object in order. */
  function Sorted(t: Tree): Tree {
    match t
    case List(items) => List(SortedItems(items))
    case Record(fields) => Record(SortByKey(SortedFields(fields)))
    case _ => t
  }

  function SortedItems(items: seq<Tree>): (r: seq<Tree>)
    ensures |r| == |items|
  {
    if items == [] then [] else [Sorted(items[0])] + SortedItems(items[1..])
  }

  function SortedFields(fields: seq<Entry<Tree>>): (r: seq<Entry<Tree>>)
    ensures |r| == |fields|
  {
    if fields == [] then [] else [Entry(fields[0].key, Sorted(fields[0].value))] + SortedFields(fields[1..])
  }

  /** The value as a document without any blank. */
  function Syntax(t: Tree): (v: Value)
    requires InDomain(t)
  {
    match t
    case Nothing => Constant(Null)
    case Boolean(b) => Constant(if b then True else False)
    case Integer(n) => Numeral(NumberOf(n))
    case Str(s) => Quoted(PiecesOf(s))
    case List(items) => if items == [] then EmptyArray([]) else Array([], ItemsSyntax(items))
    case Record(fields) => if fields == [] then EmptyObject([]) else Object([], MembersSyntax(fields))
  }

  function ItemsSyntax(items: seq<Tree>): Items
    requires items != [] && forall i :: 0 <= i < |items| ==> InDomain(items[i])
  {
    if |items| == 1 then LastItem(Syntax(items[0]), [], None)
    else Item(Syntax(items[0]), [], [], ItemsSyntax(items[1..]))
  }

  function MembersSyntax(fields: seq<Entry<Tree>>): Members
    requires fields != [] && forall i :: 0 <= i < |fields| ==> InDomain(fields[i].value)
  {
    if |fields| == 1 then LastMember(PiecesOf(fields[0].key), [], [], Syntax(fields[0].value), [], None)
    else Member(PiecesOf(fields[0].key), [], [], Syntax(fields[0].value), [], [], MembersSyntax(fields[1..]))
  }

  lemma {:induction false} SyntaxIsValid(t: Tree)
    requires InDomain(t)
    ensures Valid(Syntax(t)) && Loose(Syntax(t))
    decreases t
  {
    match t
    case List(items) => if items != [] { ItemsSyntaxIsValid(items); }
    case Record(fields) => if fields != [] { MembersSyntaxIsValid(fields); }
    case _ =>
  }

  lemma {:induction false} ItemsSyntaxIsValid(items: seq<Tree>)
    requires items != [] && forall i :: 0 <= i < |items| ==> InDomain(items[i])
    ensures ValidItems(ItemsSyntax(items)) && LooseItems(ItemsSyntax(items))
    decreases items
  {
    hide Valid, Loose, Syntax;
    SyntaxIsValid(items[0]);
    if |items| > 1 { ItemsSyntaxIsValid(items[1..]); }
  }

  lemma {:induction false} MembersSyntaxIsValid(fields: seq<Entry<Tree>>)
    requires fields != [] && forall i :: 0 <= i < |fields| ==> InDomain(fields[i].value)
    ensures ValidMembers(MembersSyntax(fields)) && LooseMembers(MembersSyntax(fields))
    decreases fields
  {
    hide Valid, Loose, Syntax;
    SyntaxIsValid(fields[0].value);
    if |fields| > 1 { MembersSyntaxIsValid(fields[1..]); }
  }

  // ---- sorting --------------------------------------------------------

  lemma {:induction false} InsertMember<V>(m: Entry<V>, ms: seq<Entry<V>>, x: Entry<V>)
    ensures x in Insert(m, ms) <==> x == m || x in ms
    ensures |Insert(m, ms)| == |ms| + 1
  {
    if ms == [] || Before(m.key, ms[0].key) {
    } else {
      InsertMember(m, ms[1..], x);
      assert x in ms <==> x == ms[0] || x in ms[1..];
    }
  }

  lemma {:induction false} SortMember<V>(ms: seq<Entry<V>>, x: Entry<V>)
    ensures x in SortByKey(ms) <==> x in ms
    ensures |SortByKey(ms)| == |ms|
    decreases |ms|
  {
    if ms == [] {
    } else {
      SortMember(ms[1..], x);
      InsertMember(ms[0], SortByKey(ms[1..]), x);
      assert x in ms <==> x == ms[0] || x in ms[1..];
    }
  }

  lemma {:induction false} SortedInDomain(t: Tree)
    requires InDomain(t)
    ensures InDomain(Sorted(t))
    decreases t
  {
    match t
    case List(items) => SortedItemsInDomain(items);
    case Record(fields) =>
      SortedFieldsInDomain(fields);
      var r := SortedFields(fields);
      var sorted := SortByKey(r);
      forall i | 0 <= i < |sorted| ensures WellPaired(sorted[i].key) && InDomain(sorted[i].value) {
        SortMember(r, sorted[i]);
      }
    case _ =>
  }

  lemma {:induction false} SortedItemsInDomain(items: seq<Tree>)
    requires forall i :: 0 <= i < |items| ==> InDomain(items[i])
    ensures forall i :: 0 <= i < |items| ==>
              SortedItems(items)[i] == Sorted(items[i]) && InDomain(SortedItems(items)[i])
    decreases items
  {
    hide InDomain, Sorted;
    if items == [] {
    } else {
      SortedInDomain(items[0]);
      SortedItemsInDomain(items[1..]);
      assert forall i :: 0 < i < |items| ==> items[i] == items[1..][i - 1];
    }
  }

  lemma {:induction false} SortedFieldsInDomain(fields: seq<Entry<Tree>>)
    requires forall i :: 0 <= i < |fields| ==> WellPaired(fields[i].key) && InDomain(fields[i].value)
    ensures forall i :: 0 <= i < |fields| ==>
              && SortedFields(fields)[i] == Entry(fields[i].key, Sorted(fields[i].value))
              && WellPaired(fields[i].key) && InDomain(SortedFields(fields)[i].value)
    decreases fields
  {
    hide InDomain, Sorted, WellPaired;
    if fields == [] {
    } else {
      SortedInDomain(fields[0].value);
      SortedFieldsInDomain(fields[1..]);
      assert forall i :: 0 < i < |fields| ==> fields[i] == fields[1..][i - 1];
    }
  }

  // ---- the text is the printing of the sorted value -------------------

  /** The text of a value in front of more text. */
  lemma PrintedBefore(t: Tree, rest: Text)
    requires InDomain(t)
    ensures Put(Syntax(t), rest) == Put(Syntax(t), []) + rest
  {
    hide Put, Syntax, InDomain;
    SyntaxIsValid(t);
    assert [] + rest == rest;
    PrintingSplits(Syntax(t), [], rest);
  }

  lemma StringBefore(key: Text, rest: Text)
    ensures PutString(PiecesOf(key), rest) == PutString(PiecesOf(key), []) + rest
  {
    hide PutString, PiecesOf;
    assert [] + rest == rest;
    StringSplits(PiecesOf(key), [], rest);
  }

  lemma {:induction false} TextIsPrinting(t: Tree)
    requires InDomain(t)
    ensures InDomain(Sorted(t)) && Canonicalize(t) == Some(Put(Syntax(Sorted(t)), []))
    decreases t
  {
    SortedInDomain(t);
    match t
    case List(items) => ListIsPrinting(items);
    case Record(fields) => RecordIsPrinting(fields);
    case Nothing => assert WordText(Null) + [] == WordText(Null);
    case Boolean(b) => assert forall w :: WordText(w) + [] == WordText(w);
    case _ =>
  }

  lemma {:induction false} ListIsPrinting(items: seq<Tree>)
    requires InDomain(List(items))
    ensures InDomain(Sorted(List(items)))
    ensures Canonicalize(List(items)) == Some(Put(Syntax(Sorted(List(items))), []))
    decreases items, 1
  {
    SortedInDomain(List(items));
    ItemsArePrinting(items);
    var texts, sorted := ItemTexts(items).value, SortedItems(items);
    if items == [] {
      assert Put(EmptyArray([]), []) == [OPEN_BRACKET] + [] + [CLOSE_BRACKET];
    } else {
      hide ItemTexts, SortedItems, ItemsSyntax, Join, InDomain, PutItems, Canonicalize, Sorted;
      ListText(items, texts, sorted);
      JoinedItems(texts, sorted, [CLOSE_BRACKET]);
    }
  }

  lemma ListText(items: seq<Tree>, texts: seq<Text>, sorted: seq<Tree>)
    requires ItemTexts(items) == Some(texts) && sorted == SortedItems(items) && items != []
    requires forall i :: 0 <= i < |sorted| ==> InDomain(sorted[i])
    ensures Sorted(List(items)) == List(sorted)
    ensures Canonicalize(List(items)) == Some([OPEN_BRACKET] + (Join(texts) + [CLOSE_BRACKET]))
    ensures Put(Syntax(List(sorted)), []) == [OPEN_BRACKET] + PutItems(ItemsSyntax(sorted), [CLOSE_BRACKET])
  {
    hide Join, ItemTexts, SortedItems, ItemsSyntax, PutItems;
    Associates([OPEN_BRACKET], Join(texts), [CLOSE_BRACKET]);
    assert [CLOSE_BRACKET] + [] == [CLOSE_BRACKET];
    assert [] + PutItems(ItemsSyntax(sorted), [CLOSE_BRACKET]) == PutItems(ItemsSyntax(sorted), [CLOSE_BRACKET]);
  }

  /** Each text is the printing of the value at its position. */
  ghost predicate Prints(texts: seq<Text>, items: seq<Tree>) {
    && |texts| == |items|
    && forall i :: 0 <= i < |items| ==> InDomain(items[i]) && texts[i] == Put(Syntax(items[i]), [])
  }

  lemma {:induction false} ItemsArePrinting(items: seq<Tree>)
    requires forall i :: 0 <= i < |items| ==> InDomain(items[i])
    ensures ItemTexts(items).Some? && Prints(ItemTexts(items).value, SortedItems(items))
    decreases items, 0
  {
    hide Canonicalize, InDomain, Sorted, Put, Syntax;
    if items == [] {
    } else {
      TextIsPrinting(items[0]);
      ItemsArePrinting(items[1..]);
    }
  }

  lemma {:induction false} JoinedItems(texts: seq<Text>, items: seq<Tree>, rest: Text)
    requires Prints(texts, items) && items != []
    ensures PutItems(ItemsSyntax(items), rest) == Join(texts) + rest
    decreases |items|
  {
    hide Put, Syntax, InDomain;
    var first := texts[0];
    if |items| == 1 {
      PrintedBefore(items[0], [] + rest);
      assert [] + rest == rest;
    } else {
      JoinedItems(texts[1..], items[1..], rest);
      var tail := Join(texts[1..]);
      var more := [COMMA] + ([] + PutItems(ItemsSyntax(items[1..]), rest));
      assert [] + (tail + rest) == tail + rest && [] + more == more;
      PrintedBefore(items[0], more);
      Associates([COMMA], tail, rest);
      Associates(first, [COMMA] + tail, rest);
    }
  }

  predicate PrintsField(text: Entry<Text>, field: Entry<Tree>) {
    && text.key == field.key && WellPaired(field.key) && InDomain(field.value)
    && text.value == Put(Syntax(field.value), [])
  }

  /** The same for the entries of a record. */
  ghost predicate PrintsFields(texts: seq<Entry<Text>>, fields: seq<Entry<Tree>>) {
    |texts| == |fields| && forall i :: 0 <= i < |fields| ==> PrintsField(texts[i], fields[i])
  }

  lemma {:induction false} FieldsArePrinting(fields: seq<Entry<Tree>>)
    requires forall i :: 0 <= i < |fields| ==> WellPaired(fields[i].key) && InDomain(fields[i].value)
    ensures FieldTexts(fields).Some? && PrintsFields(FieldTexts(fields).value, SortedFields(fields))
    decreases fields, 0
  {
    hide Canonicalize, InDomain, Sorted, Put, Syntax, WellPaired;
    if fields == [] {
    } else {
      TextIsPrinting(fields[0].value);
      FieldsArePrinting(fields[1..]);
    }
  }

  lemma {:induction false} InsertPrints(text: Entry<Text>, field: Entry<Tree>, texts: seq<Entry<Text>>,
                                        fields: seq<Entry<Tree>>)
    requires PrintsFields(texts, fields) && PrintsField(text, field) && text.key == field.key
    requires forall i :: 0 <= i < |fields| ==> texts[i].key == fields[i].key
    ensures PrintsFields(Insert(text, texts), Insert(field, fields))
    decreases |fields|
  {
    hide PrintsField, Before;
    if fields == [] || Before(field.key, fields[0].key) {
    } else {
      InsertPrints(text, field, texts[1..], fields[1..]);
      var a, b := Insert(text, texts[1..]), Insert(field, fields[1..]);
      assert Insert(text, texts) == [texts[0]] + a && Insert(field, fields) == [fields[0]] + b;
    }
  }

  lemma SameKeys(texts: seq<Entry<Text>>, fields: seq<Entry<Tree>>)
    requires PrintsFields(texts, fields)
    ensures forall i :: 0 <= i < |fields| ==> texts[i].key == fields[i].key
  {
  }

  lemma {:induction false} SortPrints(texts: seq<Entry<Text>>, fields: seq<Entry<Tree>>)
    requires PrintsFields(texts, fields)
    ensures PrintsFields(SortByKey(texts), SortByKey(fields))
    decreases |fields|
  {
    hide PrintsField;
    SameKeys(texts, fields);
    if fields == [] {
    } else {
      SortPrints(texts[1..], fields[1..]);
      SameKeys(SortByKey(texts[1..]), SortByKey(fields[1..]));
      InsertPrints(texts[0], fields[0], SortByKey(texts[1..]), SortByKey(fields[1..]));
    }
  }

  lemma {:induction false} JoinedFields(texts: seq<Entry<Text>>, fields: seq<Entry<Tree>>, rest: Text)
    requires PrintsFields(texts, fields) && fields != []
    ensures PutMembers(MembersSyntax(fields), rest) == Join(MemberTexts(texts)) + rest
    decreases |fields|
  {
    hide Put, Syntax, InDomain, WellPaired, PutString, PiecesOf;
    var quoted := PutString(PiecesOf(texts[0].key), []);
    var value := texts[0].value;
    if |fields| == 1 {
      assert [] + rest == rest;
      PrintedBefore(fields[0].value, rest);
      OneMember(fields[0].key, value, rest);
    } else {
      JoinedFields(texts[1..], fields[1..], rest);
      var tail := Join(MemberTexts(texts[1..]));
      var more := [COMMA] + (tail + rest);
      assert [] + PutMembers(MembersSyntax(fields[1..]), rest) == tail + rest && [] + more == more;
      PrintedBefore(fields[0].value, more);
      OneMember(fields[0].key, value, more);
      Associates([COMMA], tail, rest);
      Associates(quoted + ([COLON] + value), [COMMA] + tail, rest);
      assert MemberTexts(texts)[1..] == MemberTexts(texts[1..]);
    }
  }

  lemma OneMember(key: Text, value: Text, rest: Text)
    ensures PutString(PiecesOf(key), [] + ([COLON] + ([] + (value + rest)))) ==
            (PutString(PiecesOf(key), []) + ([COLON] + value)) + rest
  {
    hide PutString, PiecesOf;
    var quoted := PutString(PiecesOf(key), []);
    assert [] + (value + rest) == value + rest;
    assert [] + ([COLON] + (value + rest)) == [COLON] + (value + rest);
    StringBefore(key, [COLON] + (value + rest));
    Associates([COLON], value, rest);
    Associates(quoted, [COLON] + value, rest);
  }

  lemma {:induction false} RecordIsPrinting(fields: seq<Entry<Tree>>)
    requires InDomain(Record(fields))
    ensures InDomain(Sorted(Record(fields)))
    ensures Canonicalize(Record(fields)) == Some(Put(Syntax(Sorted(Record(fields))), []))
    decreases fields, 1
  {
    SortedInDomain(Record(fields));
    FieldsArePrinting(fields);
    var texts, sorted := FieldTexts(fields).value, SortedFields(fields);
    SortPrints(texts, sorted);
    if fields == [] {
      assert Put(EmptyObject([]), []) == [OPEN_BRACE] + [] + [CLOSE_BRACE];
    } else {
      hide FieldTexts, SortedFields, SortByKey, MembersSyntax, Join, InDomain, PutMembers, MemberTexts, Canonicalize,
        Sorted;
      RecordText(fields, texts, sorted);
      JoinedFields(SortByKey(texts), SortByKey(sorted), [CLOSE_BRACE]);
    }
  }

  lemma RecordText(fields: seq<Entry<Tree>>, texts: seq<Entry<Text>>, sorted: seq<Entry<Tree>>)
    requires FieldTexts(fields) == Some(texts) && sorted == SortedFields(fields) && fields != []
    requires PrintsFields(SortByKey(texts), SortByKey(sorted))
    ensures SortByKey(sorted) != [] && Sorted(Record(fields)) == Record(SortByKey(sorted))
    ensures Canonicalize(Record(fields)) == Some([OPEN_BRACE] + (Join(MemberTexts(SortByKey(texts))) + [CLOSE_BRACE]))
    ensures Put(Syntax(Record(SortByKey(sorted))), []) ==
            [OPEN_BRACE] + PutMembers(MembersSyntax(SortByKey(sorted)), [CLOSE_BRACE])
  {
    hide Join, FieldTexts, SortedFields, MembersSyntax, PutMembers, MemberTexts, SortByKey;
    SortMember(sorted, sorted[0]);
    var joined := Join(MemberTexts(SortByKey(texts)));
    Associates([OPEN_BRACE], joined, [CLOSE_BRACE]);
    assert [CLOSE_BRACE] + [] == [CLOSE_BRACE];
    var members := PutMembers(MembersSyntax(SortByKey(sorted)), [CLOSE_BRACE]);
    assert [] + members == members;
  }

  // ---- reading canonical text back ------------------------------------

  function IntegerOf(n: Number): int
    requires ValidNumber(n)
  {
    if n.minus then 0 - DigitsValue(n.whole) else DigitsValue(n.whole)
  }

  /** The value a document denotes; a fraction or an exponent is outside the domain. */
  function Read(v: Value): Tree
    requires Loose(v)
  {
    match v
    case Constant(w) => (match w case Null => Nothing case True => Boolean(true) case False => Boolean(false))
    case Numeral(n) => if n.fraction.None? && n.exponent.None? then Integer(IntegerOf(n)) else Foreign
    case Quoted(pieces) => Str(Decode(pieces))
    case EmptyArray(_) => List([])
    case Array(_, items) => List(ReadItems(items))
    case EmptyObject(_) => Record([])
    case Object(_, members) => Record(ReadMembers(members))
  }

  function ReadItems(items: Items): seq<Tree>
    requires LooseItems(items)
  {
    match items
    case LastItem(v, _, _) => [Read(v)]
    case Item(v, _, _, more) => [Read(v)] + ReadItems(more)
  }

  function ReadMembers(members: Members): seq<Entry<Tree>>
    requires LooseMembers(members)
  {
    match members
    case LastMember(key, _, _, v, _, _) => [Entry(Decode(key), Read(v))]
    case Member(key, _, _, v, _, _, more) => [Entry(Decode(key), Read(v))] + ReadMembers(more)
  }

  lemma {:induction false} SyntaxReadsBack(t: Tree)
    requires InDomain(t)
    ensures Loose(Syntax(t)) && Read(Syntax(t)) == t
    decreases t
  {
    SyntaxIsValid(t);
    match t
    case Integer(n) => DigitsReadBack(if n < 0 then -n else n);
    case List(items) => if items != [] { ItemsReadBack(items); }
    case Record(fields) => if fields != [] { MembersReadBack(fields); }
    case _ =>
  }

  lemma {:induction false} ItemsReadBack(items: seq<Tree>)
    requires items != [] && forall i :: 0 <= i < |items| ==> InDomain(items[i])
    ensures LooseItems(ItemsSyntax(items)) && ReadItems(ItemsSyntax(items)) == items
    decreases items
  {
    hide Loose, Syntax, Read, InDomain;
    ItemsSyntaxIsValid(items);
    SyntaxReadsBack(items[0]);
    if |items| > 1 {
      ItemsReadBack(items[1..]);
      assert [items[0]] + items[1..] == items;
    } else {
      assert [items[0]] == items;
    }
  }

  lemma {:induction false} MembersReadBack(fields: seq<Entry<Tree>>)
    requires fields != [] && forall i :: 0 <= i < |fields| ==> InDomain(fields[i].value)
    ensures LooseMembers(MembersSyntax(fields)) && ReadMembers(MembersSyntax(fields)) == fields
    decreases fields
  {
    hide Loose, Syntax, Read, InDomain;
    MembersSyntaxIsValid(fields);
    SyntaxReadsBack(fields[0].value);
    if |fields| > 1 {
      MembersReadBack(fields[1..]);
      assert [fields[0]] + fields[1..] == fields;
    } else {
      assert [fields[0]] == fields;
    }
  }

  /** Parsing the canonical text returns the value with its keys in order: a document without
      blanks that `JSON.parse` reads in this way only. */
  lemma CanonicalTextReadsBack(t: Tree)
    requires Canonicalize(t).Some?
    ensures var r := Parse(Canonicalize(t).value);
            && r.Some? && r.value.before == [] && r.value.after == []
            && Loose(r.value.value) && Read(r.value.value) == Sorted(t)
  {
    hide Canonicalize, Parse, Put, Syntax, Read, Sorted, InDomain, Valid, Loose;
    AcceptsExactly(t);
    TextIsPrinting(t);
    var v := Syntax(Sorted(t));
    SyntaxIsValid(Sorted(t));
    SyntaxReadsBack(Sorted(t));
    assert [] + Put(v, []) == Put(v, []);
    ParsesItsPrinting(Document([], v, []));
  }

  // ---- independence of the insertion order ----------------------------

  /** The same value but for the order in which objects list their keys. */
  ghost predicate SameUpToOrder(t: Tree, u: Tree)
    decreases t
  {
    match (t, u)
    case (List(a), List(b)) => |a| == |b| && forall i :: 0 <= i < |a| ==> SameUpToOrder(a[i], b[i])
    case (Record(a), Record(b)) =>
      && (forall i :: 0 <= i < |a| ==> HasMatch(a[i], b))
      && (forall j :: 0 <= j < |b| ==> IsMatched(a, b[j]))
    case _ => t == u
  }

  ghost predicate HasMatch(e: Entry<Tree>, b: seq<Entry<Tree>>)
    decreases e
  {
    exists j :: 0 <= j < |b| && e.key == b[j].key && SameUpToOrder(e.value, b[j].value)
  }

  ghost predicate IsMatched(a: seq<Entry<Tree>>, e: Entry<Tree>)
    decreases a
  {
    exists i :: 0 <= i < |a| && a[i].key == e.key && SameUpToOrder(a[i].value, e.value)
  }

  lemma {:induction false} BeforeIsTotal(a: Text, b: Text)
    ensures a == b || Before(a, b) || Before(b, a)
    ensures !(Before(a, b) && Before(b, a)) && !Before(a, a)
  {
    if a == [] || b == [] {
      if a != [] { BeforeIsTotal(a[1..], a[1..]); }
    } else {
      BeforeIsTotal(a[1..], b[1..]);
      BeforeIsTotal(a[1..], a[1..]);
      if a[0] == b[0] && a[1..] == b[1..] { assert a == [a[0]] + a[1..] && b == [b[0]] + b[1..]; }
    }
  }

  lemma {:induction false} BeforeIsTransitive(a: Text, b: Text, c: Text)
    requires Before(a, b) && Before(b, c)
    ensures Before(a, c)
  {
    if a == [] || a[0] != b[0] || b[0] != c[0] {
    } else {
      BeforeIsTransitive(a[1..], b[1..], c[1..]);
    }
  }

  ghost predicate DistinctKeys<V(!new)>(ms: seq<Entry<V>>) {
    forall i, j :: 0 <= i < j < |ms| ==> ms[i].key != ms[j].key
  }

  ghost predicate InOrder<V(!new)>(ms: seq<Entry<V>>) {
    forall i, j :: 0 <= i < j < |ms| ==> Before(ms[i].key, ms[j].key)
  }

  lemma {:induction false} InsertKeepsOrder(m: Entry<Tree>, ms: seq<Entry<Tree>>)
    requires InOrder(ms) && forall i :: 0 <= i < |ms| ==> ms[i].key != m.key
    ensures InOrder(Insert(m, ms))
    ensures forall i :: 0 <= i < |Insert(m, ms)| ==> Insert(m, ms)[i] == m || Insert(m, ms)[i] in ms
  {
    hide Before;
    if ms == [] {
    } else if Before(m.key, ms[0].key) {
      forall j | 0 < j < |ms| ensures Before(m.key, ms[j].key) { BeforeIsTransitive(m.key, ms[0].key, ms[j].key); }
    } else {
      BeforeIsTotal(m.key, ms[0].key);
      InsertKeepsOrder(m, ms[1..]);
      var tail := Insert(m, ms[1..]);
      forall j | 0 <= j < |tail| ensures Before(ms[0].key, tail[j].key) {
        if tail[j] != m { var k :| 0 <= k < |ms[1..]| && ms[1..][k] == tail[j]; }
      }
    }
  }

  lemma {:induction false} SortOrders(ms: seq<Entry<Tree>>)
    requires DistinctKeys(ms)
    ensures InOrder(SortByKey(ms))
    ensures forall i :: 0 <= i < |SortByKey(ms)| ==> SortByKey(ms)[i] in ms
    decreases |ms|
  {
    hide Before;
    if ms == [] {
    } else {
      var tail := SortByKey(ms[1..]);
      SortOrders(ms[1..]);
      forall i | 0 <= i < |tail| ensures tail[i].key != ms[0].key {
        var k :| 0 <= k < |ms[1..]| && ms[1..][k] == tail[i];
        assert ms[k + 1] == tail[i];
      }
      InsertKeepsOrder(ms[0], tail);
      var r := Insert(ms[0], tail);
      forall i | 0 <= i < |r| ensures r[i] in ms {
        if r[i] != ms[0] {
          var k :| 0 <= k < |tail| && tail[k] == r[i];
          assert tail[k] in ms[1..];
        }
      }
    }
  }

  ghost predicate Subset(a: seq<Entry<Tree>>, b: seq<Entry<Tree>>) {
    forall i :: 0 <= i < |a| ==> a[i] in b
  }

  lemma NoneOfBoth(a: seq<Entry<Tree>>, b: seq<Entry<Tree>>)
    requires Subset(a, b) && Subset(b, a)
    ensures a == [] <==> b == []
  {
    assert |a| > 0 ==> a[0] in b;
    assert |b| > 0 ==> b[0] in a;
  }

  /** Ordered lists with the same entries are the same. */
  lemma {:induction false} OrderIsUnique(a: seq<Entry<Tree>>, b: seq<Entry<Tree>>)
    requires InOrder(a) && InOrder(b) && Subset(a, b) && Subset(b, a)
    ensures a == b
    decreases |a|
  {
    hide Before;
    assert a == [] <==> b == [] by { NoneOfBoth(a, b); }
    if a == [] {
    } else {
      HeadsAgree(a, b);
      TailsAgree(a, b);
      TailsAgree(b, a);
      OrderIsUnique(a[1..], b[1..]);
      assert a == [a[0]] + a[1..] && b == [b[0]] + b[1..];
    }
  }

  lemma HeadsAgree(a: seq<Entry<Tree>>, b: seq<Entry<Tree>>)
    requires InOrder(a) && InOrder(b) && Subset(a, b) && Subset(b, a) && a != [] && b != []
    ensures a[0] == b[0]
  {
    hide Before;
    var k :| 0 <= k < |b| && b[k] == a[0];
    var j :| 0 <= j < |a| && a[j] == b[0];
    if k > 0 && j > 0 { BeforeIsTotal(a[0].key, b[0].key); }
  }

  lemma TailsAgree(a: seq<Entry<Tree>>, b: seq<Entry<Tree>>)
    requires InOrder(a) && Subset(a, b) && a != [] && b != [] && a[0] == b[0]
    ensures Subset(a[1..], b[1..])
  {
    hide Before;
    forall i | 0 <= i < |a[1..]| ensures a[1..][i] in b[1..] {
      var k :| 0 <= k < |b| && b[k] == a[i + 1];
      BeforeIsTotal(a[0].key, a[0].key);
      if k > 0 { assert b[1..][k - 1] == a[i + 1]; }
    }
  }

  lemma SortOfSame(a: seq<Entry<Tree>>, b: seq<Entry<Tree>>)
    requires DistinctKeys(a) && DistinctKeys(b)
    ensures SortByKey(a) == SortByKey(b) <==> Subset(a, b) && Subset(b, a)
  {
    hide SortByKey;
    SortOrders(a);
    SortOrders(b);
    var s, r := SortByKey(a), SortByKey(b);
    forall i | 0 <= i < |a| ensures a[i] in s { SortMember(a, a[i]); }
    forall i | 0 <= i < |b| ensures b[i] in r { SortMember(b, b[i]); }
    if Subset(a, b) && Subset(b, a) {
      forall i | 0 <= i < |s| ensures s[i] in r {
        assert s[i] in a;
        assert s[i] in b;
        SortMember(b, s[i]);
      }
      forall i | 0 <= i < |r| ensures r[i] in s {
        assert r[i] in b;
        assert r[i] in a;
        SortMember(a, r[i]);
      }
      OrderIsUnique(s, r);
    }
    if s == r {
      forall i | 0 <= i < |a| ensures a[i] in b { SortMember(b, a[i]); }
      forall i | 0 <= i < |b| ensures b[i] in a { SortMember(a, b[i]); }
    }
  }

  lemma {:induction false} SortedItemAt(items: seq<Tree>, i: nat)
    requires i < |items|
    ensures SortedItems(items)[i] == Sorted(items[i])
  {
    if i > 0 { SortedItemAt(items[1..], i - 1); }
  }

  lemma {:induction false} SortedFieldAt(fields: seq<Entry<Tree>>, i: nat)
    requires i < |fields|
    ensures SortedFields(fields)[i] == Entry(fields[i].key, Sorted(fields[i].value))
  {
    if i > 0 { SortedFieldAt(fields[1..], i - 1); }
  }

  lemma SortedKeysDistinct(fields: seq<Entry<Tree>>)
    requires DistinctKeys(fields)
    ensures DistinctKeys(SortedFields(fields))
  {
    forall i | 0 <= i < |fields| ensures SortedFields(fields)[i].key == fields[i].key { SortedFieldAt(fields, i); }
  }

  /** Two proper values have the same sorted form exactly if they are the same up to key order. */
  lemma {:induction false} SortedExactly(t: Tree, u: Tree)
    requires Proper(t) && Proper(u)
    ensures Sorted(t) == Sorted(u) <==> SameUpToOrder(t, u)
    decreases t
  {
    match (t, u)
    case (List(a), List(b)) => ListsSortedExactly(a, b);
    case (Record(a), Record(b)) => RecordsSortedExactly(a, b);
    case _ =>
  }

  lemma {:induction false} ListsSortedExactly(a: seq<Tree>, b: seq<Tree>)
    requires Proper(List(a)) && Proper(List(b))
    ensures Sorted(List(a)) == Sorted(List(b)) <==> SameUpToOrder(List(a), List(b))
    decreases a
  {
    hide SortedItems;
    forall i | 0 <= i < |a| && i < |b| ensures SortedItems(a)[i] == SortedItems(b)[i] <==> SameUpToOrder(a[i], b[i]) {
      SortedItemAt(a, i);
      SortedItemAt(b, i);
      SortedExactly(a[i], b[i]);
    }
    if |a| == |b| && (forall i :: 0 <= i < |a| ==> SameUpToOrder(a[i], b[i])) {
      assert SortedItems(a) == SortedItems(b);
    }
  }

  lemma {:induction false} RecordsSortedExactly(a: seq<Entry<Tree>>, b: seq<Entry<Tree>>)
    requires Proper(Record(a)) && Proper(Record(b))
    ensures Sorted(Record(a)) == Sorted(Record(b)) <==> SameUpToOrder(Record(a), Record(b))
    decreases a
  {
    hide SortedFields, SortByKey;
    var s, r := SortedFields(a), SortedFields(b);
    SortedKeysDistinct(a);
    SortedKeysDistinct(b);
    SortOfSame(s, r);
    forall i, j | 0 <= i < |a| && 0 <= j < |b|
      ensures s[i] == r[j] <==> a[i].key == b[j].key && SameUpToOrder(a[i].value, b[j].value)
    {
      SortedFieldAt(a, i);
      SortedFieldAt(b, j);
      SortedExactly(a[i].value, b[j].value);
    }
    hide Sorted, SameUpToOrder, HasMatch, IsMatched;
    FieldsMatch(a, b, s, r);
    RecordsUnfold(a, b);
  }

  /** The field lists of two sorted records have the same entries exactly if the fields match. */
  lemma FieldsMatch(a: seq<Entry<Tree>>, b: seq<Entry<Tree>>, s: seq<Entry<Tree>>, r: seq<Entry<Tree>>)
    requires |s| == |a| && |r| == |b|
    requires forall i, j :: 0 <= i < |a| && 0 <= j < |b| ==>
               (s[i] == r[j] <==> a[i].key == b[j].key && SameUpToOrder(a[i].value, b[j].value))
    ensures Subset(s, r) <==> forall i :: 0 <= i < |a| ==> HasMatch(a[i], b)
    ensures Subset(r, s) <==> forall j :: 0 <= j < |b| ==> IsMatched(a, b[j])
  {
    hide SameUpToOrder;
    forall i | 0 <= i < |a| ensures s[i] in r <==> HasMatch(a[i], b) {
      if s[i] in r {
        var j :| 0 <= j < |r| && r[j] == s[i];
        assert a[i].key == b[j].key;
      }
      if HasMatch(a[i], b) {
        var j :| 0 <= j < |b| && a[i].key == b[j].key && SameUpToOrder(a[i].value, b[j].value);
        assert s[i] == r[j];
      }
    }
    forall j | 0 <= j < |b| ensures r[j] in s <==> IsMatched(a, b[j]) {
      if r[j] in s {
        var i :| 0 <= i < |s| && s[i] == r[j];
        assert a[i].key == b[j].key;
      }
      if IsMatched(a, b[j]) {
        var i :| 0 <= i < |a| && a[i].key == b[j].key && SameUpToOrder(a[i].value, b[j].value);
        assert s[i] == r[j];
      }
    }
  }

  lemma RecordsUnfold(a: seq<Entry<Tree>>, b: seq<Entry<Tree>>)
    ensures SameUpToOrder(Record(a), Record(b)) <==>
            (forall i :: 0 <= i < |a| ==> HasMatch(a[i], b)) && (forall j :: 0 <= j < |b| ==> IsMatched(a, b[j]))
    ensures Sorted(Record(a)) == Sorted(Record(b)) <==> SortByKey(SortedFields(a)) == SortByKey(SortedFields(b))
  {
    hide SortByKey, SortedFields;
  }

  // ---- bytes ----------------------------------------------------------

  lemma PairedUnit(u: Unit, rest: Text)
    requires !IsHigh(u) && !IsLow(u) && WellPaired(rest)
    ensures WellPaired([u] + rest)
  {
    assert ([u] + rest)[1..] == rest;
  }

  lemma {:induction false} PairedPlain(t: Text, rest: Text)
    requires (forall i :: 0 <= i < |t| ==> !IsHigh(t[i]) && !IsLow(t[i])) && WellPaired(rest)
    ensures WellPaired(t + rest)
  {
    hide WellPaired;
    if t == [] {
      assert t + rest == rest;
    } else {
      PairedPlain(t[1..], rest);
      PairedUnit(t[0], t[1..] + rest);
      assert t + rest == [t[0]] + (t[1..] + rest);
    }
  }

  lemma PairedPair(high: Unit, low: Unit, rest: Text)
    requires IsHigh(high) && IsLow(low) && WellPaired(rest)
    ensures WellPaired([high] + ([low] + rest))
  {
    assert ([high] + ([low] + rest))[2..] == rest;
  }

  lemma PieceIsPlain(u: Unit, rest: Text)
    requires !IsHigh(u) && !IsLow(u) && WellPaired(rest)
    ensures WellPaired(PutPiece(PieceOf(u), rest))
  {
    hide WellPaired;
    var t := PutPiece(PieceOf(u), []);
    assert PutPiece(PieceOf(u), rest) == t + rest;
    PairedPlain(t, rest);
  }

  lemma {:induction false} PairedPieces(s: Text, rest: Text)
    requires WellPaired(s) && WellPaired(rest)
    ensures WellPaired(PutPieces(PiecesOf(s), rest))
    decreases |s|
  {
    hide PutPiece;
    if s == [] {
    } else if StartsPair(s) {
      var tail := PutPieces(PiecesOf(s[2..]), rest);
      PairedPieces(s[2..], rest);
      assert s[1..][1..] == s[2..];
      TwoPieces(s, rest);
      PairedPair(s[0], s[1], tail);
    } else {
      PairedPieces(s[1..], rest);
      PieceIsPlain(s[0], PutPieces(PiecesOf(s[1..]), rest));
      assert PiecesOf(s)[1..] == PiecesOf(s[1..]);
    }
  }

  lemma TwoPieces(s: Text, rest: Text)
    requires |s| >= 2 && IsHigh(s[0]) && IsLow(s[1])
    ensures PutPieces(PiecesOf(s), rest) == [s[0]] + ([s[1]] + PutPieces(PiecesOf(s[2..]), rest))
  {
    assert s[1..][1..] == s[2..];
    assert PiecesOf(s)[1..] == PiecesOf(s[1..]) && PiecesOf(s[1..])[1..] == PiecesOf(s[2..]);
    assert PieceOf(s[0]) == Plain(s[0]) && PieceOf(s[1]) == Plain(s[1]);
  }

  lemma PairedString(s: Text, rest: Text)
    requires WellPaired(s) && WellPaired(rest)
    ensures WellPaired(PutString(PiecesOf(s), rest))
  {
    hide WellPaired, PutPieces, PiecesOf;
    PairedUnit(QUOTE, rest);
    PairedPieces(s, [QUOTE] + rest);
    PairedUnit(QUOTE, PutPieces(PiecesOf(s), [QUOTE] + rest));
  }

  /** Canonical text has no unpaired surrogate. */
  lemma {:induction false} PairedText(t: Tree, rest: Text)
    requires InDomain(t) && WellPaired(rest)
    ensures WellPaired(Put(Syntax(t), rest))
    decreases t
  {
    hide WellPaired, PutString, PiecesOf, NumberOf;
    match t
    case Nothing => PairedPlain(WordText(Null), rest);
    case Boolean(b) => PairedPlain(WordText(if b then True else False), rest);
    case Integer(n) =>
      NumberSplits(NumberOf(n), rest);
      NumberIsPlain(NumberText(NumberOf(n)));
      PairedPlain(NumberText(NumberOf(n)), rest);
    case Str(s) => PairedString(s, rest);
    case List(items) =>
      PairedUnit(CLOSE_BRACKET, rest);
      if items == [] {
        assert [] + ([CLOSE_BRACKET] + rest) == [CLOSE_BRACKET] + rest;
        PairedUnit(OPEN_BRACKET, [CLOSE_BRACKET] + rest);
      } else {
        PairedItems(items, [CLOSE_BRACKET] + rest);
        var inner := PutItems(ItemsSyntax(items), [CLOSE_BRACKET] + rest);
        assert [] + inner == inner;
        PairedUnit(OPEN_BRACKET, inner);
      }
    case Record(fields) =>
      PairedUnit(CLOSE_BRACE, rest);
      if fields == [] {
        assert [] + ([CLOSE_BRACE] + rest) == [CLOSE_BRACE] + rest;
        PairedUnit(OPEN_BRACE, [CLOSE_BRACE] + rest);
      } else {
        PairedMembers(fields, [CLOSE_BRACE] + rest);
        var inner := PutMembers(MembersSyntax(fields), [CLOSE_BRACE] + rest);
        assert [] + inner == inner;
        PairedUnit(OPEN_BRACE, inner);
      }
  }

  lemma NumberIsPlain(t: Text)
    requires NumberUnits(t)
    ensures forall i :: 0 <= i < |t| ==> !IsHigh(t[i]) && !IsLow(t[i])
  {
  }

  lemma {:induction false} PairedItems(items: seq<Tree>, rest: Text)
    requires items != [] && (forall i :: 0 <= i < |items| ==> InDomain(items[i])) && WellPaired(rest)
    ensures WellPaired(PutItems(ItemsSyntax(items), rest))
    decreases items
  {
    hide WellPaired, Put, Syntax, InDomain;
    if |items| == 1 {
      assert [] + rest == rest;
      PairedText(items[0], rest);
    } else {
      PairedItems(items[1..], rest);
      var tail := PutItems(ItemsSyntax(items[1..]), rest);
      assert [] + tail == tail && [] + ([COMMA] + tail) == [COMMA] + tail;
      PairedUnit(COMMA, tail);
      PairedText(items[0], [COMMA] + tail);
    }
  }

  lemma {:induction false} PairedMembers(fields: seq<Entry<Tree>>, rest: Text)
    requires fields != [] && WellPaired(rest)
    requires forall i :: 0 <= i < |fields| ==> WellPaired(fields[i].key) && InDomain(fields[i].value)
    ensures WellPaired(PutMembers(MembersSyntax(fields), rest))
    decreases fields
  {
    hide WellPaired, Put, Syntax, InDomain, PutString, PiecesOf;
    var next := rest;
    if |fields| > 1 {
      PairedMembers(fields[1..], rest);
      var tail := PutMembers(MembersSyntax(fields[1..]), rest);
      assert [] + tail == tail && [] + ([COMMA] + tail) == [COMMA] + tail;
      PairedUnit(COMMA, tail);
      next := [COMMA] + tail;
    } else {
      assert [] + rest == rest;
    }
    PairedText(fields[0].value, next);
    var value := Put(Syntax(fields[0].value), next);
    assert [] + value == value && [] + ([COLON] + value) == [COLON] + value;
    PairedUnit(COLON, value);
    PairedString(fields[0].key, [COLON] + value);
  }

  /** Canonical bytes are unambiguous and do not depend on the order of insertion: two accepted
      values have the same bytes if and only if they are the same up to the order in which their
      objects list their keys. */
  lemma BytesExactly(t: Tree, u: Tree)
    requires Proper(t) && Proper(u) && Canonicalize(t).Some? && Canonicalize(u).Some?
    ensures CanonicalBytes(t) == CanonicalBytes(u) <==> SameUpToOrder(t, u)
  {
    hide Canonicalize, Put, Syntax, Sorted, InDomain, Proper, SameUpToOrder, Encode, WellPaired;
    AcceptsExactly(t);
    AcceptsExactly(u);
    TextIsPrinting(t);
    TextIsPrinting(u);
    SortedExactly(t, u);
    var a, b := Canonicalize(t).value, Canonicalize(u).value;
    assert WellPaired([]) by { NothingToPair(); }
    PairedText(Sorted(t), []);
    PairedText(Sorted(u), []);
    if Encode(a) == Encode(b) {
      EncodingIsInjective(a, b);
      CanonicalTextReadsBack(t);
      CanonicalTextReadsBack(u);
    }
  }

  lemma NothingToPair()
    ensures WellPaired([])
  {
  }
}
