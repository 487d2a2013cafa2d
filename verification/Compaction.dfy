/** The deterministic compaction of a review prompt to the browser transport budget
    (src/convergence.mjs, `buildChatGptPrompt`, `prepareChatGptReviewPrompt`). The fixed wording
    is a parameter; only its size matters. Nothing is redacted: no text carries a secret. */
module Compaction {
  import opened Prelude
  import opened JsonText
  import JsonRepair
  import opened Utf8

  const MAX_PROMPT_BYTES: nat := 192 * 1024

  datatype Criterion = Criterion(evidence: Text, id: Text, status: Text)

  datatype Requirement = Requirement(id: Text, text: Text)

  datatype Contract = Contract(criteria: seq<Requirement>, target: Text)

  datatype Candidate = Candidate(blockers: seq<Text>, criteria: seq<Criterion>, packet: Text, status: Text,
                                 summary: Text)

  /** Everything a prompt holds besides the candidate, the contract and the carried context:
      instructions, labels, the cycle, the digests and the two markers, in their places; and the
      notice that replaces what is cut from a text with a label. */
  datatype Wording = Wording(
    opening: seq<Text>, contractLabel: Text, contextLabel: Text, summaryLabel: Text, statusLabel: Text,
    blockersLabel: Text, noBlockers: Text, evidenceLabel: Text, noteLabel: Text, note: Text, packetLabel: Text,
    closing: seq<Text>, placeholder: Text, notice: (Text, Text) -> Text)

  /** The labels under which texts are compacted. */
  datatype Labels = Labels(criterion: Text -> Text, target: Text, blocker: nat -> Text, evidence: Text -> Text,
                           summary: Text, packet: Text)

  // ---- JSON.stringify -------------------------------------------------

  function HexPiece(u: Unit): (p: Piece)
    ensures ValidPiece(p)
  {
    Hex(JsonRepair.HexDigit(u / 4096), JsonRepair.HexDigit(u / 256 % 16), JsonRepair.HexDigit(u / 16 % 16),
        JsonRepair.HexDigit(u % 16))
  }

  /** One unit that is not half of a pair. */
  function UnitPiece(u: Unit): Piece {
    if u == QUOTE || u == BACKSLASH then Escape(u)
    else if u <= 0x1F then JsonRepair.ControlPiece(u)
    else if IsHigh(u) || IsLow(u) then HexPiece(u)
    else Plain(u)
  }

  function QuotedBody(s: Text): Text {
    if s == [] then []
    else if StartsPair(s) then [s[0], s[1]] + QuotedBody(s[2..])
    else PutPiece(UnitPiece(s[0]), []) + QuotedBody(s[1..])
  }

  function Quoted(s: Text): Text {
    [QUOTE] + (QuotedBody(s) + [QUOTE])
  }

  /** A property name as it is written, with the punctuation in front of it and behind. */
  function PropertyName(lead: Text, name: Text): Text {
    lead + (Quoted(name) + [COLON])
  }

  const EVIDENCE: Text := [0x65, 0x76, 0x69, 0x64, 0x65, 0x6E, 0x63, 0x65]
  const ID: Text := [0x69, 0x64]
  const STATUS: Text := [0x73, 0x74, 0x61, 0x74, 0x75, 0x73]

  function CriterionText(c: Criterion): Text {
    PropertyName([OPEN_BRACE], EVIDENCE) + (Quoted(c.evidence) + (
      PropertyName([COMMA], ID) + (Quoted(c.id) + (
        PropertyName([COMMA], STATUS) + (Quoted(c.status) + [CLOSE_BRACE])))))
  }

  function JoinWith(separator: Text, parts: seq<Text>): Text {
    if parts == [] then []
    else if |parts| == 1 then parts[0]
    else parts[0] + (separator + JoinWith(separator, parts[1..]))
  }

  function CriterionTexts(criteria: seq<Criterion>): seq<Text> {
    if criteria == [] then [] else [CriterionText(criteria[0])] + CriterionTexts(criteria[1..])
  }

  function CriteriaText(criteria: seq<Criterion>): Text {
    [OPEN_BRACKET] + (JoinWith([COMMA], CriterionTexts(criteria)) + [CLOSE_BRACKET])
  }

  // ---- the prompt -----------------------------------------------------

  const LINE: Text := [0x0A]
  const PARAGRAPH: Text := [0x0A, 0x0A]
  const COLON_SPACE: Text := [COLON, 0x20]

  function RequirementLines(criteria: seq<Requirement>): seq<Text> {
    if criteria == [] then []
    else [criteria[0].id + (COLON_SPACE + criteria[0].text)] + RequirementLines(criteria[1..])
  }

  function ContractPart(w: Wording, contract: Contract): seq<Text> {
    [contract.target, w.contractLabel, JoinWith(LINE, RequirementLines(contract.criteria))]
  }

  function ContextPart(w: Wording, context: Option<Text>): seq<Text> {
    if context.Some? && context.value != [] then [w.contextLabel, context.value] else []
  }

  function CandidatePart(w: Wording, c: Candidate): seq<Text> {
    [w.summaryLabel, c.summary, w.statusLabel + c.status, w.blockersLabel,
     if c.blockers != [] then JoinWith(LINE, c.blockers) else w.noBlockers]
  }

  function EvidencePart(w: Wording, c: Candidate, noted: bool): seq<Text> {
    [w.evidenceLabel, CriteriaText(c.criteria)] + (if noted then [w.noteLabel, w.note] else [])
  }

  /** The paragraphs in front of the review packet. */
  function Head(w: Wording, contract: Contract, context: Option<Text>, c: Candidate, noted: bool): seq<Text> {
    w.opening + (ContractPart(w, contract) + (ContextPart(w, context) + (CandidatePart(w, c) + (
      EvidencePart(w, c, noted) + [w.packetLabel]))))
  }

  /** `buildChatGptPrompt`. */
  function Prompt(w: Wording, contract: Contract, context: Option<Text>, c: Candidate, noted: bool): Text {
    JoinWith(PARAGRAPH, Head(w, contract, context, c, noted) + [c.packet] + w.closing)
  }

  // ---- compacted fields -----------------------------------------------

  function Short(w: Wording, value: Text, limit: nat, name: Text): Text {
    Compact(value, limit, w.notice(value, name)).value
  }

  function ShortRequirements(w: Wording, l: Labels, criteria: seq<Requirement>): (r: seq<Requirement>)
    ensures |r| == |criteria|
  {
    if criteria == [] then []
    else [criteria[0].(text := Short(w, criteria[0].text, 1024, l.criterion(criteria[0].id)))] +
         ShortRequirements(w, l, criteria[1..])
  }

  function ShortContract(w: Wording, l: Labels, contract: Contract): Contract {
    Contract(ShortRequirements(w, l, contract.criteria), Short(w, contract.target, 8 * 1024, l.target))
  }

  function ShortBlockers(w: Wording, l: Labels, blockers: seq<Text>, first: nat): (r: seq<Text>)
    ensures |r| == |blockers|
  {
    if blockers == [] then []
    else [Short(w, blockers[0], 512, l.blocker(first))] + ShortBlockers(w, l, blockers[1..], first + 1)
  }

  function ShortCriteria(w: Wording, l: Labels, criteria: seq<Criterion>): (r: seq<Criterion>)
    ensures |r| == |criteria|
  {
    if criteria == [] then []
    else [criteria[0].(evidence := Short(w, criteria[0].evidence, 1024, l.evidence(criteria[0].id)))] +
         ShortCriteria(w, l, criteria[1..])
  }

  function ShortCandidate(w: Wording, l: Labels, c: Candidate): Candidate {
    Candidate(ShortBlockers(w, l, c.blockers, 1), ShortCriteria(w, l, c.criteria), w.placeholder, c.status,
              Short(w, c.summary, 4 * 1024, l.summary))
  }

  // ---- what is admitted -----------------------------------------------

  /** The schema of a candidate and its contract, as far as it bounds what is not compacted: at
      most eight criteria with identities `AC-1` to `AC-8` and one of three statuses, at most
      eight blockers, and a carried context of at most 4,000 units. */
  predicate Admitted(contract: Contract, context: Option<Text>, c: Candidate) {
    && |contract.criteria| <= 8 && |c.criteria| <= 8 && |c.blockers| <= 8
    && (forall i :: 0 <= i < |contract.criteria| ==> |contract.criteria[i].id| <= 4)
    && (forall i :: 0 <= i < |c.criteria| ==> |c.criteria[i].id| <= 4 && |c.criteria[i].status| <= 7)
    && |c.status| <= 9
    && (context.Some? ==> |context.value| <= 4_000)
  }

  function Sum(parts: seq<Text>): nat {
    if parts == [] then 0 else ByteLength(parts[0]) + 2 + Sum(parts[1..])
  }

  /** The wording of a prompt takes at most 32 KiB, which the source's own stays far below, and a
      notice is a line of at most 256 bytes. */
  predicate Fitting(w: Wording) {
    && w.closing != []
    && Sum(w.opening) + Sum(w.closing) + Sum([w.contractLabel, w.contextLabel, w.summaryLabel, w.statusLabel,
         w.blockersLabel, w.noBlockers, w.evidenceLabel, w.noteLabel, w.note, w.packetLabel]) <= 32 * 1024
  }

  predicate FittingNotice(notice: Text) {
    notice != [] && notice[0] == 0x0A && ByteLength(notice) <= 256
  }

  ghost predicate FittingNotices(w: Wording) {
    forall value, name :: FittingNotice(w.notice(value, name))
  }

  // ---- sizes ----------------------------------------------------------

  lemma LengthsAtMostAdd(a: Text, b: Text)
    ensures ByteLength(a + b) <= ByteLength(a) + ByteLength(b)
  {
    if Separable(a, b) {
      EncodingSplits(a, b);
    } else {
      var front, back := a[..|a| - 1], b[1..];
      var high, low := a[|a| - 1], b[0];
      assert a == front + [high] && b == [low] + back && a + b == front + ([high, low] + back);
      EncodingSplits(front, [high]);
      EncodingSplits([low], back);
      EncodingSplits([high, low], back);
      EncodingSplits(front, [high, low] + back);
      PairLonger(high, low);
    }
  }

  lemma {:induction false} UnitsAtMostThree(s: Text)
    ensures ByteLength(s) <= 3 * |s|
    decreases |s|
  {
    if s == [] {
    } else if StartsPair(s) {
      UnitsAtMostThree(s[2..]);
    } else {
      UnitsAtMostThree(s[1..]);
    }
  }

  lemma PlainBytes(t: Text)
    requires forall i :: 0 <= i < |t| ==> t[i] < 0x80
    ensures ByteLength(t) == |t|
  {
    if t != [] { PlainBytes(t[1..]); }
  }

  lemma {:induction false} JoinAtMost(separator: Text, parts: seq<Text>)
    requires ByteLength(separator) <= 2
    ensures ByteLength(JoinWith(separator, parts)) <= Sum(parts)
  {
    hide ByteLength;
    if parts == [] {
      NoBytes();
    } else if |parts| > 1 {
      var rest := JoinWith(separator, parts[1..]);
      JoinAtMost(separator, parts[1..]);
      LengthsAtMostAdd(separator, rest);
      LengthsAtMostAdd(parts[0], separator + rest);
    }
  }

  lemma NoBytes()
    ensures ByteLength([]) == 0
  {
  }

  lemma {:induction false} SumsAdd(a: seq<Text>, b: seq<Text>)
    ensures Sum(a + b) == Sum(a) + Sum(b)
  {
    hide ByteLength;
    if a == [] {
      assert a + b == b;
    } else {
      assert (a + b)[1..] == a[1..] + b;
      SumsAdd(a[1..], b);
    }
  }

  lemma SumOfOne(t: Text)
    ensures Sum([t]) == ByteLength(t) + 2
  {
    hide ByteLength;
    assert [t][1..] == [];
  }

  lemma {:induction false} SumAtMost(parts: seq<Text>, each: nat)
    requires forall i :: 0 <= i < |parts| ==> ByteLength(parts[i]) <= each
    ensures Sum(parts) <= |parts| * (each + 2)
  {
    hide ByteLength;
    if parts != [] { SumAtMost(parts[1..], each); }
  }

  /** Escaping takes at most six bytes for one. */
  lemma {:induction false} QuotingAtMostSix(s: Text)
    ensures ByteLength(QuotedBody(s)) <= 6 * ByteLength(s)
    decreases |s|
  {
    if s == [] {
    } else if StartsPair(s) {
      QuotingAtMostSix(s[2..]);
      PairLonger(s[0], s[1]);
      LengthsAtMostAdd([s[0], s[1]], QuotedBody(s[2..]));
      assert ByteLength(s) == 4 + ByteLength(s[2..]);
    } else {
      QuotingAtMostSix(s[1..]);
      UnitQuoted(s[0]);
      LengthsAtMostAdd(PutPiece(UnitPiece(s[0]), []), QuotedBody(s[1..]));
    }
  }

  lemma UnitQuoted(u: Unit)
    ensures ByteLength(PutPiece(UnitPiece(u), [])) <= 6 * |EncodePoint(u)|
  {
    var t := PutPiece(UnitPiece(u), []);
    if UnitPiece(u).Plain? {
      assert t == [u];
      assert t[1..] == [];
      assert Encode(t) == EncodePoint(u) + Encode([]);
    } else {
      PieceIsPlain(UnitPiece(u));
      PlainBytes(t);
      assert IsHigh(u) || IsLow(u) || |t| <= 6;
      assert |t| <= 6;
    }
  }

  lemma PieceIsPlain(p: Piece)
    requires ValidPiece(p) && !p.Plain?
    ensures forall i :: 0 <= i < |PutPiece(p, [])| ==> PutPiece(p, [])[i] < 0x80
    ensures |PutPiece(p, [])| <= 6
  {
  }

  lemma QuotedAtMost(s: Text)
    ensures ByteLength(Quoted(s)) <= 6 * ByteLength(s) + 2
  {
    hide ByteLength;
    QuotingAtMostSix(s);
    PlainBytes([QUOTE]);
    LengthsAtMostAdd(QuotedBody(s), [QUOTE]);
    LengthsAtMostAdd([QUOTE], QuotedBody(s) + [QUOTE]);
  }

  lemma PropertyAtMost(lead: Text, name: Text)
    requires |lead| == 1 && lead[0] < 0x80 && |name| <= 8 && forall i :: 0 <= i < |name| ==> name[i] < 0x80
    ensures ByteLength(PropertyName(lead, name)) <= 6 * 8 + 4
  {
    hide ByteLength, Quoted;
    PlainBytes(lead);
    PlainBytes(name);
    PlainBytes([COLON]);
    QuotedAtMost(name);
    LengthsAtMostAdd(Quoted(name), [COLON]);
    LengthsAtMostAdd(lead, Quoted(name) + [COLON]);
  }

  const CRITERION_BYTES: nat := 6_600

  lemma CriterionAtMost(c: Criterion)
    requires ByteLength(c.evidence) <= 1024 && |c.id| <= 4 && |c.status| <= 7
    ensures ByteLength(CriterionText(c)) <= CRITERION_BYTES
  {
    hide ByteLength, Quoted, PropertyName;
    UnitsAtMostThree(c.id);
    UnitsAtMostThree(c.status);
    QuotedAtMost(c.evidence);
    QuotedAtMost(c.id);
    QuotedAtMost(c.status);
    PropertyAtMost([OPEN_BRACE], EVIDENCE);
    PropertyAtMost([COMMA], ID);
    PropertyAtMost([COMMA], STATUS);
    PlainBytes([CLOSE_BRACE]);
    var t1 := Quoted(c.status) + [CLOSE_BRACE];
    var t2 := PropertyName([COMMA], STATUS) + t1;
    var t3 := Quoted(c.id) + t2;
    var t4 := PropertyName([COMMA], ID) + t3;
    var t5 := Quoted(c.evidence) + t4;
    LengthsAtMostAdd(Quoted(c.status), [CLOSE_BRACE]);
    LengthsAtMostAdd(PropertyName([COMMA], STATUS), t1);
    LengthsAtMostAdd(Quoted(c.id), t2);
    LengthsAtMostAdd(PropertyName([COMMA], ID), t3);
    LengthsAtMostAdd(Quoted(c.evidence), t4);
    LengthsAtMostAdd(PropertyName([OPEN_BRACE], EVIDENCE), t5);
  }

  lemma {:induction false} CriterionTextAt(criteria: seq<Criterion>, i: nat)
    requires i < |criteria|
    ensures |CriterionTexts(criteria)| == |criteria| && CriterionTexts(criteria)[i] == CriterionText(criteria[i])
  {
    hide CriterionText;
    if i > 0 { CriterionTextAt(criteria[1..], i - 1); } else if |criteria| > 1 { CriterionTextAt(criteria[1..], 0); }
  }

  lemma CriteriaAtMost(criteria: seq<Criterion>)
    requires |criteria| <= 8
    requires forall i :: 0 <= i < |criteria| ==>
      ByteLength(criteria[i].evidence) <= 1024 && |criteria[i].id| <= 4 && |criteria[i].status| <= 7
    ensures ByteLength(CriteriaText(criteria)) <= 8 * (CRITERION_BYTES + 2) + 2
  {
    hide ByteLength, CriterionText;
    var texts := CriterionTexts(criteria);
    forall i | 0 <= i < |criteria| ensures i < |texts| && ByteLength(texts[i]) <= CRITERION_BYTES {
      CriterionTextAt(criteria, i);
      CriterionAtMost(criteria[i]);
    }
    if criteria != [] { CriterionTextAt(criteria, 0); }
    SumAtMost(texts, CRITERION_BYTES);
    PlainBytes([COMMA]);
    JoinAtMost([COMMA], texts);
    var joined := JoinWith([COMMA], texts);
    PlainBytes([OPEN_BRACKET]);
    PlainBytes([CLOSE_BRACKET]);
    LengthsAtMostAdd(joined, [CLOSE_BRACKET]);
    LengthsAtMostAdd([OPEN_BRACKET], joined + [CLOSE_BRACKET]);
    assert |texts| * (CRITERION_BYTES + 2) <= 8 * (CRITERION_BYTES + 2);
  }

  // ---- the compacted fields are within their limits -------------------

  lemma ShortAtMost(w: Wording, value: Text, limit: nat, name: Text)
    requires FittingNotices(w) && limit >= 256
    ensures ByteLength(Short(w, value, limit, name)) <= limit
  {
    hide ByteLength, Compact;
    assert FittingNotice(w.notice(value, name));
    CompactionFits(value, limit, w.notice(value, name));
  }

  lemma {:induction false} ShortCriteriaAtMost(w: Wording, l: Labels, criteria: seq<Criterion>, i: nat)
    requires FittingNotices(w) && i < |criteria|
    ensures var r := ShortCriteria(w, l, criteria)[i];
            ByteLength(r.evidence) <= 1024 && r.id == criteria[i].id && r.status == criteria[i].status
  {
    hide ByteLength, Short, FittingNotices;
    if i == 0 {
      ShortAtMost(w, criteria[0].evidence, 1024, l.evidence(criteria[0].id));
    } else {
      ShortCriteriaAtMost(w, l, criteria[1..], i - 1);
    }
  }

  lemma {:induction false} ShortBlockersAtMost(w: Wording, l: Labels, blockers: seq<Text>, first: nat, i: nat)
    requires FittingNotices(w) && i < |blockers|
    ensures ByteLength(ShortBlockers(w, l, blockers, first)[i]) <= 512
  {
    hide ByteLength, Short, FittingNotices;
    if i == 0 {
      ShortAtMost(w, blockers[0], 512, l.blocker(first));
    } else {
      ShortBlockersAtMost(w, l, blockers[1..], first + 1, i - 1);
    }
  }

  lemma {:induction false} RequirementLineAtMost(w: Wording, l: Labels, criteria: seq<Requirement>, i: nat)
    requires FittingNotices(w) && i < |criteria| && |criteria[i].id| <= 4
    ensures var lines := RequirementLines(ShortRequirements(w, l, criteria));
            |lines| == |criteria| && ByteLength(lines[i]) <= 1024 + 14
  {
    hide ByteLength, Short, FittingNotices;
    LinesCounted(ShortRequirements(w, l, criteria));
    if i == 0 {
      var text := Short(w, criteria[0].text, 1024, l.criterion(criteria[0].id));
      ShortAtMost(w, criteria[0].text, 1024, l.criterion(criteria[0].id));
      UnitsAtMostThree(criteria[0].id);
      PlainBytes(COLON_SPACE);
      LengthsAtMostAdd(COLON_SPACE, text);
      LengthsAtMostAdd(criteria[0].id, COLON_SPACE + text);
    } else {
      RequirementLineAtMost(w, l, criteria[1..], i - 1);
    }
  }

  lemma {:induction false} LinesCounted(criteria: seq<Requirement>)
    ensures |RequirementLines(criteria)| == |criteria|
  {
    if criteria != [] { LinesCounted(criteria[1..]); }
  }

  lemma RequirementsAtMost(w: Wording, l: Labels, criteria: seq<Requirement>)
    requires FittingNotices(w) && |criteria| <= 8 && forall i :: 0 <= i < |criteria| ==> |criteria[i].id| <= 4
    ensures ByteLength(JoinWith(LINE, RequirementLines(ShortRequirements(w, l, criteria)))) <= 8 * 1040
  {
    hide ByteLength, ShortRequirements, RequirementLines, FittingNotices;
    var lines := RequirementLines(ShortRequirements(w, l, criteria));
    LinesCounted(ShortRequirements(w, l, criteria));
    forall i | 0 <= i < |lines| ensures ByteLength(lines[i]) <= 1038 { RequirementLineAtMost(w, l, criteria, i); }
    SumAtMost(lines, 1038);
    PlainBytes(LINE);
    JoinAtMost(LINE, lines);
  }

  lemma BlockersAtMost(w: Wording, l: Labels, blockers: seq<Text>)
    requires FittingNotices(w) && |blockers| <= 8
    ensures ByteLength(JoinWith(LINE, ShortBlockers(w, l, blockers, 1))) <= 8 * 514
  {
    hide ByteLength, ShortBlockers, FittingNotices;
    var short := ShortBlockers(w, l, blockers, 1);
    forall i | 0 <= i < |short| ensures ByteLength(short[i]) <= 512 { ShortBlockersAtMost(w, l, blockers, 1, i); }
    SumAtMost(short, 512);
    PlainBytes(LINE);
    JoinAtMost(LINE, short);
  }

  // ---- the frame around the packet ------------------------------------

  /** What a prompt takes besides its review packet. */
  function Frame(w: Wording, contract: Contract, context: Option<Text>, c: Candidate, noted: bool): nat {
    ByteLength(JoinWith(PARAGRAPH, Head(w, contract, context, c, noted))) + 4
    + ByteLength(JoinWith(PARAGRAPH, w.closing))
  }

  lemma {:induction false} JoinSplits(separator: Text, a: seq<Text>, b: seq<Text>)
    requires a != [] && b != []
    ensures JoinWith(separator, a + b) == JoinWith(separator, a) + (separator + JoinWith(separator, b))
  {
    assert (a + b)[0] == a[0] && |a + b| > 1;
    if |a| == 1 {
      assert (a + b)[1..] == b;
    } else {
      JoinSplits(separator, a[1..], b);
      assert (a + b)[1..] == a[1..] + b;
      var tail := separator + JoinWith(separator, b);
      Associates(separator, JoinWith(separator, a[1..]), tail);
      Associates(a[0], separator + JoinWith(separator, a[1..]), tail);
    }
  }

  lemma ParagraphAround(head: Text, packet: Text, tail: Text)
    ensures ByteLength(head + (PARAGRAPH + (packet + (PARAGRAPH + tail)))) ==
            ByteLength(head) + ByteLength(packet) + ByteLength(tail) + 4
  {
    hide ByteLength;
    PlainBytes(PARAGRAPH);
    LengthsAdd(PARAGRAPH, tail);
    LengthsAdd(packet, PARAGRAPH + tail);
    LengthsAdd(PARAGRAPH, packet + (PARAGRAPH + tail));
    LengthsAdd(head, PARAGRAPH + (packet + (PARAGRAPH + tail)));
  }

  /** A prompt takes its frame and its packet. */
  lemma PromptMeasured(w: Wording, contract: Contract, context: Option<Text>, c: Candidate, noted: bool)
    requires w.closing != []
    ensures ByteLength(Prompt(w, contract, context, c, noted)) ==
            Frame(w, contract, context, c, noted) + ByteLength(c.packet)
  {
    hide ByteLength, CriteriaText, RequirementLines;
    var head := Head(w, contract, context, c, noted);
    assert head != [];
    hide Head;
    assert head + [c.packet] + w.closing == head + ([c.packet] + w.closing);
    JoinSplits(PARAGRAPH, [c.packet], w.closing);
    JoinSplits(PARAGRAPH, head, [c.packet] + w.closing);
    ParagraphAround(JoinWith(PARAGRAPH, head), c.packet, JoinWith(PARAGRAPH, w.closing));
  }

  /** The packet does not change the frame. */
  lemma FrameIgnoresPacket(w: Wording, contract: Contract, context: Option<Text>, c: Candidate, packet: Text)
    ensures Frame(w, contract, context, c.(packet := packet), true) == Frame(w, contract, context, c, true)
  {
    hide ByteLength, CriteriaText, RequirementLines, JoinWith;
  }

  lemma SumOfLabels(w: Wording)
    requires Fitting(w)
    ensures Sum(w.opening) + Sum(w.closing) + ByteLength(w.contractLabel) + ByteLength(w.contextLabel)
            + ByteLength(w.summaryLabel) + ByteLength(w.statusLabel) + ByteLength(w.blockersLabel)
            + ByteLength(w.noBlockers) + ByteLength(w.evidenceLabel) + ByteLength(w.noteLabel) + ByteLength(w.note)
            + ByteLength(w.packetLabel) + 20
            <= 32 * 1024
  {
    hide ByteLength;
    Sum10([w.contractLabel, w.contextLabel, w.summaryLabel, w.statusLabel, w.blockersLabel, w.noBlockers,
           w.evidenceLabel, w.noteLabel, w.note, w.packetLabel]);
  }

  lemma Sum10(p: seq<Text>)
    requires |p| == 10
    ensures Sum(p) == ByteLength(p[0]) + ByteLength(p[1]) + ByteLength(p[2]) + ByteLength(p[3]) + ByteLength(p[4])
                      + ByteLength(p[5]) + ByteLength(p[6]) + ByteLength(p[7]) + ByteLength(p[8]) + ByteLength(p[9])
                      + 20
  {
    hide ByteLength;
    Sum5(p[..5]);
    Sum5(p[5..]);
    assert p == p[..5] + p[5..];
    SumsAdd(p[..5], p[5..]);
  }

  lemma Sum5(p: seq<Text>)
    requires |p| == 5
    ensures Sum(p) == ByteLength(p[0]) + ByteLength(p[1]) + ByteLength(p[2]) + ByteLength(p[3]) + ByteLength(p[4]) + 10
  {
    hide ByteLength;
    assert Sum(p) == ByteLength(p[0]) + 2 + Sum(p[1..]);
    assert Sum(p[1..]) == ByteLength(p[1]) + 2 + Sum(p[1..][1..]);
    assert p[1..][1..] == p[2..];
    assert Sum(p[2..]) == ByteLength(p[2]) + 2 + Sum(p[2..][1..]);
    assert p[2..][1..] == p[3..];
    assert Sum(p[3..]) == ByteLength(p[3]) + 2 + Sum(p[3..][1..]);
    assert p[3..][1..] == p[4..];
    assert Sum(p[4..]) == ByteLength(p[4]) + 2 + Sum(p[4..][1..]);
    assert p[4..][1..] == [];
  }

  lemma PartsMeasured(w: Wording, contract: Contract, context: Option<Text>, c: Candidate)
    ensures Sum(ContractPart(w, contract)) == ByteLength(contract.target) + ByteLength(w.contractLabel)
              + ByteLength(JoinWith(LINE, RequirementLines(contract.criteria))) + 6
    ensures Sum(ContextPart(w, context)) <=
              ByteLength(w.contextLabel) + (if context.Some? then ByteLength(context.value) else 0) + 4
    ensures Sum(CandidatePart(w, c)) <=
              ByteLength(w.summaryLabel) + ByteLength(c.summary) + ByteLength(w.statusLabel + c.status)
              + ByteLength(w.blockersLabel) + ByteLength(JoinWith(LINE, c.blockers)) + ByteLength(w.noBlockers) + 10
    ensures Sum(EvidencePart(w, c, true)) ==
              ByteLength(w.evidenceLabel) + ByteLength(CriteriaText(c.criteria)) + ByteLength(w.noteLabel)
              + ByteLength(w.note) + 8
  {
    hide ByteLength, CriteriaText, RequirementLines, JoinWith, Sum;
    Sum3(ContractPart(w, contract));
    if context.Some? && context.value != [] { Sum2(ContextPart(w, context)); } else { SumOfNone(); }
    Sum5(CandidatePart(w, c));
    SumsAdd([w.evidenceLabel, CriteriaText(c.criteria)], [w.noteLabel, w.note]);
    Sum2([w.evidenceLabel, CriteriaText(c.criteria)]);
    Sum2([w.noteLabel, w.note]);
  }

  lemma SumOfNone()
    ensures Sum([]) == 0
  {
  }

  /** The paragraphs of the contract, of the carried context, of the candidate. */
  lemma HeadSplits(w: Wording, contract: Contract, context: Option<Text>, c: Candidate)
    ensures Sum(Head(w, contract, context, c, true)) <=
            Sum(w.opening)
            + ByteLength(contract.target) + ByteLength(w.contractLabel)
            + ByteLength(JoinWith(LINE, RequirementLines(contract.criteria)))
            + ByteLength(w.contextLabel) + (if context.Some? then ByteLength(context.value) else 0)
            + ByteLength(w.summaryLabel) + ByteLength(c.summary) + ByteLength(w.statusLabel + c.status)
            + ByteLength(w.blockersLabel) + ByteLength(JoinWith(LINE, c.blockers)) + ByteLength(w.noBlockers)
            + ByteLength(w.evidenceLabel) + ByteLength(CriteriaText(c.criteria))
            + ByteLength(w.noteLabel) + ByteLength(w.note) + ByteLength(w.packetLabel) + 30
  {
    hide ByteLength, CriteriaText, RequirementLines, JoinWith, Sum, ContractPart, ContextPart, CandidatePart,
      EvidencePart;
    var a, b, d, e := ContractPart(w, contract), ContextPart(w, context), CandidatePart(w, c), EvidencePart(w, c, true);
    PartsMeasured(w, contract, context, c);
    SumOfOne(w.packetLabel);
    SumsAdd(e, [w.packetLabel]);
    SumsAdd(d, e + [w.packetLabel]);
    SumsAdd(b, d + (e + [w.packetLabel]));
    SumsAdd(a, b + (d + (e + [w.packetLabel])));
    SumsAdd(w.opening, a + (b + (d + (e + [w.packetLabel]))));
  }

  lemma Sum2(p: seq<Text>)
    requires |p| == 2
    ensures Sum(p) == ByteLength(p[0]) + ByteLength(p[1]) + 4
  {
    hide ByteLength;
    assert p == [p[0]] + [p[1]];
    SumsAdd([p[0]], [p[1]]);
    SumOfOne(p[0]);
    SumOfOne(p[1]);
  }

  lemma Sum3(p: seq<Text>)
    requires |p| == 3
    ensures Sum(p) == ByteLength(p[0]) + ByteLength(p[1]) + ByteLength(p[2]) + 6
  {
    hide ByteLength;
    assert p == [p[0], p[1]] + [p[2]];
    SumsAdd([p[0], p[1]], [p[2]]);
    Sum2([p[0], p[1]]);
    SumOfOne(p[2]);
  }

  /** The worst case over every admitted candidate and contract: the compacted shell leaves the
      review packet far more than its least budget. */
  lemma ShellLeavesRoom(w: Wording, l: Labels, contract: Contract, context: Option<Text>, c: Candidate)
    requires Admitted(contract, context, c) && Fitting(w) && FittingNotices(w)
    ensures Frame(w, ShortContract(w, l, contract), context, ShortCandidate(w, l, c), true) + 512 <= MAX_PROMPT_BYTES
  {
    hide ByteLength, CriteriaText, RequirementLines, JoinWith, Short, Head, ShortRequirements, ShortBlockers,
      ShortCriteria, FittingNotices, Fitting, Sum;
    var short, d := ShortContract(w, l, contract), ShortCandidate(w, l, c);
    HeadSplits(w, short, context, d);
    SumOfLabels(w);
    ShortAtMost(w, contract.target, 8 * 1024, l.target);
    ShortAtMost(w, c.summary, 4 * 1024, l.summary);
    RequirementsAtMost(w, l, contract.criteria);
    BlockersAtMost(w, l, c.blockers);
    forall i | 0 <= i < |d.criteria|
      ensures ByteLength(d.criteria[i].evidence) <= 1024 && |d.criteria[i].id| <= 4 && |d.criteria[i].status| <= 7
    {
      ShortCriteriaAtMost(w, l, c.criteria, i);
    }
    CriteriaAtMost(d.criteria);
    if context.Some? { UnitsAtMostThree(context.value); }
    UnitsAtMostThree(c.status);
    LengthsAtMostAdd(w.statusLabel, c.status);
    PlainBytes(PARAGRAPH);
    JoinAtMost(PARAGRAPH, Head(w, short, context, d, true));
    JoinAtMost(PARAGRAPH, w.closing);
  }

  function AtLeast(floor: nat, n: int): nat {
    if n >= floor then n else floor
  }

  /** `prepareChatGptReviewPrompt`: the whole prompt if it fits, and otherwise the compacted shell
      with as much of the review packet as its budget admits, in at most four passes. */
  method PrepareReviewPrompt(w: Wording, l: Labels, contract: Contract, context: Option<Text>, candidate: Candidate)
    returns (prompt: Text, compacted: bool, passes: nat, packetBudget: nat)
    requires Admitted(contract, context, candidate) && Fitting(w) && FittingNotices(w)
    ensures ByteLength(prompt) <= MAX_PROMPT_BYTES
    ensures compacted <==> ByteLength(Prompt(w, contract, context, candidate, false)) > MAX_PROMPT_BYTES
    ensures !compacted ==> prompt == Prompt(w, contract, context, candidate, false)
    ensures compacted ==>
              var short := ShortCandidate(w, l, candidate);
              && passes == 1 && packetBudget >= 512
              && packetBudget == 192 * 1024 + ByteLength(w.placeholder)
                                 - ByteLength(Prompt(w, ShortContract(w, l, contract), context, short, true))
              && prompt == Prompt(w, ShortContract(w, l, contract), context,
                                  short.(packet := Short(w, candidate.packet, packetBudget, l.packet)), true)
  {
    hide ByteLength, Prompt, ShortContract, ShortCandidate, Short, Frame, Fitting;
    prompt, compacted, passes, packetBudget := Prompt(w, contract, context, candidate, false), false, 0, 0;
    if ByteLength(prompt) <= MAX_PROMPT_BYTES { return; }
    compacted := true;
    var compactContract, compactCandidate := ShortContract(w, l, contract), ShortCandidate(w, l, candidate);
    var shell := Prompt(w, compactContract, context, compactCandidate, true);
    ghost var frame := Frame(w, compactContract, context, compactCandidate, true);
    assert w.closing != [] by { HasClosing(w); }
    PromptMeasured(w, compactContract, context, compactCandidate, true);
    ShellLeavesRoom(w, l, contract, context, candidate);
    var room := MAX_PROMPT_BYTES - ByteLength(shell) + ByteLength(compactCandidate.packet);
    packetBudget := AtLeast(512, room);
    PlaceholderPending(w, l, candidate);
    ghost var budget := packetBudget;
    ghost var first := compactCandidate;
    for attempt := 0 to 4
      invariant passes == attempt == 0
      invariant packetBudget == budget && compactCandidate == first
    {
      compactCandidate := compactCandidate.(packet := Short(w, candidate.packet, packetBudget, l.packet));
      prompt := Prompt(w, compactContract, context, compactCandidate, true);
      passes := passes + 1;
      ShortAtMost(w, candidate.packet, packetBudget, l.packet);
      FrameIgnoresPacket(w, compactContract, context, first, compactCandidate.packet);
      PromptMeasured(w, compactContract, context, compactCandidate, true);
      var actualBytes := ByteLength(prompt);
      if actualBytes <= MAX_PROMPT_BYTES { break; }
      // the source would shrink the budget here and try again; no admitted input gets this far
      assert false;
    }
  }

  lemma PlaceholderPending(w: Wording, l: Labels, c: Candidate)
    ensures ShortCandidate(w, l, c).packet == w.placeholder
  {
  }

  lemma HasClosing(w: Wording)
    requires Fitting(w)
    ensures w.closing != []
  {
  }
}
