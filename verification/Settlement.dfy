/** How a review response is consumed and when it settles a convergence session
    (src/convergence.mjs, `parseChatGptReviewEnvelope`, `consumeNaturalLanguageReview`,
    `evaluateReview`, `completeAgentReview`). */
module Settlement {
  import opened Prelude
  import opened JsonText
  import JsonParser
  import JsonRepair
  import JsonKeys
  import Utf8

  datatype Status = Pass | Fail | Unknown
  datatype Severity = Blocking | Advisory
  datatype Decision = Settled | Continue | Blocked

  datatype CriterionResult = CriterionResult(id: Text, status: Status, evidence: Text)
  datatype Finding = Finding(id: Text, severity: Severity, title: Text, action: Text)

  datatype Review = Review(
    targetDigest: Text, candidateDigest: Text, cycle: int, decision: Decision,
    criteria: seq<CriterionResult>, findings: seq<Finding>, summary: Text)

  /** What a review must answer to. */
  datatype Expected = Expected(
    targetDigest: Text, candidateDigest: Text, cycle: int, criteria: seq<Text>, terminalMarker: Text)

  /** The parts of the parser no result here depends on: the schema, the alias normalisation, the
      optional code fence, the heuristic quote repair and the bounded copies of review text. Every
      theorem holds for any such functions. */
  datatype Parts = Parts(
    schema: Json -> Option<Review>, alias: Json -> Json, unfence: Text -> Text, repairQuotes: Text -> Option<Text>,
    bounded: (Text, nat) -> Text)

  datatype Failure = MarkerMismatch | ProtocolInvalid | IdentityMismatch | CriteriaMismatch

  // ---- text -----------------------------------------------------------

  /** `split(marker).length - 1`. */
  function Occurrences(s: Text, marker: Text): nat
    requires marker != []
    decreases |s|
  {
    if |s| < |marker| then 0
    else if s[..|marker|] == marker then 1 + Occurrences(s[|marker|..], marker)
    else Occurrences(s[1..], marker)
  }

  predicate EndsWith(s: Text, tail: Text) {
    |s| >= |tail| && s[|s| - |tail|..] == tail
  }

  function TrimStart(s: Text): (r: Text)
    ensures |r| <= |s| && r == s[|s| - |r|..]
  {
    if s != [] && IsSpace(s[0]) then TrimStart(s[1..]) else s
  }

  function Trim(s: Text): Text {
    TrimStart(Utf8.TrimEnd(s))
  }

  /** `replace(/\r\n?/g, "\n")`. */
  function Newlines(s: Text): Text {
    if s == [] then []
    else if s[0] == 0x0D then
      [0x0A] + Newlines(if |s| > 1 && s[1] == 0x0A then s[2..] else s[1..])
    else [s[0]] + Newlines(s[1..])
  }

  /** `split("\n")`. */
  function Lines(s: Text): (r: seq<Text>)
    ensures r != []
  {
    if s == [] then [[]]
    else if s[0] == 0x0A then [[]] + Lines(s[1..])
    else
      var r := Lines(s[1..]);
      [[s[0]] + r[0]] + r[1..]
  }

  function JoinLines(lines: seq<Text>): Text {
    if lines == [] then [] else if |lines| == 1 then lines[0] else lines[0] + ([0x0A] + JoinLines(lines[1..]))
  }

  function Ascii(s: string): Text {
    if s == "" then [] else [(s[0] as int) % 0x80] + Ascii(s[1..])
  }

  function Upper(s: Text): (r: Text)
    ensures |r| == |s|
  {
    if s == [] then [] else [if 0x61 <= s[0] <= 0x7A then s[0] - 0x20 else s[0]] + Upper(s[1..])
  }

  /** A line that is a verdict and nothing else, in any case. */
  function VerdictOf(line: Text): Option<Decision> {
    var t, lead := Upper(Trim(line)), Ascii("EGO_CHAT_DECISION:");
    if |t| < |lead| || t[..|lead|] != lead then None
    else
      var word := TrimStart(t[|lead|..]);
      if word == Ascii("SETTLED") then Some(Settled)
      else if word == Ascii("CONTINUE") then Some(Continue)
      else if word == Ascii("BLOCKED") then Some(Blocked)
      else None
  }

  // ---- the strict envelope --------------------------------------------

  /** `JSON.parse` with the duplicate-key check behind it. */
  function ParseUnique(text: Text): Option<Json> {
    match JsonParser.Parse(text)
    case None => None
    case Some(d) => if JsonKeys.HasUniqueKeys(text) && Loose(d.value) then Some(Meaning(d.value)) else None
  }

  /** The envelope as it is, after the syntax passes, or after the quote repair and them. */
  function DecodeEnvelope(p: Parts, text: Text): Option<Json> {
    var first := ParseUnique(JsonRepair.Normalize(text).text);
    if first.Some? then first
    else
      match p.repairQuotes(text)
      case None => None
      case Some(repaired) => ParseUnique(JsonRepair.Normalize(repaired).text)
  }

  function Ids(criteria: seq<CriterionResult>): (r: seq<Text>)
    ensures |r| == |criteria| && forall i :: 0 <= i < |r| ==> r[i] == criteria[i].id
  {
    if criteria == [] then [] else [criteria[0].id] + Ids(criteria[1..])
  }

  /** `validateCriteriaCoverage`. */
  predicate Covers(expected: seq<Text>, actual: seq<Text>) {
    |actual| == |expected| && Distinct(actual) && forall i :: 0 <= i < |expected| ==> actual[i] == expected[i]
  }

  predicate MarkedOnceAtEnd(response: Text, marker: Text)
    requires marker != []
  {
    Occurrences(response, marker) == 1 && EndsWith(Utf8.TrimEnd(response), marker)
  }

  /** `lastIndexOf`, for a marker that occurs. */
  function LastIndex(s: Text, marker: Text, from: nat): (i: nat)
    requires from + |marker| <= |s|
    ensures i <= from
  {
    if from == 0 || s[from..from + |marker|] == marker then from else LastIndex(s, marker, from - 1)
  }

  function EnvelopeText(response: Text, marker: Text): Text {
    if |marker| > |response| then [] else Trim(response[..LastIndex(response, marker, |response| - |marker|)])
  }

  /** `parseChatGptReviewEnvelope`. */
  function ParseEnvelope(p: Parts, response: Text, e: Expected): Result<Review, Failure>
    requires e.terminalMarker != []
  {
    if !MarkedOnceAtEnd(response, e.terminalMarker) then Err(MarkerMismatch)
    else
      match DecodeEnvelope(p, p.unfence(EnvelopeText(response, e.terminalMarker)))
      case None => Err(ProtocolInvalid)
      case Some(json) =>
        match p.schema(p.alias(json))
        case None => Err(ProtocolInvalid)
        case Some(review) =>
          if review.targetDigest != e.targetDigest || review.candidateDigest != e.candidateDigest
            || review.cycle != e.cycle
          then Err(IdentityMismatch)
          else if !Covers(e.criteria, Ids(review.criteria)) then Err(CriteriaMismatch)
          else Ok(review)
  }

  // ---- the natural-language fallback ----------------------------------

  function ResponseLines(response: Text): (r: seq<Text>)
    ensures r != []
  {
    Lines(Utf8.TrimEnd(Newlines(response)))
  }

  predicate HasTerminalMarker(response: Text, marker: Text)
    requires marker != []
  {
    var lines := ResponseLines(response);
    Occurrences(response, marker) == 1 && Trim(lines[|lines| - 1]) == marker
  }

  /** The lines left after the marker and the blank lines behind the text. */
  function WithoutBlankTail(lines: seq<Text>): seq<Text>
    decreases |lines|
  {
    if lines != [] && Trim(lines[|lines| - 1]) == [] then WithoutBlankTail(lines[..|lines| - 1]) else lines
  }

  function BodyLines(response: Text, marker: Text): seq<Text>
    requires marker != []
  {
    var lines := ResponseLines(response);
    WithoutBlankTail(if HasTerminalMarker(response, marker) then lines[..|lines| - 1] else lines)
  }

  function NaturalVerdict(response: Text, marker: Text): (r: Option<Decision>)
    requires marker != []
    ensures r.Some? ==> BodyLines(response, marker) != []
  {
    var lines := BodyLines(response, marker);
    if lines == [] then None else VerdictOf(lines[|lines| - 1])
  }

  predicate ExplicitlySettled(response: Text, marker: Text)
    requires marker != []
  {
    HasTerminalMarker(response, marker) && NaturalVerdict(response, marker) == Some(Settled)
  }

  /** Every criterion of the contract, in order, with the same status. */
  function Uniform(ids: seq<Text>, status: Status): (r: seq<CriterionResult>)
    ensures |r| == |ids| && forall i :: 0 <= i < |r| ==> r[i].id == ids[i] && r[i].status == status
  {
    if ids == [] then [] else [CriterionResult(ids[0], status, [])] + Uniform(ids[1..], status)
  }

  function SubstantiveText(p: Parts, response: Text, marker: Text): Text
    requires marker != []
  {
    var lines := BodyLines(response, marker);
    var kept := if NaturalVerdict(response, marker).Some? then lines[..|lines| - 1] else lines;
    p.bounded(JoinLines(kept), 128 * 1024)
  }

  /** `consumeNaturalLanguageReview`. */
  function ConsumeNatural(p: Parts, response: Text, e: Expected): Review
    requires e.terminalMarker != []
  {
    var body := SubstantiveText(p, response, e.terminalMarker);
    var settled := ExplicitlySettled(response, e.terminalMarker);
    var blocked := NaturalVerdict(response, e.terminalMarker) == Some(Blocked);
    Review(
      e.targetDigest, e.candidateDigest, e.cycle, if settled then Settled else Continue,
      Uniform(e.criteria, if settled then Pass else Unknown),
      if settled then []
      else [Finding(Ascii(if blocked then "B-REVIEWER_BLOCKED" else "B-REVIEW_FEEDBACK"), Blocking, [],
                    p.bounded(body, 4_000))],
      body)
  }

  /** `consumeChatGptReview`: every failure of the strict envelope falls back to the
      natural-language reading, so every response is consumed. */
  function Consume(p: Parts, response: Text, e: Expected): Review
    requires e.terminalMarker != []
  {
    match ParseEnvelope(p, response, e)
    case Ok(review) => review
    case Err(_) => ConsumeNatural(p, response, e)
  }

  // ---- evaluation -----------------------------------------------------

  predicate AllPass(criteria: seq<CriterionResult>) {
    forall i :: 0 <= i < |criteria| ==> criteria[i].status.Pass?
  }

  predicate NoBlocking(findings: seq<Finding>) {
    forall i :: 0 <= i < |findings| ==> !findings[i].severity.Blocking?
  }

  /** `evaluateReview`. */
  predicate Evaluate(r: Review) {
    r.decision.Settled? && NoBlocking(r.findings) && AllPass(r.criteria)
  }

  datatype Prepared = Prepared(expected: Expected, transportCompacted: bool, candidateBlocked: bool)

  datatype Completed = Completed(review: Review, settled: bool)

  function Reopened(r: Review, id: string): Review {
    r.(criteria := Uniform(Ids(r.criteria), Unknown),
       decision := Continue,
       findings := [Finding(Ascii(id), Blocking, [], [])])
  }

  /** `completeAgentReview`. */
  function Complete(p: Parts, prepared: Prepared, response: Text): Completed
    requires prepared.expected.terminalMarker != []
  {
    var consumed := Consume(p, response, prepared.expected);
    if !Evaluate(consumed) then Completed(consumed, false)
    else if prepared.transportCompacted then Completed(Reopened(consumed, "B-TRANSPORT-COMPACTED"), false)
    else if prepared.candidateBlocked then Completed(Reopened(consumed, "B-IMPLEMENTER-BLOCKED"), false)
    else Completed(consumed, true)
  }

  // ---- safety ---------------------------------------------------------

  /** A marker is one word: it holds no white space. */
  predicate IsMarker(marker: Text) {
    marker != [] && forall i :: 0 <= i < |marker| ==> !IsSpace(marker[i])
  }

  lemma {:induction false} TrimEndStops(s: Text)
    ensures var r := Utf8.TrimEnd(s);
            && (r != [] ==> !IsSpace(r[|r| - 1]))
            && forall i :: |r| <= i < |s| ==> IsSpace(s[i])
    decreases |s|
  {
    if s != [] && IsSpace(s[|s| - 1]) { TrimEndStops(s[..|s| - 1]); }
  }

  lemma {:induction false} TrimmedSuffix(s: Text, marker: Text)
    requires IsMarker(marker) && Trim(s) == marker && (s != [] ==> !IsSpace(s[|s| - 1]))
    ensures EndsWith(s, marker)
  {
    assert Utf8.TrimEnd(s) == s;
  }

  /** The last line is the end of the text. */
  lemma {:induction false} LastLineEnds(s: Text)
    ensures EndsWith(s, Lines(s)[|Lines(s)| - 1])
    decreases |s|
  {
    if s == [] {
    } else {
      LastLineEnds(s[1..]);
      var r, last := Lines(s[1..]), Lines(s)[|Lines(s)| - 1];
      if s[0] == 0x0A || |r| > 1 {
        assert last == r[|r| - 1];
        assert s[|s| - |last|..] == s[1..][|s[1..]| - |last|..];
      } else {
        OneLine(s[1..]);
        assert last == [s[0]] + r[0] && r[0] == s[1..];
        assert s[0..] == s;
      }
    }
  }

  lemma {:induction false} OneLine(s: Text)
    requires |Lines(s)| == 1
    ensures Lines(s)[0] == s
    decreases |s|
  {
    if s == [] {
    } else {
      OneLine(s[1..]);
      assert [s[0]] + s[1..] == s;
    }
  }

  lemma SuffixOfSuffix(s: Text, a: Text, b: Text)
    requires EndsWith(s, a) && EndsWith(a, b)
    ensures EndsWith(s, b)
  {
    assert s[|s| - |b|..] == a[|a| - |b|..];
  }

  predicate AllSpace(s: Text) {
    forall i :: 0 <= i < |s| ==> IsSpace(s[i])
  }

  /** The marker stands at this position and only white space follows it. */
  predicate MarkedAt(s: Text, marker: Text, k: nat) {
    k + |marker| <= |s| && s[k..k + |marker|] == marker && AllSpace(s[k + |marker|..])
  }

  lemma {:induction false} TrimEndIs(s: Text, n: nat)
    requires 0 < n <= |s| && !IsSpace(s[n - 1]) && AllSpace(s[n..])
    ensures Utf8.TrimEnd(s) == s[..n]
    decreases |s|
  {
    if |s| == n {
      assert s[..n] == s;
    } else {
      assert s[|s| - 1] == s[n..][|s| - 1 - n];
      assert forall i :: 0 <= i < |s| - 1 - n ==> s[..|s| - 1][n..][i] == s[n..][i];
      TrimEndIs(s[..|s| - 1], n);
      assert s[..|s| - 1][..n] == s[..n];
    }
  }

  lemma EndIsMarked(s: Text, marker: Text)
    requires IsMarker(marker) && EndsWith(Utf8.TrimEnd(s), marker)
    ensures MarkedAt(s, marker, |Utf8.TrimEnd(s)| - |marker|)
  {
    hide IsSpace, Utf8.TrimEnd;
    var t := Utf8.TrimEnd(s);
    TrimEndStops(s);
    assert s[|t| - |marker|..|t|] == t[|t| - |marker|..];
  }

  lemma MarkedIsEnd(s: Text, marker: Text, k: nat)
    requires IsMarker(marker) && MarkedAt(s, marker, k)
    ensures EndsWith(Utf8.TrimEnd(s), marker)
  {
    hide IsSpace, Utf8.TrimEnd;
    var n := k + |marker|;
    assert s[n - 1] == s[k..n][|marker| - 1];
    TrimEndIs(s, n);
    assert s[..n][n - |marker|..] == s[k..n];
  }

  lemma {:induction false} SpaceBeforeNewlines(s: Text)
    requires AllSpace(Newlines(s))
    ensures AllSpace(s)
    decreases |s|
  {
    if s == [] {
    } else {
      var rest := if s[0] == 0x0D && |s| > 1 && s[1] == 0x0A then s[2..] else s[1..];
      assert Newlines(s)[1..] == Newlines(rest);
      assert IsSpace(Newlines(s)[0]);
      SpaceBeforeNewlines(rest);
      assert s == (if |rest| == |s| - 2 then [s[0], s[1]] else [s[0]]) + rest;
    }
  }

  /** Text without line breaks comes through unchanged. */
  lemma {:induction false} WordBeforeNewlines(s: Text, word: Text)
    requires |word| <= |Newlines(s)| && Newlines(s)[..|word|] == word
    requires forall i :: 0 <= i < |word| ==> word[i] != 0x0A
    ensures |word| <= |s| && s[..|word|] == word && Newlines(s)[|word|..] == Newlines(s[|word|..])
    decreases |word|
  {
    if word == [] {
    } else {
      var t := Newlines(s);
      assert t[0] == word[0] == t[..|word|][0];
      assert s[0] != 0x0D && t[1..] == Newlines(s[1..]) && s[0] == word[0];
      assert t[1..][..|word| - 1] == word[1..];
      WordBeforeNewlines(s[1..], word[1..]);
      assert s[..|word|] == [s[0]] + s[1..][..|word| - 1];
      assert t[|word|..] == t[1..][|word| - 1..] && s[1..][|word| - 1..] == s[|word|..];
    }
  }

  lemma MarkedFurther(s: Text, rest: Text, lead: nat, marker: Text, j: nat)
    requires lead <= |s| && rest == s[lead..]
    ensures MarkedAt(rest, marker, j) <==> MarkedAt(s, marker, lead + j)
  {
    hide AllSpace;
    if j + |marker| <= |rest| {
      assert rest[j..j + |marker|] == s[lead + j..lead + j + |marker|];
      assert rest[j + |marker|..] == s[lead + j + |marker|..];
    }
  }

  lemma MarkedFirst(s: Text, marker: Text)
    requires IsMarker(marker) && MarkedAt(Newlines(s), marker, 0)
    ensures MarkedAt(s, marker, 0)
  {
    hide Newlines, AllSpace, IsSpace;
    assert Newlines(s)[..|marker|] == Newlines(s)[0..|marker|];
    NoLineFeed(marker);
    WordBeforeNewlines(s, marker);
    SpaceBeforeNewlines(s[|marker|..]);
    assert s[0..|marker|] == s[..|marker|];
  }

  /** A marker that ends the text with unified newlines ends the text itself. */
  lemma {:induction false} MarkerBeforeNewlines(s: Text, marker: Text, k: nat) returns (j: nat)
    requires IsMarker(marker) && MarkedAt(Newlines(s), marker, k)
    ensures j <= |s| && MarkedAt(s, marker, j)
    decreases |s|
  {
    if k == 0 {
      MarkedFirst(s, marker);
      j := 0;
    } else {
      var lead, later := NewlinesStep(s);
      hide MarkedAt, Newlines, IsMarker;
      MarkedFurther(Newlines(s), later, 1, marker, k - 1);
      j := MarkerBeforeNewlines(s[lead..], marker, k - 1);
      MarkedFurther(s, s[lead..], lead, marker, j);
      j := lead + j;
    }
  }

  lemma NewlinesStep(s: Text) returns (lead: nat, later: Text)
    requires s != []
    ensures 0 < lead <= |s| && later == Newlines(s[lead..]) && |Newlines(s)| > 0 && later == Newlines(s)[1..]
  {
    lead := if s[0] == 0x0D && |s| > 1 && s[1] == 0x0A then 2 else 1;
    later := Newlines(s[lead..]);
  }

  lemma NoLineFeed(marker: Text)
    requires IsMarker(marker)
    ensures forall i :: 0 <= i < |marker| ==> marker[i] != 0x0A
  {
  }

  /** A response with the terminal marker on its last line ends with it. */
  lemma TerminalMarkerEnds(response: Text, marker: Text)
    requires IsMarker(marker) && HasTerminalMarker(response, marker)
    ensures MarkedOnceAtEnd(response, marker)
  {
    hide IsSpace, Occurrences, Newlines, Utf8.TrimEnd, Lines, MarkedAt, Trim;
    var unified := Newlines(response);
    var text := Utf8.TrimEnd(unified);
    var last := Lines(text)[|Lines(text)| - 1];
    LastLineEnds(text);
    TrimEndStops(unified);
    if last != [] { assert last[|last| - 1] == text[|text| - 1]; }
    TrimmedSuffix(last, marker);
    SuffixOfSuffix(text, last, marker);
    EndIsMarked(unified, marker);
    var j := MarkerBeforeNewlines(response, marker, |text| - |marker|);
    MarkedIsEnd(response, marker, j);
  }

  lemma {:induction false} UniformCovers(ids: seq<Text>, status: Status)
    ensures Ids(Uniform(ids, status)) == ids
  {
    if ids != [] { UniformCovers(ids[1..], status); }
  }

  /** Whatever is consumed answers to the current target, candidate and cycle and reports every
      criterion of the contract once and in order. */
  lemma ConsumedAnswers(p: Parts, response: Text, e: Expected)
    requires e.terminalMarker != [] && Distinct(e.criteria)
    ensures var r := Consume(p, response, e);
            && r.targetDigest == e.targetDigest && r.candidateDigest == e.candidateDigest && r.cycle == e.cycle
            && Covers(e.criteria, Ids(r.criteria))
  {
    hide DecodeEnvelope, MarkedOnceAtEnd, ExplicitlySettled, NaturalVerdict, SubstantiveText, EnvelopeText, Ascii, Ids,
      Uniform;
    UniformCovers(e.criteria, Pass);
    UniformCovers(e.criteria, Unknown);
  }

  /** Settlement safety: whatever the response says and whichever way it is read, a settled
      completion means that the response carries the terminal marker exactly once and at its end,
      that the review answers to the current target, candidate and cycle, that every criterion of
      the contract is reported once, in order and as passing, that nothing blocks, and that
      neither the transport was compacted nor the candidate blocked. */
  lemma SettledMeansSettled(p: Parts, prepared: Prepared, response: Text)
    requires IsMarker(prepared.expected.terminalMarker) && Distinct(prepared.expected.criteria)
    requires Complete(p, prepared, response).settled
    ensures var e, r := prepared.expected, Complete(p, prepared, response).review;
            && MarkedOnceAtEnd(response, e.terminalMarker)
            && r.targetDigest == e.targetDigest && r.candidateDigest == e.candidateDigest && r.cycle == e.cycle
            && Covers(e.criteria, Ids(r.criteria)) && AllPass(r.criteria)
            && NoBlocking(r.findings) && r.decision.Settled?
            && !prepared.transportCompacted && !prepared.candidateBlocked
  {
    hide DecodeEnvelope, MarkedOnceAtEnd, NaturalVerdict, SubstantiveText, EnvelopeText, Ascii, Ids, Uniform, Covers;
    var e := prepared.expected;
    ConsumedAnswers(p, response, e);
    if ParseEnvelope(p, response, e).Err? { TerminalMarkerEnds(response, e.terminalMarker); }
  }

  /** And exactly when a response settles: nothing stands against it outside the review, and the
      strict envelope evaluates as settled or, when there is none, the text says so explicitly. */
  lemma SettlesExactly(p: Parts, prepared: Prepared, response: Text)
    requires IsMarker(prepared.expected.terminalMarker)
    ensures var e := prepared.expected;
            Complete(p, prepared, response).settled <==>
            && !prepared.transportCompacted && !prepared.candidateBlocked
            && match ParseEnvelope(p, response, e)
               case Ok(review) => Evaluate(review)
               case Err(_) => ExplicitlySettled(response, e.terminalMarker)
  {
    hide DecodeEnvelope, MarkedOnceAtEnd, HasTerminalMarker, NaturalVerdict, SubstantiveText, EnvelopeText, Ascii, Ids;
  }

  /** Whatever withholds a settlement is handed back as something to act on: the review of a
      completion that the compacted transport or a blocked candidate holds back continues with a
      blocking finding and no passing criterion. */
  lemma WithheldIsActionable(p: Parts, prepared: Prepared, response: Text)
    requires prepared.expected.terminalMarker != []
    requires !Complete(p, prepared, response).settled && Evaluate(Consume(p, response, prepared.expected))
    ensures var r := Complete(p, prepared, response).review;
            && r.decision.Continue? && !NoBlocking(r.findings) && !Evaluate(r)
            && (forall i :: 0 <= i < |r.criteria| ==> !r.criteria[i].status.Pass?)
            && Ids(r.criteria) == Ids(Consume(p, response, prepared.expected).criteria)
  {
    hide Consume, Ascii;
    var r := Complete(p, prepared, response).review;
    assert r.findings[0].severity.Blocking?;
    UniformCovers(Ids(Consume(p, response, prepared.expected).criteria), Unknown);
  }
}
