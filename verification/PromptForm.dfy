/** What a review prompt consists of, paragraph by paragraph, what a compacted field keeps, and that the
    criteria in it are JSON for exactly those criteria (src/convergence.mjs, `buildChatGptPrompt`,
    `prepareChatGptReviewPrompt`, `compactUtf8`). */
module PromptForm {
  import opened Prelude
  import opened JsonText
  import JsonParser
  import JsonRepair
  import opened Utf8
  import opened Compaction

  // ---- cutting --------------------------------------------------------

  predicate High(u: Unit) {
    0xD800 <= u <= 0xDBFF
  }

  /** The cut fits, splits no pair, and no cut that fits and does not end in a high surrogate is longer;
      it ends in one itself only in front of another one. */
  predicate LongestCut(s: Text, n: nat, limit: nat) {
    && n <= |s| && ByteLength(s[..n]) <= limit
    && (forall m: nat :: m <= |s| && (m > 0 ==> !High(s[m - 1])) && ByteLength(s[..m]) <= limit ==> m <= n)
    && (n > 0 && High(s[n - 1]) ==> n < |s| && High(s[n]))
  }

  lemma CutExactly(s: Text, limit: nat)
    ensures LongestCut(s, |Prefix(s, limit)|, limit) && Prefix(s, limit) <= s
  {
    hide ByteLength;
    PrefixIsLongest(s, limit);
    CutIsMaximal(s, |s|, limit);
    forall m: nat | m <= |s| && (m > 0 ==> !High(s[m - 1])) ensures Trimmed(s, m) == m {}
  }

  /** What is left of a text that is cut: as much as fits beside the notice, without the white space at
      the end of it. */
  predicate Kept(value: Text, n: nat, room: nat) {
    exists m: nat :: LongestCut(value, m, room) && n <= m <= |value|
                     && (forall i :: n <= i < m ==> IsSpace(value[i])) && (n > 0 ==> !IsSpace(value[n - 1]))
  }

  lemma {:induction false} TrimEndExactly(s: Text)
    ensures var r := TrimEnd(s);
      r <= s && (forall i :: |r| <= i < |s| ==> IsSpace(s[i])) && (r != [] ==> !IsSpace(r[|r| - 1]))
    decreases |s|
  {
    if s != [] && IsSpace(s[|s| - 1]) { TrimEndExactly(s[..|s| - 1]); }
  }

  /** A text within the limit stays as it is; a longer one is what is kept of it and the notice. */
  lemma CompactExactly(value: Text, limit: nat, notice: Text)
    ensures var r := Compact(value, limit, notice);
      && r.originalBytes == ByteLength(value) && (r.truncated <==> ByteLength(value) > limit)
      && (ByteLength(value) <= limit ==> r.value == value)
      && (ByteLength(value) > limit ==>
            exists n: nat ::
              && n <= |value| && r.value == value[..n] + notice
              && Kept(value, n, if ByteLength(notice) <= limit then limit - ByteLength(notice) else 0))
  {
    hide ByteLength, Prefix, IsSpace;
    if ByteLength(value) > limit {
      var room := if limit >= ByteLength(notice) then limit - ByteLength(notice) else 0;
      var prefix := Prefix(value, room);
      CutExactly(value, room);
      TrimEndExactly(prefix);
      var n := |TrimEnd(prefix)|;
      assert Kept(value, n, room);
      assert TrimEnd(prefix) == value[..n];
    }
  }

  // ---- joining --------------------------------------------------------

  /** A joined list, from its end. */
  lemma {:induction false} JoinExactly(separator: Text, parts: seq<Text>, last: Text)
    ensures JoinWith(separator, []) == [] && JoinWith(separator, [last]) == last
    ensures parts != [] ==> JoinWith(separator, parts + [last]) == JoinWith(separator, parts) + separator + last
  {
    if parts != [] {
      assert (parts + [last])[1..] == parts[1..] + [last];
      JoinExactly(separator, parts[1..], last);
      if |parts| > 1 {
        var rest := JoinWith(separator, parts[1..]);
        assert parts[0] + (separator + (rest + separator + last)) == (parts[0] + (separator + rest)) + separator + last;
      } else {
        assert parts[0] + (separator + last) == parts[0] + separator + last;
      }
    }
  }

  // ---- the paragraphs -------------------------------------------------

  function RequirementLine(r: Requirement): Text {
    r.id + [0x3A, 0x20] + r.text
  }

  lemma {:induction false} RequirementLinesExactly(criteria: seq<Requirement>)
    ensures |RequirementLines(criteria)| == |criteria|
    ensures forall i :: 0 <= i < |criteria| ==> RequirementLines(criteria)[i] == RequirementLine(criteria[i])
  {
    if criteria != [] {
      RequirementLinesExactly(criteria[1..]);
      assert criteria[0].id + (COLON_SPACE + criteria[0].text) == RequirementLine(criteria[0]);
    }
  }

  /** The prompt is these paragraphs, in this order, with an empty line between any two of them. */
  lemma PromptExactly(w: Wording, contract: Contract, context: Option<Text>, c: Candidate, noted: bool)
    ensures Prompt(w, contract, context, c, noted) == JoinWith([0x0A, 0x0A],
      w.opening
      + [contract.target, w.contractLabel, JoinWith([0x0A], RequirementLines(contract.criteria))]
      + (if context == None || context == Some([]) then [] else [w.contextLabel, context.value])
      + [w.summaryLabel, c.summary, w.statusLabel + c.status,
         w.blockersLabel, if |c.blockers| > 0 then JoinWith([0x0A], c.blockers) else w.noBlockers,
         w.evidenceLabel, CriteriaText(c.criteria)]
      + (if noted then [w.noteLabel, w.note] else [])
      + [w.packetLabel, c.packet]
      + w.closing)
  {
    hide JoinWith, CriteriaText, RequirementLines;
    var a, b, d := ContractPart(w, contract), ContextPart(w, context), CandidatePart(w, c);
    var e := EvidencePart(w, c, noted);
    var context' := if context == None || context == Some([]) then [] else [w.contextLabel, context.value];
    var note := if noted then [w.noteLabel, w.note] else [];
    var seven := [w.summaryLabel, c.summary, w.statusLabel + c.status,
      w.blockersLabel, if |c.blockers| > 0 then JoinWith([0x0A], c.blockers) else w.noBlockers,
      w.evidenceLabel, CriteriaText(c.criteria)];
    assert a == [contract.target, w.contractLabel, JoinWith([0x0A], RequirementLines(contract.criteria))];
    assert b == context' && d + e == seven + note;
    Paragraphs(w.opening, a, b, d, e, [w.packetLabel], c.packet, w.closing);
    assert w.opening + a + b + (d + e) + [w.packetLabel, c.packet] + w.closing ==
           w.opening + a + context' + seven + note + [w.packetLabel, c.packet] + w.closing;
  }

  lemma Paragraphs(o: seq<Text>, a: seq<Text>, b: seq<Text>, d: seq<Text>, e: seq<Text>, l: seq<Text>, p: Text,
                   z: seq<Text>)
    requires |l| == 1
    ensures o + (a + (b + (d + (e + l)))) + [p] + z == o + a + b + (d + e) + [l[0], p] + z
  {
    assert l + [p] == [l[0], p];
  }

  // ---- the compacted fields -------------------------------------------

  /** `Compact` of a field with its own notice. */
  predicate IsShort(w: Wording, value: Text, limit: nat, name: Text, short: Text) {
    short == Compact(value, limit, w.notice(value, name)).value
  }

  lemma {:induction false} RequirementsExactly(w: Wording, l: Labels, criteria: seq<Requirement>, i: nat)
    requires i < |criteria|
    ensures var r := ShortRequirements(w, l, criteria)[i];
      r.id == criteria[i].id && IsShort(w, criteria[i].text, 1_024, l.criterion(criteria[i].id), r.text)
  {
    hide Compact;
    if i > 0 { RequirementsExactly(w, l, criteria[1..], i - 1); }
  }

  lemma {:induction false} BlockersExactly(w: Wording, l: Labels, blockers: seq<Text>, first: nat, i: nat)
    requires i < |blockers|
    ensures IsShort(w, blockers[i], 512, l.blocker(first + i), ShortBlockers(w, l, blockers, first)[i])
  {
    hide Compact;
    if i > 0 { BlockersExactly(w, l, blockers[1..], first + 1, i - 1); }
  }

  lemma {:induction false} EvidenceExactly(w: Wording, l: Labels, criteria: seq<Criterion>, i: nat)
    requires i < |criteria|
    ensures var r := ShortCriteria(w, l, criteria)[i];
      && r.id == criteria[i].id && r.status == criteria[i].status
      && IsShort(w, criteria[i].evidence, 1_024, l.evidence(criteria[i].id), r.evidence)
  {
    hide Compact;
    if i > 0 { EvidenceExactly(w, l, criteria[1..], i - 1); }
  }

  /** Which fields of a prompt that is too long are compacted, and to how many bytes each. */
  lemma FieldsExactly(w: Wording, l: Labels, contract: Contract, c: Candidate)
    ensures var k, d := ShortContract(w, l, contract), ShortCandidate(w, l, c);
      && IsShort(w, contract.target, 8_192, l.target, k.target) && |k.criteria| == |contract.criteria|
      && (forall i :: 0 <= i < |contract.criteria| ==>
            && k.criteria[i].id == contract.criteria[i].id
            && IsShort(w, contract.criteria[i].text, 1_024, l.criterion(contract.criteria[i].id), k.criteria[i].text))
      && IsShort(w, c.summary, 4_096, l.summary, d.summary) && d.status == c.status && d.packet == w.placeholder
      && |d.blockers| == |c.blockers| && |d.criteria| == |c.criteria|
      && (forall i :: 0 <= i < |c.blockers| ==> IsShort(w, c.blockers[i], 512, l.blocker(i + 1), d.blockers[i]))
      && (forall i :: 0 <= i < |c.criteria| ==>
            && d.criteria[i].id == c.criteria[i].id && d.criteria[i].status == c.criteria[i].status
            && IsShort(w, c.criteria[i].evidence, 1_024, l.evidence(c.criteria[i].id), d.criteria[i].evidence))
  {
    hide Compact, ShortRequirements, ShortBlockers, ShortCriteria, IsShort;
    FieldIsShort(w, contract.target, 8_192, l.target);
    FieldIsShort(w, c.summary, 4_096, l.summary);
    forall i | 0 <= i < |contract.criteria|
      ensures var r := ShortRequirements(w, l, contract.criteria)[i];
        r.id == contract.criteria[i].id
        && IsShort(w, contract.criteria[i].text, 1_024, l.criterion(contract.criteria[i].id), r.text)
    {
      RequirementsExactly(w, l, contract.criteria, i);
    }
    forall i | 0 <= i < |c.blockers|
      ensures IsShort(w, c.blockers[i], 512, l.blocker(i + 1), ShortBlockers(w, l, c.blockers, 1)[i])
    {
      BlockersExactly(w, l, c.blockers, 1, i);
    }
    forall i | 0 <= i < |c.criteria|
      ensures var r := ShortCriteria(w, l, c.criteria)[i];
        && r.id == c.criteria[i].id && r.status == c.criteria[i].status
        && IsShort(w, c.criteria[i].evidence, 1_024, l.evidence(c.criteria[i].id), r.evidence)
    {
      EvidenceExactly(w, l, c.criteria, i);
    }
  }

  lemma FieldIsShort(w: Wording, value: Text, limit: nat, name: Text)
    ensures IsShort(w, value, limit, name, Short(w, value, limit, name))
  {
  }
}
