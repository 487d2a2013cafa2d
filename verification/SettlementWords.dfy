/** When a review settles, stated over the text of the response alone: which characters spell a
    verdict, where they must stand, and what each of them makes of the review
    (src/convergence.mjs, `consumeNaturalLanguageReview`, `completeAgentReview`). */
module SettlementWords {
  import opened Prelude
  import opened JsonText
  import JsonRepair
  import Utf8
  import opened Settlement

  const LF: Unit := 0x0A
  const CR: Unit := 0x0D

  /** The units of "EGO_CHAT_DECISION:", "SETTLED", "CONTINUE" and "BLOCKED". */
  const LEAD: Text :=
    [0x45, 0x47, 0x4F, 0x5F, 0x43, 0x48, 0x41, 0x54, 0x5F, 0x44, 0x45, 0x43, 0x49, 0x53, 0x49, 0x4F, 0x4E, 0x3A]
  const SETTLED_WORD: Text := [0x53, 0x45, 0x54, 0x54, 0x4C, 0x45, 0x44]
  const CONTINUE_WORD: Text := [0x43, 0x4F, 0x4E, 0x54, 0x49, 0x4E, 0x55, 0x45]
  const BLOCKED_WORD: Text := [0x42, 0x4C, 0x4F, 0x43, 0x4B, 0x45, 0x44]

  /** The texts are equal up to the case of the letters A to Z. */
  predicate SameLetters(a: Text, b: Text) {
    && |a| == |b|
    && forall i :: 0 <= i < |a| ==> a[i] == b[i] || (0x41 <= b[i] <= 0x5A && a[i] == b[i] + 0x20)
  }

  predicate IsVerdict(v: Text, word: Text, gap: Text) {
    AllSpace(gap) && SameLetters(v, LEAD + gap + word)
  }

  // ---- the words ------------------------------------------------------

  lemma {:induction false} UpperIs(s: Text, i: nat)
    requires i < |s|
    ensures Upper(s)[i] == if 0x61 <= s[i] <= 0x7A then s[i] - 0x20 else s[i]
  {
    if i > 0 { UpperIs(s[1..], i - 1); }
  }

  lemma WordsAreSpelled()
    ensures Ascii("EGO_CHAT_DECISION:") == LEAD
    ensures Ascii("SETTLED") == SETTLED_WORD && Ascii("CONTINUE") == CONTINUE_WORD && Ascii("BLOCKED") == BLOCKED_WORD
  {
    hide Ascii;
    Spelled("EGO_CHAT_DECISION:", LEAD);
    Spelled("SETTLED", SETTLED_WORD);
    Spelled("CONTINUE", CONTINUE_WORD);
    Spelled("BLOCKED", BLOCKED_WORD);
  }

  lemma Spelled(s: string, t: Text)
    requires |s| == |t| && forall i :: 0 <= i < |s| ==> (s[i] as int) % 0x80 == t[i]
    ensures Ascii(s) == t
  {
    hide Ascii;
    AsciiIs(s);
  }

  lemma {:induction false} AsciiIs(s: string)
    ensures |Ascii(s)| == |s| && forall i :: 0 <= i < |s| ==> Ascii(s)[i] == (s[i] as int) % 0x80
  {
    if s != "" { AsciiIs(s[1..]); }
  }

  /** Upper-casing gives a text without lower-case letters exactly from the texts with its letters. */
  lemma UpperExactly(v: Text, t: Text)
    requires forall i :: 0 <= i < |t| ==> !(0x61 <= t[i] <= 0x7A)
    ensures Upper(v) == t <==> SameLetters(v, t)
  {
    forall i | 0 <= i < |v| ensures Upper(v)[i] == if 0x61 <= v[i] <= 0x7A then v[i] - 0x20 else v[i] { UpperIs(v, i); }
    if SameLetters(v, t) {
      forall i | 0 <= i < |v| ensures Upper(v)[i] == t[i] {}
    }
  }

  // ---- trimming -------------------------------------------------------

  lemma TrimStartStep(s: Text)
    ensures TrimStart(s) == if s != [] && IsSpace(s[0]) then TrimStart(s[1..]) else s
  {
  }

  lemma {:induction false} TrimStartStops(s: Text)
    ensures forall i :: 0 <= i < |s| - |TrimStart(s)| ==> IsSpace(s[i])
    ensures TrimStart(s) != [] ==> !IsSpace(TrimStart(s)[0])
    decreases |s|
  {
    hide IsSpace, TrimStart;
    TrimStartStep(s);
    if s != [] && IsSpace(s[0]) {
      TrimStartStops(s[1..]);
      assert forall i :: 0 < i < |s| ==> s[i] == s[1..][i - 1];
    }
  }

  lemma TrimStartSplits(s: Text) returns (w: Text)
    ensures AllSpace(w) && s == w + TrimStart(s)
    ensures TrimStart(s) != [] ==> !IsSpace(TrimStart(s)[0])
  {
    hide IsSpace, TrimStart;
    TrimStartStops(s);
    w := s[..|s| - |TrimStart(s)|];
  }

  lemma {:induction false} TrimStartIs(w: Text, t: Text)
    requires AllSpace(w) && (t != [] ==> !IsSpace(t[0]))
    ensures TrimStart(w + t) == t
  {
    if w == [] {
      assert w + t == t;
    } else {
      assert (w + t)[1..] == w[1..] + t;
      TrimStartIs(w[1..], t);
    }
  }

  lemma TrimSplits(s: Text) returns (a: Text, b: Text)
    ensures AllSpace(a) && AllSpace(b) && s == a + Trim(s) + b
  {
    hide IsSpace, TrimStart, Utf8.TrimEnd;
    var t := Utf8.TrimEnd(s);
    TrimEndStops(s);
    b := s[|t|..];
    a := TrimStartSplits(t);
    assert s == t + b;
  }

  lemma TrimIs(a: Text, t: Text, b: Text)
    requires AllSpace(a) && AllSpace(b) && t != [] && !IsSpace(t[0]) && !IsSpace(t[|t| - 1])
    ensures Trim(a + t + b) == t
  {
    var s := a + t + b;
    assert s[|a + t|..] == b && s[|a + t| - 1] == t[|t| - 1];
    TrimEndIs(s, |a + t|);
    assert s[..|a + t|] == a + t;
    TrimStartIs(a, t);
  }

  /** The word of each verdict. */
  function Word(d: Decision): Text {
    match d
    case Settled => SETTLED_WORD
    case Continue => CONTINUE_WORD
    case Blocked => BLOCKED_WORD
  }

  /** A verdict stands alone on its line. */
  predicate VerdictLine(line: Text, d: Decision, w: Text, v: Text, gap: Text, x: Text) {
    line == w + v + x && AllSpace(w) && AllSpace(x) && IsVerdict(v, Word(d), gap)
  }

  lemma SpelledUpper(t: Text, gap: Text, d: Decision)
    requires AllSpace(gap) && t == LEAD + gap + Word(d)
    ensures forall i :: 0 <= i < |t| ==> !(0x61 <= t[i] <= 0x7A)
  {
  }

  lemma {:induction false} VerdictHasEnds(v: Text, d: Decision, gap: Text)
    requires IsVerdict(v, Word(d), gap)
    ensures |v| > 18 && !IsSpace(v[0]) && !IsSpace(v[|v| - 1])
  {
    var t := LEAD + gap + Word(d);
    assert t[0] == 0x45 && t[|t| - 1] == Word(d)[|Word(d)| - 1];
  }

  lemma VerdictUpper(line: Text, d: Decision) returns (gap: Text)
    requires VerdictOf(line) == Some(d)
    ensures AllSpace(gap) && Upper(Trim(line)) == LEAD + gap + Word(d)
  {
    hide IsSpace, Upper, Ascii, Trim, TrimStart;
    WordsAreSpelled();
    var t := Upper(Trim(line));
    gap := TrimStartSplits(t[|LEAD|..]);
    assert t == t[..|LEAD|] + t[|LEAD|..];
    assert t == t[..|LEAD|] + gap + TrimStart(t[|LEAD|..]);
  }

  lemma VerdictRead(line: Text, d: Decision) returns (w: Text, v: Text, gap: Text, x: Text)
    requires VerdictOf(line) == Some(d)
    ensures VerdictLine(line, d, w, v, gap, x)
  {
    hide IsSpace, Upper, Ascii, Trim, VerdictOf, SameLetters, LEAD, Word;
    w, x := TrimSplits(line);
    v := Trim(line);
    gap := VerdictUpper(line, d);
    var t := LEAD + gap + Word(d);
    SpelledUpper(t, gap, d);
    UpperExactly(v, t);
  }

  lemma VerdictMeant(line: Text, d: Decision, w: Text, v: Text, gap: Text, x: Text)
    requires VerdictLine(line, d, w, v, gap, x)
    ensures VerdictOf(line) == Some(d)
  {
    hide IsSpace, Upper, Ascii, Trim, VerdictOf, SameLetters, LEAD, Word;
    VerdictHasEnds(v, d, gap);
    TrimIs(w, v, x);
    var t := LEAD + gap + Word(d);
    SpelledUpper(t, gap, d);
    UpperExactly(v, t);
    VerdictSpelled(line, d, gap);
  }

  lemma VerdictSpelled(line: Text, d: Decision, gap: Text)
    requires AllSpace(gap) && Upper(Trim(line)) == LEAD + gap + Word(d)
    ensures VerdictOf(line) == Some(d)
  {
    hide IsSpace, Upper, Ascii, Trim, LEAD, Word, TrimStart, SETTLED_WORD, CONTINUE_WORD, BLOCKED_WORD;
    WordsAreSpelled();
    var t := LEAD + gap + Word(d);
    assert t == LEAD + (gap + Word(d));
    assert t[..|LEAD|] == LEAD && t[|LEAD|..] == gap + Word(d);
    WordStarts(d);
    TrimStartIs(gap, Word(d));
    WordsDiffer(d);
  }

  lemma WordsDiffer(d: Decision)
    ensures Word(d) == SETTLED_WORD <==> d == Settled
    ensures Word(d) == CONTINUE_WORD <==> d == Continue
    ensures Word(d) == BLOCKED_WORD <==> d == Blocked
  {
    WordStarts(d);
    WordStarts(Settled);
    WordStarts(Continue);
    WordStarts(Blocked);
  }

  lemma WordStarts(d: Decision)
    ensures |Word(d)| > 0 && !IsSpace(Word(d)[0])
    ensures forall e: Decision :: Word(e) == Word(d) ==> e == d
  {
    assert SETTLED_WORD[0] != CONTINUE_WORD[0] && SETTLED_WORD[0] != BLOCKED_WORD[0]
      && CONTINUE_WORD[0] != BLOCKED_WORD[0];
  }

  // ---- lines ----------------------------------------------------------

  predicate IsBreak(u: Unit) {
    u == LF || u == CR
  }

  predicate OneLine(s: Text) {
    forall i :: 0 <= i < |s| ==> !IsBreak(s[i])
  }

  predicate Breaks(s: Text) {
    exists i :: 0 <= i < |s| && IsBreak(s[i])
  }

  /** Nothing, or whole lines. */
  predicate WholeLines(s: Text) {
    s != [] ==> IsBreak(s[|s| - 1])
  }

  predicate NoReturn(s: Text) {
    forall i :: 0 <= i < |s| ==> s[i] != CR
  }

  lemma {:induction false} LinesJoin(s: Text)
    ensures JoinLines(Lines(s)) == s
    ensures forall i :: 0 <= i < |Lines(s)| ==> LF !in Lines(s)[i]
    decreases |s|
  {
    hide Lines, JoinLines;
    if s == [] {
      LinesOfOne(s);
      JoinOne(s);
    } else {
      var r := Lines(s[1..]);
      LinesJoin(s[1..]);
      LinesStep(s[0], s[1..]);
      assert s == [s[0]] + s[1..];
      if s[0] == LF { JoinStep([], r); } else { JoinPrefix(s[0], r); }
    }
  }

  lemma JoinStep(line: Text, rest: seq<Text>)
    requires rest != []
    ensures JoinLines([line] + rest) == line + ([LF] + JoinLines(rest))
  {
    assert ([line] + rest)[1..] == rest;
  }

  lemma JoinPrefix(u: Unit, lines: seq<Text>)
    requires lines != []
    ensures JoinLines([[u] + lines[0]] + lines[1..]) == [u] + JoinLines(lines)
  {
    var more := [[u] + lines[0]] + lines[1..];
    assert more[1..] == lines[1..];
    if |lines| > 1 {
      assert [u] + lines[0] + ([LF] + JoinLines(lines[1..])) == [u] + (lines[0] + ([LF] + JoinLines(lines[1..])));
    }
  }

  lemma {:induction false} LinesOfOne(s: Text)
    requires LF !in s
    ensures Lines(s) == [s]
    decreases |s|
  {
    if s != [] {
      assert s == [s[0]] + s[1..];
      LinesOfOne(s[1..]);
    }
  }

  lemma LinesStep(u: Unit, s: Text)
    ensures Lines([u] + s) == if u == LF then [[]] + Lines(s) else [[u] + Lines(s)[0]] + Lines(s)[1..]
  {
    assert ([u] + s)[1..] == s;
  }

  lemma {:induction false} LinesSplit(a: Text, b: Text)
    ensures Lines(a + [LF] + b) == Lines(a) + Lines(b)
    decreases |a|
  {
    hide Lines;
    if a == [] {
      LinesOfOne([]);
      LinesStep(LF, b);
      assert [] + [LF] + b == [LF] + b;
    } else {
      LinesSplit(a[1..], b);
      LinesStep(a[0], a[1..] + [LF] + b);
      LinesStep(a[0], a[1..]);
      assert [a[0]] + (a[1..] + [LF] + b) == a + [LF] + b && [a[0]] + a[1..] == a;
      assert (Lines(a[1..]) + Lines(b))[1..] == Lines(a[1..])[1..] + Lines(b);
    }
  }

  lemma {:induction false} JoinSplit(a: seq<Text>, b: seq<Text>)
    requires a != [] && b != []
    ensures JoinLines(a + b) == JoinLines(a) + [LF] + JoinLines(b)
  {
    assert (a + b)[1..] == a[1..] + b;
    if |a| > 1 { JoinSplit(a[1..], b); }
  }

  predicate AllBlank(lines: seq<Text>) {
    forall i :: 0 <= i < |lines| ==> AllSpace(lines[i])
  }

  lemma BlankExactly(line: Text)
    ensures Trim(line) == [] <==> AllSpace(line)
  {
    hide IsSpace, TrimStart, Utf8.TrimEnd;
    if Trim(line) == [] {
      var a, b := TrimSplits(line);
      assert line == a + b;
    } else {
      var t := Utf8.TrimEnd(line);
      TrimEndStops(line);
      TrimStartOfNothing();
      NotBlank(line, |t| - 1);
    }
  }

  lemma TrimStartOfNothing()
    ensures TrimStart([]) == []
  {
  }

  lemma NotBlank(s: Text, k: nat)
    requires k < |s| && !IsSpace(s[k])
    ensures !AllSpace(s)
  {
  }

  lemma {:induction false} BlankTailExactly(lines: seq<Text>)
    ensures var kept := WithoutBlankTail(lines);
      && kept <= lines && AllBlank(lines[|kept|..])
      && (kept != [] ==> !AllSpace(kept[|kept| - 1]))
    decreases |lines|
  {
    hide Trim, AllSpace;
    if lines != [] {
      var init, last := lines[..|lines| - 1], lines[|lines| - 1];
      BlankExactly(last);
      if Trim(last) == [] {
        BlankTailExactly(init);
        var kept := WithoutBlankTail(init);
        assert lines[|kept|..] == init[|kept|..] + [last];
      }
    }
  }

  lemma {:induction false} BlankTailIs(head: seq<Text>, line: Text, blanks: seq<Text>)
    requires !AllSpace(line) && AllBlank(blanks)
    ensures WithoutBlankTail(head + [line] + blanks) == head + [line]
    decreases |blanks|
  {
    hide Trim, AllSpace;
    var lines := head + [line] + blanks;
    BlankExactly(lines[|lines| - 1]);
    if blanks == [] {
      assert lines == head + [line];
    } else {
      assert lines[..|lines| - 1] == head + [line] + blanks[..|blanks| - 1];
      BlankTailIs(head, line, blanks[..|blanks| - 1]);
    }
  }

  lemma {:induction false} BlankJoined(lines: seq<Text>)
    requires AllBlank(lines)
    ensures AllSpace(JoinLines(lines))
  {
    if |lines| > 1 { BlankJoined(lines[1..]); }
  }

  /** Blank text in front of a word that ends the text: blank lines, and the word on a line of its
      own. */
  lemma {:induction false} LinesOfBlankThen(y: Text, word: Text) returns (blanks: seq<Text>, z: Text)
    requires AllSpace(y) && LF !in word
    ensures AllBlank(blanks) && AllSpace(z) && Lines(y + word) == blanks + [z + word]
    decreases |y|
  {
    if y == [] {
      assert y + word == word;
      LinesOfOne(word);
      blanks, z := [], [];
      assert [] + word == word;
    } else {
      assert (y + word)[1..] == y[1..] + word && (y + word)[0] == y[0];
      var rest, z0 := LinesOfBlankThen(y[1..], word);
      if y[0] == LF {
        blanks, z := [[]] + rest, z0;
      } else if rest == [] {
        blanks, z := [], [y[0]] + z0;
        assert [y[0]] + (z0 + word) == z + word;
      } else {
        blanks, z := [[y[0]] + rest[0]] + rest[1..], z0;
        assert rest + [z0 + word] == [rest[0]] + (rest[1..] + [z0 + word]);
      }
    }
  }

  // ---- where a verdict stands -----------------------------------------

  /** Where things stand in a text: lines, the line of the verdict, blank text that ends that line, and
      what closes the text. */
  datatype Layout = Layout(before: Text, w: Text, v: Text, gap: Text, between: Text, tail: Text)

  /** The text ends with the verdict on a line of its own and then the closing word on a line of its
      own, or just with the verdict when there is no closing word. */
  predicate Stands(s: Text, closing: Text, d: Decision, l: Layout) {
    && s == l.before + l.w + l.v + l.between + closing + l.tail
    && WholeLines(l.before) && OneLine(l.w) && OneLine(l.v)
    && AllSpace(l.w) && AllSpace(l.between) && AllSpace(l.tail)
    && IsVerdict(l.v, Word(d), l.gap)
    && (closing != [] ==> Breaks(l.between))
  }

  /** The text ends with the word on a line of its own. */
  predicate EndsOnLine(s: Text, closing: Text, before: Text, w: Text, tail: Text) {
    s == before + w + closing + tail && WholeLines(before) && OneLine(w) && AllSpace(w) && AllSpace(tail)
  }

  lemma {:induction false} LastLineSplits(t: Text) returns (before: Text)
    ensures var lines := Lines(t);
      && t == before + lines[|lines| - 1] && (before != [] ==> before[|before| - 1] == LF)
      && (|lines| == 1 <==> before == [])
      && (|lines| > 1 ==> before == JoinLines(lines[..|lines| - 1]) + [LF])
  {
    LinesJoin(t);
    var lines := Lines(t);
    if |lines| == 1 {
      before := [];
      assert [] + lines[0] == lines[0];
    } else {
      var init, last := lines[..|lines| - 1], lines[|lines| - 1];
      assert lines == init + [last];
      JoinSplit(init, [last]);
      before := JoinLines(init) + [LF];
    }
  }

  function Headed(init: seq<Text>): Text {
    if init == [] then [] else JoinLines(init) + [LF]
  }

  function Followed(rest: seq<Text>): Text {
    if rest == [] then [] else [LF] + JoinLines(rest)
  }

  lemma JoinAround(init: seq<Text>, line: Text, rest: seq<Text>)
    ensures JoinLines(init + [line] + rest) == Headed(init) + line + Followed(rest)
  {
    hide JoinLines;
    JoinOne(line);
    if init != [] { JoinSplit(init, [line]); } else { assert init + [line] == [line]; }
    if rest != [] { JoinSplit(init + [line], rest); } else { assert init + [line] + rest == init + [line]; }
  }

  lemma JoinOne(line: Text)
    ensures JoinLines([line]) == line
  {
  }

  lemma {:induction false} TrimEndSplits(s: Text) returns (b: Text)
    ensures AllSpace(b) && s == Utf8.TrimEnd(s) + b
    ensures LF !in s ==> LF !in Utf8.TrimEnd(s)
  {
    TrimEndStops(s);
    b := s[|Utf8.TrimEnd(s)|..];
  }

  lemma LineHasNoBreak(lines: seq<Text>, k: nat, n: Text, before: Text, after: Text)
    requires k < |lines| && LF !in lines[k] && NoReturn(n) && n == before + lines[k] + after
    ensures OneLine(lines[k])
  {
    forall i | 0 <= i < |lines[k]| ensures !IsBreak(lines[k][i]) {
      assert n[|before| + i] == lines[k][i];
      assert lines[k][i] in lines[k];
    }
  }

  lemma PartOfLine(a: Text, b: Text, c: Text)
    requires OneLine(a + b + c)
    ensures OneLine(a) && OneLine(b)
  {
    forall i | 0 <= i < |a| ensures !IsBreak(a[i]) { assert (a + b + c)[i] == a[i]; }
    forall i | 0 <= i < |b| ensures !IsBreak(b[i]) { assert (a + b + c)[|a| + i] == b[i]; }
  }

  lemma HeadedIsWhole(init: seq<Text>)
    ensures WholeLines(Headed(init))
  {
  }

  /** The closing word stands on the last line. */
  lemma ClosingRead(n: Text, closing: Text) returns (before: Text, w: Text, tail: Text)
    requires IsMarker(closing) && NoReturn(n)
    requires var lines := Lines(Utf8.TrimEnd(n)); Trim(lines[|lines| - 1]) == closing
    ensures EndsOnLine(n, closing, before, w, tail)
  {
    hide IsSpace, Trim, Utf8.TrimEnd, Lines, JoinLines;
    var t := Utf8.TrimEnd(n);
    var b := TrimEndSplits(n);
    var lines := Lines(t);
    var last := |lines| - 1;
    LinesJoin(t);
    assert lines == lines[..last] + [lines[last]] + [];
    JoinAround(lines[..last], lines[last], []);
    before := Headed(lines[..last]);
    HeadedIsWhole(lines[..last]);
    assert n == before + lines[last] + b;
    LineHasNoBreak(lines, last, n, before, b);
    var a, c := TrimSplits(lines[last]);
    PartOfLine(a, closing, c);
    w, tail := a, c + b;
  }

  lemma OneLineHasNoFeed(s: Text)
    ensures OneLine(s) ==> LF !in s
  {
  }

  /** Lines in front of a line. */
  lemma LinesAfterWhole(before: Text, line: Text) returns (head: seq<Text>)
    requires WholeLines(before) && NoReturn(before) && LF !in line
    ensures Lines(before + line) == head + [line] && Headed(head) == before
  {
    if before == [] {
      assert before + line == line;
      LinesOfOne(line);
      head := [];
    } else {
      var p := before[..|before| - 1];
      assert before + line == p + [LF] + line;
      LinesSplit(p, line);
      LinesOfOne(line);
      LinesJoin(p);
      head := Lines(p);
    }
  }

  lemma ClosingMeant(n: Text, closing: Text, before: Text, w: Text, tail: Text)
    requires IsMarker(closing) && NoReturn(n) && EndsOnLine(n, closing, before, w, tail)
    ensures var lines := Lines(Utf8.TrimEnd(n)); Trim(lines[|lines| - 1]) == closing
  {
    hide IsSpace, Trim, Utf8.TrimEnd, Lines;
    var t := before + w + closing;
    assert n[|t|..] == tail && n[|t| - 1] == closing[|closing| - 1] && n[..|t|] == t;
    TrimEndIs(n, |t|);
    assert before == n[..|before|];
    NoLineFeed(closing);
    OneLineHasNoFeed(w);
    assert t == before + (w + closing);
    var head := LinesAfterWhole(before, w + closing);
    TrimIs(w, closing, []);
    assert w + closing + [] == w + closing;
  }

  // ---- reading a verdict ----------------------------------------------

  /** The lines in front of the closing word, or all lines when there is none. */
  function Body(n: Text, closing: Text): seq<Text> {
    var lines := Lines(Utf8.TrimEnd(n));
    WithoutBlankTail(if closing != [] then lines[..|lines| - 1] else lines)
  }

  lemma LineIsVerdict(n: Text, before: Text, line: Text, between: Text, closing: Text, tail: Text, d: Decision)
    returns (l: Layout)
    requires n == before + line + between + closing + tail && WholeLines(before) && OneLine(line)
    requires AllSpace(between) && AllSpace(tail) && VerdictOf(line) == Some(d)
    requires closing != [] ==> Breaks(between)
    ensures Stands(n, closing, d, l)
  {
    hide IsSpace, VerdictOf, IsVerdict, WholeLines;
    var w, v, gap, x := VerdictRead(line, d);
    PartOfLine(w, v, x);
    l := Layout(before, w, v, gap, x + between, tail);
    assert before + (w + v + x) + between == before + w + v + (x + between);
    if closing != [] {
      var i :| 0 <= i < |between| && IsBreak(between[i]);
      assert l.between[|x| + i] == between[i];
    }
  }

  lemma FollowedBlanks(blanks: seq<Text>)
    requires AllBlank(blanks)
    ensures AllSpace(Followed(blanks)) && AllSpace(Headed(blanks))
  {
    BlankJoined(blanks);
  }

  lemma OpenVerdictRead(n: Text, d: Decision) returns (l: Layout)
    requires NoReturn(n) && Body(n, []) != []
    requires var body := Body(n, []); VerdictOf(body[|body| - 1]) == Some(d)
    ensures Stands(n, [], d, l)
  {
    hide IsSpace, Utf8.TrimEnd, Lines, JoinLines, VerdictOf, Stands, WithoutBlankTail;
    var b := TrimEndSplits(n);
    var lines, body := Lines(Utf8.TrimEnd(n)), Body(n, []);
    LinesJoin(Utf8.TrimEnd(n));
    BlankTailExactly(lines);
    var k := |body| - 1;
    var init, line, blanks := lines[..k], lines[k], lines[|body|..];
    assert lines == init + [line] + blanks;
    JoinAround(init, line, blanks);
    FollowedBlanks(blanks);
    HeadedIsWhole(init);
    assert n == Headed(init) + line + (Followed(blanks) + b);
    LineHasNoBreak(lines, k, n, Headed(init), Followed(blanks) + b);
    assert n == Headed(init) + line + Followed(blanks) + [] + b;
    l := LineIsVerdict(n, Headed(init), line, Followed(blanks), [], b, d);
  }

  /** The text of a line, blank lines and a last line. */
  lemma JoinedLayout(init: seq<Text>, line: Text, blanks: seq<Text>, last: Text)
    ensures JoinLines(init + [line] + (blanks + [last])) == Headed(init) + line + ([LF] + Headed(blanks) + last)
  {
    hide JoinLines;
    JoinAround(init, line, blanks + [last]);
    assert blanks + [last] == blanks + [last] + [];
    JoinAround(blanks, last, []);
    assert [LF] + (Headed(blanks) + last) == [LF] + Headed(blanks) + last;
  }

  lemma LastLineCloses(line: Text, closing: Text, before: Text, b: Text) returns (a: Text, tail: Text)
    requires Trim(line) == closing && AllSpace(b)
    ensures AllSpace(a) && AllSpace(tail) && before + line + b == before + a + closing + tail
  {
    hide IsSpace, Trim;
    var x, c := TrimSplits(line);
    a, tail := x, c + b;
  }

  lemma ClosedVerdictRead(n: Text, closing: Text, d: Decision) returns (l: Layout)
    requires IsMarker(closing) && NoReturn(n) && Body(n, closing) != []
    requires var lines := Lines(Utf8.TrimEnd(n)); Trim(lines[|lines| - 1]) == closing
    requires var body := Body(n, closing); VerdictOf(body[|body| - 1]) == Some(d)
    ensures Stands(n, closing, d, l)
  {
    hide IsSpace, Utf8.TrimEnd, Lines, JoinLines, VerdictOf, Stands, WithoutBlankTail, Trim, AllSpace, OneLine,
      NoReturn, Headed, WholeLines;
    var b := TrimEndSplits(n);
    var lines, body := Lines(Utf8.TrimEnd(n)), Body(n, closing);
    var last, k := |lines| - 1, |body| - 1;
    LinesJoin(Utf8.TrimEnd(n));
    BlankTailExactly(lines[..last]);
    var init, line, blanks := lines[..k], lines[k], lines[|body|..last];
    assert blanks == lines[..last][|body|..];
    assert lines == init + [line] + (blanks + [lines[last]]);
    JoinedLayout(init, line, blanks, lines[last]);
    var head, feed := Headed(init), [LF] + Headed(blanks);
    assert n == head + line + feed + lines[last] + b;
    assert n == head + line + (feed + lines[last] + b);
    LineHasNoBreak(lines, k, n, head, feed + lines[last] + b);
    HeadedIsWhole(init);
    var a, tail := LastLineCloses(lines[last], closing, head + line + feed, b);
    FeedAndBlanks(blanks, a);
    var between := feed + a;
    assert n == head + line + between + closing + tail;
    l := LineIsVerdict(n, head, line, between, closing, tail, d);
  }

  lemma FeedAndBlanks(blanks: seq<Text>, a: Text)
    requires AllBlank(blanks) && AllSpace(a)
    ensures AllSpace([LF] + Headed(blanks) + a) && Breaks([LF] + Headed(blanks) + a)
  {
    hide IsSpace;
    FeedIsSpace();
    FollowedBlanks(blanks);
    assert ([LF] + Headed(blanks) + a)[0] == LF;
  }

  lemma FeedIsSpace()
    ensures IsSpace(LF) && IsSpace(CR)
  {
  }

  // ---- meaning a verdict ----------------------------------------------

  lemma {:induction false} FirstFeed(s: Text) returns (x: Text, y: Text)
    requires LF in s
    ensures s == x + [LF] + y && LF !in x
  {
    if s[0] == LF {
      x, y := [], s[1..];
    } else {
      var x0;
      x0, y := FirstFeed(s[1..]);
      x := [s[0]] + x0;
    }
  }

  lemma TrimmedOff(t: Text, b: Text)
    requires t != [] && !IsSpace(t[|t| - 1]) && AllSpace(b)
    ensures Utf8.TrimEnd(t + b) == t
  {
    hide IsSpace, Utf8.TrimEnd;
    var n := t + b;
    assert n[|t|..] == b && n[..|t|] == t && n[|t| - 1] == t[|t| - 1];
    TrimEndIs(n, |t|);
  }

  lemma StandsTrimmed(n: Text, closing: Text, d: Decision, l: Layout)
    requires Stands(n, closing, d, l) && (closing != [] ==> IsMarker(closing))
    ensures Utf8.TrimEnd(n) == l.before + l.w + l.v + (if closing == [] then [] else l.between + closing)
  {
    hide IsSpace, Utf8.TrimEnd, IsVerdict, OneLine, WholeLines, Breaks;
    VerdictHasEnds(l.v, d, l.gap);
    if closing == [] {
      var t := l.before + l.w + l.v;
      assert n == t + (l.between + l.tail) && t + [] == t;
      TrimmedOff(t, l.between + l.tail);
    } else {
      var t := l.before + l.w + l.v + (l.between + closing);
      assert t[|t| - 1] == closing[|closing| - 1];
      assert n == t + l.tail;
      TrimmedOff(t, l.tail);
    }
  }

  lemma NotBlankLine(w: Text, v: Text, x: Text, d: Decision, gap: Text)
    requires IsVerdict(v, Word(d), gap)
    ensures !AllSpace(w + v + x)
  {
    hide IsSpace;
    VerdictHasEnds(v, d, gap);
    assert (w + v + x)[|w|] == v[0];
  }

  lemma OpenVerdictMeant(n: Text, d: Decision, l: Layout)
    requires NoReturn(n) && Stands(n, [], d, l)
    ensures var body := Body(n, []); body != [] && VerdictOf(body[|body| - 1]) == Some(d)
    ensures var body := Body(n, []); Headed(body[..|body| - 1]) == l.before
  {
    hide IsSpace, Utf8.TrimEnd, Lines, VerdictOf, WithoutBlankTail, IsVerdict;
    StandsTrimmed(n, [], d, l);
    var line := l.w + l.v;
    assert l.before == n[..|l.before|];
    OneLineHasNoFeed(l.w);
    OneLineHasNoFeed(l.v);
    assert Utf8.TrimEnd(n) == l.before + line;
    var head := LinesAfterWhole(l.before, line);
    assert line + [] == line;
    NotBlankLine(l.w, l.v, [], d, l.gap);
    BlankTailIs(head, line, []);
    assert head + [line] + [] == head + [line];
    VerdictMeant(line, d, l.w, l.v, l.gap, []);
  }

  /** The lines of a text that ends with a verdict and a closing word. */
  lemma LinesOfStanding(n: Text, before: Text, line: Text, y: Text, closing: Text)
    returns (head: seq<Text>, blanks: seq<Text>, z: Text)
    requires WholeLines(before) && NoReturn(before) && LF !in line && AllSpace(y) && LF !in closing
    requires n == before + line + [LF] + (y + closing)
    ensures AllBlank(blanks) && AllSpace(z) && Lines(n) == head + [line] + blanks + [z + closing]
    ensures Headed(head) == before
  {
    hide Lines, AllSpace, WholeLines, NoReturn;
    LinesSplit(before + line, y + closing);
    head := LinesAfterWhole(before, line);
    blanks, z := LinesOfBlankThen(y, closing);
  }

  lemma ClosedVerdictMeant(n: Text, closing: Text, d: Decision, l: Layout)
    requires IsMarker(closing) && NoReturn(n) && Stands(n, closing, d, l)
    ensures var body := Body(n, closing); body != [] && VerdictOf(body[|body| - 1]) == Some(d)
    ensures var body := Body(n, closing); Headed(body[..|body| - 1]) == l.before
  {
    hide IsSpace, Utf8.TrimEnd, Lines, VerdictOf, WithoutBlankTail, IsVerdict, Trim, AllSpace, OneLine, AllBlank;
    StandsTrimmed(n, closing, d, l);
    BreakIsFeed(n, l.before + l.w + l.v, l.between, closing + l.tail);
    var x, y := FirstFeed(l.between);
    var line := l.w + l.v + x;
    assert l.before == n[..|l.before|];
    OneLineHasNoFeed(l.w);
    OneLineHasNoFeed(l.v);
    NoLineFeed(closing);
    SpaceParts(x, y);
    Reassociated(l.before, l.w, l.v, x, y, closing);
    var head, blanks, z := LinesOfStanding(Utf8.TrimEnd(n), l.before, line, y, closing);
    var lines := Lines(Utf8.TrimEnd(n));
    assert lines[..|lines| - 1] == head + [line] + blanks;
    NotBlankLine(l.w, l.v, x, d, l.gap);
    BlankTailIs(head, line, blanks);
    VerdictMeant(line, d, l.w, l.v, l.gap, x);
  }

  lemma Reassociated(before: Text, w: Text, v: Text, x: Text, y: Text, closing: Text)
    ensures before + w + v + (x + [LF] + y + closing) == before + (w + v + x) + [LF] + (y + closing)
  {
  }

  lemma SpaceParts(x: Text, y: Text)
    requires AllSpace(x + [LF] + y)
    ensures AllSpace(x) && AllSpace(y)
  {
    hide IsSpace;
    var s := x + [LF] + y;
    assert forall i :: 0 <= i < |x| ==> x[i] == s[i];
    assert forall i :: 0 <= i < |y| ==> y[i] == s[|x| + 1 + i];
  }

  lemma BreakIsFeed(n: Text, a: Text, between: Text, b: Text)
    requires NoReturn(n) && n == a + between + b && Breaks(between)
    ensures LF in between
  {
    var i :| 0 <= i < |between| && IsBreak(between[i]);
    assert n[|a| + i] == between[i];
  }

  // ---- line breaks of any kind ----------------------------------------

  /** How many units the first line break or other unit of a text takes, and what it is read as. */
  function Lead(s: Text): (n: nat)
    requires s != []
    ensures 0 < n <= |s|
  {
    if s[0] == CR && |s| > 1 && s[1] == LF then 2 else 1
  }

  function Read(u: Unit): Unit {
    if u == CR then LF else u
  }

  lemma NewlinesFirst(s: Text)
    requires s != []
    ensures Newlines(s) == [Read(s[0])] + Newlines(s[Lead(s)..])
  {
  }

  lemma NewlinesEmpty(s: Text)
    ensures s == [] <==> Newlines(s) == []
  {
  }

  lemma {:induction false} NewlinesBreaks(s: Text)
    ensures NoReturn(Newlines(s)) && (Breaks(s) <==> Breaks(Newlines(s)))
            && (WholeLines(s) <==> WholeLines(Newlines(s)))
    decreases |s|
  {
    hide Newlines;
    NewlinesEmpty(s);
    if s != [] {
      var rest := s[Lead(s)..];
      NewlinesFirst(s);
      NewlinesEmpty(rest);
      NewlinesBreaks(rest);
      FirstBreaks(s, Lead(s), Read(s[0]), Newlines(rest));
    } else {
      assert Newlines(s) == s;
    }
  }

  lemma {:induction false} NewlinesOfLine(s: Text)
    requires OneLine(s)
    ensures Newlines(s) == s
    decreases |s|
  {
    if s != [] {
      NewlinesOfLine(s[1..]);
      assert s == [s[0]] + s[1..];
    }
  }

  lemma {:induction false} NewlinesOfSpace(s: Text)
    requires AllSpace(s)
    ensures AllSpace(Newlines(s))
    decreases |s|
  {
    hide IsSpace, Newlines;
    FeedIsSpace();
    NewlinesEmpty(s);
    if s != [] {
      NewlinesFirst(s);
      NewlinesOfSpace(s[Lead(s)..]);
    }
  }

  lemma LineOrBreaks(s: Text)
    ensures OneLine(s) <==> !Breaks(s)
  {
  }

  /** The program reads every line break as one line feed. */
  lemma NewlinesFacts(s: Text)
    ensures NoReturn(Newlines(s))
    ensures Breaks(s) <==> Breaks(Newlines(s))
    ensures WholeLines(s) <==> WholeLines(Newlines(s))
    ensures OneLine(s) ==> Newlines(s) == s
    ensures AllSpace(s) ==> AllSpace(Newlines(s))
  {
    hide Newlines, IsSpace, Breaks, WholeLines, NoReturn;
    NewlinesBreaks(s);
    if OneLine(s) { NewlinesOfLine(s); }
    if AllSpace(s) { NewlinesOfSpace(s); }
  }

  lemma FirstBreaks(s: Text, lead: nat, u: Unit, n: Text)
    requires s != [] && lead == (if s[0] == CR && |s| > 1 && s[1] == LF then 2 else 1)
    requires u == (if s[0] == CR then LF else s[0])
    requires Breaks(s[lead..]) <==> Breaks(n)
    requires WholeLines(s[lead..]) <==> WholeLines(n)
    requires s[lead..] == [] <==> n == []
    ensures Breaks(s) <==> Breaks([u] + n)
    ensures WholeLines(s) <==> WholeLines([u] + n)
  {
    var rest, m := s[lead..], [u] + n;
    if Breaks(rest) {
      var i :| 0 <= i < |rest| && IsBreak(rest[i]);
      assert IsBreak(s[lead + i]);
    }
    if Breaks(n) {
      var i :| 0 <= i < |n| && IsBreak(n[i]);
      assert IsBreak(m[1 + i]);
    }
    if IsBreak(s[0]) { assert IsBreak(m[0]); }
    if Breaks(s) {
      var i :| 0 <= i < |s| && IsBreak(s[i]);
      if i >= lead { assert IsBreak(rest[i - lead]); }
    }
    if Breaks(m) {
      var i :| 0 <= i < |m| && IsBreak(m[i]);
      if i >= 1 { assert IsBreak(n[i - 1]); }
    }
  }

  lemma {:induction false} NewlinesAppend(a: Text, b: Text)
    requires a != [] && a[|a| - 1] == CR && b != [] ==> b[0] != LF
    ensures Newlines(a + b) == Newlines(a) + Newlines(b)
    decreases |a|
  {
    if a == [] {
      assert a + b == b;
    } else {
      var lead := if a[0] == CR && |a| > 1 && a[1] == LF then 2 else 1;
      assert (a + b)[lead..] == a[lead..] + b;
      assert a[0] == CR && |a| == 1 && b != [] ==> (a + b)[1] == b[0];
      NewlinesAppend(a[lead..], b);
    }
  }

  /** A split of the unified text is one of the text itself. */
  lemma {:induction false} Unsplit(s: Text, x: Text, y: Text) returns (a: Text, b: Text)
    requires Newlines(s) == x + y
    ensures s == a + b && Newlines(a) == x && Newlines(b) == y
    decreases |s|
  {
    hide Newlines;
    NewlinesEmpty(s);
    if x == [] {
      assert x + y == y;
      a, b := [], s;
      NewlinesEmpty(a);
    } else {
      NewlinesFirst(s);
      var lead := Lead(s);
      assert x == [x[0]] + x[1..] && Newlines(s[lead..]) == (x + y)[1..] == x[1..] + y;
      var a0;
      a0, b := Unsplit(s[lead..], x[1..], y);
      a := s[..lead] + a0;
      UnsplitLead(s, lead, a0);
    }
  }

  lemma UnsplitLead(s: Text, lead: nat, a0: Text)
    requires s != [] && lead == (if s[0] == CR && |s| > 1 && s[1] == LF then 2 else 1)
    requires a0 <= s[lead..]
    ensures Newlines(s[..lead] + a0) == [if s[0] == CR then LF else s[0]] + Newlines(a0)
  {
    var a := s[..lead] + a0;
    assert a[lead..] == a0 && a[0] == s[0];
    if lead == 1 && |a0| > 0 { assert a[1] == a0[0] == s[1]; }
  }

  lemma UnsplitLine(s: Text, line: Text, y: Text) returns (b: Text)
    requires Newlines(s) == line + y && OneLine(line)
    ensures s == line + b && Newlines(b) == y
  {
    var a;
    a, b := Unsplit(s, line, y);
    LineOrBreaks(line);
    LineOrBreaks(a);
    NewlinesFacts(a);
  }

  lemma OneLineJoin(a: Text, b: Text)
    requires OneLine(a) && OneLine(b)
    ensures OneLine(a + b)
  {
  }

  lemma MarkerIsLine(marker: Text)
    requires IsMarker(marker)
    ensures OneLine(marker)
  {
    FeedIsSpace();
  }

  lemma Reassociate(a: Text, b: Text, c: Text, d: Text, e: Text)
    ensures a + (b + (c + (d + e))) == a + b + c + d + e
  {
  }

  lemma SplitBack(s: Text, before: Text, line: Text, between: Text, closing: Text, tail: Text)
    returns (b: Text, m: Text, t: Text)
    requires Newlines(s) == before + line + between + closing + tail && OneLine(line) && OneLine(closing)
    ensures s == b + line + m + closing + t && Newlines(b) == before && Newlines(m) == between && Newlines(t) == tail
  {
    hide Newlines, OneLine;
    Reassociate(before, line, between, closing, tail);
    var r0, r2;
    b, r0 := Unsplit(s, before, line + (between + (closing + tail)));
    var r1 := UnsplitLine(r0, line, between + (closing + tail));
    m, r2 := Unsplit(r1, between, closing + tail);
    t := UnsplitLine(r2, closing, tail);
    Reassociate(b, line, m, closing, t);
  }

  lemma StandsBack(response: Text, closing: Text, d: Decision, l: Layout) returns (k: Layout)
    requires Stands(Newlines(response), closing, d, l) && (closing != [] ==> IsMarker(closing))
    ensures Stands(response, closing, d, k)
  {
    hide IsSpace, Newlines, IsVerdict, OneLine, Breaks, WholeLines, AllSpace;
    OneLineJoin(l.w, l.v);
    if closing != [] { MarkerIsLine(closing); } else { EmptyIsLine(); }
    assert l.before + l.w + l.v == l.before + (l.w + l.v);
    var before, between, tail := SplitBack(response, l.before, l.w + l.v, l.between, closing, l.tail);
    NewlinesFacts(before);
    NewlinesFacts(between);
    SpaceBeforeNewlines(between);
    SpaceBeforeNewlines(tail);
    k := Layout(before, l.w, l.v, l.gap, between, tail);
    assert before + (l.w + l.v) == before + l.w + l.v;
  }

  lemma EmptyIsLine()
    ensures OneLine([])
  {
  }

  lemma LineForth(before: Text, line: Text, rest: Text)
    requires line != [] && OneLine(line)
    ensures Newlines(before + line + rest) == Newlines(before) + line + Newlines(rest)
  {
    NewlinesFacts(line);
    NewlinesAppend(before, line);
    assert (before + line)[|before + line| - 1] == line[|line| - 1];
    NewlinesAppend(before + line, rest);
  }

  lemma StandsForth(response: Text, closing: Text, d: Decision, l: Layout) returns (k: Layout)
    requires Stands(response, closing, d, l) && (closing != [] ==> IsMarker(closing))
    ensures Stands(Newlines(response), closing, d, k) && k.before == Newlines(l.before)
  {
    hide IsSpace, Newlines, IsVerdict, OneLine, Breaks, WholeLines;
    VerdictHasEnds(l.v, d, l.gap);
    var line := l.w + l.v;
    OneLineJoin(l.w, l.v);
    NewlinesFacts(l.before);
    if closing == [] {
      var blank := l.between + l.tail;
      assert response == l.before + line + blank;
      LineForth(l.before, line, blank);
      NewlinesFacts(blank);
      k := Layout(Newlines(l.before), l.w, l.v, l.gap, Newlines(blank), []);
      assert Newlines(response) == k.before + k.w + k.v + k.between + [] + k.tail;
    } else {
      MarkerIsLine(closing);
      NewlinesFacts(l.between);
      NewlinesFacts(l.tail);
      JoinForth(l.before, line, l.between, closing, l.tail);
      assert l.before + line == l.before + l.w + l.v;
      k := Layout(Newlines(l.before), l.w, l.v, l.gap, Newlines(l.between), Newlines(l.tail));
      assert k.before + line == k.before + k.w + k.v;
    }
  }

  lemma JoinForth(before: Text, line: Text, between: Text, closing: Text, tail: Text)
    requires line != [] && OneLine(line) && closing != [] && OneLine(closing)
    ensures Newlines(before + line + between + closing + tail) ==
            Newlines(before) + line + Newlines(between) + closing + Newlines(tail)
  {
    hide Newlines, OneLine;
    LineForth(before, line, between + closing + tail);
    LineForth(between, closing, tail);
    assert before + line + (between + closing + tail) == before + line + between + closing + tail;
    assert Newlines(before) + line + (Newlines(between) + closing + Newlines(tail)) ==
           Newlines(before) + line + Newlines(between) + closing + Newlines(tail);
  }

  // ---- the closing word -----------------------------------------------

  predicate MatchesAt(s: Text, m: Text, k: int) {
    0 <= k && k + |m| <= |s| && s[k..k + |m|] == m
  }

  /** The word is in the text, and every place it is at overlaps the first one. */
  ghost predicate OccursOnce(s: Text, m: Text) {
    exists k: int :: MatchesAt(s, m, k) && forall j: int :: MatchesAt(s, m, j) ==> k <= j < k + |m|
  }

  lemma MatchShifts(s: Text, m: Text, lead: nat, j: int)
    requires lead <= |s| && 0 <= j
    ensures MatchesAt(s[lead..], m, j) <==> MatchesAt(s, m, lead + j)
  {
    if lead + j + |m| <= |s| { assert s[lead..][j..j + |m|] == s[lead + j..lead + j + |m|]; }
  }

  lemma {:induction false} NoOccurrence(s: Text, m: Text)
    requires m != []
    ensures Occurrences(s, m) == 0 <==> forall j: int :: !MatchesAt(s, m, j)
    decreases |s|
  {
    if |s| < |m| {
    } else if s[..|m|] == m {
      assert MatchesAt(s, m, 0) by { assert s[0..0 + |m|] == s[..|m|]; }
    } else {
      NoOccurrence(s[1..], m);
      assert !MatchesAt(s, m, 0) by { assert s[0..0 + |m|] == s[..|m|]; }
      if j: int :| MatchesAt(s, m, j) { if j > 0 { MatchShifts(s, m, 1, j - 1); } }
      if j: int :| MatchesAt(s[1..], m, j) { MatchShifts(s, m, 1, j); }
    }
  }

  /** Counting the parts a text is split into finds exactly the words that occur once. */
  lemma {:induction false} OccursOnceExactly(s: Text, m: Text)
    requires m != []
    ensures Occurrences(s, m) == 1 <==> OccursOnce(s, m)
    decreases |s|
  {
    hide Occurrences, OccursOnce;
    OccurrencesStep(s, m);
    if |s| < |m| {
      TooShort(s, m);
    } else if s[..|m|] == m {
      NoOccurrence(s[|m|..], m);
      OnceAtStart(s, m);
    } else {
      assert s[0..0 + |m|] == s[..|m|];
      OccursOnceExactly(s[1..], m);
      if OccursOnce(s[1..], m) { OnceForth(s, m); }
      if OccursOnce(s, m) { OnceBack(s, m); }
    }
  }

  lemma TooShort(s: Text, m: Text)
    requires |s| < |m|
    ensures !OccursOnce(s, m)
  {
  }

  lemma OnceAtStart(s: Text, m: Text)
    requires m != [] && |m| <= |s| && s[..|m|] == m
    ensures OccursOnce(s, m) <==> forall j: int :: !MatchesAt(s[|m|..], m, j)
  {
    var rest := s[|m|..];
    assert s[0..0 + |m|] == s[..|m|];
    assert MatchesAt(s, m, 0);
    if OccursOnce(s, m) {
      forall j: int ensures !MatchesAt(rest, m, j) { if j >= 0 { MatchShifts(s, m, |m|, j); } }
    }
    if forall j: int :: !MatchesAt(rest, m, j) {
      forall j: int | MatchesAt(s, m, j) ensures 0 <= j < |m| { if j >= |m| { MatchShifts(s, m, |m|, j - |m|); } }
    }
  }

  lemma OccurrencesStep(s: Text, m: Text)
    requires m != []
    ensures Occurrences(s, m) == if |s| < |m| then 0
                                 else if s[..|m|] == m then 1 + Occurrences(s[|m|..], m) else Occurrences(s[1..], m)
  {
  }

  lemma OnceForth(s: Text, m: Text)
    requires s != [] && m != [] && !MatchesAt(s, m, 0) && OccursOnce(s[1..], m)
    ensures OccursOnce(s, m)
  {
    var k: int :| MatchesAt(s[1..], m, k) && forall j :: MatchesAt(s[1..], m, j) ==> k <= j < k + |m|;
    MatchShifts(s, m, 1, k);
    forall j: int | MatchesAt(s, m, j) ensures k + 1 <= j < k + 1 + |m| {
      if j > 0 { MatchShifts(s, m, 1, j - 1); }
    }
  }

  lemma OnceBack(s: Text, m: Text)
    requires s != [] && m != [] && !MatchesAt(s, m, 0) && OccursOnce(s, m)
    ensures OccursOnce(s[1..], m)
  {
    var k: int :| MatchesAt(s, m, k) && forall j :: MatchesAt(s, m, j) ==> k <= j < k + |m|;
    MatchShifts(s, m, 1, k - 1);
    forall j | MatchesAt(s[1..], m, j) ensures k - 1 <= j < k - 1 + |m| { MatchShifts(s, m, 1, j); }
  }

  /** The word closes the text: it occurs once, on the last line that is not blank and alone on it. */
  ghost predicate Closes(response: Text, marker: Text) {
    OccursOnce(response, marker) && exists before, w, tail :: EndsOnLine(response, marker, before, w, tail)
  }

  lemma ClosesExactly(response: Text, marker: Text)
    requires IsMarker(marker)
    ensures HasTerminalMarker(response, marker) <==> Closes(response, marker)
  {
    hide IsSpace, Newlines, Trim, Utf8.TrimEnd, Lines, Occurrences, OccursOnce, EndsOnLine;
    var n := Newlines(response);
    OccursOnceExactly(response, marker);
    NewlinesFacts(response);
    if HasTerminalMarker(response, marker) {
      var before, w, tail := ClosingRead(n, marker);
      var b, v, t := EndsBack(response, marker, before, w, tail);
    }
    if before, w, tail :| EndsOnLine(response, marker, before, w, tail) {
      EndsForth(response, marker, before, w, tail);
      ClosingMeant(n, marker, Newlines(before), w, Newlines(tail));
    }
  }

  lemma EndsBack(response: Text, marker: Text, before: Text, w: Text, tail: Text) returns (b: Text, v: Text, t: Text)
    requires IsMarker(marker) && EndsOnLine(Newlines(response), marker, before, w, tail)
    ensures EndsOnLine(response, marker, b, v, t)
  {
    hide IsSpace, Newlines;
    var line := w + marker;
    MarkerIsLine(marker);
    OneLineJoin(w, marker);
    assert Newlines(response) == before + (line + tail);
    var r0;
    b, r0 := Unsplit(response, before, line + tail);
    t := UnsplitLine(r0, line, tail);
    NewlinesFacts(b);
    SpaceBeforeNewlines(t);
    v := w;
    assert response == b + v + marker + t;
  }

  lemma EndsForth(response: Text, marker: Text, before: Text, w: Text, tail: Text)
    requires IsMarker(marker) && EndsOnLine(response, marker, before, w, tail)
    ensures EndsOnLine(Newlines(response), marker, Newlines(before), w, Newlines(tail))
  {
    hide IsSpace, Newlines;
    var line := w + marker;
    MarkerIsLine(marker);
    OneLineJoin(w, marker);
    NewlinesFacts(before);
    NewlinesFacts(tail);
    assert response == before + line + tail;
    LineForth(before, line, tail);
    assert Newlines(response) == Newlines(before) + w + marker + Newlines(tail);
  }

  // ---- what a response says -------------------------------------------

  /** The last line that is not blank, in front of the closing marker if there is one, is the verdict:
      "EGO_CHAT_DECISION:", white space and the word, in any case, and nothing else but white space. */
  ghost predicate Says(response: Text, marker: Text, d: Decision) {
    var closing := if Closes(response, marker) then marker else [];
    exists l: Layout :: Stands(response, closing, d, l)
  }

  lemma SaysExactly(response: Text, marker: Text, d: Decision)
    requires IsMarker(marker)
    ensures NaturalVerdict(response, marker) == Some(d) <==> Says(response, marker, d)
  {
    hide IsSpace, Newlines, Trim, Utf8.TrimEnd, Lines, Occurrences, Closes, Stands, VerdictOf, WithoutBlankTail;
    var n := Newlines(response);
    ClosesExactly(response, marker);
    NewlinesFacts(response);
    var closing := if Closes(response, marker) then marker else [];
    assert BodyLines(response, marker) == Body(n, closing);
    if NaturalVerdict(response, marker) == Some(d) {
      var l: Layout;
      if closing == [] { l := OpenVerdictRead(n, d); } else { l := ClosedVerdictRead(n, marker, d); }
      var k := StandsBack(response, closing, d, l);
    }
    if l: Layout :| Stands(response, closing, d, l) {
      var k := StandsForth(response, closing, d, l);
      if closing == [] { OpenVerdictMeant(n, d, k); } else { ClosedVerdictMeant(n, marker, d, k); }
    }
  }

  // ---- the strict envelope --------------------------------------------

  lemma {:induction false} LastIndexExactly(s: Text, m: Text, from: nat, k: nat)
    requires k <= from && from + |m| <= |s| && MatchesAt(s, m, k)
    requires forall j: int :: k < j <= from ==> !MatchesAt(s, m, j)
    ensures LastIndex(s, m, from) == k
    decreases from
  {
    if k < from {
      assert !MatchesAt(s, m, from);
      LastIndexExactly(s, m, from - 1, k);
    }
  }

  lemma EnvelopeBeforeMarker(response: Text, marker: Text, k: nat)
    requires IsMarker(marker) && MarkedAt(response, marker, k)
    ensures EnvelopeText(response, marker) == Trim(response[..k])
  {
    hide IsSpace, Trim;
    forall j: int | k < j <= |response| - |marker| ensures !MatchesAt(response, marker, j) {
      var last := |marker| - 1;
      var u := response[j + last];
      assert u == response[k + |marker|..][j + last - k - |marker|];
      assert IsSpace(u) && !IsSpace(marker[last]) && response[j..j + |marker|][last] == u;
    }
    LastIndexExactly(response, marker, |response| - |marker|, k);
  }

  /** The text reads as this value: as it is with its syntax repaired, or else with its quotes repaired
      first. */
  predicate ReadsAs(p: Parts, text: Text, json: Json) {
    var first := ParseUnique(JsonRepair.Normalize(text).text);
    if first.Some? then first.value == json
    else p.repairQuotes(text).Some? && ParseUnique(JsonRepair.Normalize(p.repairQuotes(text).value).text) == Some(json)
  }

  /** Exactly when a response is a strict envelope: everything in front of the marker that closes it
      reads as a review of this target, candidate and cycle that reports the criteria of the contract,
      each once and in order. */
  ghost predicate IsEnvelope(p: Parts, response: Text, e: Expected, review: Review) {
    && OccursOnce(response, e.terminalMarker)
    && (exists k: nat :: MarkedAt(response, e.terminalMarker, k)
                         && EnvelopeReads(p, Trim(response[..k]), review))
    && review.targetDigest == e.targetDigest && review.candidateDigest == e.candidateDigest && review.cycle == e.cycle
    && |review.criteria| == |e.criteria| && Distinct(e.criteria)
    && forall i :: 0 <= i < |e.criteria| ==> review.criteria[i].id == e.criteria[i]
  }

  ghost predicate EnvelopeReads(p: Parts, text: Text, review: Review) {
    exists json :: ReadsAs(p, p.unfence(text), json) && p.schema(p.alias(json)) == Some(review)
  }

  lemma EnvelopeExactly(p: Parts, response: Text, e: Expected, review: Review)
    requires IsMarker(e.terminalMarker)
    ensures ParseEnvelope(p, response, e) == Ok(review) <==> IsEnvelope(p, response, e, review)
  {
    hide IsSpace, Occurrences, OccursOnce, EnvelopeText, Trim, Utf8.TrimEnd, ParseUnique, DecodeEnvelope, AllSpace,
      Covers, Ids;
    var marker := e.terminalMarker;
    OccursOnceExactly(response, marker);
    IdsAre(review.criteria, e.criteria);
    if MarkedOnceAtEnd(response, marker) {
      var k := |Utf8.TrimEnd(response)| - |marker|;
      EndIsMarked(response, marker);
      EnvelopeBeforeMarker(response, marker, k);
    }
    if k: nat :| MarkedAt(response, marker, k) && EnvelopeReads(p, Trim(response[..k]), review) {
      MarkedIsEnd(response, marker, k);
      EnvelopeBeforeMarker(response, marker, k);
    }
    DecodesExactly(p, p.unfence(EnvelopeText(response, marker)));
  }

  lemma DecodesExactly(p: Parts, text: Text)
    ensures forall json :: DecodeEnvelope(p, text) == Some(json) <==> ReadsAs(p, text, json)
  {
    hide ParseUnique;
  }

  lemma IdsAre(criteria: seq<CriterionResult>, expected: seq<Text>)
    ensures Covers(expected, Ids(criteria)) <==>
            && |criteria| == |expected| && Distinct(expected)
            && forall i :: 0 <= i < |expected| ==> criteria[i].id == expected[i]
  {
    hide Ids;
    if |criteria| == |expected| && forall i :: 0 <= i < |expected| ==> criteria[i].id == expected[i] {
      assert Ids(criteria) == expected;
    }
  }

  // ---- when a completion settles --------------------------------------

  /** A strict envelope settles exactly if it says so, nothing in it blocks and every criterion passes;
      any other response settles exactly if it is closed by the terminal marker and says SETTLED in
      front of it; and either only if the transport was not compacted and the candidate not blocked. */
  lemma ResponseSettlesExactly(p: Parts, prepared: Prepared, response: Text)
    requires IsMarker(prepared.expected.terminalMarker)
    ensures var e, settled := prepared.expected, Complete(p, prepared, response).settled;
      match ParseEnvelope(p, response, e)
      case Ok(review) =>
        settled <==>
        && !prepared.transportCompacted && !prepared.candidateBlocked && review.decision == Settled
        && (forall i :: 0 <= i < |review.findings| ==> review.findings[i].severity == Advisory)
        && (forall i :: 0 <= i < |review.criteria| ==> review.criteria[i].status == Pass)
      case Err(_) =>
        settled <==>
        && !prepared.transportCompacted && !prepared.candidateBlocked
        && Closes(response, e.terminalMarker) && Says(response, e.terminalMarker, Settled)
  {
    hide DecodeEnvelope, MarkedOnceAtEnd, NaturalVerdict, SubstantiveText, EnvelopeText, Ascii, Ids, Closes, Says,
      HasTerminalMarker;
    SettlesExactly(p, prepared, response);
    ClosesExactly(response, prepared.expected.terminalMarker);
    SaysExactly(response, prepared.expected.terminalMarker, Settled);
  }

  /** The units of "B-REVIEWER_BLOCKED" and "B-REVIEW_FEEDBACK". */
  const REVIEWER_BLOCKED: Text :=
    [0x42, 0x2D, 0x52, 0x45, 0x56, 0x49, 0x45, 0x57, 0x45, 0x52, 0x5F, 0x42, 0x4C, 0x4F, 0x43, 0x4B, 0x45, 0x44]
  const REVIEW_FEEDBACK: Text :=
    [0x42, 0x2D, 0x52, 0x45, 0x56, 0x49, 0x45, 0x57, 0x5F, 0x46, 0x45, 0x45, 0x44, 0x42, 0x41, 0x43, 0x4B]

  /** A response without a strict envelope that does not settle: it says CONTINUE or BLOCKED, or says
      SETTLED without the marker behind it, or nothing. It continues with no criterion decided and
      with one blocking finding, that of a blocked reviewer exactly if it says BLOCKED. */
  lemma UnsettledResponse(p: Parts, prepared: Prepared, response: Text)
    requires IsMarker(prepared.expected.terminalMarker)
    requires ParseEnvelope(p, response, prepared.expected).Err?
    requires !(Closes(response, prepared.expected.terminalMarker)
               && Says(response, prepared.expected.terminalMarker, Settled))
    ensures var marker, c := prepared.expected.terminalMarker, Complete(p, prepared, response);
      && !c.settled && c.review.decision == Continue && |c.review.findings| == 1
      && c.review.findings[0].severity == Blocking
      && c.review.findings[0].id == (if Says(response, marker, Blocked) then REVIEWER_BLOCKED else REVIEW_FEEDBACK)
      && |c.review.criteria| == |prepared.expected.criteria|
      && (forall i :: 0 <= i < |c.review.criteria| ==>
            c.review.criteria[i].id == prepared.expected.criteria[i] && c.review.criteria[i].status == Unknown)
  {
    hide ParseEnvelope, NaturalVerdict, Ascii, Closes, Says, HasTerminalMarker, Complete, Consume, Evaluate, Uniform,
      REVIEWER_BLOCKED, REVIEW_FEEDBACK, IsMarker;
    MarkerIsThere(prepared.expected.terminalMarker);
    var marker := prepared.expected.terminalMarker;
    ClosesExactly(response, marker);
    SaysExactly(response, marker, Settled);
    SaysExactly(response, marker, Blocked);
    FindingsAreSpelled();
    UnsettledReading(p, response, prepared.expected);
    UnsettledIsReturned(p, prepared, response);
  }

  lemma MarkerIsThere(marker: Text)
    requires IsMarker(marker)
    ensures marker != []
  {
  }

  lemma FindingsAreSpelled()
    ensures Ascii("B-REVIEWER_BLOCKED") == REVIEWER_BLOCKED && Ascii("B-REVIEW_FEEDBACK") == REVIEW_FEEDBACK
  {
    hide Ascii;
    Spelled("B-REVIEWER_BLOCKED", REVIEWER_BLOCKED);
    Spelled("B-REVIEW_FEEDBACK", REVIEW_FEEDBACK);
  }

  lemma UnsettledReading(p: Parts, response: Text, e: Expected)
    requires e.terminalMarker != []
    requires ParseEnvelope(p, response, e).Err? && !ExplicitlySettled(response, e.terminalMarker)
    ensures var r, blocked := Consume(p, response, e), NaturalVerdict(response, e.terminalMarker) == Some(Blocked);
      && r.decision == Continue && !Evaluate(r) && |r.findings| == 1 && r.findings[0].severity == Blocking
      && r.findings[0].id == Ascii(if blocked then "B-REVIEWER_BLOCKED" else "B-REVIEW_FEEDBACK")
      && r.criteria == Uniform(e.criteria, Unknown)
  {
    hide ParseEnvelope, ExplicitlySettled, NaturalVerdict, SubstantiveText, Ascii, Uniform;
  }

  lemma UnsettledIsReturned(p: Parts, prepared: Prepared, response: Text)
    requires prepared.expected.terminalMarker != [] && !Evaluate(Consume(p, response, prepared.expected))
    ensures Complete(p, prepared, response) == Completed(Consume(p, response, prepared.expected), false)
  {
    hide Consume, Evaluate;
  }

  /** No response says two things. */
  lemma SaysOneThing(response: Text, marker: Text, d: Decision, e: Decision)
    requires IsMarker(marker) && Says(response, marker, d) && Says(response, marker, e)
    ensures d == e
  {
    hide Says, NaturalVerdict;
    SaysExactly(response, marker, d);
    SaysExactly(response, marker, e);
  }

  // ---- what is kept of a response -------------------------------------

  /** Whole lines without the break behind the last one. */
  function Unbroken(s: Text): Text {
    if s == [] then [] else s[..|s| - 1]
  }

  /** What is kept of a response that says something: the lines in front of its verdict, with their
      breaks read as line feeds, up to 131,072 bytes. */
  lemma KeepsWhatPrecedes(p: Parts, response: Text, marker: Text, d: Decision, l: Layout)
    requires IsMarker(marker)
    requires Stands(response, if Closes(response, marker) then marker else [], d, l)
    ensures SubstantiveText(p, response, marker) == p.bounded(Unbroken(Newlines(l.before)), 131_072)
  {
    hide IsSpace, Newlines, Trim, Utf8.TrimEnd, Lines, Occurrences, Closes, Stands, VerdictOf, WithoutBlankTail,
      JoinLines;
    var n := Newlines(response);
    ClosesExactly(response, marker);
    NewlinesFacts(response);
    var closing := if Closes(response, marker) then marker else [];
    var k := StandsForth(response, closing, d, l);
    if closing == [] { OpenVerdictMeant(n, d, k); } else { ClosedVerdictMeant(n, marker, d, k); }
    var body := Body(n, closing);
    assert BodyLines(response, marker) == body;
    HeadedUnbroken(body[..|body| - 1]);
  }

  lemma HeadedUnbroken(init: seq<Text>)
    ensures Unbroken(Headed(init)) == JoinLines(init)
  {
    hide JoinLines;
    JoinNothing();
  }

  lemma JoinNothing()
    ensures JoinLines([]) == []
  {
  }

  /** A text ends with what is kept, blank text and the closing word. */
  predicate Remains(n: Text, closing: Text, kept: Text, between: Text, tail: Text) {
    n == kept + between + closing + tail && AllSpace(between) && AllSpace(tail)
  }

  /** What is kept of a response that says nothing: all of it but the closing word and blank text
      around that, up to 131,072 bytes; the last line that is kept is not blank. */
  lemma KeepsEverything(p: Parts, response: Text, marker: Text)
    returns (kept: Text, before: Text, line: Text, between: Text, tail: Text)
    requires IsMarker(marker) && forall d :: !Says(response, marker, d)
    ensures SubstantiveText(p, response, marker) == p.bounded(kept, 131_072)
    ensures Remains(Newlines(response), if Closes(response, marker) then marker else [], kept, between, tail)
    ensures kept == before + line && WholeLines(before) && (kept != [] ==> !AllSpace(line))
  {
    hide IsSpace, Newlines, Trim, Utf8.TrimEnd, Lines, Occurrences, Closes, Stands, VerdictOf, WithoutBlankTail,
      JoinLines, Says, NaturalVerdict, Body, Remains;
    var n := Newlines(response);
    ClosesExactly(response, marker);
    NewlinesFacts(response);
    forall d ensures NaturalVerdict(response, marker) != Some(d) { SaysExactly(response, marker, d); }
    var closing := if Closes(response, marker) then marker else [];
    BodyIs(response, marker, closing);
    kept, before, line, between, tail := BodyRemains(n, closing);
  }

  lemma BodyIs(response: Text, marker: Text, closing: Text)
    requires marker != [] && closing == if HasTerminalMarker(response, marker) then marker else []
    ensures BodyLines(response, marker) == Body(Newlines(response), closing)
  {
    hide Newlines, Utf8.TrimEnd, Lines, WithoutBlankTail, Occurrences, Trim;
  }

  lemma BodyRemains(n: Text, closing: Text)
    returns (kept: Text, before: Text, line: Text, between: Text, tail: Text)
    requires var lines := Lines(Utf8.TrimEnd(n)); closing != [] ==> Trim(lines[|lines| - 1]) == closing
    ensures kept == JoinLines(Body(n, closing)) && Remains(n, closing, kept, between, tail)
    ensures kept == before + line && WholeLines(before) && (kept != [] ==> !AllSpace(line))
  {
    hide IsSpace, Trim, Utf8.TrimEnd, Lines, WithoutBlankTail, JoinLines, AllSpace, Headed, Followed, WholeLines;
    var b := TrimEndSplits(n);
    var lines, body := Lines(Utf8.TrimEnd(n)), Body(n, closing);
    LinesJoin(Utf8.TrimEnd(n));
    var front := if closing != [] then lines[..|lines| - 1] else lines;
    BlankTailExactly(front);
    var blanks := front[|body|..];
    FollowedBlanks(blanks);
    kept := JoinLines(body);
    before, line := BodyJoined(body);
    assert front == body + blanks;
    if closing == [] {
      between, tail := OpenRemains(body, blanks, b);
    } else {
      assert lines == body + blanks + [lines[|lines| - 1]];
      between, tail := ClosedRemains(body, blanks, lines[|lines| - 1], closing, b);
    }
  }

  lemma BodyJoined(body: seq<Text>) returns (before: Text, line: Text)
    requires body != [] ==> !AllSpace(body[|body| - 1])
    ensures JoinLines(body) == before + line && WholeLines(before) && (JoinLines(body) != [] ==> !AllSpace(line))
  {
    hide JoinLines, AllSpace;
    JoinNothing();
    before, line := [], [];
    if body != [] {
      var init := body[..|body| - 1];
      assert body == init + [body[|body| - 1]] + [];
      JoinAround(init, body[|body| - 1], []);
      before, line := Headed(init), body[|body| - 1];
    }
  }

  /** Lines, blank lines and blank text. */
  lemma OpenRemains(body: seq<Text>, blanks: seq<Text>, b: Text) returns (between: Text, tail: Text)
    requires AllBlank(blanks) && AllSpace(b)
    ensures Remains(JoinLines(body + blanks) + b, [], JoinLines(body), between, tail)
  {
    hide JoinLines, AllSpace, IsSpace;
    JoinNothing();
    FollowedBlanks(blanks);
    tail := b;
    if body == [] {
      assert body + blanks == blanks;
      BlankJoined(blanks);
      between := JoinLines(blanks);
    } else {
      var init := body[..|body| - 1];
      assert body == init + [body[|body| - 1]] + [];
      JoinAround(init, body[|body| - 1], []);
      JoinAround(init, body[|body| - 1], blanks);
      assert body + blanks == init + [body[|body| - 1]] + blanks;
      between := Followed(blanks);
    }
  }

  /** Lines, blank lines and a last line that holds the closing word. */
  lemma ClosedRemains(body: seq<Text>, blanks: seq<Text>, last: Text, closing: Text, b: Text)
    returns (between: Text, tail: Text)
    requires AllBlank(blanks) && AllSpace(b) && Trim(last) == closing
    ensures Remains(JoinLines(body + blanks + [last]) + b, closing, JoinLines(body), between, tail)
  {
    hide JoinLines, AllSpace, IsSpace, Trim, Followed;
    JoinNothing();
    FollowedBlanks(blanks);
    assert Followed([]) == [] by { NothingFollows(); }
    if body == [] {
      assert body + blanks + [last] == blanks + [last] + [];
      JoinAround(blanks, last, []);
      var a;
      a, tail := LastLineCloses(last, closing, Headed(blanks), b);
      SpaceJoins(Headed(blanks), a);
      between := Headed(blanks) + a;
      assert [] + between + closing + tail == Headed(blanks) + a + closing + tail;
      assert Headed(blanks) + last + [] == Headed(blanks) + last;
    } else {
      var init, line := body[..|body| - 1], body[|body| - 1];
      assert body == init + [line] + [];
      JoinAround(init, line, []);
      JoinedLayout(init, line, blanks, last);
      assert body + blanks + [last] == init + [line] + (blanks + [last]);
      var a;
      var kept, feed := Headed(init) + line, [LF] + Headed(blanks);
      a, tail := LastLineCloses(last, closing, kept + feed, b);
      FeedAndBlanks(blanks, a);
      between := feed + a;
      assert kept == JoinLines(body) && kept + (feed + last) == kept + feed + last;
      assert kept + feed + a == kept + between;
      assert JoinLines(body + blanks + [last]) + b == kept + between + closing + tail;
    }
  }

  lemma NothingFollows()
    ensures Followed([]) == []
  {
  }

  lemma SpaceJoins(a: Text, b: Text)
    requires AllSpace(a) && AllSpace(b)
    ensures AllSpace(a + b)
  {
  }

  /** What is kept of a response without a strict envelope is the summary of its review, whether or not
      the completion settles; what there is to act on repeats it, up to 4,000 bytes. */
  lemma SummaryExactly(p: Parts, prepared: Prepared, response: Text)
    requires prepared.expected.terminalMarker != [] && ParseEnvelope(p, response, prepared.expected).Err?
    ensures var r, kept := Complete(p, prepared, response).review,
              SubstantiveText(p, response, prepared.expected.terminalMarker);
      && r.summary == kept
      && (!ExplicitlySettled(response, prepared.expected.terminalMarker) ==>
            r.findings[0].action == p.bounded(kept, 4_000))
  {
    hide ParseEnvelope, NaturalVerdict, SubstantiveText, Ascii, Uniform, ExplicitlySettled;
  }

  // ---- what withholds a settlement ------------------------------------

  /** The units of "B-TRANSPORT-COMPACTED" and "B-IMPLEMENTER-BLOCKED". */
  const TRANSPORT_COMPACTED: Text :=
    [0x42, 0x2D, 0x54, 0x52, 0x41, 0x4E, 0x53, 0x50, 0x4F, 0x52, 0x54, 0x2D, 0x43, 0x4F, 0x4D, 0x50, 0x41, 0x43, 0x54,
     0x45, 0x44]
  const IMPLEMENTER_BLOCKED: Text :=
    [0x42, 0x2D, 0x49, 0x4D, 0x50, 0x4C, 0x45, 0x4D, 0x45, 0x4E, 0x54, 0x45, 0x52, 0x2D, 0x42, 0x4C, 0x4F, 0x43, 0x4B,
     0x45, 0x44]

  /** A completion that would settle with nothing compacted and nobody blocked is held back by either,
      with the finding of the compacted transport first, and is otherwise as it would have been. */
  lemma WithheldExactly(p: Parts, prepared: Prepared, response: Text)
    requires prepared.expected.terminalMarker != []
    requires var free := prepared.(transportCompacted := false, candidateBlocked := false);
             Complete(p, free, response).settled
    ensures var free := prepared.(transportCompacted := false, candidateBlocked := false);
      var held, would := Complete(p, prepared, response), Complete(p, free, response).review;
      && (held.settled <==> !prepared.transportCompacted && !prepared.candidateBlocked)
      && (!held.settled ==>
            && |held.review.findings| == 1 && held.review.findings[0].severity == Blocking
            && held.review.findings[0].id ==
                 (if prepared.transportCompacted then TRANSPORT_COMPACTED else IMPLEMENTER_BLOCKED))
      && held.review.(criteria := [], decision := Continue, findings := []) ==
           would.(criteria := [], decision := Continue, findings := [])
      && |held.review.criteria| == |would.criteria|
      && forall i :: 0 <= i < |would.criteria| ==>
           && held.review.criteria[i].id == would.criteria[i].id
           && held.review.criteria[i].status == if held.settled then Pass else Unknown
  {
    hide Consume, Ascii, TRANSPORT_COMPACTED, IMPLEMENTER_BLOCKED;
    WithheldIsSpelled();
  }

  lemma WithheldIsSpelled()
    ensures Ascii("B-TRANSPORT-COMPACTED") == TRANSPORT_COMPACTED
    ensures Ascii("B-IMPLEMENTER-BLOCKED") == IMPLEMENTER_BLOCKED
  {
    hide Ascii;
    Spelled("B-TRANSPORT-COMPACTED", TRANSPORT_COMPACTED);
    Spelled("B-IMPLEMENTER-BLOCKED", IMPLEMENTER_BLOCKED);
  }
}
