/** The bounded loop detector of the semantic monitor
    (src/eagle-monitor-semantic.mjs, `loopPattern`). */
module LoopDetection {
  import opened Prelude

  /** A SHA-256 digest, read as the number its 64 hexadecimal digits write.
      Fixed-width lower-case hex sorts as those numbers do. */
  type Digest = nat

  datatype LoopPattern = Repeated | Alternating | ShortCycle

  /** `new Set(s).size`. */
  function DistinctCount(s: seq<Digest>): nat {
    if s == [] then 0 else DistinctCount(s[1..]) + (if s[0] in s[1..] then 0 else 1)
  }

  lemma {:induction false} DistinctCountIsSetSize(s: seq<Digest>)
    ensures DistinctCount(s) == |Elements(s)|
    ensures DistinctCount(s) <= |s|
  {
    if s == [] {
      assert Elements(s) == {};
    } else {
      DistinctCountIsSetSize(s[1..]);
      assert Elements(s) == Elements(s[1..]) + {s[0]};
      assert s[0] in s[1..] <==> s[0] in Elements(s[1..]);
    }
  }

  /** `i % period`, one subtraction at a time. */
  function Residue(i: nat, period: nat): (r: nat)
    requires period > 0
    ensures r < period && r <= i
    decreases i
  {
    if i < period then i else Residue(i - period, period)
  }

  /** Every value of `six` from index `i` on equals the value at its index modulo `period`. */
  predicate CyclesFrom(six: seq<Digest>, period: nat, i: nat)
    requires 0 < period <= |six| && i <= |six|
    decreases |six| - i
  {
    i == |six| || (six[i] == six[Residue(i, period)] && CyclesFrom(six, period, i + 1))
  }

  function FindLoop(history: seq<Digest>): Option<LoopPattern> {
    var three, six := Tail(history, 3), Tail(history, 6);
    if |three| == 3 && DistinctCount(three) == 1 then
      Some(Repeated)
    else if |six| == 6 && six[0] != six[1] && CyclesFrom(six, 2, 0) then
      Some(Alternating)
    else if |six| == 6 && DistinctCount(six[..3]) > 1 && CyclesFrom(six, 3, 0) then
      Some(ShortCycle)
    else
      None
  }

  // ------------------------------------------------------------------
  // An independent notion: periodicity of a suffix.

  /** The last `length` entries exist and repeat with the given period. */
  ghost predicate SuffixHasPeriod(history: seq<Digest>, length: nat, period: nat) {
    && |history| >= length
    && forall i :: |history| - length + period <= i < |history| ==> history[i] == history[i - period]
  }

  lemma ThreeAlike(s: seq<Digest>)
    requires |s| == 3
    ensures DistinctCount(s) == 1 <==> s[0] == s[1] == s[2]
    ensures DistinctCount(s) > 1 <==> !(s[0] == s[1] == s[2])
  {
    DistinctCountIsSetSize(s);
    var rest := Elements(s) - {s[0]};
    assert s[0] in Elements(s) && |rest| == |Elements(s)| - 1;
    if s[0] == s[1] == s[2] {
      assert rest == {};
    } else {
      assert if s[1] != s[0] then s[1] in rest else s[2] in rest;
    }
  }

  /** Both notions of period 1 over three entries and of period 2 and 3 over six, spelled out. */
  lemma PeriodsSpelledOut(h: seq<Digest>)
    ensures |h| >= 3 ==> (SuffixHasPeriod(h, 3, 1) <==> h[|h| - 1] == h[|h| - 2] == h[|h| - 3])
    ensures |h| >= 6 ==> (SuffixHasPeriod(h, 6, 2) <==>
              h[|h| - 1] == h[|h| - 3] == h[|h| - 5] && h[|h| - 2] == h[|h| - 4] == h[|h| - 6])
    ensures |h| >= 6 ==> (SuffixHasPeriod(h, 6, 3) <==>
              h[|h| - 1] == h[|h| - 4] && h[|h| - 2] == h[|h| - 5] && h[|h| - 3] == h[|h| - 6])
  {
  }

  lemma CyclesStep(six: seq<Digest>, period: nat, i: nat)
    requires 0 < period <= |six| && i < |six|
    ensures CyclesFrom(six, period, i) <==> six[i] == six[Residue(i, period)] && CyclesFrom(six, period, i + 1)
  {
  }

  lemma {:induction false} CyclesEverywhere(six: seq<Digest>, period: nat, i: nat)
    requires 0 < period <= |six| && i <= |six|
    ensures CyclesFrom(six, period, i) <==>
              forall k {:trigger Residue(k, period)} :: i <= k < |six| ==> six[k] == six[Residue(k, period)]
    decreases |six| - i
  {
    if i == |six| {
      assert CyclesFrom(six, period, i);
    } else {
      hide CyclesFrom;
      CyclesEverywhere(six, period, i + 1);
      CyclesStep(six, period, i);
      var here := Residue(i, period);
      if six[i] == six[here] && CyclesFrom(six, period, i + 1) {
        forall k {:trigger Residue(k, period)} | i <= k < |six| ensures six[k] == six[Residue(k, period)] {
          assert k == i || i + 1 <= k;
        }
      }
    }
  }

  lemma CyclesSpelledOut(six: seq<Digest>)
    requires |six| == 6
    ensures CyclesFrom(six, 2, 0) <==> six[0] == six[2] == six[4] && six[1] == six[3] == six[5]
    ensures CyclesFrom(six, 3, 0) <==> six[0] == six[3] && six[1] == six[4] && six[2] == six[5]
  {
    hide CyclesFrom;
    CyclesEverywhere(six, 2, 0);
    CyclesEverywhere(six, 3, 0);
    assert Residue(0, 2) == 0 && Residue(1, 2) == 1 && Residue(2, 2) == 0 && Residue(3, 2) == 1;
    assert Residue(4, 2) == 0 && Residue(5, 2) == 1;
    assert Residue(0, 3) == 0 && Residue(1, 3) == 1 && Residue(2, 3) == 2;
    assert Residue(3, 3) == 0 && Residue(4, 3) == 1 && Residue(5, 3) == 2;
  }

  /** Soundness, completeness and meaning of each label: the detector fires exactly on a
      suffix of three equal entries or of six entries with period 2 or 3, and the label
      names the least such period. Periods 2 and 3 only meet in a constant suffix, as six
      entries reach 2 + 3 - gcd(2, 3), so the label never depends on the order of the tests. */
  lemma LoopDetectionExact(history: seq<Digest>)
    ensures FindLoop(history).Some? <==>
              SuffixHasPeriod(history, 3, 1) || SuffixHasPeriod(history, 6, 2) || SuffixHasPeriod(history, 6, 3)
    ensures FindLoop(history) == Some(Repeated) <==> SuffixHasPeriod(history, 3, 1)
    ensures FindLoop(history) == Some(Alternating) <==>
              SuffixHasPeriod(history, 6, 2) && !SuffixHasPeriod(history, 3, 1)
    ensures FindLoop(history) == Some(ShortCycle) <==>
              SuffixHasPeriod(history, 6, 3) && !SuffixHasPeriod(history, 3, 1)
    ensures SuffixHasPeriod(history, 6, 2) && SuffixHasPeriod(history, 6, 3) ==> SuffixHasPeriod(history, 6, 1)
  {
    hide SuffixHasPeriod, FindLoop;
    PeriodsSpelledOut(history);
    LabelsSpelledOut(history);
    ConstantSuffix(history);
  }

  lemma ConstantSuffix(h: seq<Digest>)
    ensures |h| < 6 ==> !SuffixHasPeriod(h, 6, 1) && !SuffixHasPeriod(h, 6, 2) && !SuffixHasPeriod(h, 6, 3)
    ensures |h| < 3 ==> !SuffixHasPeriod(h, 3, 1)
    ensures |h| >= 6 ==> (SuffixHasPeriod(h, 6, 1) <==>
              h[|h| - 1] == h[|h| - 2] == h[|h| - 3] == h[|h| - 4] == h[|h| - 5] == h[|h| - 6])
  {
  }

  lemma LastThree(h: seq<Digest>)
    requires |h| >= 3
    ensures var n := |h|;
            |Tail(h, 3)| == 3 && (DistinctCount(Tail(h, 3)) == 1 <==> h[n - 1] == h[n - 2] == h[n - 3])
  {
    var n, three := |h|, Tail(h, 3);
    assert three[0] == h[n - 3] && three[1] == h[n - 2] && three[2] == h[n - 1];
    ThreeAlike(three);
  }

  lemma LastSix(h: seq<Digest>)
    requires |h| >= 6
    ensures var n, six := |h|, Tail(h, 6);
            && |six| == 6 && (six[0] == six[1] <==> h[n - 6] == h[n - 5])
            && (CyclesFrom(six, 2, 0) <==> h[n - 1] == h[n - 3] == h[n - 5] && h[n - 2] == h[n - 4] == h[n - 6])
            && (CyclesFrom(six, 3, 0) <==> h[n - 1] == h[n - 4] && h[n - 2] == h[n - 5] && h[n - 3] == h[n - 6])
            && (DistinctCount(six[..3]) > 1 <==> !(h[n - 6] == h[n - 5] == h[n - 4]))
  {
    hide CyclesFrom, DistinctCount;
    var n, six := |h|, Tail(h, 6);
    assert six[0] == h[n - 6] && six[1] == h[n - 5] && six[2] == h[n - 4];
    assert six[3] == h[n - 3] && six[4] == h[n - 2] && six[5] == h[n - 1];
    CyclesSpelledOut(six);
    ThreeAlike(six[..3]);
  }

  /** The label the detector gives, in terms of the last entries. */
  lemma LabelsSpelledOut(h: seq<Digest>)
    ensures var n := |h|;
            var alike := n >= 3 && h[n - 1] == h[n - 2] == h[n - 3];
            var two := n >= 6 && h[n - 1] == h[n - 3] == h[n - 5] && h[n - 2] == h[n - 4] == h[n - 6];
            var three := n >= 6 && h[n - 1] == h[n - 4] && h[n - 2] == h[n - 5] && h[n - 3] == h[n - 6];
            FindLoop(h) == if alike then Some(Repeated)
                           else if two then Some(Alternating)
                           else if three then Some(ShortCycle)
                           else None
  {
    hide CyclesFrom, DistinctCount, Tail;
    if |h| >= 3 { LastThree(h); }
    if |h| >= 6 { LastSix(h); }
  }
}
