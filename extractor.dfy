/**
 * `extractLongestNumber`: the longest maximal run of ASCII digits in a string,
 * the earliest one on a tie, or `undefined` when the string holds no digit.
 */
module Extractor {
  import opened Wrappers
  import opened DigitRuns

  /**
   * One step of `matches.reduce((longest, current) => ...)` and all the steps after it:
   * the current match replaces the accumulator only when it is strictly longer.
   */
  function FoldLongest(longest: string, rest: seq<string>): (r: string)
    ensures r == longest || r in rest
    ensures |r| >= |longest|
    decreases |rest|
  {
    if rest == [] then longest
    else
      var current := rest[0];
      FoldLongest(if |current| > |longest| then current else longest, rest[1..])
  }

  /** `reduce` without an initial value: the fold is seeded with the first match. */
  function Reduce(ms: seq<string>): (r: string)
    requires |ms| > 0
    ensures r in ms
  {
    FoldLongest(ms[0], ms[1..])
  }

  /**
   * The fold returns the first of `[longest] + rest` whose length is the greatest:
   * nothing in the list is longer, and everything before it is strictly shorter.
   */
  lemma {:induction false} FoldLongestIsFirstLongest(longest: string, rest: seq<string>) returns (p: nat)
    ensures p < |[longest] + rest|
    ensures FoldLongest(longest, rest) == ([longest] + rest)[p]
    ensures forall q :: 0 <= q < |[longest] + rest| ==> |([longest] + rest)[q]| <= |([longest] + rest)[p]|
    ensures forall q :: 0 <= q < p ==> |([longest] + rest)[q]| < |([longest] + rest)[p]|
    decreases |rest|
  {
    var xs := [longest] + rest;
    if rest == [] {
      p := 0;
    } else {
      var current := rest[0];
      var next := if |current| > |longest| then current else longest;
      var ys := [next] + rest[1..];
      var p' := FoldLongestIsFirstLongest(next, rest[1..]);
      assert forall q :: 2 <= q < |xs| ==> xs[q] == ys[q - 1];
      if |current| > |longest| {
        p := if p' == 0 then 1 else p' + 1;
        assert xs[1] == ys[0];
      } else {
        p := if p' == 0 then 0 else p' + 1;
        assert xs[0] == ys[0];
      }
      assert xs[p] == ys[p'];
      assert |ys[0]| <= |ys[p']|;
      forall q | 0 <= q < p
        ensures |xs[q]| < |xs[p]|
      {
        if q >= 2 {
          assert xs[q] == ys[q - 1];
        }
      }
    }
  }

  /** `reduce` picks the first longest match. */
  lemma ReduceIsFirstLongest(ms: seq<string>) returns (p: nat)
    requires |ms| > 0
    ensures p < |ms| && Reduce(ms) == ms[p]
    ensures forall q :: 0 <= q < |ms| ==> |ms[q]| <= |ms[p]|
    ensures forall q :: 0 <= q < p ==> |ms[q]| < |ms[p]|
  {
    assert [ms[0]] + ms[1..] == ms;
    p := FoldLongestIsFirstLongest(ms[0], ms[1..]);
  }

  /** `extractLongestNumber(input)`: `undefined` when `match` finds nothing, otherwise the reduced match. */
  function ExtractLongestNumber(input: string): (r: Option<string>)
    ensures r.None? <==> NoDigits(input)
    ensures r.Some? ==> r.value in Matches(input)
  {
    MatchesEmptyIff(input);
    var matches := Matches(input);
    if |matches| == 0 then None
    else
      Some(Reduce(matches))
  }

  /**
   * The independent description of the answer: s[i..j] is a maximal run of digits,
   * no maximal run is longer, and every maximal run that starts earlier is strictly shorter.
   */
  ghost predicate FirstLongestRun(s: string, i: int, j: int)
  {
    && IsRun(s, i, j)
    && (forall i', j' :: IsRun(s, i', j') ==> j' - i' <= j - i)
    && (forall i', j' :: IsRun(s, i', j') && i' < i ==> j' - i' < j - i)
  }

  /** At most one run of a string is its first longest run. */
  lemma FirstLongestRunUnique(s: string, i: int, j: int, i': int, j': int)
    requires FirstLongestRun(s, i, j) && FirstLongestRun(s, i', j')
    ensures i == i' && j == j'
  {
  }

  /** When a digit is present, the result is the first longest maximal run, copied verbatim. */
  lemma ExtractIsFirstLongestRun(s: string) returns (i: nat, j: nat)
    requires ExtractLongestNumber(s).Some?
    ensures FirstLongestRun(s, i, j)
    ensures ExtractLongestNumber(s).value == s[i..j]
  {
    var sp := Spans(s);
    var ms := Matches(s);
    var p := ReduceIsFirstLongest(ms);
    i, j := sp[p].start, sp[p].end;
    forall i', j' | IsRun(s, i', j')
      ensures j' - i' <= j - i
      ensures i' < i ==> j' - i' < j - i
    {
      assert Span(i', j') in sp;
      var q :| 0 <= q < |sp| && sp[q] == Span(i', j');
      assert |ms[q]| == j' - i';
      if i' < i {
        assert q < p;
      }
    }
  }

  /** Conversely, whenever s[i..j] is the first longest run, that is what is returned. */
  lemma ExtractFromFirstLongestRun(s: string, i: int, j: int)
    requires FirstLongestRun(s, i, j)
    ensures ExtractLongestNumber(s) == Some(s[i..j])
  {
    assert IsDigit(s[i]);
    var i', j' := ExtractIsFirstLongestRun(s);
    FirstLongestRunUnique(s, i, j, i', j');
  }

  /** The result is a non-empty string of digits, no shorter than any match. */
  lemma ExtractIsLongestDigitString(s: string)
    requires ExtractLongestNumber(s).Some?
    ensures |ExtractLongestNumber(s).value| > 0
    ensures AllDigits(ExtractLongestNumber(s).value)
    ensures forall m :: m in Matches(s) ==> |m| <= |ExtractLongestNumber(s).value|
  {
    var i, j := ExtractIsFirstLongestRun(s);
    var r := ExtractLongestNumber(s).value;
    assert forall k :: 0 <= k < |r| ==> r[k] == s[i + k];
    forall m | m in Matches(s)
      ensures |m| <= |r|
    {
      var q :| 0 <= q < |Matches(s)| && Matches(s)[q] == m;
      assert IsRun(s, Spans(s)[q].start, Spans(s)[q].end);
    }
  }

  /** A non-empty string of digits is one run, and all of it is returned. */
  lemma ExtractAllDigits(s: string)
    requires |s| > 0 && AllDigits(s)
    ensures ExtractLongestNumber(s) == Some(s)
  {
    var i, j := ExtractIsFirstLongestRun(s);
    assert i == 0 && j == |s|;
    assert s[i..j] == s;
  }

  /** Extracting again from the extracted number gives the same number. */
  lemma ExtractIdempotent(s: string)
    requires ExtractLongestNumber(s).Some?
    ensures ExtractLongestNumber(ExtractLongestNumber(s).value) == ExtractLongestNumber(s)
  {
    ExtractIsLongestDigitString(s);
    ExtractAllDigits(ExtractLongestNumber(s).value);
  }

  /**
   * A string whose digits all lie in one maximal run s[i..j] has that run as its number.
   * Used for text built around a number, such as a generated namespace line.
   */
  lemma ExtractSoleRun(s: string, i: int, j: int)
    requires IsRun(s, i, j)
    requires forall k :: 0 <= k < |s| && IsDigit(s[k]) ==> i <= k < j
    ensures ExtractLongestNumber(s) == Some(s[i..j])
  {
    forall i', j' | IsRun(s, i', j')
      ensures i' == i && j' == j
    {
      assert IsDigit(s[i']);
    }
    ExtractFromFirstLongestRun(s, i, j);
  }
}

module ExtractorExamples {
  import opened Wrappers
  import opened DigitRuns
  import opened Extractor

  /** Of the runs "12" and "345", the longer one is returned. */
  lemma LongerRunWins()
    ensures ExtractLongestNumber("a12bb345c") == Some("345")
  {
    var s := "a12bb345c";
    forall i, j | IsRun(s, i, j)
      ensures (i == 1 && j == 3) || (i == 5 && j == 8)
    {
      assert IsDigit(s[i]);
      assert i == 1 || i == 5;
      assert i == 1 && j > 3 ==> IsDigit(s[3]);
      assert IsDigit(s[6]) && IsDigit(s[7]);
      assert i == 5 && j > 8 ==> IsDigit(s[8]);
    }
    assert s[5..8] == "345";
    ExtractFromFirstLongestRun(s, 5, 8);
  }

  /** Of the equally long runs "12" and "34", the first one is returned. */
  lemma FirstRunWinsTie()
    ensures ExtractLongestNumber("a12b34c") == Some("12")
  {
    var s := "a12b34c";
    forall i, j | IsRun(s, i, j)
      ensures (i == 1 && j == 3) || (i == 4 && j == 6)
    {
      assert IsDigit(s[i]);
      assert i == 1 || i == 4;
      assert i == 1 && j > 3 ==> IsDigit(s[3]);
      assert i == 4 && j > 6 ==> IsDigit(s[6]);
    }
    assert s[1..3] == "12";
    ExtractFromFirstLongestRun(s, 1, 3);
  }

  /** Leading zeros are kept. */
  lemma LeadingZerosKept()
    ensures ExtractLongestNumber("p007x") == Some("007")
  {
    var s := "p007x";
    assert s[1..4] == "007";
    ExtractSoleRun(s, 1, 4);
  }

  /** A name without digits, and the empty string, have no number. */
  lemma NoNumberWithoutDigits()
    ensures ExtractLongestNumber("Solution") == None
    ensures ExtractLongestNumber("") == None
  {
  }

  /** A string of digits is its own number. */
  lemma DigitsAreTheirOwnNumber()
    ensures ExtractLongestNumber("42") == Some("42")
  {
    ExtractAllDigits("42");
  }
}
