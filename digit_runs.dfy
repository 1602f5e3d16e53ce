/**
 * The matches of the global regular expression `/\d+/g` over a string.
 * Without the `u` flag, `\d` is the ASCII class `[0-9]`; a global match scans
 * left to right, takes the leftmost match, extends it greedily and resumes
 * right after it, so the matches are exactly the maximal runs of digits.
 */
module DigitRuns {

  /** `\d`: an ASCII decimal digit. */
  predicate IsDigit(c: char)
  {
    '0' <= c <= '9'
  }

  predicate NoDigits(s: string)
  {
    forall k :: 0 <= k < |s| ==> !IsDigit(s[k])
  }

  predicate AllDigits(s: string)
  {
    forall k :: 0 <= k < |s| ==> IsDigit(s[k])
  }

  /** s[i..j] is a maximal run of digits: non-empty, all digits, with no digit just before or just after it. */
  predicate IsRun(s: string, i: int, j: int)
  {
    && 0 <= i < j <= |s|
    && (forall k :: i <= k < j ==> IsDigit(s[k]))
    && (i == 0 || !IsDigit(s[i - 1]))
    && (j == |s| || !IsDigit(s[j]))
  }

  /** Position k lies strictly inside a run of digits (a digit on each side of the gap before s[k]). */
  predicate InsideRun(s: string, k: int)
  {
    0 < k < |s| && IsDigit(s[k - 1]) && IsDigit(s[k])
  }

  /** A match as the half-open index range [start, end) of the input. */
  datatype Span = Span(start: nat, end: nat)

  /** Where the greedy `\d+` that starts at i stops: the first non-digit at or after i, or the end of s. */
  function RunEnd(s: string, i: nat): (e: nat)
    requires i <= |s|
    ensures i <= e <= |s|
    ensures forall k :: i <= k < e ==> IsDigit(s[k])
    ensures e == |s| || !IsDigit(s[e])
    decreases |s| - i
  {
    if i == |s| || !IsDigit(s[i]) then i else RunEnd(s, i + 1)
  }

  /**
   * The matches of `/\d+/g` found by scanning s from position k: every one is a
   * maximal run, they come in left-to-right order without overlap, and every
   * maximal run that starts at or after k is among them.
   */
  function SpansFrom(s: string, k: nat): (r: seq<Span>)
    requires k <= |s|
    requires !InsideRun(s, k)
    ensures forall p :: 0 <= p < |r| ==> k <= r[p].start && IsRun(s, r[p].start, r[p].end)
    ensures forall p, q :: 0 <= p < q < |r| ==> r[p].end < r[q].start
    ensures forall i, j :: k <= i && IsRun(s, i, j) ==> Span(i, j) in r
    decreases |s| - k
  {
    if k == |s| then []
    else if !IsDigit(s[k]) then SpansFrom(s, k + 1)
    else
      var e := RunEnd(s, k);
      var rest := SpansFrom(s, e);
      assert forall i, j :: k <= i && IsRun(s, i, j) ==> i == k || e <= i;
      assert forall q :: 0 <= q < |rest| ==> e < rest[q].start;
      [Span(k, e)] + rest
  }

  function Spans(s: string): seq<Span>
  {
    SpansFrom(s, 0)
  }

  /** `input.match(/\d+/g)`, with the `null` of "no match" written as the empty sequence. */
  function Matches(s: string): (ms: seq<string>)
    ensures |ms| == |Spans(s)|
    ensures forall p :: 0 <= p < |ms| ==>
      IsRun(s, Spans(s)[p].start, Spans(s)[p].end) && ms[p] == s[Spans(s)[p].start..Spans(s)[p].end]
    ensures forall p :: 0 <= p < |ms| - 1 ==> Spans(s)[p].end < Spans(s)[p + 1].start
  {
    var sp := Spans(s);
    seq(|sp|, p requires 0 <= p < |sp| => s[sp[p].start..sp[p].end])
  }

  /** The text of every maximal run of digits is among the matches. */
  lemma EveryRunIsMatched(s: string, i: int, j: int)
    requires IsRun(s, i, j)
    ensures s[i..j] in Matches(s)
  {
    var q :| 0 <= q < |Spans(s)| && Spans(s)[q] == Span(i, j);
    assert Matches(s)[q] == s[i..j];
  }

  /** Every digit of s sits inside some maximal run. */
  lemma {:induction false} RunAround(s: string, k: nat) returns (i: nat, j: nat)
    requires k < |s| && IsDigit(s[k])
    ensures IsRun(s, i, j) && i <= k < j
  {
    if k == 0 || !IsDigit(s[k - 1]) {
      i, j := k, RunEnd(s, k);
    } else {
      i, j := RunAround(s, k - 1);
      assert j != k;
    }
  }

  /** `match` returns `null` exactly when the input holds no ASCII digit. */
  lemma MatchesEmptyIff(s: string)
    ensures |Matches(s)| == 0 <==> NoDigits(s)
  {
    assert |Spans(s)| > 0 ==> IsDigit(s[Spans(s)[0].start]);
    if !NoDigits(s) {
      var k :| 0 <= k < |s| && IsDigit(s[k]);
      var i, j := RunAround(s, k);
      assert Span(i, j) in Spans(s);
    }
  }
}
