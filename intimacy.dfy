/**
 * Sliding-window intimacy averaging (`classify_avg_score_from_pairs`).
 * The score head, the sigmoid and the scaling by 8 are one oracle
 * `pairScore` on the text of a pair.
 */
module Intimacy {
  import opened Text
  import opened Rounding

  /** The text given to the model for one pair: `a.strip() + " [SEP] " + b.strip()`. */
  function PairText(a: string, b: string): string {
    Strip(a) + " [SEP] " + Strip(b)
  }

  /** `[(m[i], m[i + 1]) for i in range(len(m) - 1)]`: adjacent pairs only. */
  function Pairs(ms: seq<string>): (ps: seq<(string, string)>)
    ensures |ps| == if |ms| == 0 then 0 else |ms| - 1
    ensures forall i :: 0 <= i < |ps| ==> ps[i] == (ms[i], ms[i + 1])
  {
    if |ms| < 2 then []
    else seq(|ms| - 1, i requires 0 <= i < |ms| - 1 => (ms[i], ms[i + 1]))
  }

  /** Adding a message at the end adds exactly one pair, made with the previous last message. */
  lemma PairsSnoc(ms: seq<string>, m: string)
    requires ms != []
    ensures Pairs(ms + [m]) == Pairs(ms) + [(ms[|ms| - 1], m)]
  {
    var l := Pairs(ms + [m]);
    var r := Pairs(ms) + [(ms[|ms| - 1], m)];
    assert |l| == |r|;
    forall i | 0 <= i < |l| ensures l[i] == r[i] {
      if i < |ms| - 1 { assert (ms + [m])[i + 1] == ms[i + 1]; }
    }
  }

  function Sum(xs: seq<real>): real {
    if xs == [] then 0.0 else Sum(xs[..|xs| - 1]) + xs[|xs| - 1]
  }

  /** The score of every adjacent pair, in order. */
  function PairScores(ms: seq<string>, pairScore: string -> real): (ss: seq<real>)
    ensures |ss| == |Pairs(ms)|
  {
    seq(|Pairs(ms)|, i requires 0 <= i < |Pairs(ms)| => pairScore(PairText(Pairs(ms)[i].0, Pairs(ms)[i].1)))
  }

  /** The mean pair score, before rounding: 0.0 for fewer than two messages, else the sum over the number of pairs. */
  function AverageScore(ms: seq<string>, pairScore: string -> real): (r: real)
    ensures |ms| < 2 ==> r == 0.0
    ensures |ms| >= 2 ==> r * (|Pairs(ms)| as real) == Sum(PairScores(ms, pairScore))
  {
    if |ms| < 2 then 0.0 else Sum(PairScores(ms, pairScore)) / ((|ms| - 1) as real)
  }

  /**
   * What `classify_avg_score_from_pairs` returns: the mean rounded to two
   * decimals, within half a hundredth of it, and 0.0 for fewer than two
   * messages.
   */
  function IntimacyScore(ms: seq<string>, pairScore: string -> real): (r: real)
    ensures |ms| < 2 ==> r == 0.0
    ensures -0.005 <= r - AverageScore(ms, pairScore) <= 0.005
  {
    Round2OfHundredths(0);
    Round2(AverageScore(ms, pairScore))
  }

  /** Below two messages the result does not depend on the scorer at all. */
  lemma NoPairsNoScore(ms: seq<string>, f: string -> real, g: string -> real)
    requires |ms| < 2
    ensures Pairs(ms) == [] && AverageScore(ms, f) == AverageScore(ms, g) == 0.0
  {
  }

  lemma {:induction false} SumBounds(xs: seq<real>, lo: real, hi: real)
    requires forall i :: 0 <= i < |xs| ==> lo <= xs[i] <= hi
    ensures lo * (|xs| as real) <= Sum(xs) <= hi * (|xs| as real)
  {
    if xs != [] {
      SumBounds(xs[..|xs| - 1], lo, hi);
      assert (|xs| as real) == ((|xs| - 1) as real) + 1.0;
    }
  }

  /** When every pair score lies in [0, 8] (sigmoid times 8), so does the average. */
  lemma AverageInRange(ms: seq<string>, pairScore: string -> real)
    requires forall t :: 0.0 <= pairScore(t) <= 8.0
    ensures 0.0 <= AverageScore(ms, pairScore) <= 8.0
    ensures 0.0 <= IntimacyScore(ms, pairScore) <= 8.0
  {
    if |ms| >= 2 {
      PairScoresInRange(ms, pairScore);
      MeanInRange(PairScores(ms, pairScore));
    }
    Round2Between(AverageScore(ms, pairScore), 0, 8);
  }

  lemma PairScoresInRange(ms: seq<string>, pairScore: string -> real)
    requires forall t :: 0.0 <= pairScore(t) <= 8.0
    ensures |PairScores(ms, pairScore)| == if |ms| == 0 then 0 else |ms| - 1
    ensures forall i :: 0 <= i < |PairScores(ms, pairScore)| ==> 0.0 <= PairScores(ms, pairScore)[i] <= 8.0
  {
    var ss := PairScores(ms, pairScore);
    forall i | 0 <= i < |ss| ensures 0.0 <= ss[i] <= 8.0 {
      var p := Pairs(ms)[i];
      assert ss[i] == pairScore(PairText(p.0, p.1));
    }
  }

  /** The mean of scores in [0, 8] lies in [0, 8]. */
  lemma MeanInRange(ss: seq<real>)
    requires ss != []
    requires forall i :: 0 <= i < |ss| ==> 0.0 <= ss[i] <= 8.0
    ensures 0.0 <= Sum(ss) / (|ss| as real) <= 8.0
  {
    SumBounds(ss, 0.0, 8.0);
    MeanBounds(Sum(ss), |ss| as real, 0.0, 8.0);
  }

  lemma MeanBounds(total: real, n: real, lo: real, hi: real)
    requires n > 0.0 && lo * n <= total <= hi * n
    ensures lo <= total / n <= hi
  {
    assert total / n * n == total;
  }

  /** The loop of `classify_avg_score_from_pairs`, collecting one score per adjacent pair. */
  method AvgScoreFromPairs(ms: seq<string>, pairScore: string -> real) returns (avg: real)
    ensures avg == IntimacyScore(ms, pairScore)
  {
    if |ms| < 2 {
      return 0.0;
    }
    var pairs := Pairs(ms);
    var scores: seq<real> := [];
    var i := 0;
    while i < |pairs|
      invariant 0 <= i <= |pairs|
      invariant scores == PairScores(ms, pairScore)[..i]
    {
      var (a, b) := pairs[i];
      scores := scores + [pairScore(PairText(a, b))];
      i := i + 1;
    }
    assert scores == PairScores(ms, pairScore);
    avg := Round2(if |scores| > 0 then Sum(scores) / (|scores| as real) else 0.0);
  }
}
