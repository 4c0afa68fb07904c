/**
 * Awkwardness features of a dialogue (`awkward_score.py`): how much one
 * speaker dominates the conversation, and how many messages are bare
 * acknowledgements or reactions. A dialogue is a list of message strings;
 * a message of the form "speaker: text" names its speaker.
 */
module Awkward {
  import opened Wrappers
  import opened Text
  import opened Rounding

  // ---------------------------------------------------------------------------
  // Response ratio

  /** `msg.split(":")[0].strip()`. */
  function Speaker(msg: string): (who: string)
    ensures ':' !in who
  {
    var field := SplitOn(msg, ':')[0];
    StripSpec(field);
    Strip(field)
  }

  /** The speaker is the stripped text in front of the first colon. */
  lemma SpeakerBeforeFirstColon(msg: string)
    ensures Speaker(msg) == Strip(msg[..IndexOf(msg, ':')])
  {
    FirstFieldBeforeSeparator(msg, ':');
  }

  /** `[Speaker(msg) for msg in dialogue if ":" in msg]`. */
  function Speakers(dialogue: seq<string>): (r: seq<string>)
    ensures |r| <= |dialogue|
  {
    if dialogue == [] then []
    else (if ':' in dialogue[0] then [Speaker(dialogue[0])] else []) + Speakers(dialogue[1..])
  }

  /** The number of messages that contain a colon. */
  function WithColon(dialogue: seq<string>): nat {
    if dialogue == [] then 0
    else (if ':' in dialogue[0] then 1 else 0) + WithColon(dialogue[1..])
  }

  /**
   * One speaker per message that contains a colon, taken from such a
   * message, and every such message contributes its speaker.
   */
  lemma {:induction false} SpeakersSpec(dialogue: seq<string>)
    ensures |Speakers(dialogue)| == WithColon(dialogue)
    ensures forall w :: w in Speakers(dialogue) ==> exists m :: m in dialogue && ':' in m && w == Speaker(m)
    ensures forall m :: m in dialogue && ':' in m ==> Speaker(m) in Speakers(dialogue)
  {
    if dialogue != [] {
      SpeakersSpec(dialogue[1..]);
      assert dialogue == [dialogue[0]] + dialogue[1..];
    }
  }

  /** The distinct elements of `s` (the keys of `Counter(s)`). */
  function Elems(s: seq<string>): set<string> {
    set x | x in s
  }

  /** The largest count among the elements `s[..k]` (0 when k is 0). */
  function MaxCountAmong(s: seq<string>, k: nat): (m: nat)
    requires k <= |s|
    ensures forall i :: 0 <= i < k ==> multiset(s)[s[i]] <= m
    ensures k > 0 ==> exists i :: 0 <= i < k && multiset(s)[s[i]] == m
    ensures k == 0 ==> m == 0
  {
    if k == 0 then 0
    else
      var prev := MaxCountAmong(s, k - 1);
      var c := multiset(s)[s[k - 1]];
      if c > prev then c else prev
  }

  /** `max(Counter(s).values())`: the count of the most frequent element. */
  function MaxCount(s: seq<string>): (m: nat)
    ensures forall x :: multiset(s)[x] <= m
    ensures s != [] ==> exists x :: x in s && multiset(s)[x] == m
    ensures s == [] ==> m == 0
    ensures s != [] ==> 1 <= m <= |s|
  {
    var m := MaxCountAmong(s, |s|);
    CountsWithinLength(s);
    assert forall x :: x in s ==> multiset(s)[x] <= m by {
      forall x | x in s ensures multiset(s)[x] <= m {
        var i :| 0 <= i < |s| && s[i] == x;
      }
    }
    m
  }

  /** Every element of a sequence occurs at least once and at most its length many times. */
  lemma CountsWithinLength(s: seq<string>)
    ensures forall i :: 0 <= i < |s| ==> 1 <= multiset(s)[s[i]] <= |s|
  {
    forall i | 0 <= i < |s| ensures 1 <= multiset(s)[s[i]] <= |s| {
      assert s[i] in multiset(s);
      assert multiset(s)[s[i]] <= |multiset(s)|;
    }
  }

  /**
   * `get_response_ratio` before `round(_, 2)`: 0 without speakers; with a
   * speaker the top speaker's share, in (0, 1] and at least one over the
   * number of distinct speakers.
   */
  function ResponseRatio(dialogue: seq<string>): (r: real)
    ensures Speakers(dialogue) == [] ==> r == 0.0
    ensures Speakers(dialogue) != [] ==>
              && |Elems(Speakers(dialogue))| > 0
              && 0.0 < r <= 1.0
              && r >= Share(1, |Elems(Speakers(dialogue))|)
  {
    var speakers := Speakers(dialogue);
    if speakers == [] then 0.0
    else
      TopShareBounds(speakers);
      Share(MaxCount(speakers), |speakers|)
  }

  /**
   * `get_response_ratio`: the ratio rounded to two decimals, 0 without
   * speakers, otherwise in [0, 1] and within half a hundredth of the share.
   */
  function GetResponseRatio(dialogue: seq<string>): (r: real)
    ensures Speakers(dialogue) == [] ==> r == 0.0
    ensures 0.0 <= r <= 1.0
    ensures -0.005 <= r - ResponseRatio(dialogue) <= 0.005
  {
    Round2OfHundredths(0);
    Round2Between(ResponseRatio(dialogue), 0, 1);
    Round2(ResponseRatio(dialogue))
  }

  /** `count / total` as a fraction. */
  function Share(count: nat, total: nat): real
    requires total > 0
  {
    count as real / total as real
  }

  /** `s` without any copy of `x`. */
  function Without(s: seq<string>, x: string): (r: seq<string>)
    ensures multiset(r)[x] == 0
    ensures forall y :: y != x ==> multiset(r)[y] == multiset(s)[y]
    ensures |r| + multiset(s)[x] == |s|
    ensures forall y :: y in r <==> y in s && y != x
  {
    if s == [] then []
    else
      assert s == [s[0]] + s[1..];
      (if s[0] == x then [] else [s[0]]) + Without(s[1..], x)
  }

  /** A sequence is no longer than its number of distinct elements times its largest count. */
  lemma {:induction false} LengthAtMostDistinctTimesMax(s: seq<string>, m: nat)
    requires forall y :: multiset(s)[y] <= m
    ensures |s| <= |Elems(s)| * m
    decreases |s|
  {
    if s != [] {
      var x := s[0];
      var r := Without(s, x);
      LengthAtMostDistinctTimesMax(r, m);
      assert Elems(r) == Elems(s) - {x};
      var d := |Elems(s)|;
      assert |Elems(r)| == d - 1;
      assert (d - 1) * m + m == d * m by { MulStep(d, m); }
      assert |s| == |r| + multiset(s)[x];
    }
  }

  lemma MulStep(d: nat, m: nat)
    requires d >= 1
    ensures (d - 1) * m + m == d * m
  {
  }

  /** With no message naming a speaker the ratio is 0. */
  lemma NoSpeakersNoRatio(dialogue: seq<string>)
    requires forall m :: m in dialogue ==> ':' !in m
    ensures ResponseRatio(dialogue) == 0.0
  {
    SpeakersSpec(dialogue);
    assert WithColon(dialogue) == 0 by { NoColonCount(dialogue); }
  }

  lemma {:induction false} NoColonCount(dialogue: seq<string>)
    requires forall m :: m in dialogue ==> ':' !in m
    ensures WithColon(dialogue) == 0
  {
    if dialogue != [] {
      assert dialogue[0] in dialogue;
      NoColonCount(dialogue[1..]);
    }
  }

  /** The top element's share of a non-empty sequence. */
  lemma TopShareBounds(s: seq<string>)
    requires s != []
    ensures |Elems(s)| > 0
    ensures 0.0 < Share(MaxCount(s), |s|) <= 1.0
    ensures Share(MaxCount(s), |s|) >= Share(1, |Elems(s)|)
  {
    var m := MaxCount(s);
    assert s[0] in Elems(s);
    LengthAtMostDistinctTimesMax(s, m);
    ShareBounds(m, |s|, |Elems(s)|);
  }

  /** A count m of n, where n is at most d times m, is a share in (0, 1] of at least 1/d. */
  lemma ShareBounds(m: nat, n: nat, d: nat)
    requires 1 <= m <= n && n <= d * m
    ensures d > 0
    ensures 0.0 < Share(m, n) <= 1.0
    ensures Share(m, n) >= Share(1, d)
  {
    var nr, mr, dr := n as real, m as real, d as real;
    assert (d * m) as real == dr * mr;
    assert Share(m, n) * dr == (dr * mr) / nr;
    QuotientAtLeastOne(dr * mr, nr);
    ScaleDown(Share(m, n), dr);
    assert Share(1, d) == 1.0 / dr;
    RatioAtMostOne(m, n);
  }

  /** x * d >= 1 with d > 0 gives x >= 1 / d. */
  lemma ScaleDown(x: real, d: real)
    requires d > 0.0 && x * d >= 1.0
    ensures x >= 1.0 / d
  {
    var q := 1.0 / d;
    assert q * d == 1.0;
    assert (x - q) * d == x * d - 1.0;
  }

  lemma QuotientAtLeastOne(p: real, n: real)
    requires n > 0.0 && p >= n
    ensures p / n >= 1.0
  {
    var q := p / n;
    assert q * n == p;
    assert (q - 1.0) * n == p - n;
  }

  // ---------------------------------------------------------------------------
  // Acknowledgement / reaction ratio

  const AcknowledgementWords: set<string> := {"ㅇㅇ", "넹", "아", "그렇구나", "응", "오"}
  const ReactionWords: set<string> := {"헐", "ㅋㅋ", "ㅎㅎ", "와", "우와", "엥"}

  /** The number of messages whose stripped text is one of `words`. */
  function CountIn(dialogue: seq<string>, words: set<string>): (n: nat)
    ensures n <= |dialogue|
  {
    if dialogue == [] then 0
    else (if Strip(dialogue[0]) in words then 1 else 0) + CountIn(dialogue[1..], words)
  }

  /** `len(dialogue) == 0` raises `ZeroDivisionError`. */
  datatype RatioError = ZeroDivision

  /** `get_ack_react_ratio`. */
  function AckReactRatio(dialogue: seq<string>): (r: Result<real, RatioError>)
    ensures r.Failure? <==> dialogue == []
  {
    if dialogue == [] then Failure(ZeroDivision)
    else
      Success((CountIn(dialogue, AcknowledgementWords) + CountIn(dialogue, ReactionWords)) as real
              / |dialogue| as real)
  }

  /** Counting against two disjoint word sets counts against their union. */
  lemma {:induction false} CountInDisjointUnion(dialogue: seq<string>, a: set<string>, b: set<string>)
    requires a !! b
    ensures CountIn(dialogue, a) + CountIn(dialogue, b) == CountIn(dialogue, a + b)
  {
    if dialogue != [] {
      CountInDisjointUnion(dialogue[1..], a, b);
    }
  }

  /** The two word sets share no word, so every message adds at most one to the numerator. */
  lemma AtMostOneWordPerMessage(dialogue: seq<string>)
    ensures CountIn(dialogue, AcknowledgementWords) + CountIn(dialogue, ReactionWords) <= |dialogue|
  {
    WordSetsDisjoint();
    CountInDisjointUnion(dialogue, AcknowledgementWords, ReactionWords);
  }

  /** The ratio of a non-empty dialogue lies in [0, 1]. */
  lemma AckReactRatioBounds(dialogue: seq<string>)
    requires dialogue != []
    ensures 0.0 <= AckReactRatio(dialogue).value <= 1.0
  {
    AtMostOneWordPerMessage(dialogue);
    RatioAtMostOne(CountIn(dialogue, AcknowledgementWords) + CountIn(dialogue, ReactionWords), |dialogue|);
  }

  lemma WordSetsDisjoint()
    ensures AcknowledgementWords !! ReactionWords
  {
  }

  lemma RatioAtMostOne(k: nat, n: nat)
    requires 0 < n && k <= n
    ensures 0.0 <= k as real / n as real <= 1.0
  {
  }
}
