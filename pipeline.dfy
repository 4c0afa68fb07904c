/**
 * The per-date drivers: the parsed chat is visited date by date in
 * ascending key order, each date's messages are filtered by the validity
 * predicate, and a date left with no message is skipped. The inference
 * script then classifies the date's topic, averages its intimacy, weighs its
 * keywords and ranks products; the training-side script only weighs
 * keywords. Printing is left out: each driver returns what it prints.
 */
module Pipeline {
  import opened Wrappers
  import opened Text
  import opened Ordering
  import opened Validity
  import ChatParser
  import Topic
  import Intimacy
  import Keywords
  import EmbeddingCache
  import Recommender

  /** The keys of the message map, once each, in no particular order. */
  method KeysOf(byDate: map<string, seq<string>>) returns (ks: seq<string>)
    ensures Distinct(ks)
    ensures forall d :: d in ks <==> d in byDate
  {
    ks := [];
    var rest := byDate.Keys;
    while rest != {}
      invariant rest <= byDate.Keys
      invariant Distinct(ks)
      invariant forall d :: d in ks <==> d in byDate && d !in rest
      decreases |rest|
    {
      var d :| d in rest;
      ks := ks + [d];
      rest := rest - {d};
    }
  }

  /** The batches of the dates `dates`, in their order: each date with its valid messages, dates with none skipped. */
  function Batches(dates: seq<string>, byDate: map<string, seq<string>>): seq<(string, seq<string>)>
    requires forall d :: d in dates ==> d in byDate
  {
    if dates == [] then []
    else
      var prev := Batches(dates[..|dates| - 1], byDate);
      var d := dates[|dates| - 1];
      var msgs := ValidMessages(byDate[d]);
      if msgs == [] then prev else prev + [(d, msgs)]
  }

  /** Each batch is one of `dates` with its valid messages, never none. */
  predicate BatchesOf(bs: seq<(string, seq<string>)>, dates: seq<string>, byDate: map<string, seq<string>>) {
    forall a :: 0 <= a < |bs| ==>
      bs[a].0 in dates && bs[a].0 in byDate && bs[a].1 == ValidMessages(byDate[bs[a].0]) && bs[a].1 != []
  }

  predicate IncreasingDates(bs: seq<(string, seq<string>)>) {
    forall a, b :: 0 <= a < b < |bs| ==> StrLess(bs[a].0, bs[b].0)
  }

  /** Every batch is one of the dates with its valid messages, never none. */
  lemma {:induction false} BatchesSound(dates: seq<string>, byDate: map<string, seq<string>>)
    requires forall d :: d in dates ==> d in byDate
    ensures BatchesOf(Batches(dates, byDate), dates, byDate)
  {
    if dates != [] {
      var init := dates[..|dates| - 1];
      var last := dates[|dates| - 1];
      BatchesSound(init, byDate);
      var prev := Batches(init, byDate);
      var bs := Batches(dates, byDate);
      assert bs == prev || bs == prev + [(last, ValidMessages(byDate[last]))];
      forall a | 0 <= a < |bs|
        ensures bs[a].0 in dates && bs[a].0 in byDate && bs[a].1 == ValidMessages(byDate[bs[a].0]) && bs[a].1 != []
      {
        if a < |prev| {
          assert bs[a] == prev[a];
          assert prev[a].0 in init;
        }
      }
    }
  }

  /** Strictly increasing dates give strictly increasing batches. */
  lemma {:induction false} BatchesIncreasing(dates: seq<string>, byDate: map<string, seq<string>>)
    requires forall d :: d in dates ==> d in byDate
    requires forall i, j :: 0 <= i < j < |dates| ==> StrLess(dates[i], dates[j])
    ensures IncreasingDates(Batches(dates, byDate))
  {
    if dates != [] {
      var init := dates[..|dates| - 1];
      var last := dates[|dates| - 1];
      assert forall k :: 0 <= k < |init| ==> init[k] == dates[k];
      BatchesIncreasing(init, byDate);
      BatchesSound(init, byDate);
      var prev := Batches(init, byDate);
      forall a | 0 <= a < |prev| ensures StrLess(prev[a].0, last) {
        assert prev[a].0 in init;
        var k :| 0 <= k < |init| && init[k] == prev[a].0;
        assert StrLess(dates[k], dates[|dates| - 1]);
      }
      var bs := Batches(dates, byDate);
      assert bs == prev || bs == prev + [(last, ValidMessages(byDate[last]))];
      forall a, b | 0 <= a < b < |bs| ensures StrLess(bs[a].0, bs[b].0) {
        assert bs[a] == prev[a];
        if b < |prev| {
          assert bs[b] == prev[b];
        }
      }
    }
  }

  /** Every date with a valid message has a batch. */
  lemma {:induction false} BatchesComplete(dates: seq<string>, byDate: map<string, seq<string>>, d: string)
    requires forall d :: d in dates ==> d in byDate
    requires d in dates && ValidMessages(byDate[d]) != []
    ensures exists a :: 0 <= a < |Batches(dates, byDate)| && Batches(dates, byDate)[a].0 == d
  {
    var init := dates[..|dates| - 1];
    var prev := Batches(init, byDate);
    if d == dates[|dates| - 1] {
      assert Batches(dates, byDate)[|prev|].0 == d;
    } else {
      assert dates == init + [dates[|dates| - 1]];
      BatchesComplete(init, byDate, d);
      var a :| 0 <= a < |prev| && prev[a].0 == d;
      assert Batches(dates, byDate)[a] == prev[a];
    }
  }

  /** The loop over the sorted dates. */
  method CollectBatches(dates: seq<string>, byDate: map<string, seq<string>>)
    returns (batches: seq<(string, seq<string>)>)
    requires forall d :: d in dates ==> d in byDate
    ensures batches == Batches(dates, byDate)
  {
    batches := [];
    var i := 0;
    while i < |dates|
      invariant 0 <= i <= |dates|
      invariant batches == Batches(dates[..i], byDate)
    {
      assert dates[..i + 1][..i] == dates[..i];
      var date := dates[i];
      var msgs := ValidMessages(byDate[date]);
      if msgs != [] {
        batches := batches + [(date, msgs)];
      }
      i := i + 1;
    }
    assert dates[..i] == dates;
  }

  /**
   * `for date, messages in sorted(data_by_date.items())`, keeping the valid
   * messages and skipping a date with none: the batches come in strictly
   * increasing date order, each batch is a date of the map with its valid
   * messages (never none), and every date with a valid message has a batch.
   */
  method DateBatches(byDate: map<string, seq<string>>) returns (batches: seq<(string, seq<string>)>)
    ensures forall i, j :: 0 <= i < j < |batches| ==> StrLess(batches[i].0, batches[j].0)
    ensures forall i :: 0 <= i < |batches| ==>
              batches[i].0 in byDate && batches[i].1 == ValidMessages(byDate[batches[i].0]) && batches[i].1 != []
    ensures forall d :: d in byDate && ValidMessages(byDate[d]) != [] ==> exists i :: 0 <= i < |batches| && batches[i].0 == d
  {
    var keys := KeysOf(byDate);
    var dates := SortStrings(keys);
    PermutationKeepsDistinct(keys, dates);
    SortedDistinctIncreasing(dates);
    assert forall d :: d in dates <==> d in byDate by {
      forall d ensures d in dates <==> d in byDate {
        assert d in dates <==> d in multiset(dates);
        assert d in keys <==> d in multiset(keys);
      }
    }
    batches := CollectBatches(dates, byDate);
    BatchesSound(dates, byDate);
    BatchesIncreasing(dates, byDate);
    forall d | d in byDate && ValidMessages(byDate[d]) != []
      ensures exists i :: 0 <= i < |batches| && batches[i].0 == d
    {
      BatchesComplete(dates, byDate, d);
    }
  }

  // ---------------------------------------------------------------------------
  // The drivers

  /** The learned models and the file system, as the inference driver sees them. */
  datatype Models = Models(
    subjectOf: string -> int,                 // argmax of the topic model's subject head
    pairScore: string -> real,                // sigmoid(score head) * 8 on one pair's text
    interestLabels: seq<string> -> seq<int>,  // classify_interest_batch
    analyzer: Keywords.Analyzer,
    fileExists: string -> bool,
    load: string -> seq<EmbeddingCache.Product>,
    sim: (string, seq<real>) -> real)

  /** What the inference driver prints for one date (scores before rounding). */
  datatype Report = Report(
    date: string, subject: string, category: string, intimacy: real,
    keywords: seq<(string, real)>, recommendations: seq<(string, real)>)

  /**
   * One date's report: the topic of the joined text, the rounded pair
   * intimacy (in [0, 8] when every pair score is), at most five keywords and
   * at most five products, each list highest score first; the category is
   * one with a product file or the fallback 없음.
   */
  function DateReport(date: string, msgs: seq<string>, m: Models): (r: Report)
    ensures r.date == date
    ensures r.category in Topic.CategoryFiles || (r.category == Topic.NoCategory && r.subject == Topic.UnknownSubject)
    ensures -0.005 <= r.intimacy - Intimacy.AverageScore(msgs, m.pairScore) <= 0.005
    ensures (forall t :: 0.0 <= m.pairScore(t) <= 8.0) ==> 0.0 <= r.intimacy <= 8.0
    ensures |r.keywords| <= 5 && SortedDesc(r.keywords, Keywords.Score)
    ensures |r.recommendations| <= 5 && SortedDesc(r.recommendations, Recommender.SimOf)
  {
    var topic := Topic.ClassifyTopic(m.subjectOf(Join(msgs, " ")));
    var intimacy := Intimacy.IntimacyScore(msgs, m.pairScore);
    IntimacyInRange(msgs, m.pairScore);
    var keywords := Keywords.KeywordList(msgs, m.interestLabels(msgs), m.analyzer, Keywords.Inference);
    var recs := Recommender.Recommend(keywords, topic.1, intimacy, m.fileExists, m.load, m.sim);
    TakeSortedDesc(keywords, 5, Keywords.Score);
    TakeSortedDesc(recs, 5, Recommender.SimOf);
    Report(date, topic.0, topic.1, intimacy, Take(keywords, 5), Take(recs, 5))
  }

  lemma IntimacyInRange(msgs: seq<string>, pairScore: string -> real)
    ensures (forall t :: 0.0 <= pairScore(t) <= 8.0) ==> 0.0 <= Intimacy.IntimacyScore(msgs, pairScore) <= 8.0
  {
    if forall t :: 0.0 <= pairScore(t) <= 8.0 {
      Intimacy.AverageInRange(msgs, pairScore);
    }
  }

  /** One date of the inference driver, computed by the imperative routines. */
  method ReportDate(date: string, msgs: seq<string>, m: Models) returns (r: Report)
    ensures r == DateReport(date, msgs, m)
  {
    var topic := Topic.ClassifyTopic(m.subjectOf(Join(msgs, " ")));
    var intimacy := Intimacy.AvgScoreFromPairs(msgs, m.pairScore);
    var keywords := Keywords.ExtractInterestWeightedKeywords(msgs, m.interestLabels(msgs), m.analyzer, Keywords.Inference);
    var recs := Recommender.Recommend(keywords, topic.1, intimacy, m.fileExists, m.load, m.sim);
    r := Report(date, topic.0, topic.1, intimacy, Take(keywords, 5), Take(recs, 5));
  }

  /**
   * The inference script's main block: a parse failure (a message before any
   * date header) stops it; otherwise there is one report per date that has a
   * valid message, in strictly increasing date order, each computed from
   * that date's valid messages.
   */
  method RunInference(lines: seq<string>, m: Models) returns (r: Result<seq<Report>, ChatParser.ParseError>)
    ensures r.Failure? <==> ChatParser.Dialogues(lines).Failure?
    ensures r.Success? ==>
      var byDate := ChatParser.Dialogues(lines).value;
      && (forall i, j :: 0 <= i < j < |r.value| ==> StrLess(r.value[i].date, r.value[j].date))
      && (forall i :: 0 <= i < |r.value| ==>
            r.value[i].date in byDate && ValidMessages(byDate[r.value[i].date]) != []
            && r.value[i] == DateReport(r.value[i].date, ValidMessages(byDate[r.value[i].date]), m))
      && (forall d :: d in byDate && ValidMessages(byDate[d]) != [] ==>
            exists i :: 0 <= i < |r.value| && r.value[i].date == d)
  {
    var parsed := ChatParser.ExtractDialogues(lines);
    if parsed.Failure? {
      return Failure(parsed.error);
    }
    var batches := DateBatches(parsed.value);
    var reports := ReportAll(batches, m);
    ReportsOfBatches(parsed.value, batches, reports, m);
    r := Success(reports);
  }

  /** The reports of the date batches of byDate answer for exactly the dates with a valid message. */
  lemma ReportsOfBatches(byDate: map<string, seq<string>>, batches: seq<(string, seq<string>)>, reports: seq<Report>, m: Models)
    requires forall i, j :: 0 <= i < j < |batches| ==> StrLess(batches[i].0, batches[j].0)
    requires forall i :: 0 <= i < |batches| ==>
               batches[i].0 in byDate && batches[i].1 == ValidMessages(byDate[batches[i].0]) && batches[i].1 != []
    requires forall d :: d in byDate && ValidMessages(byDate[d]) != [] ==> exists i :: 0 <= i < |batches| && batches[i].0 == d
    requires |reports| == |batches|
    requires forall k :: 0 <= k < |batches| ==> reports[k] == DateReport(batches[k].0, batches[k].1, m)
    ensures forall i, j :: 0 <= i < j < |reports| ==> StrLess(reports[i].date, reports[j].date)
    ensures forall i :: 0 <= i < |reports| ==>
              reports[i].date in byDate && ValidMessages(byDate[reports[i].date]) != []
              && reports[i] == DateReport(reports[i].date, ValidMessages(byDate[reports[i].date]), m)
    ensures forall d :: d in byDate && ValidMessages(byDate[d]) != [] ==>
              exists i :: 0 <= i < |reports| && reports[i].date == d
  {
    assert forall k :: 0 <= k < |reports| ==> reports[k].date == batches[k].0;
  }

  /** What the inference script prints for the first |bs| date batches, in order. */
  function AllReports(bs: seq<(string, seq<string>)>, m: Models): (out: seq<Report>)
    ensures |out| == |bs|
  {
    if bs == [] then []
    else AllReports(bs[..|bs| - 1], m) + [DateReport(bs[|bs| - 1].0, bs[|bs| - 1].1, m)]
  }

  lemma {:induction false} AllReportsAt(bs: seq<(string, seq<string>)>, m: Models, k: nat)
    requires k < |bs|
    ensures AllReports(bs, m)[k] == DateReport(bs[k].0, bs[k].1, m)
  {
    var init := AllReports(bs[..|bs| - 1], m);
    assert AllReports(bs, m) == init + [DateReport(bs[|bs| - 1].0, bs[|bs| - 1].1, m)];
    if k < |bs| - 1 {
      AllReportsAt(bs[..|bs| - 1], m, k);
      assert AllReports(bs, m)[k] == init[k];
    }
  }

  lemma AllReportsSnoc(bs: seq<(string, seq<string>)>, m: Models, i: nat)
    requires i < |bs|
    ensures AllReports(bs[..i + 1], m) == AllReports(bs[..i], m) + [DateReport(bs[i].0, bs[i].1, m)]
  {
    assert bs[..i + 1][..i] == bs[..i];
  }

  /** The loop over the date batches of the inference script. */
  method ReportAll(batches: seq<(string, seq<string>)>, m: Models) returns (reports: seq<Report>)
    ensures |reports| == |batches|
    ensures forall k :: 0 <= k < |batches| ==> reports[k] == DateReport(batches[k].0, batches[k].1, m)
  {
    reports := [];
    var i := 0;
    while i < |batches|
      invariant 0 <= i <= |batches|
      invariant reports == AllReports(batches[..i], m)
    {
      var report := ReportDate(batches[i].0, batches[i].1, m);
      AllReportsSnoc(batches, m, i);
      reports := reports + [report];
      i := i + 1;
    }
    assert batches[..i] == batches;
    AllReportsEach(batches, m);
  }

  lemma AllReportsEach(bs: seq<(string, seq<string>)>, m: Models)
    ensures forall k :: 0 <= k < |bs| ==> AllReports(bs, m)[k] == DateReport(bs[k].0, bs[k].1, m)
  {
    forall k | 0 <= k < |bs| ensures AllReports(bs, m)[k] == DateReport(bs[k].0, bs[k].1, m) {
      AllReportsAt(bs, m, k);
    }
  }

  /**
   * The training-side script's main block: the same dates, each with the
   * first ten keywords of its valid messages (training variant, one interest
   * call per sentence), which is what it prints.
   */
  method RunKeywordExtraction(lines: seq<string>, a: Keywords.Analyzer, classify: string -> int)
    returns (r: Result<seq<(string, seq<(string, real)>)>, ChatParser.ParseError>)
    ensures r.Failure? <==> ChatParser.Dialogues(lines).Failure?
    ensures r.Success? ==>
      var byDate := ChatParser.Dialogues(lines).value;
      && (forall i, j :: 0 <= i < j < |r.value| ==> StrLess(r.value[i].0, r.value[j].0))
      && (forall i :: 0 <= i < |r.value| ==>
            r.value[i].0 in byDate && ValidMessages(byDate[r.value[i].0]) != []
            && var msgs := ValidMessages(byDate[r.value[i].0]);
               r.value[i].1 == Take(Keywords.KeywordList(msgs, Labels(msgs, classify), a, Keywords.Training), 10))
      && (forall d :: d in byDate && ValidMessages(byDate[d]) != [] ==>
            exists i :: 0 <= i < |r.value| && r.value[i].0 == d)
  {
    var parsed := ChatParser.ExtractDialogues(lines);
    if parsed.Failure? {
      return Failure(parsed.error);
    }
    var batches := DateBatches(parsed.value);
    var out := KeywordsAll(batches, a, classify);
    KeywordsOfBatches(parsed.value, batches, a, classify);
    r := Success(out);
  }

  /** The keyword lists of the date batches of byDate answer for exactly the dates with a valid message. */
  lemma KeywordsOfBatches(byDate: map<string, seq<string>>, batches: seq<(string, seq<string>)>,
                          a: Keywords.Analyzer, classify: string -> int)
    requires forall i, j :: 0 <= i < j < |batches| ==> StrLess(batches[i].0, batches[j].0)
    requires forall i :: 0 <= i < |batches| ==>
               batches[i].0 in byDate && batches[i].1 == ValidMessages(byDate[batches[i].0]) && batches[i].1 != []
    requires forall d :: d in byDate && ValidMessages(byDate[d]) != [] ==> exists i :: 0 <= i < |batches| && batches[i].0 == d
    ensures var out := AllDateKeywords(batches, a, classify);
      && (forall i, j :: 0 <= i < j < |out| ==> StrLess(out[i].0, out[j].0))
      && (forall i :: 0 <= i < |out| ==>
            out[i].0 in byDate && ValidMessages(byDate[out[i].0]) != []
            && var msgs := ValidMessages(byDate[out[i].0]);
               out[i].1 == Take(Keywords.KeywordList(msgs, Labels(msgs, classify), a, Keywords.Training), 10))
      && (forall d :: d in byDate && ValidMessages(byDate[d]) != [] ==>
            exists i :: 0 <= i < |out| && out[i].0 == d)
  {
    var out := AllDateKeywords(batches, a, classify);
    forall k | 0 <= k < |out| ensures out[k] == (batches[k].0, DateKeywords(batches[k].1, a, classify)) {
      AllDateKeywordsAt(batches, a, classify, k);
    }
  }

  /** The keywords the training-side script prints for one date: the first ten of its keyword list. */
  function DateKeywords(msgs: seq<string>, a: Keywords.Analyzer, classify: string -> int): seq<(string, real)> {
    Take(Keywords.KeywordList(msgs, Labels(msgs, classify), a, Keywords.Training), 10)
  }

  /** What the training-side script prints for the first |bs| date batches, in order. */
  function AllDateKeywords(bs: seq<(string, seq<string>)>, a: Keywords.Analyzer, classify: string -> int)
    : (out: seq<(string, seq<(string, real)>)>)
    ensures |out| == |bs|
  {
    if bs == [] then []
    else AllDateKeywords(bs[..|bs| - 1], a, classify) + [(bs[|bs| - 1].0, DateKeywords(bs[|bs| - 1].1, a, classify))]
  }

  lemma {:induction false} AllDateKeywordsAt(bs: seq<(string, seq<string>)>, a: Keywords.Analyzer, classify: string -> int, k: nat)
    requires k < |bs|
    ensures AllDateKeywords(bs, a, classify)[k] == (bs[k].0, DateKeywords(bs[k].1, a, classify))
  {
    if k < |bs| - 1 {
      AllDateKeywordsAt(bs[..|bs| - 1], a, classify, k);
    }
  }

  /** One date of the training-side script, computed by the imperative weigher. */
  method KeywordsOfDate(msgs: seq<string>, a: Keywords.Analyzer, classify: string -> int) returns (ks: seq<(string, real)>)
    ensures ks == DateKeywords(msgs, a, classify)
  {
    var all := Keywords.ExtractInterestWeightedKeywords(msgs, Labels(msgs, classify), a, Keywords.Training);
    ks := Take(all, 10);
  }

  /** The loop over the date batches of the training-side script. */
  method KeywordsAll(batches: seq<(string, seq<string>)>, a: Keywords.Analyzer, classify: string -> int)
    returns (out: seq<(string, seq<(string, real)>)>)
    ensures out == AllDateKeywords(batches, a, classify)
  {
    out := [];
    var i := 0;
    while i < |batches|
      invariant 0 <= i <= |batches|
      invariant out == AllDateKeywords(batches[..i], a, classify)
    {
      var (date, msgs) := batches[i];
      var keywords := KeywordsOfDate(msgs, a, classify);
      assert batches[..i + 1][..i] == batches[..i];
      out := out + [(date, keywords)];
      i := i + 1;
    }
    assert batches[..i] == batches;
  }

  /** `classify_interest(sentence)` for each sentence, in order. */
  function Labels(msgs: seq<string>, classify: string -> int): (ls: seq<int>)
    ensures |ls| == |msgs| && forall i :: 0 <= i < |msgs| ==> ls[i] == classify(msgs[i])
  {
    seq(|msgs|, i requires 0 <= i < |msgs| => classify(msgs[i]))
  }
}
