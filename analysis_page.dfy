/**
 * The analysis page (`app/analysis/page.tsx`): after the per-date analysis
 * results arrive, the keywords of all dates are merged by name into one
 * record of summed scores, the five highest are shown, and the intimacy of
 * each date forms the relationship series. Fetching the analysis is the
 * oracle `analyze`; rendering is left out.
 */
module AnalysisPage {
  import opened Wrappers
  import opened Ordering
  import opened Tally

  datatype KeywordScore = KeywordScore(name: string, score: real)

  /** One date's analysis (`AnalysisResult`). */
  datatype AnalysisResult = AnalysisResult(
    category: string, date: string, intimacy: real, keywords: seq<KeywordScore>, subject: string)

  // ---------------------------------------------------------------------------
  // Keyword merge

  /**
   * One inner `forEach` step: a name whose current value is truthy has the
   * score added; a new name, or one whose value is 0, is assigned the score.
   */
  function MergeOne(t: Table, k: KeywordScore): (r: Table)
    requires Valid(t)
    ensures Valid(r)
  {
    if k.name in t.score && t.score[k.name] != 0.0 then Table(t.order, t.score[k.name := t.score[k.name] + k.score])
    else if k.name in t.score then Table(t.order, t.score[k.name := k.score])
    else Table(t.order + [k.name], t.score[k.name := k.score])
  }

  /** Assigning over a 0 is adding to it, so each step is a plain accumulation. */
  lemma MergeOneAdds(t: Table, k: KeywordScore)
    requires Valid(t)
    ensures MergeOne(t, k) == Add(t, k.name, k.score)
  {
    if k.name in t.score && t.score[k.name] == 0.0 {
      assert t.score[k.name := k.score] == t.score[k.name := t.score[k.name] + k.score];
    }
  }

  /** The keywords of all results, result by result. */
  function Flatten(results: seq<AnalysisResult>): seq<KeywordScore> {
    if results == [] then []
    else Flatten(results[..|results| - 1]) + results[|results| - 1].keywords
  }

  /** The table after merging `ks` into `t`, one keyword at a time. */
  function MergeAll(t: Table, ks: seq<KeywordScore>): (r: Table)
    requires Valid(t)
    ensures Valid(r)
  {
    if ks == [] then t else MergeOne(MergeAll(t, ks[..|ks| - 1]), ks[|ks| - 1])
  }

  /** `keywordMap` once both loops are done. */
  function Merged(results: seq<AnalysisResult>): (t: Table)
    ensures Valid(t)
  {
    MergeAll(Empty, Flatten(results))
  }

  /** The sum of the scores the name has in `ks`. */
  function TotalScore(ks: seq<KeywordScore>, name: string): real {
    if ks == [] then 0.0
    else TotalScore(ks[..|ks| - 1], name) + (if ks[|ks| - 1].name == name then ks[|ks| - 1].score else 0.0)
  }

  predicate Mentions(ks: seq<KeywordScore>, name: string) {
    exists k :: 0 <= k < |ks| && ks[k].name == name
  }

  /**
   * The merged record holds exactly the names that occur, each with the sum
   * of its scores over all dates, and lists them in order of first occurrence.
   */
  lemma {:induction false} MergeAllSums(ks: seq<KeywordScore>)
    ensures forall n :: ScoreOf(MergeAll(Empty, ks), n) == TotalScore(ks, n)
    ensures forall n :: n in MergeAll(Empty, ks).score <==> Mentions(ks, n)
  {
    if ks != [] {
      var init := ks[..|ks| - 1];
      var last := ks[|ks| - 1];
      MergeAllSums(init);
      MergeOneAdds(MergeAll(Empty, init), last);
      forall n ensures n in MergeAll(Empty, ks).score <==> Mentions(ks, n) {
        if Mentions(init, n) {
          var k :| 0 <= k < |init| && init[k].name == n;
          assert ks[k].name == n;
        }
        if Mentions(ks, n) && n != last.name {
          var k :| 0 <= k < |ks| && ks[k].name == n;
          assert init[k].name == n;
        }
      }
    }
  }

  /** The merged score of a name is the sum of its scores over all date results. */
  lemma MergedSums(results: seq<AnalysisResult>)
    ensures forall n :: ScoreOf(Merged(results), n) == TotalScore(Flatten(results), n)
    ensures forall n :: n in Merged(results).score <==> Mentions(Flatten(results), n)
  {
    MergeAllSums(Flatten(results));
  }

  /** The nested `forEach` loops that fill `keywordMap`. */
  method MergeKeywords(results: seq<AnalysisResult>) returns (t: Table)
    ensures Valid(t) && t == Merged(results)
  {
    t := Empty;
    var i := 0;
    while i < |results|
      invariant 0 <= i <= |results|
      invariant Valid(t) && t == MergeAll(Empty, Flatten(results[..i]))
    {
      assert results[..i + 1][..i] == results[..i];
      t := MergeResult(t, Flatten(results[..i]), results[i].keywords);
      i := i + 1;
    }
    assert results[..i] == results;
  }

  /** The inner loop over one result's keywords. */
  method MergeResult(t0: Table, ghost done: seq<KeywordScore>, kws: seq<KeywordScore>) returns (t: Table)
    requires Valid(t0) && t0 == MergeAll(Empty, done)
    ensures Valid(t) && t == MergeAll(Empty, done + kws)
  {
    t := t0;
    var j := 0;
    MergeAllEnds(done, kws);
    while j < |kws|
      invariant 0 <= j <= |kws|
      invariant t == MergeAll(Empty, done + kws[..j])
    {
      MergeAllSnoc(done, kws, j);
      t := MergeOne(t, kws[j]);
      j := j + 1;
    }
  }

  /** Merging none of `kws` leaves the merge of `done`; merging all of them is merging `done + kws`. */
  lemma MergeAllEnds(done: seq<KeywordScore>, kws: seq<KeywordScore>)
    ensures MergeAll(Empty, done + kws[..0]) == MergeAll(Empty, done)
    ensures MergeAll(Empty, done + kws[..|kws|]) == MergeAll(Empty, done + kws)
  {
    assert done + kws[..0] == done;
    assert kws[..|kws|] == kws;
  }

  /** Merging one more keyword of `kws` is one more MergeOne step. */
  lemma MergeAllSnoc(done: seq<KeywordScore>, kws: seq<KeywordScore>, j: nat)
    requires j < |kws|
    ensures MergeAll(Empty, done + kws[..j + 1]) == MergeOne(MergeAll(Empty, done + kws[..j]), kws[j])
  {
    var next := done + kws[..j + 1];
    assert MergeAll(Empty, next) == MergeOne(MergeAll(Empty, next[..|next| - 1]), next[|next| - 1]);
    assert next[..|next| - 1] == done + kws[..j];
    assert next[|next| - 1] == kws[j];
  }

  // ---------------------------------------------------------------------------
  // Top five and the relationship series

  const ShownKeywords: nat := 5

  function Value(e: (string, real)): real { e.1 }

  function Names(s: seq<(string, real)>): seq<string> {
    seq(|s|, i requires 0 <= i < |s| => s[i].0)
  }

  /**
   * `Object.entries(keywordMap)`, sorted by value from highest, first five:
   * five entries whenever the table has five keys, else all of them, highest
   * value first, no name twice, each a key of the table with its score.
   */
  function TopKeywords(t: Table): (r: seq<(string, real)>)
    requires Valid(t)
    ensures |r| == if |t.order| < ShownKeywords then |t.order| else ShownKeywords
    ensures SortedDesc(r, Value)
    ensures Distinct(Names(r))
    ensures forall i :: 0 <= i < |r| ==> r[i].0 in t.score && r[i].1 == ScoreOf(t, r[i].0)
  {
    var s := SortDesc(Entries(t), Value);
    SortedEntries(t);
    SortDescLength(Entries(t), Value);
    TopNamesDistinct(t);
    Take(s, ShownKeywords)
  }

  /** No name is shown twice: the sorted entries are distinct and a name fixes its score. */
  lemma TopNamesDistinct(t: Table)
    requires Valid(t)
    ensures Distinct(Names(Take(SortDesc(Entries(t), Value), ShownKeywords)))
  {
    var s := SortDesc(Entries(t), Value);
    SortedEntries(t);
    var r := Take(s, ShownKeywords);
    forall i, j | 0 <= i < j < |Names(r)| ensures Names(r)[i] != Names(r)[j] {
      assert r[i] == s[i] && r[j] == s[j];
    }
  }

  /**
   * At most five entries with distinct names, sorted by value from highest,
   * each a merged name with its summed score; five are shown whenever at
   * least five names were merged, and a merged name that is not shown scores
   * no more than every shown one.
   */
  lemma TopKeywordsSpec(results: seq<AnalysisResult>)
    ensures var t := Merged(results);
      var r := TopKeywords(t);
      && |r| == (if |t.order| < ShownKeywords then |t.order| else ShownKeywords)
      && Distinct(Names(r))
      && SortedDesc(r, Value)
      && (forall i :: 0 <= i < |r| ==>
            Mentions(Flatten(results), r[i].0) && r[i].1 == TotalScore(Flatten(results), r[i].0))
      && (forall n :: n in t.score ==>
            ShownOrNoBetter(t, r, n))
  {
    MergedSums(results);
    TopEntries(Merged(results));
  }

  /** The same for any table: the five best entries, sorted, distinct, none better left out. */
  lemma TopEntries(t: Table)
    requires Valid(t)
    ensures var r := TopKeywords(t);
      && |r| == (if |t.order| < ShownKeywords then |t.order| else ShownKeywords)
      && Distinct(Names(r))
      && SortedDesc(r, Value)
      && (forall i :: 0 <= i < |r| ==> r[i].0 in t.score && r[i].1 == ScoreOf(t, r[i].0))
      && (forall n :: n in t.score ==>
            ShownOrNoBetter(t, r, n))
  {
    var r := TopKeywords(t);
    forall n | n in t.score
      ensures ShownOrNoBetter(t, r, n)
    {
      NoBetterLeftOut(t, n);
    }
  }

  /** `n` is among the entries `r`, or scores no more than each of them. */
  predicate ShownOrNoBetter(t: Table, r: seq<(string, real)>, n: string) {
    (exists i :: 0 <= i < |r| && r[i].0 == n) || forall i :: 0 <= i < |r| ==> ScoreOf(t, n) <= r[i].1
  }

  /** A key is among the five shown, or scores no more than each of them. */
  lemma NoBetterLeftOut(t: Table, n: string)
    requires Valid(t) && n in t.score
    ensures var r := TopKeywords(t);
      ShownOrNoBetter(t, r, n)
  {
    var es := Entries(t);
    var s := SortDesc(es, Value);
    var r := TopKeywords(t);
    var k :| 0 <= k < |t.order| && t.order[k] == n;
    assert es[k] in multiset(s);
    var p :| 0 <= p < |s| && s[p] == es[k];
    if p < |r| {
      assert r[p].0 == n;
    } else {
      forall i | 0 <= i < |r| ensures ScoreOf(t, n) <= r[i].1 {
        assert r[i] == s[i];
      }
    }
  }

  /** The sorted entries are distinct and each is a key with its score. */
  lemma SortedEntries(t: Table)
    requires Valid(t)
    ensures var s := SortDesc(Entries(t), Value);
      && Distinct(s)
      && forall i :: 0 <= i < |s| ==> s[i].0 in t.score && s[i].1 == t.score[s[i].0]
  {
    var es := Entries(t);
    var s := SortDesc(es, Value);
    assert Distinct(es) by {
      forall i, j | 0 <= i < j < |es| ensures es[i] != es[j] {
        assert es[i].0 == t.order[i] && es[j].0 == t.order[j];
      }
    }
    PermutationKeepsDistinct(es, s);
    forall i | 0 <= i < |s| ensures s[i].0 in t.score && s[i].1 == t.score[s[i].0] {
      assert s[i] in multiset(es);
    }
  }

  /**
   * `analysisResult.map(item => ({ date, intimacy }))`: one point per result,
   * in result order, carrying that result's date and intimacy.
   */
  function Relationship(results: seq<AnalysisResult>): (series: seq<(string, real)>)
    ensures |series| == |results|
    ensures forall i :: 0 <= i < |results| ==> series[i].0 == results[i].date && series[i].1 == results[i].intimacy
  {
    seq(|results|, i requires 0 <= i < |results| => (results[i].date, results[i].intimacy))
  }

  /** The series of a concatenation is the concatenation of the series. */
  lemma RelationshipAppend(a: seq<AnalysisResult>, b: seq<AnalysisResult>)
    ensures Relationship(a + b) == Relationship(a) + Relationship(b)
  {
    var l := Relationship(a + b);
    var r := Relationship(a) + Relationship(b);
    forall i | 0 <= i < |l| ensures l[i] == r[i] {
      if i < |a| {
        assert (a + b)[i] == a[i];
      } else {
        assert (a + b)[i] == b[i - |a|];
      }
    }
  }

  // ---------------------------------------------------------------------------
  // The page after its fetch

  const MissingFileId: string := "파일 ID가 없습니다."
  const AnalysisFailed: string := "분석 중 오류가 발생했습니다."

  /** `searchParams.get('fileId') || contextFileId`. */
  function FileIdOf(param: Option<string>, contextFileId: Option<string>): Option<string> {
    if param.Some? && param.value != "" then param else contextFileId
  }

  /** What the page shows once loading ends. */
  datatype View =
    | ShowError(message: string)
    | Blank
    | ShowAnalysis(keywords: seq<(string, real)>, relationship: seq<(string, real)>)

  /**
   * `fetchAnalysis` and the render that follows. `analyze` answers the
   * analysis call: its results, or the failure's message (None when what
   * was thrown is not an Error). An empty message is falsy, so nothing is
   * rendered.
   */
  function Page(fileId: Option<string>, analyze: string -> Result<seq<AnalysisResult>, Option<string>>): (v: View)
    ensures fileId.None? || fileId.value == "" ==> v == ShowError(MissingFileId)
    ensures v.ShowAnalysis? ==> |v.keywords| <= ShownKeywords && SortedDesc(v.keywords, Value)
    ensures v.ShowAnalysis? ==> fileId.Some? && analyze(fileId.value).Success?
                                && |v.relationship| == |analyze(fileId.value).value|
    ensures v.Blank? <==> fileId.Some? && fileId.value != "" && analyze(fileId.value) == Failure(Some(""))
  {
    if fileId.None? || fileId.value == "" then ShowError(MissingFileId)
    else
      match analyze(fileId.value)
      case Failure(message) =>
        var text := message.GetOr(AnalysisFailed);
        if text == "" then Blank else ShowError(text)
      case Success(results) =>
        ShowAnalysis(TopKeywords(Merged(results)), Relationship(results))
  }

  /** Without a file id the page shows the missing-id error whatever the analysis would answer. */
  lemma MissingFileIdNoCall(fileId: Option<string>,
                            analyze: string -> Result<seq<AnalysisResult>, Option<string>>,
                            other: string -> Result<seq<AnalysisResult>, Option<string>>)
    requires fileId.None? || fileId.value == ""
    ensures Page(fileId, analyze) == ShowError(MissingFileId)
    ensures Page(fileId, analyze) == Page(fileId, other)
  {
  }

  /**
   * With a file id the page depends only on the answer for that id; a
   * successful answer shows the top keywords and one relationship point per
   * result, in result order, with its date and intimacy unchanged.
   */
  lemma PageShowsAnalysis(fileId: Option<string>, analyze: string -> Result<seq<AnalysisResult>, Option<string>>)
    requires fileId.Some? && fileId.value != ""
    requires analyze(fileId.value).Success?
    ensures var results := analyze(fileId.value).value;
      var view := Page(fileId, analyze);
      && view.ShowAnalysis?
      && view.keywords == TopKeywords(Merged(results))
      && |view.relationship| == |results|
      && forall i :: 0 <= i < |results| ==> view.relationship[i] == (results[i].date, results[i].intimacy)
  {
  }
}
