/**
 * The interest-weighted keyword table (`extract_interest_weighted_keywords`).
 * Per sentence, a keyphrase whose every token is one of the sentence's nouns
 * adds its score times a multiplier, and every distinct noun adds a flat
 * bonus; both depend on the sentence's interest label. Keys with a token
 * ending in a verbal/adjectival syllable are dropped and the rest are sorted
 * by score, highest first.
 *
 * The interest classifier, the noun extractor, the keyphrase extractor and
 * the stopword file are oracles. Two variants of the code exist: the
 * inference scripts and the training-side script differ in the multi-word
 * test and in the set of dropped endings.
 */
module Keywords {
  import opened Text
  import opened Tally
  import opened Ordering

  /** Which copy of the weighter: the inference scripts or the training-side script. */
  datatype Variant = Inference | Training

  /** The learned components the weighter calls, and the loaded stopword set. */
  datatype Analyzer = Analyzer(
    nouns: string -> seq<string>,             // okt.nouns(sentence)
    phrases: string -> seq<(string, real)>,   // kw_model.extract_keywords(sentence, ...)
    stopwords: set<string>)

  type Keyword = (string, real)

  function Score(e: Keyword): real { e.1 }

  // ---------------------------------------------------------------------------
  // Per-sentence rules

  /** `n not in stopwords and len(n) > 1`. */
  predicate KeepNoun(n: string, stopwords: set<string>) {
    n !in stopwords && |n| > 1
  }

  function FilterNouns(ns: seq<string>, stopwords: set<string>): (r: seq<string>)
    ensures forall n :: n in r <==> n in ns && KeepNoun(n, stopwords)
  {
    if ns == [] then []
    else
      var rest := FilterNouns(ns[..|ns| - 1], stopwords);
      var n := ns[|ns| - 1];
      assert ns == ns[..|ns| - 1] + [n];
      if KeepNoun(n, stopwords) then rest + [n] else rest
  }

  /** Each element once, at its first occurrence. */
  function Dedup(xs: seq<string>): (r: seq<string>)
    ensures Distinct(r)
    ensures forall x :: x in r <==> x in xs
  {
    if xs == [] then []
    else
      var rest := Dedup(xs[..|xs| - 1]);
      var x := xs[|xs| - 1];
      assert xs == xs[..|xs| - 1] + [x];
      if x in rest then rest else rest + [x]
  }

  /**
   * The noun set `{n for n in okt.nouns(sentence) if n not in stopwords and len(n) > 1}`,
   * listed in first-occurrence order.
   */
  function NounList(sentence: string, a: Analyzer): (ns: seq<string>)
    ensures Distinct(ns)
    ensures forall n :: n in ns <==> n in a.nouns(sentence) && KeepNoun(n, a.stopwords)
  {
    Dedup(FilterNouns(a.nouns(sentence), a.stopwords))
  }

  /** `all(tok in nouns for tok in kw.split())`; vacuously true for a blank phrase. */
  predicate PhraseMatches(kw: string, nouns: seq<string>) {
    forall tok :: tok in Words(kw) ==> tok in nouns
  }

  /** Whether a phrase gets the multi-word multiplier. */
  predicate MultiWord(v: Variant, kw: string) {
    match v
    case Inference => ' ' in kw              // `" " in kw`
    case Training => |Words(kw)| > 1         // `len(kw.split()) > 1`
  }

  /** The factor applied to a matched phrase's score. */
  function Multiplier(v: Variant, kw: string, interest: int): (m: real)
    ensures interest == 1 ==> (m == 2.5 <==> MultiWord(v, kw)) && (m == 2.0 <==> !MultiWord(v, kw))
    ensures interest != 1 ==> m == 0.5
  {
    if interest == 1 then (if MultiWord(v, kw) then 2.5 else 2.0) else 0.5
  }

  /** What a matched phrase adds: its extractor score times its multiplier. */
  function Weight(e: Keyword, interest: int, v: Variant): real {
    e.1 * Multiplier(v, e.0, interest)
  }

  /** The flat amount each distinct noun of a sentence adds. */
  function NounBonus(interest: int): (b: real)
    ensures 0.0 < b
    ensures b == 0.1 || b == 0.3
    ensures interest == 1 <==> b > 0.1
  {
    if interest == 1 then 0.3 else 0.1
  }

  // ---------------------------------------------------------------------------
  // The table, as a function of the inputs

  /** The keyphrase loop of one sentence, over the first |ps| phrases. */
  function AddPhrases(t: Table, ps: seq<Keyword>, nouns: seq<string>, interest: int, v: Variant): (r: Table)
    requires Valid(t)
    ensures Valid(r)
  {
    if ps == [] then t
    else PhraseStep(AddPhrases(t, ps[..|ps| - 1], nouns, interest, v), ps[|ps| - 1], nouns, interest, v)
  }

  /** One phrase of the loop: a matched phrase adds its weighted score to itself. */
  function PhraseStep(t: Table, e: Keyword, nouns: seq<string>, interest: int, v: Variant): (r: Table)
    requires Valid(t)
    ensures Valid(r)
  {
    if PhraseMatches(e.0, nouns) then Add(t, e.0, Weight(e, interest, v)) else t
  }

  /** The noun loop of one sentence, over the first |ns| nouns. */
  function AddNouns(t: Table, ns: seq<string>, interest: int): (r: Table)
    requires Valid(t)
    ensures Valid(r)
  {
    if ns == [] then t
    else Add(AddNouns(t, ns[..|ns| - 1], interest), ns[|ns| - 1], NounBonus(interest))
  }

  /** One iteration of the sentence loop: phrases first, then nouns. */
  function SentenceStep(t: Table, sentence: string, interest: int, a: Analyzer, v: Variant): (r: Table)
    requires Valid(t)
    ensures Valid(r)
  {
    var nouns := NounList(sentence, a);
    AddNouns(AddPhrases(t, a.phrases(sentence), nouns, interest, v), nouns, interest)
  }

  /** The table after the first `n` (sentence, interest) pairs of `zip(sentences, labels)`. */
  function Accumulate(ss: seq<string>, labels: seq<int>, a: Analyzer, v: Variant, n: nat): (r: Table)
    requires n <= |ss| && n <= |labels|
    ensures Valid(r)
  {
    if n == 0 then Empty
    else SentenceStep(Accumulate(ss, labels, a, v, n - 1), ss[n - 1], labels[n - 1], a, v)
  }

  function ZipLength(ss: seq<string>, labels: seq<int>): nat {
    if |ss| <= |labels| then |ss| else |labels|
  }

  /** The table after the whole sentence loop. */
  function Weights(ss: seq<string>, labels: seq<int>, a: Analyzer, v: Variant): (r: Table)
    ensures Valid(r)
  {
    Accumulate(ss, labels, a, v, ZipLength(ss, labels))
  }

  // ---------------------------------------------------------------------------
  // Filtering and ordering

  /** The endings whose tokens disqualify a key. */
  function BadEndings(v: Variant): set<char> {
    match v
    case Inference => {'다', '어', '지', '음'}
    case Training => {'다', '어', '지', '음', '야'}
  }

  /** `re.search(r"(다|어|...)$", tok)` for a token (tokens hold no newline). */
  predicate EndsBadly(tok: string, v: Variant) {
    |tok| > 0 && tok[|tok| - 1] in BadEndings(v)
  }

  /** A key survives when none of its whitespace-separated tokens ends badly. */
  predicate KeepKey(k: string, v: Variant) {
    forall tok :: tok in Words(k) ==> !EndsBadly(tok, v)
  }

  /** The list comprehension over `keyword_scores.items()`. */
  function KeepEntries(es: seq<Keyword>, v: Variant): (r: seq<Keyword>)
    ensures forall e :: e in r <==> e in es && KeepKey(e.0, v)
    ensures |r| <= |es|
  {
    if es == [] then []
    else (if KeepKey(es[0].0, v) then [es[0]] else []) + KeepEntries(es[1..], v)
  }

  /** The key filter keeps order and repeats: it distributes over concatenation. */
  lemma {:induction false} KeepEntriesAppend(a: seq<Keyword>, b: seq<Keyword>, v: Variant)
    ensures KeepEntries(a + b, v) == KeepEntries(a, v) + KeepEntries(b, v)
  {
    if a == [] {
      assert a + b == b;
    } else {
      var head := if KeepKey(a[0].0, v) then [a[0]] else [];
      KeepEntriesUnfold(a, b, v);
      KeepEntriesAppend(a[1..], b, v);
      ConcatAssoc(head, KeepEntries(a[1..], v), KeepEntries(b, v));
    }
  }

  /** The filter of `a` and of `a + b` both start by keeping or dropping `a[0]`. */
  lemma KeepEntriesUnfold(a: seq<Keyword>, b: seq<Keyword>, v: Variant)
    requires a != []
    ensures var head := if KeepKey(a[0].0, v) then [a[0]] else [];
      && KeepEntries(a + b, v) == head + KeepEntries(a[1..] + b, v)
      && KeepEntries(a, v) == head + KeepEntries(a[1..], v)
  {
    assert (a + b)[0] == a[0];
    assert (a + b)[1..] == a[1..] + b;
  }

  /** A single entry is kept alone or dropped. */
  lemma KeepEntriesSingle(e: Keyword, v: Variant)
    ensures KeepEntries([e], v) == if KeepKey(e.0, v) then [e] else []
  {
    assert [e][1..] == [];
  }

  /**
   * The returned list: highest score first, and every entry a kept key of
   * the weight table with its accumulated score.
   */
  function KeywordList(ss: seq<string>, labels: seq<int>, a: Analyzer, v: Variant): (r: seq<Keyword>)
    ensures SortedDesc(r, Score)
    ensures forall e :: e in r ==> e.0 in Weights(ss, labels, a, v).score
                                   && e.1 == ScoreOf(Weights(ss, labels, a, v), e.0) && KeepKey(e.0, v)
  {
    var t := Weights(ss, labels, a, v);
    SortedEntriesFromTable(t, v);
    SortDesc(KeepEntries(Entries(t), v), Score)
  }

  /**
   * `is_valid_keyword(kw)` of the training-side script: no match of
   * `(다|어|지|음)$`, where `$` also matches just before a final newline.
   */
  predicate IsValidKeyword(kw: string) {
    var bad := BadEndings(Inference);
    !(|kw| >= 1 && kw[|kw| - 1] in bad) && !(|kw| >= 2 && kw[|kw| - 1] == '\n' && kw[|kw| - 2] in bad)
  }

  /** On a single whitespace-free token the key filter and `is_valid_keyword` agree. */
  lemma ValidKeywordMatchesFilter(kw: string)
    requires kw != [] && NoSpace(kw)
    ensures IsValidKeyword(kw) <==> KeepKey(kw, Inference)
  {
    SingleWord(kw);
    assert !IsSpace(kw[|kw| - 1]);
    assert KeepKey(kw, Inference) <==> !EndsBadly(kw, Inference) by {
      assert forall tok :: tok in Words(kw) <==> tok == kw;
    }
  }

  /** The two copies disagree on a phrase with a leading space: only one calls it multi-word. */
  lemma MultiWordCopiesDiffer()
    ensures MultiWord(Inference, " 선물") && !MultiWord(Training, " 선물")
  {
    assert " 선물"[0] == ' ';
    assert " 선물"[1..] == "선물";
    SingleWord("선물");
  }

  // ---------------------------------------------------------------------------
  // What each key ends up with

  /** What the matched phrases among `ps` that equal `k` add to `k`. */
  function PhraseGain(ps: seq<Keyword>, nouns: seq<string>, interest: int, v: Variant, k: string): real {
    if ps == [] then 0.0
    else
      var e := ps[|ps| - 1];
      PhraseGain(ps[..|ps| - 1], nouns, interest, v, k)
        + (if e.0 == k && PhraseMatches(e.0, nouns) then Weight(e, interest, v) else 0.0)
  }

  /** What one sentence adds to `k`: its matched phrases equal to `k`, plus one bonus if `k` is one of its nouns. */
  function SentenceGain(sentence: string, interest: int, a: Analyzer, v: Variant, k: string): real {
    var nouns := NounList(sentence, a);
    PhraseGain(a.phrases(sentence), nouns, interest, v, k) + (if k in nouns then NounBonus(interest) else 0.0)
  }

  /** What the first `n` sentences add to `k`. */
  function TotalGain(ss: seq<string>, labels: seq<int>, a: Analyzer, v: Variant, n: nat, k: string): real
    requires n <= |ss| && n <= |labels|
  {
    if n == 0 then 0.0
    else TotalGain(ss, labels, a, v, n - 1, k) + SentenceGain(ss[n - 1], labels[n - 1], a, v, k)
  }

  lemma {:induction false} AddPhrasesScore(t: Table, ps: seq<Keyword>, nouns: seq<string>, interest: int,
                                           v: Variant, k: string)
    requires Valid(t)
    ensures ScoreOf(AddPhrases(t, ps, nouns, interest, v), k) == ScoreOf(t, k) + PhraseGain(ps, nouns, interest, v, k)
  {
    if ps != [] {
      AddPhrasesScore(t, ps[..|ps| - 1], nouns, interest, v, k);
    }
  }

  /** Over a list of distinct nouns, each noun gets the bonus exactly once and no other key changes. */
  lemma {:induction false} AddNounsScore(t: Table, ns: seq<string>, interest: int, k: string)
    requires Valid(t) && Distinct(ns)
    ensures ScoreOf(AddNouns(t, ns, interest), k) == ScoreOf(t, k) + (if k in ns then NounBonus(interest) else 0.0)
  {
    if ns != [] {
      var init := ns[..|ns| - 1];
      assert ns == init + [ns[|ns| - 1]];
      AddNounsScore(t, init, interest, k);
      if k == ns[|ns| - 1] {
        assert k !in init;
      }
    }
  }

  /**
   * A sentence adds to each key exactly its SentenceGain: every distinct noun
   * gets one bonus whether or not any phrase matched, and a phrase adds only
   * to itself.
   */
  lemma SentenceStepScore(t: Table, sentence: string, interest: int, a: Analyzer, v: Variant, k: string)
    requires Valid(t)
    ensures ScoreOf(SentenceStep(t, sentence, interest, a, v), k) == ScoreOf(t, k) + SentenceGain(sentence, interest, a, v, k)
  {
    var nouns := NounList(sentence, a);
    AddPhrasesScore(t, a.phrases(sentence), nouns, interest, v, k);
    AddNounsScore(AddPhrases(t, a.phrases(sentence), nouns, interest, v), nouns, interest, k);
  }

  /** The score of every key is the sum of its per-sentence gains. */
  lemma {:induction false} AccumulateScore(ss: seq<string>, labels: seq<int>, a: Analyzer, v: Variant, n: nat, k: string)
    requires n <= |ss| && n <= |labels|
    ensures ScoreOf(Accumulate(ss, labels, a, v, n), k) == TotalGain(ss, labels, a, v, n, k)
  {
    if n > 0 {
      AccumulateScore(ss, labels, a, v, n - 1, k);
      SentenceStepScore(Accumulate(ss, labels, a, v, n - 1), ss[n - 1], labels[n - 1], a, v, k);
    }
  }

  /** With non-negative phrase scores, every noun of a sentence labelled 1 ends with at least 0.3. */
  lemma InterestingNounAtLeastBonus(ss: seq<string>, labels: seq<int>, a: Analyzer, v: Variant, n: nat, k: string)
    requires n <= |ss| && n <= |labels|
    requires forall s, e :: e in a.phrases(s) ==> e.1 >= 0.0
    requires exists i :: 0 <= i < n && labels[i] == 1 && k in NounList(ss[i], a)
    ensures ScoreOf(Accumulate(ss, labels, a, v, n), k) >= 0.3
  {
    AccumulateScore(ss, labels, a, v, n, k);
    var i :| 0 <= i < n && labels[i] == 1 && k in NounList(ss[i], a);
    TotalGainBound(ss, labels, a, v, n, k, i);
  }

  lemma {:induction false} PhraseGainNonNegative(ps: seq<Keyword>, nouns: seq<string>, interest: int, v: Variant, k: string)
    requires forall e :: e in ps ==> e.1 >= 0.0
    ensures PhraseGain(ps, nouns, interest, v, k) >= 0.0
  {
    if ps != [] {
      assert forall e :: e in ps[..|ps| - 1] ==> e in ps;
      PhraseGainNonNegative(ps[..|ps| - 1], nouns, interest, v, k);
      assert ps[|ps| - 1] in ps;
    }
  }

  lemma {:induction false} TotalGainBound(ss: seq<string>, labels: seq<int>, a: Analyzer, v: Variant, n: nat,
                                          k: string, i: nat)
    requires i < n <= |ss| && n <= |labels|
    requires forall s, e :: e in a.phrases(s) ==> e.1 >= 0.0
    requires labels[i] == 1 && k in NounList(ss[i], a)
    ensures TotalGain(ss, labels, a, v, n, k) >= 0.3
  {
    var s := ss[n - 1];
    PhraseGainNonNegative(a.phrases(s), NounList(s, a), labels[n - 1], v, k);
    if i < n - 1 {
      TotalGainBound(ss, labels, a, v, n - 1, k, i);
    } else {
      TotalGainNonNegative(ss, labels, a, v, n - 1, k);
    }
  }

  lemma {:induction false} TotalGainNonNegative(ss: seq<string>, labels: seq<int>, a: Analyzer, v: Variant, n: nat, k: string)
    requires n <= |ss| && n <= |labels|
    requires forall s, e :: e in a.phrases(s) ==> e.1 >= 0.0
    ensures TotalGain(ss, labels, a, v, n, k) >= 0.0
  {
    if n > 0 {
      TotalGainNonNegative(ss, labels, a, v, n - 1, k);
      var s := ss[n - 1];
      PhraseGainNonNegative(a.phrases(s), NounList(s, a), labels[n - 1], v, k);
    }
  }

  // ---------------------------------------------------------------------------
  // The returned list

  /**
   * The returned list is sorted by score, highest first; it holds exactly the
   * table's kept keys, each with its accumulated score; no kept key has a
   * token with a dropped ending; and keys of equal score keep the order in
   * which they first entered the table.
   */
  lemma KeywordListSpec(ss: seq<string>, labels: seq<int>, a: Analyzer, v: Variant)
    ensures var r := KeywordList(ss, labels, a, v);
      && SortedDesc(r, Score)
      && (forall e :: e in r ==> e.0 in Weights(ss, labels, a, v).score && e.1 == ScoreOf(Weights(ss, labels, a, v), e.0)
                                  && KeepKey(e.0, v))
      && (forall k :: k in Weights(ss, labels, a, v).score && KeepKey(k, v) ==> (k, ScoreOf(Weights(ss, labels, a, v), k)) in r)
      && (forall x :: WithKey(r, Score, x) == WithKey(KeepEntries(Entries(Weights(ss, labels, a, v)), v), Score, x))
  {
    var t := Weights(ss, labels, a, v);
    var kept := KeepEntries(Entries(t), v);
    var r := SortDesc(kept, Score);
    SortedEntriesFromTable(t, v);
    TableKeysSorted(t, v);
    forall x
      ensures WithKey(r, Score, x) == WithKey(kept, Score, x)
    {
      SortDescStable(kept, Score, x);
    }
  }

  /** Every sorted entry is a kept key of the table with its score. */
  lemma SortedEntriesFromTable(t: Table, v: Variant)
    requires Valid(t)
    ensures forall e :: e in SortDesc(KeepEntries(Entries(t), v), Score) ==>
              e.0 in t.score && e.1 == ScoreOf(t, e.0) && KeepKey(e.0, v)
  {
    var es := Entries(t);
    var kept := KeepEntries(es, v);
    var r := SortDesc(kept, Score);
    forall e | e in r
      ensures e.0 in t.score && e.1 == ScoreOf(t, e.0) && KeepKey(e.0, v)
    {
      assert e in multiset(r);
      assert e in kept;
      var i :| 0 <= i < |es| && es[i] == e;
    }
  }

  /** Every kept key of the table appears, with its score, among the sorted entries. */
  lemma TableKeysSorted(t: Table, v: Variant)
    requires Valid(t)
    ensures forall k :: k in t.score && KeepKey(k, v) ==> (k, ScoreOf(t, k)) in SortDesc(KeepEntries(Entries(t), v), Score)
  {
    var es := Entries(t);
    var kept := KeepEntries(es, v);
    var r := SortDesc(kept, Score);
    forall k | k in t.score && KeepKey(k, v)
      ensures (k, ScoreOf(t, k)) in r
    {
      var i :| 0 <= i < |t.order| && t.order[i] == k;
      assert es[i] == (k, ScoreOf(t, k));
      assert es[i] in kept;
      assert es[i] in multiset(r);
    }
  }

  // ---------------------------------------------------------------------------
  // The loops

  /** `keyword_scores[k] += x` on the dictionary held as its key order and its map. */
  method Bump(order: seq<string>, scores: map<string, real>, k: string, x: real)
    returns (order': seq<string>, scores': map<string, real>)
    requires Valid(Table(order, scores))
    ensures Table(order', scores') == Add(Table(order, scores), k, x)
  {
    if k in scores {
      order', scores' := order, scores[k := scores[k] + x];
    } else {
      order', scores' := order + [k], scores[k := x];
    }
  }

  /** One more phrase of the loop. */
  lemma AddPhrasesStep(t: Table, ps: seq<Keyword>, j: nat, nouns: seq<string>, interest: int, v: Variant)
    requires Valid(t) && j < |ps|
    ensures AddPhrases(t, ps[..j + 1], nouns, interest, v) ==
              PhraseStep(AddPhrases(t, ps[..j], nouns, interest, v), ps[j], nouns, interest, v)
  {
    var q := ps[..j + 1];
    assert q[..|q| - 1] == ps[..j];
    assert q[|q| - 1] == ps[j];
  }

  /** The keyphrase loop of one sentence. */
  method WeighPhrases(order: seq<string>, scores: map<string, real>, phrases: seq<Keyword>,
                      nouns: seq<string>, interest: int, v: Variant)
    returns (order': seq<string>, scores': map<string, real>)
    requires Valid(Table(order, scores))
    ensures Table(order', scores') == AddPhrases(Table(order, scores), phrases, nouns, interest, v)
  {
    order', scores' := order, scores;
    var j := 0;
    while j < |phrases|
      invariant 0 <= j <= |phrases|
      invariant Valid(Table(order', scores'))
      invariant Table(order', scores') == AddPhrases(Table(order, scores), phrases[..j], nouns, interest, v)
    {
      AddPhrasesStep(Table(order, scores), phrases, j, nouns, interest, v);
      order', scores' := WeighPhrase(order', scores', phrases[j], nouns, interest, v);
      j := j + 1;
    }
    assert phrases[..j] == phrases;
  }

  /** One keyphrase: its weighted score is added only when all its tokens are nouns. */
  method WeighPhrase(order: seq<string>, scores: map<string, real>, e: Keyword,
                     nouns: seq<string>, interest: int, v: Variant)
    returns (order': seq<string>, scores': map<string, real>)
    requires Valid(Table(order, scores))
    ensures Table(order', scores') == PhraseStep(Table(order, scores), e, nouns, interest, v)
  {
    if PhraseMatches(e.0, nouns) {
      order', scores' := Bump(order, scores, e.0, Weight(e, interest, v));
    } else {
      order', scores' := order, scores;
    }
  }

  /** The noun loop of one sentence. */
  method WeighNouns(order: seq<string>, scores: map<string, real>, nouns: seq<string>, interest: int)
    returns (order': seq<string>, scores': map<string, real>)
    requires Valid(Table(order, scores))
    ensures Table(order', scores') == AddNouns(Table(order, scores), nouns, interest)
  {
    order', scores' := order, scores;
    var k := 0;
    while k < |nouns|
      invariant 0 <= k <= |nouns|
      invariant Table(order', scores') == AddNouns(Table(order, scores), nouns[..k], interest)
    {
      assert nouns[..k + 1][..k] == nouns[..k];
      order', scores' := Bump(order', scores', nouns[k], NounBonus(interest));
      k := k + 1;
    }
    assert nouns[..k] == nouns;
  }

  /**
   * `extract_interest_weighted_keywords(sentences)`, with the classifier's
   * labels for the sentences passed in (`classify_interest_batch` for the
   * inference scripts, one `classify_interest` call per sentence for the
   * training-side script).
   */
  method ExtractInterestWeightedKeywords(ss: seq<string>, labels: seq<int>, a: Analyzer, v: Variant)
    returns (result: seq<Keyword>)
    ensures result == KeywordList(ss, labels, a, v)
  {
    var order: seq<string> := [];
    var scores: map<string, real> := map[];
    var n := ZipLength(ss, labels);
    var i := 0;
    while i < n
      invariant 0 <= i <= n
      invariant Table(order, scores) == Accumulate(ss, labels, a, v, i)
    {
      var sentence, interest := ss[i], labels[i];
      var nouns := NounList(sentence, a);
      order, scores := WeighPhrases(order, scores, a.phrases(sentence), nouns, interest, v);
      order, scores := WeighNouns(order, scores, nouns, interest);
      i := i + 1;
    }
    var filtered := KeepEntries(Entries(Table(order, scores)), v);
    result := SortDesc(filtered, Score);
  }
}
