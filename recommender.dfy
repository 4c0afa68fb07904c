/**
 * Product ranking (`recommend_products_from_keywords`). The top keywords
 * become one query, every cached product of the category is scored by its
 * similarity to the query, and the products are ranked by that score,
 * highest first. The inference script returns the whole ranking as
 * (name, similarity) pairs; the test script keeps the first five and joins
 * each with the category's product catalog. Sentence encoding and cosine
 * similarity are one oracle `sim`; reading the catalog file is the oracle
 * `readCatalog`.
 */
module Recommender {
  import opened Wrappers
  import opened Text
  import opened Ordering
  import opened EmbeddingCache
  import Topic

  /** At most this many keywords form the query and this many products are returned. */
  const TopN: nat := 5

  /** `" ".join([kw for kw, _ in sorted_keywords[:5]])`. */
  function Query(keywords: seq<(string, real)>): string {
    var top := Take(keywords, TopN);
    Join(seq(|top|, i requires 0 <= i < |top| => top[i].0), " ")
  }

  /** The query depends on the names of the first five keywords only. */
  lemma QueryUsesTopFive(ks: seq<(string, real)>, ks': seq<(string, real)>)
    requires |Take(ks, TopN)| == |Take(ks', TopN)|
    requires forall i :: 0 <= i < |Take(ks, TopN)| ==> ks[i].0 == ks'[i].0
    ensures Query(ks) == Query(ks')
  {
    var a := Take(ks, TopN);
    var b := Take(ks', TopN);
    assert seq(|a|, i requires 0 <= i < |a| => a[i].0) == seq(|b|, i requires 0 <= i < |b| => b[i].0);
  }

  function SimOf(e: (string, real)): real { e.1 }

  /** One (name, similarity) pair per product, in product order. */
  function Scored(products: seq<Product>, query: string, sim: (string, seq<real>) -> real): (r: seq<(string, real)>)
    ensures |r| == |products|
    ensures forall i :: 0 <= i < |r| ==> r[i] == (products[i].name, sim(query, products[i].embedding))
  {
    seq(|products|, i requires 0 <= i < |products| => (products[i].name, sim(query, products[i].embedding)))
  }

  /**
   * The inference script's `recommend_products_from_keywords`: no products
   * give no recommendations; otherwise one (name, similarity) pair per
   * product, each product's own pair, a permutation of the scored products,
   * sorted by similarity, highest first.
   */
  function Recommend(keywords: seq<(string, real)>, category: string, intimacy: real,
                     fileExists: string -> bool, load: string -> seq<Product>,
                     sim: (string, seq<real>) -> real): (r: seq<(string, real)>)
    ensures LoadEmbeddings(category, intimacy, fileExists, load) == [] ==> r == []
    ensures |r| == |LoadEmbeddings(category, intimacy, fileExists, load)|
    ensures multiset(r) == multiset(Scored(LoadEmbeddings(category, intimacy, fileExists, load), Query(keywords), sim))
    ensures forall p :: p in r <==> p in Scored(LoadEmbeddings(category, intimacy, fileExists, load), Query(keywords), sim)
    ensures SortedDesc(r, SimOf)
  {
    var products := LoadEmbeddings(category, intimacy, fileExists, load);
    if products == [] then [] else BySimilarity(Scored(products, Query(keywords), sim))
  }

  /** The scored products sorted by similarity: a permutation, highest first. */
  function BySimilarity(scored: seq<(string, real)>): (r: seq<(string, real)>)
    ensures scored == [] ==> r == []
    ensures |r| == |scored| && multiset(r) == multiset(scored)
    ensures forall p :: p in r <==> p in scored
    ensures SortedDesc(r, SimOf)
  {
    var r := SortDesc(scored, SimOf);
    SortDescLength(scored, SimOf);
    assert forall p :: p in r <==> p in scored by {
      forall p ensures p in r <==> p in scored {
        assert p in r <==> p in multiset(r);
      }
    }
    r
  }

  /** Keywords past the fifth never change the recommendation. */
  lemma RecommendIgnoresTail(keywords: seq<(string, real)>, extra: seq<(string, real)>, category: string,
                             intimacy: real, fileExists: string -> bool, load: string -> seq<Product>,
                             sim: (string, seq<real>) -> real)
    requires |keywords| >= TopN
    ensures Recommend(keywords + extra, category, intimacy, fileExists, load, sim)
         == Recommend(keywords, category, intimacy, fileExists, load, sim)
  {
    QueryUsesTopFive(keywords + extra, keywords);
  }

  // ---------------------------------------------------------------------------
  // The test script's variant: top five joined with the catalog

  /** One catalog row: product name (absent when the cell is empty), image URL, price, product URL. */
  datatype CatalogRow = CatalogRow(name: Option<string>, imageUrl: string, price: string, url: string)

  /** One returned product (the random `id` is left out). */
  datatype Recommendation = Recommendation(
    name: string, category: string, imageUrl: Option<string>, price: string, description: Option<string>)

  const PriceUnknown: string := "정보 없음"

  /** `df["상품명"].str.contains(re.escape(name), na=False)` for one row. */
  predicate RowMatches(row: CatalogRow, name: string) {
    row.name.Some? && Contains(row.name.value, name)
  }

  /** The index of the first matching row, if any (`match.iloc[0]`). */
  function FirstMatch(rows: seq<CatalogRow>, name: string): (r: Option<nat>)
    ensures r.Some? ==> r.value < |rows| && RowMatches(rows[r.value], name)
                        && forall j :: 0 <= j < r.value ==> !RowMatches(rows[j], name)
    ensures r.None? ==> forall j :: 0 <= j < |rows| ==> !RowMatches(rows[j], name)
  {
    if rows == [] then None
    else if RowMatches(rows[0], name) then Some(0)
    else
      match FirstMatch(rows[1..], name)
      case None => None
      case Some(i) => Some(i + 1)
  }

  /** The record for one ranked product: the first matching row's data, or the placeholders. */
  function JoinRow(name: string, category: string, rows: seq<CatalogRow>): Recommendation {
    match FirstMatch(rows, name)
    case Some(i) => Recommendation(name, category, Some(rows[i].imageUrl), rows[i].price, Some(rows[i].url))
    case None => Recommendation(name, category, None, PriceUnknown, None)
  }

  /** `sorted([(p, sim) for p in products], key=sim, reverse=True)`. */
  function Ranked(products: seq<Product>, query: string, sim: (string, seq<real>) -> real): seq<(Product, real)> {
    SortDesc(seq(|products|, i requires 0 <= i < |products| => (products[i], sim(query, products[i].embedding))),
             (e: (Product, real)) => e.1)
  }

  /** The records for the first five ranked products, in ranking order. */
  function JoinTopFive(ranked: seq<(Product, real)>, category: string, rows: seq<CatalogRow>): seq<Recommendation> {
    var top := Take(ranked, TopN);
    seq(|top|, i requires 0 <= i < |top| => JoinRow(top[i].0.name, category, rows))
  }

  /**
   * At most five records, the i-th for the i-th ranked product, each with the
   * requested category, carrying the first matching catalog row's data when a
   * row's name contains the product name and the placeholders otherwise.
   */
  lemma JoinTopFiveSpec(ranked: seq<(Product, real)>, category: string, rows: seq<CatalogRow>)
    ensures var r := JoinTopFive(ranked, category, rows);
      && |r| == (if |ranked| < TopN then |ranked| else TopN)
      && forall i :: 0 <= i < |r| ==>
           && r[i].name == ranked[i].0.name
           && r[i].category == category
           && (match FirstMatch(rows, r[i].name)
               case Some(j) =>
                 r[i].imageUrl == Some(rows[j].imageUrl) && r[i].price == rows[j].price
                 && r[i].description == Some(rows[j].url)
               case None =>
                 r[i].imageUrl == None && r[i].price == PriceUnknown && r[i].description == None)
  {
  }

  /** The test script's result as a function of its inputs. */
  function CatalogResults(keywords: seq<(string, real)>, category: string, intimacy: real,
                          fileExists: string -> bool, load: string -> seq<Product>,
                          sim: (string, seq<real>) -> real, readCatalog: string -> seq<CatalogRow>)
    : (r: seq<Recommendation>)
    ensures LoadEmbeddings(category, intimacy, fileExists, load) == [] ==> r == []
    ensures |r| <= TopN
  {
    var products := LoadEmbeddings(category, intimacy, fileExists, load);
    if products == [] then []
    else
      var rows := readCatalog(Topic.CategoryFiles[category]);
      JoinTopFive(Ranked(products, Query(keywords), sim), category, rows)
  }

  /** The loop over `ranked[:5]`, appending one record per product. */
  method JoinCatalog(ranked: seq<(Product, real)>, category: string, rows: seq<CatalogRow>)
    returns (results: seq<Recommendation>)
    ensures results == JoinTopFive(ranked, category, rows)
  {
    var top := Take(ranked, TopN);
    results := [];
    var i := 0;
    while i < |top|
      invariant 0 <= i <= |top|
      invariant |results| == i
      invariant forall j :: 0 <= j < i ==> results[j] == JoinRow(top[j].0.name, category, rows)
    {
      var name := top[i].0.name;
      var m := FirstMatch(rows, name);
      if m.Some? {
        var row := rows[m.value];
        results := results + [Recommendation(name, category, Some(row.imageUrl), row.price, Some(row.url))];
      } else {
        results := results + [Recommendation(name, category, None, PriceUnknown, None)];
      }
      i := i + 1;
    }
  }

  /** The test script's `recommend_products_from_keywords`. */
  method RecommendWithCatalog(keywords: seq<(string, real)>, category: string, intimacy: real,
                              fileExists: string -> bool, load: string -> seq<Product>,
                              sim: (string, seq<real>) -> real, readCatalog: string -> seq<CatalogRow>)
    returns (results: seq<Recommendation>)
    ensures results == CatalogResults(keywords, category, intimacy, fileExists, load, sim, readCatalog)
  {
    var products := LoadEmbeddings(category, intimacy, fileExists, load);
    if products == [] {
      return [];
    }
    var ranked := Ranked(products, Query(keywords), sim);
    var rows := readCatalog(Topic.CategoryFiles[category]);
    results := JoinCatalog(ranked, category, rows);
  }

  /** The ranking holds every product once, with its similarity, highest similarity first. */
  lemma RankedSpec(products: seq<Product>, query: string, sim: (string, seq<real>) -> real)
    ensures var ranked := Ranked(products, query, sim);
      && SortedDesc(ranked, (e: (Product, real)) => e.1)
      && |ranked| == |products|
      && (forall e :: e in ranked ==> e.0 in products && e.1 == sim(query, e.0.embedding))
      && (forall p :: p in products ==> (p, sim(query, p.embedding)) in ranked)
  {
    var s := seq(|products|, i requires 0 <= i < |products| => (products[i], sim(query, products[i].embedding)));
    var ranked := Ranked(products, query, sim);
    SortDescLength(s, (e: (Product, real)) => e.1);
    forall e | e in ranked ensures e.0 in products && e.1 == sim(query, e.0.embedding) {
      assert e in multiset(ranked);
      assert e in s;
    }
    forall p | p in products ensures (p, sim(query, p.embedding)) in ranked {
      var i :| 0 <= i < |products| && products[i] == p;
      assert s[i] in multiset(s);
    }
  }
}
