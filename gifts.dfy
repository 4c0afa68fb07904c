/**
 * The gift search endpoint (`app/api/gifts/route.ts`): the catalog rows are
 * turned into gift items (the price cell reduced to its digits), filtered by
 * budget and keywords, sorted by price from highest, and the first three are
 * returned. The catalog is read once and kept in a module-level cache.
 * Reading the CSV file is an input (`csv`): its rows, or the error message.
 */
module Gifts {
  import opened Wrappers
  import opened Text
  import opened Ordering

  /** One catalog row after parsing (column values, trimmed). */
  datatype CsvRecord = CsvRecord(name: string, brand: string, price: string, productUrl: string, imageUrl: string)

  /** `GiftItem`; a price of `NaN` is `None`. */
  datatype GiftItem = GiftItem(name: string, brand: string, price: Option<int>, productUrl: string, imageUrl: string)

  // ---------------------------------------------------------------------------
  // Number parsing

  /**
   * `parseInt(s, 10)`: leading whitespace, an optional sign, then the longest
   * run of digits; `NaN` when there is no digit. A string of digits alone
   * reads as its base-10 value, and a string without any digit is `NaN`.
   */
  function ParseInt(s: string): (r: Option<int>)
    ensures s != [] && AllDigits(s) ==> r == Some(DigitsValue(s))
    ensures (forall i :: 0 <= i < |s| ==> !IsDigit(s[i])) ==> r.None?
  {
    var t := s[LeadingSpace(s)..];
    var sign := if t != [] && (t[0] == '-' || t[0] == '+') then 1 else 0;
    var body := t[sign..];
    var n := DigitRun(body, 0);
    assert s != [] && AllDigits(s) ==> n == |s| && body == s && body[..n] == s by {
      if s != [] && AllDigits(s) {
        assert !IsSpace(s[0]) && t == s && sign == 0 && body == s;
        AllDigitsRun(body, 0);
        assert body[0..] == body && s[..|s|] == s;
      }
    }
    assert n > 0 ==> IsDigit(body[0]);
    var magnitude: int := DigitsValue(body[..n]);
    if n == 0 then None
    else if sign == 1 && t[0] == '-' then Some(-magnitude)
    else Some(magnitude)
  }

  /**
   * How `parseInt` reads `s`: whitespace before `i`, an optional sign from `i`
   * to `j`, then the digits `s[j..k]`, which a non-digit or the end stops.
   */
  predicate ParseIntParts(s: string, i: nat, j: nat, k: nat) {
    && i <= j < k <= |s|
    && AllSpace(s[..i])
    && (j == i || (j == i + 1 && IsSign(s[i])))
    && AllDigits(s[j..k])
    && (k == |s| || !IsDigit(s[k]))
  }

  /** The pieces `ParseInt` computes on a string read as whitespace, sign and digits. */
  lemma ParseIntPieces(s: string, i: nat, j: nat, k: nat)
    requires ParseIntParts(s, i, j, k)
    ensures LeadingSpace(s) == i && s[i..] != []
    ensures (if s[i] == '-' || s[i] == '+' then 1 else 0) == j - i
    ensures DigitRun(s[j..], 0) == k - j && s[j..][..k - j] == s[j..k]
  {
    LeadingSpaceIs(s, i);
    assert s[j..k][0] == s[j];
    var body := s[j..];
    assert body[0..k - j] == s[j..k];
    assert k - j < |body| ==> body[k - j] == s[k];
    DigitRunIs(body, 0, k - j);
  }

  /** A string read as whitespace, sign and digits parses to the signed value of those digits. */
  lemma ParseIntReadsAt(s: string, i: nat, j: nat, k: nat)
    requires ParseIntParts(s, i, j, k)
    ensures ParseInt(s) == Some((if j == i + 1 && s[i] == '-' then -1 else 1) * DigitsValue(s[j..k]))
  {
    ParseIntPieces(s, i, j, k);
    assert s[i..][j - i..] == s[j..];
  }

  /**
   * `parseInt(w + sg + d + rest, 10)` with leading whitespace `w`, an optional
   * sign `sg` and digits `d` that `rest` does not continue is the signed value
   * of `d`: " 50000" reads 50000, "-1" reads -1, "50000원" reads 50000.
   */
  lemma ParseIntReads(w: string, sg: string, d: string, rest: string)
    requires AllSpace(w) && (sg == "" || sg == "+" || sg == "-")
    requires d != [] && AllDigits(d) && (rest == [] || !IsDigit(rest[0]))
    ensures ParseInt(w + sg + d + rest) == Some((if sg == "-" then -1 else 1) * DigitsValue(d))
  {
    var s := w + sg + d + rest;
    var u := sg + (d + rest);
    assert s == w + u;
    var i, j, k := |w|, |w| + |sg|, |w| + |sg| + |d|;
    assert s[..i] == w;
    assert s[i..] == u;
    assert u[|sg|..] == d + rest;
    assert s[j..k] == (d + rest)[..|d|] == d;
    assert sg != "" ==> s[i] == u[0] == sg[0];
    assert k < |s| ==> s[k] == (d + rest)[|d|] == rest[0];
    ParseIntReadsAt(s, i, j, k);
  }

  /** `parseInt` is `NaN` exactly when no digit follows the leading whitespace and the optional sign. */
  lemma ParseIntNaN(s: string)
    ensures ParseInt(s).None? <==> !exists i: nat, j: nat, k: nat :: ParseIntParts(s, i, j, k)
  {
    if exists i: nat, j: nat, k: nat :: ParseIntParts(s, i, j, k) {
      var i: nat, j: nat, k: nat :| ParseIntParts(s, i, j, k);
      ParseIntReadsAt(s, i, j, k);
    } else if ParseInt(s).Some? {
      var i := LeadingSpace(s);
      var t := s[i..];
      var sign := if t != [] && (t[0] == '-' || t[0] == '+') then 1 else 0;
      var body := t[sign..];
      var n := DigitRun(body, 0);
      assert body[0..n] == s[i + sign..i + sign + n];
      assert i + sign + n < |s| ==> s[i + sign + n] == body[n];
      assert ParseIntParts(s, i, i + sign, i + sign + n);
      assert false;
    }
  }

  /** `s.replace(/[^0-9]/g, '')`. */
  function KeepDigits(s: string): (r: string)
    ensures AllDigits(r) && |r| <= |s|
  {
    if s == [] then []
    else (if IsDigit(s[0]) then [s[0]] else []) + KeepDigits(s[1..])
  }

  lemma {:induction false} KeepDigitsAppend(a: string, b: string)
    ensures KeepDigits(a + b) == KeepDigits(a) + KeepDigits(b)
  {
    if a != [] {
      var head := if IsDigit(a[0]) then [a[0]] else [];
      assert (a + b)[0] == a[0];
      assert (a + b)[1..] == a[1..] + b;
      KeepDigitsAppend(a[1..], b);
      calc {
        KeepDigits(a + b);
        head + KeepDigits(a[1..] + b);
        head + (KeepDigits(a[1..]) + KeepDigits(b));
        (head + KeepDigits(a[1..])) + KeepDigits(b);
        KeepDigits(a) + KeepDigits(b);
      }
    } else {
      assert a + b == b;
    }
  }

  /** The price of a row: `parseInt(price.replace(/[^0-9]/g, ''), 10)`. */
  function ParsePrice(cell: string): Option<int> {
    ParseInt(KeepDigits(cell))
  }

  /**
   * The price is the base-10 value of the cell's digits read in order, every
   * other character ignored; a cell without digits has no price (`NaN`).
   */
  lemma ParsePriceDigits(cell: string)
    ensures KeepDigits(cell) == [] ==> ParsePrice(cell) == None
    ensures KeepDigits(cell) != [] ==> ParsePrice(cell) == Some(DigitsValue(KeepDigits(cell)))
  {
    var d := KeepDigits(cell);
    if d != [] {
      assert d[..|d|] == d;
    }
  }

  /** Characters that are not digits never change the price: "12,000원" prices like "12000". */
  lemma SeparatorsIgnored(a: string, c: char, b: string)
    requires !IsDigit(c)
    ensures ParsePrice(a + [c] + b) == ParsePrice(a + b)
  {
    KeepDigitsAppend(a + [c], b);
    KeepDigitsAppend(a, [c]);
    KeepDigitsAppend(a, b);
    assert KeepDigits([c]) == [];
    assert KeepDigits(a + [c] + b) == KeepDigits(a + b);
  }

  /**
   * `records.map(...)` in `readGiftItems`: one item per row, in row order,
   * with the row's text columns unchanged; the price is the base-10 value of
   * the price cell's digits, and `NaN` exactly when the cell has no digit.
   */
  function ToGiftItems(records: seq<CsvRecord>): (items: seq<GiftItem>)
    ensures |items| == |records|
    ensures forall i :: 0 <= i < |items| ==>
              && items[i].name == records[i].name && items[i].brand == records[i].brand
              && items[i].productUrl == records[i].productUrl && items[i].imageUrl == records[i].imageUrl
              && (items[i].price.None? <==> KeepDigits(records[i].price) == [])
              && (items[i].price.Some? ==> items[i].price.value == DigitsValue(KeepDigits(records[i].price)))
  {
    assert forall i :: 0 <= i < |records| ==>
             (ParsePrice(records[i].price).None? <==> KeepDigits(records[i].price) == [])
             && (ParsePrice(records[i].price).Some? ==>
                   ParsePrice(records[i].price).value == DigitsValue(KeepDigits(records[i].price))) by {
      forall i | 0 <= i < |records| {
        ParsePriceDigits(records[i].price);
      }
    }
    seq(|records|, i requires 0 <= i < |records| =>
      GiftItem(records[i].name, records[i].brand, ParsePrice(records[i].price), records[i].productUrl, records[i].imageUrl))
  }

  // ---------------------------------------------------------------------------
  // filterGiftItems

  /** `item.price <= budget`: false whenever either side is `NaN`. */
  predicate WithinBudget(item: GiftItem, budget: Option<int>) {
    item.price.Some? && budget.Some? && item.price.value <= budget.value
  }

  /** `${item.name} ${item.brand}`.toLowerCase(). */
  function ItemText(item: GiftItem): string {
    Lower(item.name + " " + item.brand)
  }

  /** No keywords: every item; otherwise some lower-cased keyword occurs in the item text. */
  predicate MatchesKeywords(item: GiftItem, keywords: seq<string>) {
    keywords == [] || exists k :: k in keywords && Contains(ItemText(item), Lower(k))
  }

  function Affordable(items: seq<GiftItem>, budget: Option<int>): (r: seq<GiftItem>)
    ensures forall g :: g in r <==> g in items && WithinBudget(g, budget)
    ensures multiset(r) <= multiset(items)
  {
    if items == [] then []
    else
      assert items == [items[0]] + items[1..];
      (if WithinBudget(items[0], budget) then [items[0]] else []) + Affordable(items[1..], budget)
  }

  function Matching(items: seq<GiftItem>, keywords: seq<string>): (r: seq<GiftItem>)
    ensures forall g :: g in r <==> g in items && MatchesKeywords(g, keywords)
    ensures multiset(r) <= multiset(items)
  {
    if items == [] then []
    else
      assert items == [items[0]] + items[1..];
      (if MatchesKeywords(items[0], keywords) then [items[0]] else []) + Matching(items[1..], keywords)
  }

  /**
   * `.filter(item => item.price <= budget)` keeps order and repeats: the
   * filter of a concatenation is the concatenation of the filters, and a
   * single item is kept alone or dropped.
   */
  lemma {:induction false} AffordableAppend(a: seq<GiftItem>, b: seq<GiftItem>, budget: Option<int>)
    ensures Affordable(a + b, budget) == Affordable(a, budget) + Affordable(b, budget)
  {
    if a == [] {
      assert a + b == b;
    } else {
      var head := if WithinBudget(a[0], budget) then [a[0]] else [];
      AffordableUnfold(a, b, budget);
      AffordableAppend(a[1..], b, budget);
      ConcatAssoc(head, Affordable(a[1..], budget), Affordable(b, budget));
    }
  }

  /** The filter of `a` and of `a + b` both start by keeping or dropping `a[0]`. */
  lemma AffordableUnfold(a: seq<GiftItem>, b: seq<GiftItem>, budget: Option<int>)
    requires a != []
    ensures var head := if WithinBudget(a[0], budget) then [a[0]] else [];
      && Affordable(a + b, budget) == head + Affordable(a[1..] + b, budget)
      && Affordable(a, budget) == head + Affordable(a[1..], budget)
  {
    assert (a + b)[0] == a[0];
    assert (a + b)[1..] == a[1..] + b;
  }

  lemma AffordableSingle(g: GiftItem, budget: Option<int>)
    ensures Affordable([g], budget) == if WithinBudget(g, budget) then [g] else []
  {
    assert [g][1..] == [];
  }


  /** The keyword `.filter` keeps order and repeats in the same way. */
  lemma {:induction false} MatchingAppend(a: seq<GiftItem>, b: seq<GiftItem>, keywords: seq<string>)
    ensures Matching(a + b, keywords) == Matching(a, keywords) + Matching(b, keywords)
  {
    if a == [] {
      assert a + b == b;
    } else {
      var head := if MatchesKeywords(a[0], keywords) then [a[0]] else [];
      MatchingUnfold(a, b, keywords);
      MatchingAppend(a[1..], b, keywords);
      ConcatAssoc(head, Matching(a[1..], keywords), Matching(b, keywords));
    }
  }

  /** The filter of `a` and of `a + b` both start by keeping or dropping `a[0]`. */
  lemma MatchingUnfold(a: seq<GiftItem>, b: seq<GiftItem>, keywords: seq<string>)
    requires a != []
    ensures var head := if MatchesKeywords(a[0], keywords) then [a[0]] else [];
      && Matching(a + b, keywords) == head + Matching(a[1..] + b, keywords)
      && Matching(a, keywords) == head + Matching(a[1..], keywords)
  {
    assert (a + b)[0] == a[0];
    assert (a + b)[1..] == a[1..] + b;
  }

  lemma MatchingSingle(g: GiftItem, keywords: seq<string>)
    ensures Matching([g], keywords) == if MatchesKeywords(g, keywords) then [g] else []
  {
    assert [g][1..] == [];
  }


  /** The sort key `b.price - a.price` compares; every sorted item has a price. */
  function PriceKey(item: GiftItem): real {
    if item.price.Some? then item.price.value as real else 0.0
  }

  /**
   * `filterGiftItems(items, budget, keywords)`: every returned item is within
   * the budget and matches the keywords, the result is a sub-multiset of the
   * input, and it is sorted by price, highest first.
   */
  function FilterGiftItems(items: seq<GiftItem>, budget: Option<int>, keywords: seq<string>): (r: seq<GiftItem>)
    ensures forall g :: g in r ==> WithinBudget(g, budget) && MatchesKeywords(g, keywords)
    ensures multiset(r) <= multiset(items)
    ensures SortedDesc(r, PriceKey)
  {
    var m := Matching(Affordable(items, budget), keywords);
    var r := SortDesc(m, PriceKey);
    assert forall g :: g in r ==> g in m by {
      forall g | g in r ensures g in m {
        assert g in multiset(r);
      }
    }
    r
  }

  /**
   * Every returned item has a price within the budget and matches the
   * keywords; every such input item is returned; the output is a
   * sub-multiset of the input sorted by price, highest first; and items of
   * equal price keep their input order.
   */
  lemma FilterGiftItemsSpec(items: seq<GiftItem>, budget: Option<int>, keywords: seq<string>)
    ensures var r := FilterGiftItems(items, budget, keywords);
      && (forall g :: g in r <==> g in items && WithinBudget(g, budget) && MatchesKeywords(g, keywords))
      && multiset(r) <= multiset(items)
      && SortedDesc(r, PriceKey)
      && (forall p :: WithKey(r, PriceKey, p) == WithKey(Matching(Affordable(items, budget), keywords), PriceKey, p))
  {
    var m := Matching(Affordable(items, budget), keywords);
    var r := FilterGiftItems(items, budget, keywords);
    forall g ensures g in r <==> g in m {
      assert g in r <==> g in multiset(r);
      assert g in m <==> g in multiset(m);
    }
    forall p ensures WithKey(r, PriceKey, p) == WithKey(m, PriceKey, p) {
      SortDescStable(m, PriceKey, p);
    }
  }

  /** With an empty keyword list only the budget filters. */
  lemma NoKeywordsNoFilter(items: seq<GiftItem>, budget: Option<int>)
    ensures FilterGiftItems(items, budget, []) == SortDesc(Affordable(items, budget), PriceKey)
  {
    NoKeywordsKeepsAll(Affordable(items, budget));
  }

  lemma {:induction false} NoKeywordsKeepsAll(items: seq<GiftItem>)
    ensures Matching(items, []) == items
  {
    if items != [] {
      NoKeywordsKeepsAll(items[1..]);
    }
  }

  /** A `NaN` budget (a non-numeric budget parameter) leaves nothing. */
  lemma NaNBudgetEmpty(items: seq<GiftItem>, keywords: seq<string>)
    ensures FilterGiftItems(items, None, keywords) == []
  {
    NaNBudgetAffordsNothing(items);
  }

  lemma {:induction false} NaNBudgetAffordsNothing(items: seq<GiftItem>)
    ensures Affordable(items, None) == []
  {
    if items != [] {
      NaNBudgetAffordsNothing(items[1..]);
    }
  }

  // ---------------------------------------------------------------------------
  // GET

  const DefaultBudget: string := "200000"
  const NotFoundMessage: string := "조건에 맞는 선물을 찾을 수 없습니다."
  const MaxItems: nat := 3

  /** `parseInt(searchParams.get('budget') || '200000', 10)`: a missing or empty parameter is the default. */
  function ParseBudget(param: Option<string>): Option<int> {
    ParseInt(if param.None? || param.value == "" then DefaultBudget else param.value)
  }

  /** `searchParams.get('keywords')?.split(',') || []`. */
  function ParseKeywords(param: Option<string>): (ks: seq<string>)
    ensures param.None? <==> ks == []
  {
    if param.None? then [] else SplitOn(param.value, ',')
  }

  lemma DefaultBudgetDigits()
    ensures AllDigits(DefaultBudget) && DigitsValue(DefaultBudget) == 200000
  {
    var s := DefaultBudget;
    assert DigitsValue("2") == 2 by { assert "2"[..0] == ""; }
    assert DigitsValue("20") == 20 by { assert "20"[..1] == "2"; }
    assert DigitsValue("200") == 200 by { assert "200"[..2] == "20"; }
    assert DigitsValue("2000") == 2000 by { assert "2000"[..3] == "200"; }
    assert DigitsValue("20000") == 20000 by { assert "20000"[..4] == "2000"; }
    assert s[..5] == "20000";
  }

  /** A string of digits alone parses to its value. */
  lemma ParseIntDigits(s: string)
    requires s != [] && AllDigits(s)
    ensures ParseInt(s) == Some(DigitsValue(s))
  {
  }

  /** The default budget reads as 200000. */
  lemma DefaultBudgetValue()
    ensures ParseBudget(None) == Some(200000)
    ensures ParseBudget(Some("")) == Some(200000)
  {
    DefaultBudgetDigits();
    ParseIntDigits(DefaultBudget);
  }

  /** The JSON body and status of a response. */
  datatype Response = Ok(items: seq<GiftItem>) | NotFound(message: string) | ServerError(message: string)

  function Status(r: Response): nat {
    match r
    case Ok(_) => 200
    case NotFound(_) => 404
    case ServerError(_) => 500
  }

  /**
   * The answer for a loaded catalog: never a server error; 404 exactly when
   * no item passes the filter; otherwise one to three items, each within the
   * budget and matching the keywords, most expensive first.
   */
  function Respond(items: seq<GiftItem>, budgetParam: Option<string>, keywordsParam: Option<string>): (r: Response)
    ensures !r.ServerError?
    ensures r.NotFound? <==> FilterGiftItems(items, ParseBudget(budgetParam), ParseKeywords(keywordsParam)) == []
    ensures r.Ok? ==> 1 <= |r.items| <= MaxItems && SortedDesc(r.items, PriceKey)
    ensures r.Ok? ==> forall g :: g in r.items ==>
              WithinBudget(g, ParseBudget(budgetParam)) && MatchesKeywords(g, ParseKeywords(keywordsParam))
  {
    var filtered := FilterGiftItems(items, ParseBudget(budgetParam), ParseKeywords(keywordsParam));
    if filtered == [] then NotFound(NotFoundMessage)
    else
      TakeSortedDesc(filtered, MaxItems, PriceKey);
      Ok(Take(filtered, MaxItems))
  }

  /** A successful answer is exactly the first min(3, n) filtered items, in order. */
  lemma RespondSpec(items: seq<GiftItem>, budgetParam: Option<string>, keywordsParam: Option<string>)
    ensures var filtered := FilterGiftItems(items, ParseBudget(budgetParam), ParseKeywords(keywordsParam));
      var r := Respond(items, budgetParam, keywordsParam);
      r.Ok? ==> r.items == filtered[..|r.items|] && |r.items| == (if |filtered| < MaxItems then |filtered| else MaxItems)
  {
    var filtered := FilterGiftItems(items, ParseBudget(budgetParam), ParseKeywords(keywordsParam));
    var first := Take(filtered, MaxItems);
    assert first == filtered[..|first|];
  }

  /** The message of a failed catalog read. */
  function ReadFailure(error: string): string {
    "선물 목록을 가져오는데 실패했습니다: " + "CSV 파일 읽기 실패: " + error
  }

  /** The route module with its lazily filled catalog cache (`cachedGiftItems`). */
  class GiftRoute {
    var cached: Option<seq<GiftItem>>

    constructor()
      ensures cached == None
    {
      cached := None;
    }

    /**
     * `GET`: the catalog is read only while the cache is empty and cached
     * once read; a failed read answers 500 and leaves the cache empty;
     * otherwise the answer is Respond on the cached catalog.
     */
    method Get(budgetParam: Option<string>, keywordsParam: Option<string>, csv: Result<seq<CsvRecord>, string>)
      returns (r: Response)
      modifies this
      ensures old(cached).Some? ==> cached == old(cached)
      ensures old(cached).None? && csv.Success? ==> cached == Some(ToGiftItems(csv.value))
      ensures old(cached).None? && csv.Failure? ==> cached == None && r == ServerError(ReadFailure(csv.error))
      ensures cached.Some? ==> r == Respond(cached.value, budgetParam, keywordsParam)
    {
      if cached.None? {
        if csv.Failure? {
          return ServerError(ReadFailure(csv.error));
        }
        cached := Some(ToGiftItems(csv.value));
      }
      r := Respond(cached.value, budgetParam, keywordsParam);
    }
  }
}
