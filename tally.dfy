/**
 * An insertion-ordered table from names to accumulated scores: the
 * `defaultdict(float)` the keyword weighter adds into, and the
 * `Record<string, number>` the analysis page merges keywords into.
 * A key enters `order` the first time a score is added to it; iteration
 * (`dict.items()`, `Object.entries`) follows `order`.
 */
module Tally {

  datatype Table = Table(order: seq<string>, score: map<string, real>)

  /** Keys are listed once each, and exactly the keys of the map are listed. */
  ghost predicate Valid(t: Table) {
    && (forall i, j :: 0 <= i < j < |t.order| ==> t.order[i] != t.order[j])
    && (forall k :: k in t.score <==> k in t.order)
  }

  const Empty: Table := Table([], map[])

  /** The score of `k`, 0.0 for a key never added (what `defaultdict(float)` reads). */
  function ScoreOf(t: Table, k: string): real {
    if k in t.score then t.score[k] else 0.0
  }

  /** `table[k] += v`: only `k`'s score changes, and a new key goes to the end of the order. */
  function Add(t: Table, k: string, v: real): (r: Table)
    requires Valid(t)
    ensures Valid(r)
    ensures forall j :: ScoreOf(r, j) == ScoreOf(t, j) + (if j == k then v else 0.0)
    ensures k in t.score ==> r.order == t.order
    ensures k !in t.score ==> r.order == t.order + [k]
  {
    if k in t.score then Table(t.order, t.score[k := t.score[k] + v])
    else Table(t.order + [k], t.score[k := v])
  }

  /**
   * `list(table.items())`: the keys in insertion order, each with its score;
   * no name is listed twice, and the names listed are exactly the table's keys.
   */
  function Entries(t: Table): (es: seq<(string, real)>)
    requires Valid(t)
    ensures |es| == |t.order|
    ensures forall i :: 0 <= i < |es| ==> es[i].0 == t.order[i] && es[i].1 == ScoreOf(t, t.order[i])
    ensures forall i, j :: 0 <= i < j < |es| ==> es[i].0 != es[j].0
    ensures forall k :: k in t.score <==> exists i :: 0 <= i < |es| && es[i].0 == k
  {
    seq(|t.order|, i requires 0 <= i < |t.order| => (t.order[i], t.score[t.order[i]]))
  }
}
