/** The first-match history lookups of module/response/response_short.py,
    response_intermediate.py and response_long.py, which share one body:
    scan the documents whose `emotion` and `category` match, and return the
    first `履歴` record dated as asked. */
module HistorySearch {
  import opened Wrappers
  import opened Dicts
  import opened Values
  import opened Records

  /** `item.get("emotion") == emotion_name and item.get("category") == category_name` */
  predicate ItemMatches(d: DataDoc, emotionName: string, categoryName: string) {
    d.emotion.GetOr(Null) == Text(emotionName) && d.category == Text(categoryName)
  }

  /** Record `j` of document `i` is a hit: its document matches and its
      `date` equals the target. */
  predicate Hit(items: seq<DataDoc>, emotionName: string, categoryName: string, targetDate: Value, i: int, j: int) {
    && 0 <= i < |items| && 0 <= j < |items[i].history|
    && ItemMatches(items[i], emotionName, categoryName)
    && DateOf(items[i].history[j]) == targetDate
  }

  /** `(i, j)` comes no later than `(i2, j2)` in document-then-history order. */
  predicate NotLater(i: int, j: int, i2: int, j2: int) {
    i < i2 || (i == i2 && j <= j2)
  }

  /** The inner loop from record `k`: the first record dated `targetDate`. */
  function DatedFrom(h: seq<Entry>, targetDate: Value, k: nat): (r: Option<nat>)
    requires k <= |h|
    ensures r.Some? ==> k <= r.value < |h| && DateOf(h[r.value]) == targetDate
    ensures r.Some? ==> forall j | k <= j < r.value :: DateOf(h[j]) != targetDate
    ensures r.None? ==> forall j | k <= j < |h| :: DateOf(h[j]) != targetDate
    decreases |h| - k
  {
    if k == |h| then None
    else if DateOf(h[k]) == targetDate then Some(k)
    else DatedFrom(h, targetDate, k + 1)
  }

  /** The outer loop from document `k`: the position of the first hit. */
  function HitFrom(items: seq<DataDoc>, emotionName: string, categoryName: string, targetDate: Value, k: nat): (r: Option<(nat, nat)>)
    requires k <= |items|
    ensures r.Some? ==> k <= r.value.0 && Hit(items, emotionName, categoryName, targetDate, r.value.0, r.value.1)
    ensures r.Some? ==> forall i2, j2 | k <= i2 && Hit(items, emotionName, categoryName, targetDate, i2, j2) ::
                          NotLater(r.value.0, r.value.1, i2, j2)
    ensures r.None? ==> forall i2, j2 | k <= i2 :: !Hit(items, emotionName, categoryName, targetDate, i2, j2)
    decreases |items| - k
  {
    if k == |items| then None
    else if ItemMatches(items[k], emotionName, categoryName) && DatedFrom(items[k].history, targetDate, 0).Some? then
      Some((k, DatedFrom(items[k].history, targetDate, 0).value))
    else
      HitFrom(items, emotionName, categoryName, targetDate, k + 1)
  }

  /** `search_short_history`, `search_intermediate_history` and
      `search_long_history`: the first hit's record, or `None`. */
  function SearchHistory(items: seq<DataDoc>, emotionName: string, categoryName: string, targetDate: Value): Option<Entry> {
    match HitFrom(items, emotionName, categoryName, targetDate, 0)
    case Some((i, j)) => Some(items[i].history[j])
    case None => None
  }

  /** `None` exactly when no record of a matching document is dated as
      asked; otherwise the record is dated as asked, comes from a matching
      document, and no hit precedes it in document-then-history order. */
  lemma SearchHistorySpec(items: seq<DataDoc>, emotionName: string, categoryName: string, targetDate: Value)
    ensures SearchHistory(items, emotionName, categoryName, targetDate).None? <==>
      forall i, j :: !Hit(items, emotionName, categoryName, targetDate, i, j)
    ensures SearchHistory(items, emotionName, categoryName, targetDate).Some? ==>
      var rec := SearchHistory(items, emotionName, categoryName, targetDate).value;
      && DateOf(rec) == targetDate
      && exists i, j | Hit(items, emotionName, categoryName, targetDate, i, j) ::
           && items[i].history[j] == rec
           && forall i2, j2 | Hit(items, emotionName, categoryName, targetDate, i2, j2) :: NotLater(i, j, i2, j2)
  {
    var r := HitFrom(items, emotionName, categoryName, targetDate, 0);
    if r.Some? {
      var (i, j) := r.value;
      assert Hit(items, emotionName, categoryName, targetDate, i, j);
    }
  }
}
