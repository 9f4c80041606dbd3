/** The two `get_top_long_emotions` aggregators over long-term memories:
    module/emotion/basic_personality.py counts the main emotions of the
    long `emotion_data` documents and returns the four most frequent, in
    Japanese; module/memory/emotion_stats.py adds up the history lengths of
    the long `emotion_index` documents per "category/emotion" key.  Both
    fill a `Counter` in a loop, modelled once as a weighted count. */
module Personality {
  import opened Wrappers
  import opened Dicts
  import opened Values
  import opened Records
  import Text
  import Ranking

  // ---------------------------------------------------------------------
  // The counter: `counter[key] += weight` over a list of (key, weight)

  /** The keys in order of first appearance, as a `Counter` lists them. */
  function KeysOf(ps: seq<(string, nat)>): seq<string> {
    if ps == [] then []
    else
      var init := KeysOf(ps[..|ps| - 1]);
      var k := ps[|ps| - 1].0;
      if k in init then init else init + [k]
  }

  /** The total weight listed for `k`. */
  function WeightOf(ps: seq<(string, nat)>, k: string): nat {
    if ps == [] then 0
    else WeightOf(ps[..|ps| - 1], k) + (if ps[|ps| - 1].0 == k then ps[|ps| - 1].1 else 0)
  }

  /** The total of all weights. */
  function TotalWeight(ps: seq<(string, nat)>): nat {
    if ps == [] then 0 else TotalWeight(ps[..|ps| - 1]) + ps[|ps| - 1].1
  }

  /** `counter[k] += w` (a missing key counts as 0). */
  function Bump(d: Dict<string, nat>, k: string, w: nat): Dict<string, nat> {
    Put<string, nat>(d, k, GetOr<string, nat>(d, k, 0) + w)
  }

  /** The counter after the whole list. */
  function Counted(ps: seq<(string, nat)>): Dict<string, nat> {
    if ps == [] then Empty()
    else Bump(Counted(ps[..|ps| - 1]), ps[|ps| - 1].0, ps[|ps| - 1].1)
  }

  /** The counter lists each key once, in order of first appearance, with
      the total weight listed for it; any other key is absent. */
  lemma {:induction false} CountedSpec(ps: seq<(string, nat)>)
    ensures Valid(Counted(ps)) && Counted(ps).keys == KeysOf(ps)
    ensures forall k :: (k in Counted(ps).vals <==> k in KeysOf(ps))
    ensures forall k | k in Counted(ps).vals :: Counted(ps).vals[k] == WeightOf(ps, k)
    ensures forall k | k !in KeysOf(ps) :: WeightOf(ps, k) == 0
  {
    if ps != [] {
      var init := ps[..|ps| - 1];
      var (k, w) := ps[|ps| - 1];
      CountedSpec(init);
      var d := Counted(init);
      PutValid(d, k, GetOr(d, k, 0) + w);
    }
  }

  /** The sum of the counts of `keys`. */
  function SumOver(keys: seq<string>, d: Dict<string, nat>): nat {
    if keys == [] then 0 else SumOver(keys[..|keys| - 1], d) + GetOr(d, keys[|keys| - 1], 0)
  }

  lemma {:induction false} SumOverBump(keys: seq<string>, d: Dict<string, nat>, k: string, w: nat)
    requires Distinct(keys)
    ensures SumOver(keys, Bump(d, k, w)) == SumOver(keys, d) + (if k in keys then w else 0)
  {
    if keys != [] {
      var init := keys[..|keys| - 1];
      assert Distinct(init) by {
        forall i, j | 0 <= i < j < |init| ensures init[i] != init[j] {
          assert init[i] == keys[i] && init[j] == keys[j];
        }
      }
      SumOverBump(init, d, k, w);
      if keys[|keys| - 1] == k {
        assert k !in init by {
          forall i | 0 <= i < |init| ensures init[i] != k {
            assert init[i] == keys[i];
          }
        }
      }
      assert keys == init + [keys[|keys| - 1]];
    }
  }

  /** The counts add up to the total weight. */
  lemma {:induction false} CountedTotal(ps: seq<(string, nat)>)
    ensures SumOver(Counted(ps).keys, Counted(ps)) == TotalWeight(ps)
  {
    if ps != [] {
      var init := ps[..|ps| - 1];
      var (k, w) := ps[|ps| - 1];
      CountedTotal(init);
      CountedSpec(init);
      var d := Counted(init);
      PutValid(d, k, GetOr(d, k, 0) + w);
      SumOverBump(d.keys, d, k, w);
      if k !in d.keys {
        SumOverTail(d.keys, Bump(d, k, w), k);
      }
    }
  }

  lemma SumOverTail(keys: seq<string>, d: Dict<string, nat>, k: string)
    ensures SumOver(keys + [k], d) == SumOver(keys, d) + GetOr(d, k, 0)
  {
    assert (keys + [k])[..|keys|] == keys;
  }

  /** With every weight at least 1, every listed key counts at least 1. */
  lemma {:induction false} KeysWeighted(ps: seq<(string, nat)>)
    requires forall i | 0 <= i < |ps| :: ps[i].1 >= 1
    ensures forall k | k in KeysOf(ps) :: WeightOf(ps, k) >= 1
  {
    if ps != [] {
      KeysWeighted(ps[..|ps| - 1]);
    }
  }

  /** `counter.items()` */
  function Items(d: Dict<string, nat>): seq<(string, nat)> {
    seq(|d.keys|, i requires 0 <= i < |d.keys| => (d.keys[i], GetOr(d, d.keys[i], 0)))
  }

  function CountKey(p: (string, nat)): real {
    p.1 as real
  }

  // ---------------------------------------------------------------------
  // module/emotion/basic_personality.py

  /** `str(v)`: a string is itself; `show` stands for the text Python
      prints for any other value (`"None"` for `None`). */
  function StrOf(v: Value, show: Value -> string): string {
    if v.Text? then v.s else show(v)
  }

  /** `str(doc.get("emotion", "")).strip()` */
  function EmotionName(d: DataDoc, show: Value -> string): string {
    Text.Strip(match d.emotion case None => "" case Some(v) => StrOf(v, show))
  }

  /** One `(name, 1)` per document with a non-blank emotion, in order. */
  function NamePairs(docs: seq<DataDoc>, show: Value -> string): seq<(string, nat)> {
    if docs == [] then []
    else
      var name := EmotionName(docs[|docs| - 1], show);
      NamePairs(docs[..|docs| - 1], show) + (if name == "" then [] else [(name, 1)])
  }

  lemma {:induction false} NamePairsShape(docs: seq<DataDoc>, show: Value -> string)
    ensures |NamePairs(docs, show)| <= |docs|
    ensures forall i | 0 <= i < |NamePairs(docs, show)| :: NamePairs(docs, show)[i].1 == 1 && NamePairs(docs, show)[i].0 != ""
    ensures TotalWeight(NamePairs(docs, show)) == |NamePairs(docs, show)|
  {
    if docs != [] {
      NamePairsShape(docs[..|docs| - 1], show);
      var init := NamePairs(docs[..|docs| - 1], show);
      var name := EmotionName(docs[|docs| - 1], show);
      if name != "" {
        var ps: seq<(string, nat)> := init + [(name, 1)];
        assert NamePairs(docs, show) == ps;
        assert ps[..|init|] == init;
        assert TotalWeight(ps) == TotalWeight(init) + 1;
      } else {
        assert NamePairs(docs, show) == init;
      }
    }
  }

  /** `table.get(en, en)` for a dict literal listed as pairs: the value of
      the first pair for `en`, or `en` itself when there is none. */
  function Lookup(table: seq<(string, string)>, en: string): (r: string)
    ensures (forall i | 0 <= i < |table| :: table[i].0 != en) ==> r == en
    ensures forall i | 0 <= i < |table| && table[i].0 == en && (forall m | 0 <= m < i :: table[m].0 != en) ::
      r == table[i].1
  {
    if table == [] then en
    else if table[0].0 == en then table[0].1
    else
      var r := Lookup(table[1..], en);
      assert forall i | 1 <= i < |table| :: table[i] == table[1..][i - 1];
      r
  }

  /** The file's own English-to-Japanese table (30 entries). */
  const PersonalityTable: seq<(string, string)> := [
    ("Anger", "怒り"), ("Anticipation", "期待"), ("Anxiety", "不安"), ("Awe", "畏敬"),
    ("Contempt", "軽蔑"), ("Curiosity", "好奇心"), ("Cynicism", "冷笑"), ("Delight", "歓喜"),
    ("Despair", "絶望"), ("Disappointment", "失望"), ("Disgust", "嫌悪"), ("Dominance", "優位"),
    ("Envy", "羨望"), ("Fear", "恐れ"), ("Guilt", "自責"), ("Hope", "希望"), ("Joy", "喜び"),
    ("Love", "愛"), ("Optimism", "楽観"), ("Outrage", "憤慨"), ("Pessimism", "悲観"),
    ("Pride", "誇り"), ("Remorse", "後悔"), ("Sadness", "悲しみ"), ("Sentimentality", "感傷"),
    ("Shame", "恥"), ("Surprise", "驚き"), ("Trust", "信頼"), ("Unbelief", "不信"),
    ("Aggressiveness", "積極性")
  ]

  /** `counter.most_common(n)`: the stable descending sort by count, cut
      to `n`. */
  function MostCommon(items: seq<(string, nat)>, n: nat): seq<(string, nat)> {
    var sorted := Ranking.SortDesc(items, CountKey);
    sorted[..if n < |sorted| then n else |sorted|]
  }

  /** `[(table.get(en, en), count) for en, count in top]` */
  function Translated(top: seq<(string, nat)>, table: seq<(string, string)>): seq<(string, nat)> {
    seq(|top|, i requires 0 <= i < |top| => (Lookup(table, top[i].0), top[i].1))
  }

  /** What `get_top_long_emotions` returns once it has the documents. */
  function TopLong(docs: seq<DataDoc>, show: Value -> string): seq<(string, nat)> {
    Translated(MostCommon(Items(Counted(NamePairs(TierDocs(docs, "long"), show))), 4), PersonalityTable)
  }

  /** `get_top_long_emotions` of basic_personality.py.  `connected` is
      whether `get_mongo_client()` returned a client; without one the
      subscript raises and the result is []. */
  method GetTopLongEmotions(docs: seq<DataDoc>, connected: bool, show: Value -> string) returns (top: seq<(string, nat)>)
    ensures top == if connected then TopLong(docs, show) else []
  {
    if !connected {
      return [];
    }
    var longDocs := TierDocs(docs, "long");
    var counter: Dict<string, nat> := Empty();
    for i := 0 to |longDocs|
      invariant counter == Counted(NamePairs(longDocs[..i], show))
    {
      assert longDocs[..i + 1][..i] == longDocs[..i];
      var emotionEn := EmotionName(longDocs[i], show);
      var ps := NamePairs(longDocs[..i], show);
      if emotionEn != "" {
        var next: seq<(string, nat)> := ps + [(emotionEn, 1)];
        assert NamePairs(longDocs[..i + 1], show) == next;
        assert next[..|ps|] == ps;
        counter := Bump(counter, emotionEn, 1);
      } else {
        assert NamePairs(longDocs[..i + 1], show) == ps;
      }
    }
    assert longDocs[..|longDocs|] == longDocs;
    var top4En := MostCommon(Items(counter), 4);
    top := Translated(top4En, PersonalityTable);
  }

  lemma {:induction false} ItemsSumUpTo(d: Dict<string, nat>, n: nat)
    requires n <= |d.keys|
    ensures Ranking.KeySum(Items(d)[..n], CountKey) == SumOver(d.keys[..n], d) as real
  {
    if n > 0 {
      ItemsSumUpTo(d, n - 1);
      var it: seq<(string, nat)> := Items(d);
      var last: (string, nat) := it[n - 1];
      assert it[..n] == it[..n - 1] + [last];
      Ranking.KeySumAppend(it[..n - 1], [last], CountKey);
      assert Ranking.KeySum([last], CountKey) == last.1 as real;
      assert d.keys[..n][..n - 1] == d.keys[..n - 1];
    }
  }

  /** The counts of the items add up to the counter's total. */
  lemma ItemsSum(d: Dict<string, nat>)
    ensures Ranking.KeySum(Items(d), CountKey) == SumOver(d.keys, d) as real
  {
    ItemsSumUpTo(d, |d.keys|);
    assert Items(d)[..|d.keys|] == Items(d);
    assert d.keys[..|d.keys|] == d.keys;
  }

  lemma {:induction false} TranslatedSum(t: seq<(string, nat)>, table: seq<(string, string)>)
    ensures Ranking.KeySum(Translated(t, table), CountKey) == Ranking.KeySum(t, CountKey)
  {
    if t != [] {
      assert Translated(t, table)[1..] == Translated(t[1..], table);
      TranslatedSum(t[1..], table);
    }
  }

  /** The counted items of unit weights: listed in first-seen order, each
      counting at least 1, and adding up to the number of pairs. */
  lemma CountedItems(ps: seq<(string, nat)>)
    requires forall i | 0 <= i < |ps| :: ps[i].1 == 1
    ensures var items := Items(Counted(ps));
      && |items| == |KeysOf(ps)|
      && (forall i | 0 <= i < |items| :: items[i].0 == KeysOf(ps)[i] && items[i].1 >= 1)
      && Ranking.KeySum(items, CountKey) == TotalWeight(ps) as real
  {
    CountedSpec(ps);
    KeysWeighted(ps);
    CountedTotal(ps);
    ItemsSum(Counted(ps));
    var items := Items(Counted(ps));
    forall i | 0 <= i < |items| ensures items[i].1 >= 1 {
      assert KeysOf(ps)[i] in KeysOf(ps);
    }
  }

  /** `most_common(4)` of positive counts, translated: at most four pairs,
      counts never increasing, each at least 1, adding up to no more than
      the whole count. */
  lemma TopOf(items: seq<(string, nat)>, table: seq<(string, string)>)
    requires forall i | 0 <= i < |items| :: items[i].1 >= 1
    ensures var top := Translated(MostCommon(items, 4), table);
      && |top| <= 4
      && (forall i, j | 0 <= i < j < |top| :: top[i].1 >= top[j].1)
      && (forall i | 0 <= i < |top| :: top[i].1 >= 1)
      && Ranking.KeySum(top, CountKey) <= Ranking.KeySum(items, CountKey)
  {
    Ranking.SortDescSpec(items, CountKey);
    var sorted := Ranking.SortDesc(items, CountKey);
    var n := if 4 < |sorted| then 4 else |sorted|;
    var cut := sorted[..n];
    assert MostCommon(items, 4) == cut;
    forall i | 0 <= i < |sorted| ensures sorted[i].1 >= 1 {
      assert sorted[i] in multiset(items);
    }
    Ranking.KeySumPrefix(sorted, n, CountKey);
    TranslatedSum(cut, table);
  }

  /** The number of documents whose stripped emotion is `name`. */
  function NamedCount(docs: seq<DataDoc>, show: Value -> string, name: string): nat {
    if docs == [] then 0
    else NamedCount(docs[..|docs| - 1], show, name) + (if EmotionName(docs[|docs| - 1], show) == name then 1 else 0)
  }

  /** The counter's weight of a non-blank name is the number of documents
      carrying it; blank names are never counted. */
  lemma {:induction false} NamePairsCount(docs: seq<DataDoc>, show: Value -> string, name: string)
    ensures WeightOf(NamePairs(docs, show), name) == if name == "" then 0 else NamedCount(docs, show, name)
  {
    if docs != [] {
      var init := NamePairs(docs[..|docs| - 1], show);
      NamePairsCount(docs[..|docs| - 1], show, name);
      var en := EmotionName(docs[|docs| - 1], show);
      if en != "" {
        var ps: seq<(string, nat)> := init + [(en, 1)];
        assert NamePairs(docs, show) == ps;
        assert ps[..|init|] == init;
      } else {
        assert NamePairs(docs, show) == init;
      }
    }
  }

  /** Every item is a key of the counter with its count, and every key
      appears as an item. */
  lemma ItemsCounts(d: Dict<string, nat>)
    requires Valid(d)
    ensures forall p | p in Items(d) :: p.0 in d.vals && p.1 == d.vals[p.0]
    ensures forall k | k in d.vals :: (k, d.vals[k]) in Items(d)
  {
    forall k | k in d.vals ensures (k, d.vals[k]) in Items(d) {
      var j :| 0 <= j < |d.keys| && d.keys[j] == k;
      assert Items(d)[j] == (k, d.vals[k]);
    }
  }

  /** `most_common(4)` of a counter takes keys with their counts. */
  lemma MostCommonTaken(d: Dict<string, nat>)
    requires Valid(d)
    ensures var en := MostCommon(Items(d), 4);
      forall i | 0 <= i < |en| :: en[i].0 in d.vals && en[i].1 == d.vals[en[i].0]
  {
    var items := Items(d);
    var sorted := Ranking.SortDesc(items, CountKey);
    var en := MostCommon(items, 4);
    ItemsCounts(d);
    Ranking.SortDescSpec(items, CountKey);
    forall i | 0 <= i < |en| ensures en[i].0 in d.vals && en[i].1 == d.vals[en[i].0] {
      assert en[i] == sorted[i];
      assert sorted[i] in multiset(items);
    }
  }

  /** A key `most_common(4)` leaves out counts no more than a key it takes. */
  lemma MostCommonLeftOut(d: Dict<string, nat>, k: string, i: nat)
    requires Valid(d) && k in d.vals
    requires var en := MostCommon(Items(d), 4);
      i < |en| && forall j | 0 <= j < |en| :: en[j].0 != k
    ensures d.vals[k] <= MostCommon(Items(d), 4)[i].1
  {
    var items := Items(d);
    var sorted := Ranking.SortDesc(items, CountKey);
    var n := if 4 < |sorted| then 4 else |sorted|;
    var en := MostCommon(items, 4);
    assert en == sorted[..n];
    ItemsCounts(d);
    Ranking.SortDescSpec(items, CountKey);
    var p := (k, d.vals[k]);
    assert p in multiset(sorted);
    var j :| 0 <= j < |sorted| && sorted[j] == p;
    assert forall j' | 0 <= j' < n :: sorted[j'].0 != k by {
      assert forall j' | 0 <= j' < n :: sorted[j'] == en[j'];
    }
    assert CountKey(sorted[i]) >= CountKey(sorted[j]);
  }

  /** `most_common(4)` of a counter takes keys with their counts, and a key
      it leaves out counts no more than any key it takes. */
  lemma MostCommonCounts(d: Dict<string, nat>)
    requires Valid(d)
    ensures var en := MostCommon(Items(d), 4);
      && (forall i | 0 <= i < |en| :: en[i].0 in d.vals && en[i].1 == d.vals[en[i].0])
      && (forall k, i | k in d.vals && 0 <= i < |en| && (forall j | 0 <= j < |en| :: en[j].0 != k) ::
            d.vals[k] <= en[i].1)
  {
    MostCommonTaken(d);
    forall k, i | k in d.vals && 0 <= i < |MostCommon(Items(d), 4)| &&
        (forall j | 0 <= j < |MostCommon(Items(d), 4)| :: MostCommon(Items(d), 4)[j].0 != k)
      ensures d.vals[k] <= MostCommon(Items(d), 4)[i].1
    {
      MostCommonLeftOut(d, k, i);
    }
  }

  /** The four names `most_common(4)` takes carry their true number of long
      documents, and a non-blank name it leaves out occurs in no more long
      documents than any name it takes. */
  lemma TopLongCounts(docs: seq<DataDoc>, show: Value -> string)
    ensures var longDocs := TierDocs(docs, "long");
      var en := MostCommon(Items(Counted(NamePairs(longDocs, show))), 4);
      && (forall i | 0 <= i < |en| :: en[i].0 != "" && en[i].1 == NamedCount(longDocs, show, en[i].0))
      && (forall name, i | name != "" && 0 <= i < |en| && (forall j | 0 <= j < |en| :: en[j].0 != name) ::
            NamedCount(longDocs, show, name) <= en[i].1)
  {
    var longDocs := TierDocs(docs, "long");
    var ps := NamePairs(longDocs, show);
    var d := Counted(ps);
    var en := MostCommon(Items(d), 4);
    CountedSpec(ps);
    MostCommonCounts(d);
    NamePairsShape(longDocs, show);
    KeysWeighted(ps);
    NamePairsCount(longDocs, show, "");
    forall i | 0 <= i < |en| ensures en[i].0 != "" && en[i].1 == NamedCount(longDocs, show, en[i].0) {
      NamePairsCount(longDocs, show, en[i].0);
    }
    forall name, i | name != "" && 0 <= i < |en| && (forall j | 0 <= j < |en| :: en[j].0 != name)
      ensures NamedCount(longDocs, show, name) <= en[i].1
    {
      NamePairsCount(longDocs, show, name);
    }
  }

  /** At most four pairs, counts never increasing, every count at least 1,
      counts adding up to no more than the long documents.  Each pair is an
      English name `most_common(4)` took, translated, with the number of
      long documents carrying that name, and no non-blank name left out
      occurs more often than a name taken.  Before the cut,
      the names are listed in the order they were first seen, and names of
      equal count keep that order through the sort. */
  lemma TopLongSpec(docs: seq<DataDoc>, show: Value -> string)
    ensures var top := TopLong(docs, show);
      && |top| <= 4
      && (forall i, j | 0 <= i < j < |top| :: top[i].1 >= top[j].1)
      && (forall i | 0 <= i < |top| :: top[i].1 >= 1)
      && Ranking.KeySum(top, CountKey) <= |TierDocs(docs, "long")| as real
    ensures var ps := NamePairs(TierDocs(docs, "long"), show);
      var items := Items(Counted(ps));
      && |items| == |KeysOf(ps)|
      && (forall i | 0 <= i < |items| :: items[i].0 == KeysOf(ps)[i])
      && forall v :: Ranking.KeyFilter(Ranking.SortDesc(items, CountKey), CountKey, v) == Ranking.KeyFilter(items, CountKey, v)
    ensures var longDocs := TierDocs(docs, "long");
      var en := MostCommon(Items(Counted(NamePairs(longDocs, show))), 4);
      var top := TopLong(docs, show);
      && |top| == |en|
      && (forall i | 0 <= i < |top| :: top[i] == (Lookup(PersonalityTable, en[i].0), en[i].1))
      && (forall i | 0 <= i < |en| :: en[i].0 != "" && en[i].1 == NamedCount(longDocs, show, en[i].0))
      && (forall name, i | name != "" && 0 <= i < |en| && (forall j | 0 <= j < |en| :: en[j].0 != name) ::
            NamedCount(longDocs, show, name) <= en[i].1)
  {
    TopLongCounts(docs, show);
    var ps := NamePairs(TierDocs(docs, "long"), show);
    NamePairsShape(TierDocs(docs, "long"), show);
    CountedItems(ps);
    var items := Items(Counted(ps));
    TopOf(items, PersonalityTable);
    Ranking.SortDescSpec(items, CountKey);
  }

  // ---------------------------------------------------------------------
  // module/memory/emotion_stats.py

  /** `f"{category}/{emotion}"` for one `emotion_index` document: the
      category defaults to "undefined"; the emotion defaults to "Unknown"
      and is stripped, and a non-string emotion has no `strip`, which
      raises (`None`). */
  function StatsKey(d: IndexDoc, show: Value -> string): Option<string> {
    var category := if d.category.Null? then "undefined" else StrOf(d.category, show);
    match d.emotion
    case None => Some(category + "/Unknown")
    case Some(v) => if v.Text? then Some(category + "/" + Text.Strip(v.s)) else None
  }

  /** One `(key, len(履歴))` per document, or `None` once a key raises. */
  function HistoryPairs(docs: seq<IndexDoc>, show: Value -> string): Option<seq<(string, nat)>> {
    if docs == [] then Some([])
    else
      var last := docs[|docs| - 1];
      match HistoryPairs(docs[..|docs| - 1], show)
      case None => None
      case Some(ps) =>
        match StatsKey(last, show)
        case None => None
        case Some(k) => Some(ps + [(k, |last.history|)])
  }

  /** The history entries of the documents whose key is `k`. */
  function HistoryTotal(docs: seq<IndexDoc>, show: Value -> string, k: string): nat {
    if docs == [] then 0
    else
      var last := docs[|docs| - 1];
      HistoryTotal(docs[..|docs| - 1], show, k) + (if StatsKey(last, show) == Some(k) then |last.history| else 0)
  }

  /** The pairs exist exactly when no document's key raises; then every
      document's key is listed, even with an empty history, and the weight
      of a key is the history entries of its documents. */
  lemma {:induction false} HistoryPairsSpec(docs: seq<IndexDoc>, show: Value -> string)
    ensures HistoryPairs(docs, show).None? <==> exists i | 0 <= i < |docs| :: StatsKey(docs[i], show).None?
    ensures HistoryPairs(docs, show).Some? ==>
      && (forall i | 0 <= i < |docs| :: StatsKey(docs[i], show).value in KeysOf(HistoryPairs(docs, show).value))
      && (forall k :: WeightOf(HistoryPairs(docs, show).value, k) == HistoryTotal(docs, show, k))
  {
    HistoryPairsFails(docs, show);
    if HistoryPairs(docs, show).Some? {
      HistoryPairsKeys(docs, show);
      HistoryPairsWeights(docs, show);
    }
  }

  lemma {:induction false} HistoryPairsFails(docs: seq<IndexDoc>, show: Value -> string)
    ensures HistoryPairs(docs, show).None? <==> exists i | 0 <= i < |docs| :: StatsKey(docs[i], show).None?
  {
    if docs != [] {
      var init, last := docs[..|docs| - 1], docs[|docs| - 1];
      assert HistoryPairs(init, show).None? <==> exists i | 0 <= i < |init| :: StatsKey(init[i], show).None? by {
        HistoryPairsFails(init, show);
      }
      assert forall i | 0 <= i < |init| :: init[i] == docs[i];
      if HistoryPairs(init, show).None? {
        var i :| 0 <= i < |init| && StatsKey(init[i], show).None?;
        assert StatsKey(docs[i], show).None?;
      }
    }
  }

  lemma {:induction false} HistoryPairsKeys(docs: seq<IndexDoc>, show: Value -> string)
    requires HistoryPairs(docs, show).Some?
    ensures forall i | 0 <= i < |docs| ::
      StatsKey(docs[i], show).Some? && StatsKey(docs[i], show).value in KeysOf(HistoryPairs(docs, show).value)
  {
    if docs != [] {
      var init, last := docs[..|docs| - 1], docs[|docs| - 1];
      assert HistoryPairs(init, show).Some? && StatsKey(last, show).Some?;
      var ps := HistoryPairs(init, show).value;
      var next: seq<(string, nat)> := ps + [(StatsKey(last, show).value, |last.history|)];
      assert HistoryPairs(docs, show).value == next;
      assert forall k | k in KeysOf(ps) :: k in KeysOf(next) by {
        assert next[..|ps|] == ps;
        KeysGrow(ps, next);
      }
      forall i | 0 <= i < |docs| ensures StatsKey(docs[i], show).Some? && StatsKey(docs[i], show).value in KeysOf(next) {
        if i < |init| {
          assert docs[i] == init[i];
          assert StatsKey(init[i], show).Some? && StatsKey(init[i], show).value in KeysOf(ps) by {
            HistoryPairsKeys(init, show);
          }
        } else {
          assert next[..|ps|] == ps;
          KeysGrow(ps, next);
        }
      }
    }
  }

  lemma {:induction false} HistoryPairsWeights(docs: seq<IndexDoc>, show: Value -> string)
    requires HistoryPairs(docs, show).Some?
    ensures forall k :: WeightOf(HistoryPairs(docs, show).value, k) == HistoryTotal(docs, show, k)
  {
    if docs != [] {
      var init, last := docs[..|docs| - 1], docs[|docs| - 1];
      assert HistoryPairs(init, show).Some? && StatsKey(last, show).Some?;
      var ps := HistoryPairs(init, show).value;
      var next: seq<(string, nat)> := ps + [(StatsKey(last, show).value, |last.history|)];
      assert HistoryPairs(docs, show).value == next;
      assert forall k :: WeightOf(ps, k) == HistoryTotal(init, show, k) by {
        HistoryPairsWeights(init, show);
      }
      assert next[..|next| - 1] == ps;
    }
  }

  lemma KeysGrow(ps: seq<(string, nat)>, next: seq<(string, nat)>)
    requires |next| == |ps| + 1 && next[..|ps|] == ps
    ensures forall k | k in KeysOf(ps) :: k in KeysOf(next)
    ensures next[|ps|].0 in KeysOf(next)
  {
  }

  lemma {:induction false} HistoryPairsPrefix(docs: seq<IndexDoc>, show: Value -> string, n: nat)
    requires n <= |docs| && HistoryPairs(docs[..n], show).None?
    ensures HistoryPairs(docs, show).None?
    decreases |docs| - n
  {
    if n < |docs| {
      assert docs[..n + 1][..n] == docs[..n];
      HistoryPairsPrefix(docs, show, n + 1);
    } else {
      assert docs[..n] == docs;
    }
  }

  /** The module-level names of module/memory/emotion_stats.py: it imports
      nothing and defines only `get_top_long_emotions`.  Python looks a
      global name up here, then among the builtins (`print`, `len`,
      `enumerate`, `Exception`). */
  const StatsModuleNames: set<string> := {"get_top_long_emotions"}

  /** The names the function reads that no builtin supplies: the client
      factory (line 3), `Counter` (line 8) and `logger` (line 28). */
  const StatsImports: set<string> := {"get_mongo_client", "Counter", "logger"}

  /** How a call ends: a `NameError` for the unbound `name` escaping to the
      caller, or a returned value. */
  datatype Exit<T> = NameError(name: string) | Returned(value: T)

  /** The `try` block of lines 2-25 with the module's global names `names`:
      the counter it returns, or `None` for an exception the `except` at
      line 27 catches — an unbound `get_mongo_client` (line 3), a missing
      client (`None["emotion_db"]`, line 4), an unbound `Counter` (line 8)
      or a key that raises (line 12). */
  function StatsTry(names: set<string>, index: seq<IndexDoc>, connected: bool, show: Value -> string): Option<Dict<string, nat>> {
    if "get_mongo_client" !in names || !connected || "Counter" !in names then None
    else
      match HistoryPairs(IndexTierDocs(index, "long"), show)
      case Some(ps) => Some(Counted(ps))
      case None => None
  }

  /** `get_top_long_emotions` of module/memory/emotion_stats.py with the
      global names `names`: the `try` block's counter, or, once it raised,
      the handler's `{}` after `logger.error` at line 28 — itself a
      `NameError` when `logger` is unbound. */
  function HistoryCountsIn(names: set<string>, index: seq<IndexDoc>, connected: bool, show: Value -> string): Exit<Dict<string, nat>> {
    match StatsTry(names, index, connected, show)
    case Some(counter) => Returned(counter)
    case None => if "logger" in names then Returned(Empty()) else NameError("logger")
  }

  /** As written: the file binds none of the names it needs, so every call
      raises at line 3, the handler raises again at line 28, and a
      `NameError` for `logger` reaches the caller. */
  function HistoryCountsAsWritten(index: seq<IndexDoc>, connected: bool, show: Value -> string): (r: Exit<Dict<string, nat>>)
    ensures r == NameError("logger")
  {
    HistoryCountsIn(StatsModuleNames, index, connected, show)
  }

  /** What the function returns once its three names are imported: the
      counter over the long `emotion_index` documents, or `{}` when the
      client is missing or a key raises. */
  function HistoryCounted(index: seq<IndexDoc>, connected: bool, show: Value -> string): Dict<string, nat> {
    if !connected then Empty() else
      match HistoryPairs(IndexTierDocs(index, "long"), show)
      case Some(ps) => Counted(ps)
      case None => Empty()
  }

  /** With the imports in reach, the function never raises and returns
      `HistoryCounted`. */
  lemma ImportsRestoreCounts(names: set<string>, index: seq<IndexDoc>, connected: bool, show: Value -> string)
    requires StatsImports <= names
    ensures HistoryCountsIn(names, index, connected, show) == Returned(HistoryCounted(index, connected, show))
  {
    assert "get_mongo_client" in StatsImports && "Counter" in StatsImports && "logger" in StatsImports;
  }

  /** One long document with emotion Joy and one history entry. */
  function JoyIndex(): seq<IndexDoc> {
    [IndexDoc("1", Some(Text("Joy")), Text("long"), [Empty()])]
  }

  lemma JoyStripped()
    ensures Text.Strip("Joy") == "Joy"
  {
    assert Text.LStrip("Joy") == "Joy" by {
      assert !Text.IsSpace("Joy"[0]);
    }
    assert !Text.IsSpace("Joy"[2]);
  }

  lemma JoyKey(show: Value -> string)
    ensures StatsKey(JoyIndex()[0], show) == Some("long/Joy")
  {
    JoyStripped();
    assert "long" + "/" + "Joy" == "long/Joy";
  }

  lemma JoyPairs(show: Value -> string)
    ensures HistoryPairs(IndexTierDocs(JoyIndex(), "long"), show) == Some([("long/Joy", 1)])
  {
    var index := JoyIndex();
    assert index[..0] == [];
    assert IndexTierDocs(index, "long") == index;
    JoyKey(show);
    assert HistoryPairs(index[..0], show) == Some([]);
    var ps: seq<(string, nat)> := [("long/Joy", 1)];
    assert |index[0].history| == 1;
    assert [] + ps == ps;
    assert HistoryPairs(index, show) == Some([] + [(StatsKey(index[0], show).value, |index[0].history|)]);
  }

  lemma JoyCounted()
    ensures Counted([("long/Joy", 1)]).vals == map["long/Joy" := 1]
  {
    var ps: seq<(string, nat)> := [("long/Joy", 1)];
    assert ps[..0] == [];
  }

  /** The import gap loses every count: one long document with emotion Joy
      and one history entry counts 1 under "long/Joy" once the names are
      imported, and raises as written. */
  lemma ImportGapLosesCounts(show: Value -> string)
    ensures HistoryCounted(JoyIndex(), true, show).vals == map["long/Joy" := 1]
    ensures HistoryCountsAsWritten(JoyIndex(), true, show).NameError?
  {
    JoyPairs(show);
    JoyCounted();
  }

  /** `get_top_long_emotions` of module/memory/emotion_stats.py with its
      three missing imports supplied: the counter over the long
      `emotion_index` documents, or `{}` when the client is missing or a
      key raises. */
  method HistoryCounts(index: seq<IndexDoc>, connected: bool, show: Value -> string) returns (counter: Dict<string, nat>)
    ensures counter == HistoryCounted(index, connected, show)
  {
    if !connected {
      return Empty();
    }
    var longDocs := IndexTierDocs(index, "long");
    counter := Empty();
    for i := 0 to |longDocs|
      invariant HistoryPairs(longDocs[..i], show).Some?
      invariant counter == Counted(HistoryPairs(longDocs[..i], show).value)
    {
      assert longDocs[..i + 1][..i] == longDocs[..i];
      var doc := longDocs[i];
      var key := StatsKey(doc, show);
      if key.None? {
        HistoryPairsPrefix(longDocs, show, i + 1);
        return Empty();
      }
      var ps := HistoryPairs(longDocs[..i], show).value;
      var next: seq<(string, nat)> := ps + [(key.value, |doc.history|)];
      assert HistoryPairs(longDocs[..i + 1], show) == Some(next);
      assert next[..|ps|] == ps;
      counter := Bump(counter, key.value, |doc.history|);
    }
    assert longDocs[..|longDocs|] == longDocs;
  }

  /** What the counter holds: one key per long document's key, counting
      the history entries of the documents with that key. */
  lemma HistoryCountsSpec(index: seq<IndexDoc>, show: Value -> string)
    ensures var docs := IndexTierDocs(index, "long");
      HistoryPairs(docs, show).Some? ==>
        var counter := Counted(HistoryPairs(docs, show).value);
        && (forall i | 0 <= i < |docs| :: StatsKey(docs[i], show).Some? && StatsKey(docs[i], show).value in counter.vals)
        && (forall k | k in counter.vals :: counter.vals[k] == HistoryTotal(docs, show, k))
  {
    var docs := IndexTierDocs(index, "long");
    HistoryPairsSpec(docs, show);
    if HistoryPairs(docs, show).Some? {
      CountedSpec(HistoryPairs(docs, show).value);
    }
  }
}
