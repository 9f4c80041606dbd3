/** Retrieval over `emotion_index` (module/response/response_index.py): rows
    are grouped by memory tier, kept when they share a keyword with the
    query, gated by how many strong labels they agree on, and the best
    composition score in each tier wins. */
module ResponseIndex {
  import opened Wrappers
  import opened Dicts
  import opened Values
  import opened VectorMath
  import Params
  import IndexRows
  import Ranking

  /** A composition whose values are numbers. */
  type Composition = Dict<string, real>

  /** `item["構成比"]` of an index row: the key is absent (a `KeyError`),
      its value is not a dict, or it is a composition. */
  datatype CompositionField = Absent | NotDict | Comp(c: Composition) {
    /** The composition `is_valid_candidate` receives; `None` for a value
        without `.items()`. */
    function AsDict(): Option<Composition> {
      match this
      case Comp(c) => Some(c)
      case _ => None
    }
  }

  /** The fields of an `emotion_index` row that retrieval reads:
      `item.get("category", "unknown")` (the text "unknown" when absent),
      `item.get("キーワード", [])` (`Arr([])` when absent), `構成比`, and
      `best.get("emotion", "Unknown")` (the text "Unknown" when absent). */
  datatype IndexRow = IndexRow(category: Value, keywords: Value, composition: CompositionField, emotion: Value)

  /** What a call returns, or that it raises an exception nothing catches. */
  datatype Outcome<T> = Raises | Returns(value: T)

  /** The tiers, in the order of the dict literal that groups them. */
  const Categories: seq<string> := ["long", "intermediate", "short"]

  // ---------------------------------------------------------------------
  // translate_emotion and normalize_composition_vector

  /** `emotion_map.get(emotion, emotion)` */
  function TranslateEmotion(e: string): (r: string)
    ensures e in Params.EmotionMap().vals ==> r in Params.JaNames
    ensures e !in Params.EmotionMap().vals ==> r == e
  {
    if e in Params.EmotionMap().vals then
      Params.EmotionMapValues();
      TranslatedIsLabel(e);
      Params.EmotionMap().vals[e]
    else e
  }

  lemma TranslatedIsLabel(e: string)
    requires e in Params.EmotionMap().vals
    ensures Params.EmotionMap().vals[e] in Params.JaNames
  {
    Params.NamesDistinct();
    var i :| 0 <= i < |Params.EnNames| && Params.EnNames[i] == e;
  }

  /** Translating and then reading `emotion_map_reverse` gives back the
      English name. */
  lemma TranslateReversible(e: string)
    requires e in Params.EmotionMap().vals
    ensures TranslateEmotion(e) in Params.EmotionMapReverse().vals
    ensures Params.EmotionMapReverse().vals[TranslateEmotion(e)] == e
  {
    Params.ReverseUndoes();
  }

  /** `{ja: partial.get(ja, 0) for ja in emotion_map.values()}` */
  function NormalizeCompositionVector(partial: Dict<string, Value>): (r: Dict<string, Value>)
    ensures Valid(r) && r.keys == Params.JaNames
    ensures forall k | k in Params.JaNames :: k in r.vals && r.vals[k] == GetOr(partial, k, Int(0))
  {
    Params.EmotionMapValues();
    Params.NamesDistinct();
    IndexRows.ZeroFilled(Dicts.Values(Params.EmotionMap()), partial)
  }

  // ---------------------------------------------------------------------
  // load_and_categorize_index

  /** The tier name a row is filed under: its category when that is a
      string.  Any other hashable value equals no tier name, as "unknown"
      does. */
  function CategoryOf(r: IndexRow): string {
    if r.category.Text? then r.category.s else "unknown"
  }

  /** `category in categorized` raises `TypeError` for a list or dict
      category, and nothing catches it. */
  predicate CategoryRaises(rows: seq<IndexRow>) {
    exists r | r in rows :: !Hashable(r.category)
  }

  /** The rows of tier `c`, in index order. */
  function OfCategory(rows: seq<IndexRow>, c: string): seq<IndexRow> {
    if rows == [] then []
    else OfCategory(rows[..|rows| - 1], c) + (if CategoryOf(rows[|rows| - 1]) == c then [rows[|rows| - 1]] else [])
  }

  /** The rows whose category is none of the three tiers. */
  function Uncategorized(rows: seq<IndexRow>): seq<IndexRow> {
    if rows == [] then []
    else Uncategorized(rows[..|rows| - 1]) + (if CategoryOf(rows[|rows| - 1]) !in Categories then [rows[|rows| - 1]] else [])
  }

  lemma {:induction false} OfCategoryMembers(rows: seq<IndexRow>, c: string)
    ensures forall r :: r in OfCategory(rows, c) <==> r in rows && CategoryOf(r) == c
  {
    if rows != [] {
      OfCategoryMembers(rows[..|rows| - 1], c);
      assert rows == rows[..|rows| - 1] + [rows[|rows| - 1]];
    }
  }

  lemma OfCategoryStep(rows: seq<IndexRow>, x: IndexRow, c: string)
    ensures CategoryOf(x) == c ==> OfCategory(rows + [x], c) == OfCategory(rows, c) + [x]
    ensures CategoryOf(x) != c ==> OfCategory(rows + [x], c) == OfCategory(rows, c)
  {
    assert (rows + [x])[..|rows|] == rows;
    assert OfCategory(rows, c) + [] == OfCategory(rows, c);
  }

  lemma UncategorizedStep(rows: seq<IndexRow>, x: IndexRow)
    ensures CategoryOf(x) !in Categories ==> Uncategorized(rows + [x]) == Uncategorized(rows) + [x]
    ensures CategoryOf(x) in Categories ==> Uncategorized(rows + [x]) == Uncategorized(rows)
  {
    assert (rows + [x])[..|rows|] == rows;
    assert Uncategorized(rows) + [] == Uncategorized(rows);
  }

  /** Each row is in exactly one of the three tiers or dropped. */
  ghost predicate Partitioned(rows: seq<IndexRow>) {
    multiset(OfCategory(rows, "long")) + multiset(OfCategory(rows, "intermediate"))
      + multiset(OfCategory(rows, "short")) + multiset(Uncategorized(rows)) == multiset(rows)
  }

  /** Appending `x` to one of four lists that split `rows` splits
      `rows + [x]`. */
  lemma SplitAppend(a: seq<IndexRow>, b: seq<IndexRow>, c: seq<IndexRow>, d: seq<IndexRow>, rows: seq<IndexRow>, x: IndexRow)
    requires multiset(a) + multiset(b) + multiset(c) + multiset(d) == multiset(rows)
    ensures multiset(a + [x]) + multiset(b) + multiset(c) + multiset(d) == multiset(rows + [x])
    ensures multiset(a) + multiset(b + [x]) + multiset(c) + multiset(d) == multiset(rows + [x])
    ensures multiset(a) + multiset(b) + multiset(c + [x]) + multiset(d) == multiset(rows + [x])
    ensures multiset(a) + multiset(b) + multiset(c) + multiset(d + [x]) == multiset(rows + [x])
  {
  }

  /** Appending a row of tier `c` grows that tier alone. */
  lemma PartitionStepTier(init: seq<IndexRow>, x: IndexRow, c: string)
    requires Partitioned(init) && CategoryOf(x) == c && c in Categories
    ensures Partitioned(init + [x])
  {
    var rows := init + [x];
    OfCategoryStep(init, x, "long");
    OfCategoryStep(init, x, "intermediate");
    OfCategoryStep(init, x, "short");
    UncategorizedStep(init, x);
    var l, m, s, u := OfCategory(init, "long"), OfCategory(init, "intermediate"), OfCategory(init, "short"), Uncategorized(init);
    if c == "long" {
      assert OfCategory(rows, "long") == l + [x];
      assert OfCategory(rows, "intermediate") == m && OfCategory(rows, "short") == s;
      SplitAppend(l, m, s, u, init, x);
    } else if c == "intermediate" {
      assert OfCategory(rows, "intermediate") == m + [x];
      assert OfCategory(rows, "long") == l && OfCategory(rows, "short") == s;
      SplitAppend(l, m, s, u, init, x);
    } else {
      assert OfCategory(rows, "short") == s + [x];
      assert OfCategory(rows, "long") == l && OfCategory(rows, "intermediate") == m;
      SplitAppend(l, m, s, u, init, x);
    }
  }

  /** Appending a row of no tier grows the dropped rows alone. */
  lemma PartitionStepOther(init: seq<IndexRow>, x: IndexRow)
    requires Partitioned(init) && CategoryOf(x) !in Categories
    ensures Partitioned(init + [x])
  {
    var rows := init + [x];
    OfCategoryStep(init, x, "long");
    OfCategoryStep(init, x, "intermediate");
    OfCategoryStep(init, x, "short");
    UncategorizedStep(init, x);
    var l, m, s, u := OfCategory(init, "long"), OfCategory(init, "intermediate"), OfCategory(init, "short"), Uncategorized(init);
    assert OfCategory(rows, "long") == l && OfCategory(rows, "intermediate") == m && OfCategory(rows, "short") == s;
    SplitAppend(l, m, s, u, init, x);
  }

  /** The three tiers and the dropped rows together are the index, each row
      counted once: a partition. */
  lemma {:induction false} CategoriesPartition(rows: seq<IndexRow>)
    ensures Partitioned(rows)
  {
    if rows != [] {
      var init, x := rows[..|rows| - 1], rows[|rows| - 1];
      CategoriesPartition(init);
      assert rows == init + [x];
      if CategoryOf(x) in Categories {
        PartitionStepTier(init, x, CategoryOf(x));
      } else {
        PartitionStepOther(init, x);
      }
    }
  }

  /** `load_and_categorize_index`, the index given as data: one list per
      tier, appended to in index order; rows of any other category are
      dropped, and an unhashable category raises. */
  method LoadAndCategorizeIndex(all: seq<IndexRow>) returns (result: Outcome<Dict<string, seq<IndexRow>>>)
    ensures result.Raises? <==> CategoryRaises(all)
    ensures result.Returns? ==>
      var categorized := result.value;
      && Valid(categorized) && categorized.keys == Categories
      && forall c | c in Categories :: c in categorized.vals && categorized.vals[c] == OfCategory(all, c)
  {
    var categorized := Dict(Categories, map["long" := [], "intermediate" := [], "short" := []]);
    for i := 0 to |all|
      invariant forall r | r in all[..i] :: Hashable(r.category)
      invariant categorized.keys == Categories
      invariant categorized.vals.Keys == {"long", "intermediate", "short"}
      invariant categorized.vals["long"] == OfCategory(all[..i], "long")
      invariant categorized.vals["intermediate"] == OfCategory(all[..i], "intermediate")
      invariant categorized.vals["short"] == OfCategory(all[..i], "short")
    {
      assert all[..i + 1] == all[..i] + [all[i]];
      OfCategoryStep(all[..i], all[i], "long");
      OfCategoryStep(all[..i], all[i], "intermediate");
      OfCategoryStep(all[..i], all[i], "short");
      if !Hashable(all[i].category) {
        assert all[i] in all;
        return Raises;
      }
      var c := CategoryOf(all[i]);
      if c in categorized.vals {
        categorized := Put(categorized, c, categorized.vals[c] + [all[i]]);
      }
    }
    assert all[..|all|] == all;
    result := Returns(categorized);
  }

  // ---------------------------------------------------------------------
  // filter_by_keywords

  /** `set(v)`: the elements of an iterable value, or `None` where `set`
      raises `TypeError` (`None`, a number, or a list holding a list or a
      dict).  A string gives its characters and a dict its keys. */
  function ElementsOf(v: Value): Option<seq<Value>> {
    match v
    case Arr(items) => if forall i | 0 <= i < |items| :: Hashable(items[i]) then Some(items) else None
    case Text(s) => Some(seq(|s|, i requires 0 <= i < |s| => Text([s[i]])))
    case Obj(f) => Some(seq(|f.keys|, i requires 0 <= i < |f.keys| => Text(f.keys[i])))
    case _ => None
  }

  /** `set(item.get("キーワード", [])) & set(input_keywords)` is non-empty,
      `query` being the elements of `input_keywords`. */
  predicate SharesKeyword(r: IndexRow, query: seq<Value>) {
    match ElementsOf(r.keywords)
    case Some(ks) => exists k | k in ks :: k in query
    case None => false
  }

  /** The comprehension of `filter_by_keywords` raises: some row's
      `キーワード` is not a set of hashable values, or there is a row and the
      input keywords are not. */
  predicate FilterRaises(rows: seq<IndexRow>, kws: Value) {
    || (exists r | r in rows :: ElementsOf(r.keywords).None?)
    || (rows != [] && ElementsOf(kws).None?)
  }

  /** The rows sharing a keyword with `query`, in order. */
  function Matching(rows: seq<IndexRow>, query: seq<Value>): seq<IndexRow> {
    if rows == [] then []
    else (if SharesKeyword(rows[0], query) then [rows[0]] else []) + Matching(rows[1..], query)
  }

  /** `filter_by_keywords`: `None` where the comprehension raises. */
  function FilterByKeywords(rows: seq<IndexRow>, kws: Value): Option<seq<IndexRow>> {
    if FilterRaises(rows, kws) then None else Some(Matching(rows, ElementsOf(kws).GetOr([])))
  }

  /** The comprehension keeps exactly the rows sharing a keyword. */
  lemma {:induction false} MatchingMembers(rows: seq<IndexRow>, query: seq<Value>)
    ensures forall r :: r in Matching(rows, query) <==> r in rows && SharesKeyword(r, query)
  {
    if rows != [] {
      MatchingMembers(rows[1..], query);
      assert rows == [rows[0]] + rows[1..];
    }
  }

  /** The filter raises exactly on `FilterRaises`; otherwise it keeps exactly
      the rows sharing a keyword with the input keywords. */
  lemma FilterMembers(rows: seq<IndexRow>, kws: Value)
    ensures FilterByKeywords(rows, kws).None? <==> FilterRaises(rows, kws)
    ensures FilterByKeywords(rows, kws).Some? ==>
      forall r :: r in FilterByKeywords(rows, kws).value <==>
        r in rows && ElementsOf(kws).Some? && SharesKeyword(r, ElementsOf(kws).value)
  {
    MatchingMembers(rows, ElementsOf(kws).GetOr([]));
  }

  /** The comprehension keeps the order: it distributes over concatenation. */
  lemma {:induction false} MatchingAppend(a: seq<IndexRow>, b: seq<IndexRow>, query: seq<Value>)
    ensures Matching(a + b, query) == Matching(a, query) + Matching(b, query)
  {
    if a != [] {
      assert (a + b)[0] == a[0] && (a + b)[1..] == a[1..] + b;
      MatchingAppend(a[1..], b, query);
      var head := if SharesKeyword(a[0], query) then [a[0]] else [];
      calc {
        Matching(a + b, query);
        head + Matching(a[1..] + b, query);
        head + (Matching(a[1..], query) + Matching(b, query));
        (head + Matching(a[1..], query)) + Matching(b, query);
      }
    } else {
      assert a + b == b;
    }
  }

  lemma {:induction false} MatchingNothing(rows: seq<IndexRow>)
    ensures Matching(rows, []) == []
  {
    if rows != [] {
      MatchingNothing(rows[1..]);
    }
  }

  /** No input keywords, no rows, unless a row's own keywords make the
      comprehension raise. */
  lemma FilterNoKeywords(rows: seq<IndexRow>)
    ensures FilterByKeywords(rows, Arr([])).None? <==> exists r | r in rows :: ElementsOf(r.keywords).None?
    ensures FilterByKeywords(rows, Arr([])).Some? ==> FilterByKeywords(rows, Arr([])).value == []
  {
    MatchingNothing(rows);
  }

  // ---------------------------------------------------------------------
  // calculate_composition_score

  /** `abs(base.get(k, 0) - target.get(k, 0))` */
  function Diff(base: Composition, target: Composition, k: string): real {
    Abs(GetOr(base, k, 0.0) - GetOr(target, k, 0.0))
  }

  /** Of the keys `ks`, those `target` also has, in the order of `ks`. */
  function SharedOf(ks: seq<string>, target: Composition): seq<string> {
    if ks == [] then []
    else SharedOf(ks[..|ks| - 1], target) + (if ks[|ks| - 1] in target.vals then [ks[|ks| - 1]] else [])
  }

  /** `set(base.keys()) & set(target.keys())`, listed in `base`'s order. */
  function SharedKeys(base: Composition, target: Composition): seq<string> {
    SharedOf(base.keys, target)
  }

  /** `sum(100 - diff for key in ks)` */
  function ScoreSum(base: Composition, target: Composition, ks: seq<string>): real {
    if ks == [] then 0.0
    else ScoreSum(base, target, ks[..|ks| - 1]) + (100.0 - Diff(base, target, ks[|ks| - 1]))
  }

  /** The mean of `100 - |diff|` over the shared keys, 0 when none. */
  function CompositionScore(base: Composition, target: Composition): real {
    var shared := SharedKeys(base, target);
    if |shared| == 0 then 0.0 else ScoreSum(base, target, shared) / (|shared| as real)
  }

  /** `calculate_composition_score`: a loop over the shared keys adding up
      `100 - diff`, then the mean. */
  method CalculateCompositionScore(base: Composition, target: Composition) returns (score: real)
    ensures score == CompositionScore(base, target)
  {
    var shared: seq<string> := [];
    score := 0.0;
    for i := 0 to |base.keys|
      invariant shared == SharedOf(base.keys[..i], target)
      invariant score == ScoreSum(base, target, shared)
    {
      assert base.keys[..i + 1][..i] == base.keys[..i];
      var key := base.keys[i];
      if key in target.vals {
        assert (shared + [key])[..|shared|] == shared;
        shared := shared + [key];
        score := score + (100.0 - Diff(base, target, key));
      }
    }
    assert base.keys[..|base.keys|] == base.keys;
    if |shared| > 0 {
      score := score / (|shared| as real);
    }
  }

  lemma {:induction false} ScoreSumAtMost(base: Composition, target: Composition, ks: seq<string>)
    ensures ScoreSum(base, target, ks) <= 100.0 * (|ks| as real)
  {
    if ks != [] {
      ScoreSumAtMost(base, target, ks[..|ks| - 1]);
    }
  }

  lemma MeanAtMost(sum: real, n: real, bound: real)
    requires n > 0.0 && sum <= bound * n
    ensures sum / n <= bound
  {
  }

  /** No score exceeds 100. */
  lemma ScoreAtMost100(base: Composition, target: Composition)
    ensures CompositionScore(base, target) <= 100.0
  {
    var shared := SharedKeys(base, target);
    if |shared| > 0 {
      ScoreSumAtMost(base, target, shared);
      MeanAtMost(ScoreSum(base, target, shared), |shared| as real, 100.0);
    }
  }

  lemma {:induction false} ScoreSumAtLeast(base: Composition, target: Composition, ks: seq<string>)
    requires forall k | k in ks :: Diff(base, target, k) <= 100.0
    ensures ScoreSum(base, target, ks) >= 0.0
  {
    if ks != [] {
      ScoreSumAtLeast(base, target, ks[..|ks| - 1]);
    }
  }

  lemma {:induction false} SharedOfMembers(ks: seq<string>, target: Composition)
    ensures forall k :: k in SharedOf(ks, target) <==> k in ks && k in target.vals
    ensures |SharedOf(ks, target)| <= |ks|
  {
    if ks != [] {
      SharedOfMembers(ks[..|ks| - 1], target);
      assert ks == ks[..|ks| - 1] + [ks[|ks| - 1]];
    }
  }

  /** Percentages in [0, 100] score in [0, 100]. */
  lemma ScoreOfPercentages(base: Composition, target: Composition)
    requires forall k | k in base.vals :: 0.0 <= base.vals[k] <= 100.0
    requires forall k | k in target.vals :: 0.0 <= target.vals[k] <= 100.0
    ensures 0.0 <= CompositionScore(base, target) <= 100.0
  {
    ScoreAtMost100(base, target);
    var shared := SharedKeys(base, target);
    forall k | k in shared ensures Diff(base, target, k) <= 100.0 {
      var x, y := GetOr(base, k, 0.0), GetOr(target, k, 0.0);
      assert 0.0 <= x <= 100.0 && 0.0 <= y <= 100.0;
    }
    ScoreSumAtLeast(base, target, shared);
    if |shared| > 0 {
      MeanAtLeast0(ScoreSum(base, target, shared), |shared| as real);
    }
  }

  lemma MeanAtLeast0(sum: real, n: real)
    requires n > 0.0 && sum >= 0.0
    ensures sum / n >= 0.0
  {
  }

  /** With no key in common the score is 0. */
  lemma ScoreNoneShared(base: Composition, target: Composition)
    requires forall k | k in base.keys :: k !in target.vals
    ensures CompositionScore(base, target) == 0.0
  {
    SharedOfMembers(base.keys, target);
    if |SharedKeys(base, target)| > 0 {
      assert SharedKeys(base, target)[0] in SharedKeys(base, target);
    }
  }

  lemma {:induction false} SharedOfSelf(ks: seq<string>, c: Composition)
    requires forall k | k in ks :: k in c.vals
    ensures SharedOf(ks, c) == ks
    ensures ScoreSum(c, c, ks) == 100.0 * (|ks| as real)
  {
    if ks != [] {
      var init, last := ks[..|ks| - 1], ks[|ks| - 1];
      assert SharedOf(init, c) == init && ScoreSum(c, c, init) == 100.0 * (|init| as real) by {
        assert forall k | k in init :: k in ks;
        SharedOfSelf(init, c);
      }
      assert last in ks;
      assert Diff(c, c, last) == 0.0;
      assert ks == init + [last];
    }
  }

  lemma MeanOfHundred(sum: real, n: real)
    requires n > 0.0 && sum == 100.0 * n
    ensures sum / n == 100.0
  {
  }

  /** A non-empty composition scores 100 against itself. */
  lemma ScoreIdentical(c: Composition)
    requires Valid(c) && |c.keys| > 0
    ensures CompositionScore(c, c) == 100.0
  {
    assert forall k | k in c.keys :: k in c.vals;
    SharedOfSelf(c.keys, c);
    MeanOfHundred(ScoreSum(c, c, c.keys), |c.keys| as real);
  }

  // ---------------------------------------------------------------------
  // is_valid_candidate

  /** Of the keys `ks`, those whose value in `c` exceeds 5, in order. */
  function StrongOf(ks: seq<string>, c: Composition): seq<string> {
    if ks == [] then []
    else StrongOf(ks[..|ks| - 1], c) + (if GetOr(c, ks[|ks| - 1], 0.0) > 5.0 then [ks[|ks| - 1]] else [])
  }

  /** The keys of `{k: v for k, v in c.items() if v > 5}`. */
  function StrongKeys(c: Composition): seq<string> {
    StrongOf(c.keys, c)
  }

  /** A strong query label that is also strong in the candidate, within 30
      of it. */
  predicate Close(base: Composition, cand: Composition, k: string) {
    k in cand.vals && cand.vals[k] > 5.0 && Abs(GetOr(base, k, 0.0) - cand.vals[k]) <= 30.0
  }

  function CloseOf(ks: seq<string>, base: Composition, cand: Composition): seq<string> {
    if ks == [] then []
    else CloseOf(ks[..|ks| - 1], base, cand) + (if Close(base, cand, ks[|ks| - 1]) then [ks[|ks| - 1]] else [])
  }

  /** The shared strong keys that `matched` counts. */
  function MatchedKeys(base: Composition, cand: Composition): seq<string> {
    CloseOf(StrongKeys(base), base, cand)
  }

  /** `max(len(base_keys) - 1, 1)` */
  function Required(base: Composition): nat {
    if |StrongKeys(base)| - 1 > 1 then |StrongKeys(base)| - 1 else 1
  }

  /** `is_valid_candidate(candidate, base)`; a composition that is not a
      dict has no `.items()` and the candidate is rejected. */
  predicate ValidCandidate(cand: Option<Composition>, base: Option<Composition>) {
    cand.Some? && base.Some? && |MatchedKeys(base.value, cand.value)| >= Required(base.value)
  }

  /** `is_valid_candidate`: counts the close shared strong labels. */
  method IsValidCandidate(cand: Option<Composition>, base: Option<Composition>) returns (ok: bool)
    ensures ok == ValidCandidate(cand, base)
  {
    if cand.None? || base.None? {
      return false;
    }
    var b, c := base.value, cand.value;
    var strong := StrongKeys(b);
    var matched := 0;
    for i := 0 to |strong|
      invariant matched == |CloseOf(strong[..i], b, c)|
    {
      assert strong[..i + 1][..i] == strong[..i];
      if Close(b, c, strong[i]) {
        matched := matched + 1;
      }
    }
    assert strong[..|strong|] == strong;
    var required := if |strong| - 1 > 1 then |strong| - 1 else 1;
    ok := matched >= required;
  }

  lemma {:induction false} CloseOfMembers(ks: seq<string>, base: Composition, cand: Composition)
    ensures forall k :: k in CloseOf(ks, base, cand) <==> k in ks && Close(base, cand, k)
    ensures |CloseOf(ks, base, cand)| <= |ks|
    ensures Distinct(ks) ==> Distinct(CloseOf(ks, base, cand))
  {
    if ks != [] {
      var init := ks[..|ks| - 1];
      CloseOfMembers(init, base, cand);
      assert ks == init + [ks[|ks| - 1]];
      if Distinct(ks) {
        assert Distinct(init);
      }
    }
  }

  lemma {:induction false} StrongOfMembers(ks: seq<string>, c: Composition)
    ensures forall k :: k in StrongOf(ks, c) <==> k in ks && GetOr(c, k, 0.0) > 5.0
    ensures Distinct(ks) ==> Distinct(StrongOf(ks, c))
  {
    if ks != [] {
      var init := ks[..|ks| - 1];
      StrongOfMembers(init, c);
      assert ks == init + [ks[|ks| - 1]];
      if Distinct(ks) {
        assert Distinct(init);
      }
    }
  }

  /** A query without a label above 5 accepts no candidate. */
  lemma NoStrongQueryInvalid(base: Composition, cand: Option<Composition>)
    requires StrongKeys(base) == []
    ensures !ValidCandidate(cand, Some(base))
  {
    CloseOfMembers(StrongKeys(base), base, cand.GetOr(base));
  }

  /** A candidate sharing no strong label with the query is never valid. */
  lemma NoSharedStrongInvalid(base: Composition, cand: Composition)
    requires forall k | k in StrongKeys(base) :: !(k in cand.vals && cand.vals[k] > 5.0)
    ensures !ValidCandidate(Some(cand), Some(base))
  {
    CloseOfMembers(StrongKeys(base), base, cand);
    if |MatchedKeys(base, cand)| > 0 {
      assert MatchedKeys(base, cand)[0] in MatchedKeys(base, cand);
    }
  }

  lemma {:induction false} DistinctSetSize(s: seq<string>)
    requires Distinct(s)
    ensures |set k | k in s| == |s|
  {
    if s != [] {
      var init := s[..|s| - 1];
      assert Distinct(init);
      DistinctSetSize(init);
      assert s == init + [s[|s| - 1]];
      assert (set k | k in s) == (set k | k in init) + {s[|s| - 1]};
    }
  }

  /** The strong labels of a query, as Python's dict comprehension keeps them. */
  ghost function StrongSet(c: Composition): set<string> {
    set k | k in c.vals && c.vals[k] > 5.0
  }

  /** The labels `matched` counts, as Python's set intersection finds them. */
  ghost function MatchedSet(base: Composition, cand: Composition): set<string> {
    set k | k in base.vals && base.vals[k] > 5.0 && k in cand.vals && cand.vals[k] > 5.0
                && Abs(base.vals[k] - cand.vals[k]) <= 30.0
  }

  lemma StrongSetListed(base: Composition)
    requires Valid(base)
    ensures Distinct(StrongKeys(base)) && (set k | k in StrongKeys(base)) == StrongSet(base)
  {
    StrongOfMembers(base.keys, base);
  }

  lemma MatchedListedOnce(base: Composition, cand: Composition)
    requires Valid(base)
    ensures Distinct(MatchedKeys(base, cand))
  {
    StrongOfMembers(base.keys, base);
    CloseOfMembers(StrongKeys(base), base, cand);
  }

  lemma MatchedMember(base: Composition, cand: Composition, k: string)
    requires Valid(base)
    ensures k in MatchedKeys(base, cand) <==> k in MatchedSet(base, cand)
  {
    StrongOfMembers(base.keys, base);
    CloseOfMembers(StrongKeys(base), base, cand);
    if k in base.vals {
      assert GetOr(base, k, 0.0) == base.vals[k];
    }
  }

  lemma MatchedSetListed(base: Composition, cand: Composition)
    requires Valid(base)
    ensures (set k | k in MatchedKeys(base, cand)) == MatchedSet(base, cand)
  {
    forall k ensures k in MatchedKeys(base, cand) <==> k in MatchedSet(base, cand) {
      MatchedMember(base, cand, k);
    }
  }

  /** Over well-formed dicts the gate is the set-based condition of the
      source: the labels above 5 in both with a difference of at most 30
      number at least `max(#strong query labels - 1, 1)`. */
  lemma ValidCandidateIff(base: Composition, cand: Composition)
    requires Valid(base)
    ensures ValidCandidate(Some(cand), Some(base)) <==>
      |MatchedSet(base, cand)| >= (if |StrongSet(base)| - 1 > 1 then |StrongSet(base)| - 1 else 1)
  {
    StrongSetListed(base);
    MatchedSetListed(base, cand);
    MatchedListedOnce(base, cand);
    DistinctSetSize(StrongKeys(base));
    DistinctSetSize(MatchedKeys(base, cand));
  }

  // ---------------------------------------------------------------------
  // find_best_match_by_composition

  /** The valid candidates, in order. */
  function ValidOnes(query: Option<Composition>, rows: seq<IndexRow>): seq<IndexRow> {
    if rows == [] then []
    else
      var last := rows[|rows| - 1];
      ValidOnes(query, rows[..|rows| - 1]) + (if ValidCandidate(last.composition.AsDict(), query) then [last] else [])
  }

  lemma {:induction false} ValidOnesMembers(query: Option<Composition>, rows: seq<IndexRow>)
    ensures forall r :: r in ValidOnes(query, rows) <==> r in rows && ValidCandidate(r.composition.AsDict(), query)
    ensures ValidOnes(query, rows) != [] ==> query.Some?
  {
    if rows != [] {
      ValidOnesMembers(query, rows[..|rows| - 1]);
      assert rows == rows[..|rows| - 1] + [rows[|rows| - 1]];
    }
  }

  /** The `key` of `max`; a row whose composition is not a dict is never
      valid, so its 0 is never compared. */
  function ScoreOf(base: Composition, r: IndexRow): real {
    match r.composition
    case Comp(t) => CompositionScore(base, t)
    case _ => 0.0
  }

  function Scores(base: Composition, rows: seq<IndexRow>): (s: seq<real>)
    ensures |s| == |rows|
  {
    seq(|rows|, i requires 0 <= i < |rows| => ScoreOf(base, rows[i]))
  }

  /** `find_best_match_by_composition`: `None` without a valid candidate,
      else the first valid candidate of maximal score. */
  function BestMatch(query: Option<Composition>, rows: seq<IndexRow>): Option<IndexRow> {
    var vs := ValidOnes(query, rows);
    if vs == [] then None
    else
      ValidOnesMembers(query, rows);
      Some(vs[Ranking.FirstMaxIndex(Scores(query.value, vs))])
  }

  /** `None` exactly when no candidate is valid; otherwise a valid
      candidate no other valid candidate outscores. */
  lemma BestMatchSpec(query: Option<Composition>, rows: seq<IndexRow>)
    ensures BestMatch(query, rows).None? <==> forall r | r in rows :: !ValidCandidate(r.composition.AsDict(), query)
    ensures BestMatch(query, rows).Some? ==>
      var b := BestMatch(query, rows).value;
      && query.Some? && b in rows && ValidCandidate(b.composition.AsDict(), query)
      && (forall r | r in rows && ValidCandidate(r.composition.AsDict(), query) :: ScoreOf(query.value, r) <= ScoreOf(query.value, b))
  {
    ValidOnesMembers(query, rows);
    var vs := ValidOnes(query, rows);
    if vs == [] {
      forall r | r in rows ensures !ValidCandidate(r.composition.AsDict(), query) {
        assert r !in vs;
      }
    } else {
      var s := Scores(query.value, vs);
      var k := Ranking.FirstMaxIndex(s);
      assert vs[k] in vs;
      forall r | r in rows && ValidCandidate(r.composition.AsDict(), query) ensures ScoreOf(query.value, r) <= ScoreOf(query.value, vs[k]) {
        var j :| 0 <= j < |vs| && vs[j] == r;
        assert s[j] <= s[k];
      }
    }
  }

  /** On ties the earliest wins: every valid candidate listed before the
      chosen one scores strictly less. */
  lemma BestMatchEarliest(query: Option<Composition>, rows: seq<IndexRow>)
    requires BestMatch(query, rows).Some?
    ensures query.Some?
    ensures exists k | 0 <= k < |ValidOnes(query, rows)| ::
      && ValidOnes(query, rows)[k] == BestMatch(query, rows).value
      && forall j | 0 <= j < k :: ScoreOf(query.value, ValidOnes(query, rows)[j]) < ScoreOf(query.value, ValidOnes(query, rows)[k])
  {
    ValidOnesMembers(query, rows);
    var vs := ValidOnes(query, rows);
    var s := Scores(query.value, vs);
    var k := Ranking.FirstMaxIndex(s);
    assert vs[k] == BestMatch(query, rows).value;
    forall j | 0 <= j < k ensures ScoreOf(query.value, vs[j]) < ScoreOf(query.value, vs[k]) {
      assert s[j] < s[k];
    }
  }

  /** Some candidate has no `構成比`: `c["構成比"]` raises `KeyError` in
      the comprehension, before `is_valid_candidate` is called. */
  predicate LacksComposition(rows: seq<IndexRow>) {
    exists r | r in rows :: r.composition.Absent?
  }

  /** The chosen row's `emotion` goes through `translate_emotion`, whose
      `emotion_map.get` raises `TypeError` for a list or dict. */
  predicate EmotionRaises(best: Option<IndexRow>) {
    best.Some? && !Hashable(best.value.emotion)
  }

  /** `find_best_match_by_composition`: the comprehension calling
      `is_valid_candidate`, then `max` scanning with
      `calculate_composition_score`, then the translation of the winner's
      emotion for the log.  It raises exactly when a candidate lacks
      `構成比` or the winner's emotion is unhashable, and otherwise returns
      `BestMatch`. */
  method FindBestMatchByComposition(query: Option<Composition>, candidates: seq<IndexRow>)
    returns (best: Outcome<Option<IndexRow>>)
    ensures best.Raises? <==> LacksComposition(candidates) || EmotionRaises(BestMatch(query, candidates))
    ensures best.Returns? ==> best.value == BestMatch(query, candidates)
  {
    var valid: seq<IndexRow> := [];
    for i := 0 to |candidates|
      invariant valid == ValidOnes(query, candidates[..i])
      invariant forall r | r in candidates[..i] :: !r.composition.Absent?
    {
      assert candidates[..i + 1][..i] == candidates[..i];
      if candidates[i].composition.Absent? {
        assert candidates[i] in candidates;
        return Raises;
      }
      var ok := IsValidCandidate(candidates[i].composition.AsDict(), query);
      if ok {
        valid := valid + [candidates[i]];
      }
    }
    assert candidates[..|candidates|] == candidates;
    if valid == [] {
      return Returns(None);
    }
    ValidOnesMembers(query, candidates);
    var base := query.value;
    ghost var s := Scores(base, valid);
    var bi := 0;
    assert valid[0] in valid;
    var bestScore := CalculateCompositionScore(base, valid[0].composition.c);
    assert s[..1] == [s[0]];
    for i := 1 to |valid|
      invariant bi == Ranking.FirstMaxIndex(s[..i])
      invariant bestScore == s[bi]
    {
      assert valid[i] in valid;
      var score := CalculateCompositionScore(base, valid[i].composition.c);
      Ranking.FirstMaxStep(s, i);
      if score > bestScore {
        bi, bestScore := i, score;
      }
    }
    assert s[..|valid|] == s;
    assert Some(valid[bi]) == BestMatch(query, candidates);
    if !Hashable(valid[bi].emotion) {
      return Raises;
    }
    best := Returns(Some(valid[bi]));
  }

  // ---------------------------------------------------------------------
  // search_index_response

  /** What one tier contributes: the keyword filter of its rows, then the
      best match among those kept; either step may raise. */
  function BestFor(index: seq<IndexRow>, composition: Option<Composition>, keywords: Value, c: string): Outcome<Option<IndexRow>> {
    match FilterByKeywords(OfCategory(index, c), keywords)
    case None => Raises
    case Some(filtered) =>
      if LacksComposition(filtered) || EmotionRaises(BestMatch(composition, filtered)) then Raises
      else Returns(BestMatch(composition, filtered))
  }

  /** Tier `c` found a match. */
  predicate Matched(index: seq<IndexRow>, composition: Option<Composition>, keywords: Value, c: string) {
    BestFor(index, composition, keywords, c).Returns? && BestFor(index, composition, keywords, c).value.Some?
  }

  /** A tier raises exactly when a row of it has keywords `set` rejects,
      when it has rows and the query keywords are rejected, when a row
      sharing a keyword with the query lacks `構成比`, or when the best match
      among those rows has an unhashable emotion. */
  lemma TierRaises(index: seq<IndexRow>, composition: Option<Composition>, keywords: Value, c: string)
    ensures BestFor(index, composition, keywords, c).Raises? <==>
      var rows := OfCategory(index, c);
      || (exists r | r in rows :: ElementsOf(r.keywords).None?)
      || (rows != [] && ElementsOf(keywords).None?)
      || (exists r | r in rows && SharesKeyword(r, ElementsOf(keywords).GetOr([])) :: r.composition.Absent?)
      || EmotionRaises(BestMatch(composition, Matching(rows, ElementsOf(keywords).GetOr([]))))
  {
    var rows := OfCategory(index, c);
    FilterMembers(rows, keywords);
    if FilterByKeywords(rows, keywords).Some? {
      var filtered := FilterByKeywords(rows, keywords).value;
      if LacksComposition(filtered) {
        var r :| r in filtered && r.composition.Absent?;
        assert r in rows && SharesKeyword(r, ElementsOf(keywords).GetOr([]));
      }
    }
  }

  /** The outcome of each tier, in `Categories` order. */
  function TierOutcomes(index: seq<IndexRow>, composition: Option<Composition>, keywords: Value): seq<Outcome<Option<IndexRow>>> {
    [BestFor(index, composition, keywords, "long"),
     BestFor(index, composition, keywords, "intermediate"),
     BestFor(index, composition, keywords, "short")]
  }

  /** Of the first `|outs|` tiers, those whose outcome is a match. */
  function FoundTiers(outs: seq<Outcome<Option<IndexRow>>>): seq<string>
    requires |outs| <= |Categories|
  {
    if outs == [] then []
    else
      var n := |outs| - 1;
      FoundTiers(outs[..n]) + (if outs[n].Returns? && outs[n].value.Some? then [Categories[n]] else [])
  }

  /** What `best_matches` holds after the first `i` tiers, none of which
      raised. */
  ghost predicate SearchedUpTo(outs: seq<Outcome<Option<IndexRow>>>, i: nat, acc: Dict<string, IndexRow>)
    requires i <= |outs| == |Categories|
  {
    && Valid(acc)
    && acc.keys == FoundTiers(outs[..i])
    && (forall j | 0 <= j < i :: outs[j].Returns?)
    && (forall j | 0 <= j < i && outs[j].value.Some? :: Categories[j] in acc.vals && acc.vals[Categories[j]] == outs[j].value.value)
    && forall c | c in acc.vals :: c in Categories[..i]
  }

  lemma SearchStep(outs: seq<Outcome<Option<IndexRow>>>, i: nat, acc: Dict<string, IndexRow>)
    requires i < |outs| == |Categories| && SearchedUpTo(outs, i, acc)
    requires outs[i].Returns?
    ensures SearchedUpTo(outs, i + 1, if outs[i].value.Some? then Put(acc, Categories[i], outs[i].value.value) else acc)
  {
    assert outs[..i + 1][..i] == outs[..i];
    assert Categories[..i + 1] == Categories[..i] + [Categories[i]];
    assert Categories[i] !in Categories[..i];
    if outs[i].value.Some? {
      PutNew(acc, Categories[i], outs[i].value.value);
      PutValid(acc, Categories[i], outs[i].value.value);
    }
  }

  /** A tier listed by `FoundTiers` has an outcome that is a match. */
  lemma {:induction false} FoundTiersMembers(outs: seq<Outcome<Option<IndexRow>>>)
    requires |outs| <= |Categories|
    ensures forall c | c in FoundTiers(outs) ::
      exists j | 0 <= j < |outs| :: Categories[j] == c && outs[j].Returns? && outs[j].value.Some?
  {
    if outs != [] {
      var n := |outs| - 1;
      FoundTiersMembers(outs[..n]);
      forall c | c in FoundTiers(outs)
        ensures exists j | 0 <= j < |outs| :: Categories[j] == c && outs[j].Returns? && outs[j].value.Some?
      {
        if c in FoundTiers(outs[..n]) {
          var j :| 0 <= j < n && Categories[j] == c && outs[..n][j].Returns? && outs[..n][j].value.Some?;
          assert outs[j] == outs[..n][j];
        } else {
          assert Categories[n] == c && outs[n].Returns? && outs[n].value.Some?;
        }
      }
    }
  }

  /** Each tier's entry of `TierOutcomes` is its `BestFor`. */
  lemma OutcomeOf(index: seq<IndexRow>, composition: Option<Composition>, keywords: Value, c: string)
    requires c in Categories
    ensures exists j | 0 <= j < |Categories| :: Categories[j] == c && TierOutcomes(index, composition, keywords)[j] == BestFor(index, composition, keywords, c)
  {
    if c == "long" { assert Categories[0] == c; }
    else if c == "intermediate" { assert Categories[1] == c; }
    else { assert Categories[2] == c; }
  }

  /** After all tiers, a tier is a key exactly when its outcome is a match,
      and then it holds that match. */
  lemma SearchDoneAt(outs: seq<Outcome<Option<IndexRow>>>, acc: Dict<string, IndexRow>, j: nat)
    requires |outs| == |Categories| && SearchedUpTo(outs, |Categories|, acc) && j < |Categories|
    ensures Categories[j] in acc.vals <==> outs[j].Returns? && outs[j].value.Some?
    ensures Categories[j] in acc.vals ==> outs[j] == Returns(Some(acc.vals[Categories[j]]))
  {
    assert outs[..|Categories|] == outs;
    if Categories[j] in acc.vals {
      FoundTiersMembers(outs);
      var k :| 0 <= k < |outs| && Categories[k] == Categories[j] && outs[k].Returns? && outs[k].value.Some?;
      assert k == j;
    }
  }

  lemma SearchDone(index: seq<IndexRow>, composition: Option<Composition>, keywords: Value, acc: Dict<string, IndexRow>)
    requires SearchedUpTo(TierOutcomes(index, composition, keywords), |Categories|, acc)
    ensures acc.keys == FoundTiers(TierOutcomes(index, composition, keywords))
    ensures forall c :: c in acc.vals <==> c in Categories && Matched(index, composition, keywords, c)
    ensures forall c | c in acc.vals :: BestFor(index, composition, keywords, c) == Returns(Some(acc.vals[c]))
  {
    var outs := TierOutcomes(index, composition, keywords);
    assert outs[..|Categories|] == outs;
    assert Categories[..|Categories|] == Categories;
    forall c | c in Categories
      ensures c in acc.vals <==> Matched(index, composition, keywords, c)
      ensures c in acc.vals ==> BestFor(index, composition, keywords, c) == Returns(Some(acc.vals[c]))
    {
      OutcomeOf(index, composition, keywords, c);
      var j :| 0 <= j < |Categories| && Categories[j] == c && outs[j] == BestFor(index, composition, keywords, c);
      SearchDoneAt(outs, acc, j);
    }
  }

  /** A raising tier stops the search. */
  lemma SearchRaises(index: seq<IndexRow>, composition: Option<Composition>, keywords: Value, i: nat)
    requires i < |Categories| && TierOutcomes(index, composition, keywords)[i].Raises?
    ensures exists c | c in Categories :: BestFor(index, composition, keywords, c).Raises?
  {
    assert Categories[i] in Categories;
  }

  lemma NoneRaises(index: seq<IndexRow>, composition: Option<Composition>, keywords: Value)
    requires forall j | 0 <= j < |Categories| :: TierOutcomes(index, composition, keywords)[j].Returns?
    ensures forall c | c in Categories :: BestFor(index, composition, keywords, c).Returns?
  {
    forall c | c in Categories ensures BestFor(index, composition, keywords, c).Returns? {
      OutcomeOf(index, composition, keywords, c);
    }
  }

  /** `search_index_response` over the index given as data, with the
      query's `構成比` (`{}` when absent, `None` when not a dict) and
      `keywords` (`Arr([])` when absent).  It raises exactly when a row's
      category is unhashable or some tier raises; otherwise a tier is a key exactly when it found a match,
      and its value is that match. */
  method SearchIndexResponse(index: seq<IndexRow>, composition: Option<Composition>, keywords: Value)
    returns (result: Outcome<Dict<string, IndexRow>>)
    ensures result.Raises? <==>
      CategoryRaises(index) || exists c | c in Categories :: BestFor(index, composition, keywords, c).Raises?
    ensures result.Returns? ==>
      var bestMatches := result.value;
      && Valid(bestMatches)
      && bestMatches.keys == FoundTiers(TierOutcomes(index, composition, keywords))
      && (forall c :: c in bestMatches.vals <==> c in Categories && Matched(index, composition, keywords, c))
      && forall c | c in bestMatches.vals :: BestFor(index, composition, keywords, c) == Returns(Some(bestMatches.vals[c]))
  {
    ghost var outs := TierOutcomes(index, composition, keywords);
    var loaded := LoadAndCategorizeIndex(index);
    if loaded.Raises? {
      return Raises;
    }
    var categorized := loaded.value;
    var bestMatches := Empty();
    for i := 0 to |Categories|
      invariant SearchedUpTo(outs, i, bestMatches)
    {
      var category := Categories[i];
      assert outs[i] == BestFor(index, composition, keywords, category);
      var keywordFiltered := FilterByKeywords(categorized.vals[category], keywords);
      if keywordFiltered.None? {
        SearchRaises(index, composition, keywords, i);
        return Raises;
      }
      var bestMatch := FindBestMatchByComposition(composition, keywordFiltered.value);
      if bestMatch.Raises? {
        SearchRaises(index, composition, keywords, i);
        return Raises;
      }
      SearchStep(outs, i, bestMatches);
      if bestMatch.value.Some? {
        bestMatches := Put(bestMatches, category, bestMatch.value.value);
      }
    }
    NoneRaises(index, composition, keywords);
    SearchDone(index, composition, keywords, bestMatches);
    result := Returns(bestMatches);
  }

  /** Every value of the result is a row of that tier that has a
      composition, shares a keyword with the query, passed the strong-label
      gate and has a hashable emotion. */
  lemma SearchResultSound(index: seq<IndexRow>, composition: Option<Composition>, keywords: Value, c: string)
    requires Matched(index, composition, keywords, c)
    ensures var r := BestFor(index, composition, keywords, c).value.value;
      && r in index && CategoryOf(r) == c && r.composition.Comp?
      && ElementsOf(keywords).Some? && SharesKeyword(r, ElementsOf(keywords).value)
      && ValidCandidate(r.composition.AsDict(), composition)
      && Hashable(r.emotion)
  {
    var tier := OfCategory(index, c);
    var filtered := FilterByKeywords(tier, keywords).value;
    BestMatchSpec(composition, filtered);
    FilterMembers(tier, keywords);
    OfCategoryMembers(index, c);
  }
}
