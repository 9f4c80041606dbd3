/** Choosing the memory tier of an emotion record by its weight, and the two
    writers that store a record in `emotion_data`: `divide_and_store`
    (module/memory/divide_emotion.py) annotates the caller's dict in place,
    and `write_structured_emotion_data` (module/emotion/main_emotion.py)
    builds a document and mirrors it into the index. */
module MemoryTier {
  import opened Wrappers
  import opened Dicts
  import opened Values
  import opened Records
  import Text
  import Params
  import IndexRows

  datatype Tier = Short | Intermediate | Long {
    /** The `category` string stored for the tier. */
    function Name(): string {
      match this
      case Short => "short"
      case Intermediate => "intermediate"
      case Long => "long"
    }

    /** Shorter tiers rank lower. */
    function Rank(): nat {
      match this
      case Short => 0
      case Intermediate => 1
      case Long => 2
    }
  }

  /** `get_memory_category(weight)`: long from 95, intermediate from 80,
      short below. */
  function GetMemoryCategory(weight: real): (t: Tier)
    ensures t == Long <==> weight >= 95.0
    ensures t == Intermediate <==> 80.0 <= weight < 95.0
    ensures t == Short <==> weight < 80.0
  {
    if weight >= 95.0 then Long
    else if weight >= 80.0 then Intermediate
    else Short
  }

  /** A larger weight never lands in a shorter tier. */
  lemma TierMonotone(w1: real, w2: real)
    requires w1 <= w2
    ensures GetMemoryCategory(w1).Rank() <= GetMemoryCategory(w2).Rank()
  {
  }

  // ---------------------------------------------------------------------
  // module/memory/divide_emotion.py

  /** The tier `divide_and_store` compares `重み` into: numbers (and
      booleans) compare, anything else raises `TypeError` (`None`). */
  function WeightTier(w: Value): Option<Tier> {
    match NumOf(w)
    case Some(x) => Some(GetMemoryCategory(x))
    case None => None
  }

  /** The three assignments of divide_emotion.py:48-50. */
  function Annotate(fields: Dict<string, Value>, t: Tier, timestamp: string): Dict<string, Value> {
    Put(Put(Put(fields, "category", Text(t.Name())), "timestamp", Text(timestamp)), "データ種別", Text("emotion"))
  }

  /** The annotation sets exactly `category`, `timestamp` and `データ種別`:
      every other key keeps its value, and the existing keys keep their
      order, with any new one after them. */
  lemma AnnotateSpec(fields: Dict<string, Value>, t: Tier, timestamp: string)
    requires Valid(fields)
    ensures var r := Annotate(fields, t, timestamp);
      && Valid(r)
      && Get(r, "category") == Some(Text(t.Name()))
      && Get(r, "timestamp") == Some(Text(timestamp))
      && Get(r, "データ種別") == Some(Text("emotion"))
      && (forall k | k != "category" && k != "timestamp" && k != "データ種別" :: Get(r, k) == Get(fields, k))
      && r.keys[..|fields.keys|] == fields.keys
  {
    var f1 := Put(fields, "category", Text(t.Name()));
    var f2 := Put(f1, "timestamp", Text(timestamp));
    AssignStep(fields, "category", Text(t.Name()));
    AssignStep(f1, "timestamp", Text(timestamp));
    AssignStep(f2, "データ種別", Text("emotion"));
    PrefixTrans(fields.keys, f1.keys, f2.keys);
    PrefixTrans(fields.keys, f2.keys, Annotate(fields, t, timestamp).keys);
  }

  lemma PrefixTrans<T>(a: seq<T>, b: seq<T>, c: seq<T>)
    requires |a| <= |b| <= |c| && b[..|a|] == a && c[..|b|] == b
    ensures c[..|a|] == a
  {
    assert c[..|a|] == c[..|b|][..|a|];
  }

  /** One assignment, in the terms `AnnotateSpec` chains. */
  lemma AssignStep(d: Dict<string, Value>, k: string, v: Value)
    requires Valid(d)
    ensures Valid(Put(d, k, v)) && Get(Put(d, k, v), k) == Some(v)
    ensures forall j | j != k :: Get(Put(d, k, v), j) == Get(d, j)
    ensures |d.keys| <= |Put(d, k, v).keys| && Put(d, k, v).keys[..|d.keys|] == d.keys
  {
    PutValid(d, k, v);
  }

  /** A document of `emotion_data` as the two writers shape it. */
  datatype StoredDoc =
    | Wrapped(data: Dict<string, Value>)
    | Structured(emotion: string, category: string, data: Dict<string, Value>, history: seq<Dict<string, Value>>)

  /** The `emotion_data` collection the writers insert into. */
  class DataCollection {
    var docs: seq<StoredDoc>
  }

  /** The tier `divide_and_store` goes on with, or `None` when it ends in
      the `except` before changing anything: `重み` (default 0) must
      compare, and `主感情` (default "") must be hashable, since the debug
      line 45 looks it up in `EMOTION_MAP` before the first assignment. */
  function StoreTier(fields: Dict<string, Value>): Option<Tier> {
    var t := WeightTier(GetOr(fields, "重み", Int(0)));
    if t.Some? && Hashable(GetOr(fields, "主感情", Text(""))) then t else None
  }

  /** A list or dict as `主感情` stops the store whatever the weight. */
  lemma UnhashableMainStops(fields: Dict<string, Value>)
    requires !Hashable(GetOr(fields, "主感情", Text("")))
    ensures StoreTier(fields).None?
  {
  }

  /** `divide_and_store(emotion_data)`: when `StoreTier` is `None` the
      `except` returns "" before anything changes.  Otherwise the caller's
      dict is annotated in place and `{"data": emotion_data}` inserted;
      `insertedId` is the id the store assigns, or `None` when `insert_one`
      raises, in which case the annotation stays but the result is "".
      `timestamp` is `datetime.now()` in `%Y-%m-%d %H:%M:%S` form. */
  method DivideAndStore(emotionData: EmotionData, store: DataCollection, timestamp: string, insertedId: Option<string>)
    returns (r: string)
    modifies emotionData, store
    ensures var t := StoreTier(old(emotionData.fields));
      && (t.None? ==> r == "" && emotionData.fields == old(emotionData.fields) && store.docs == old(store.docs))
      && (t.Some? ==> emotionData.fields == Annotate(old(emotionData.fields), t.value, timestamp))
      && (t.Some? && insertedId.Some? ==>
            store.docs == old(store.docs) + [Wrapped(emotionData.fields)] && r == "mongo_id:" + insertedId.value)
      && (t.Some? && insertedId.None? ==> store.docs == old(store.docs) && r == "")
  {
    var weight := GetOr(emotionData.fields, "重み", Int(0));
    var category := WeightTier(weight);
    var mainEmotion := GetOr(emotionData.fields, "主感情", Text(""));
    if category.None? || !Hashable(mainEmotion) {
      return "";
    }
    var fields := emotionData.fields;
    fields := Put(fields, "category", Text(category.value.Name()));
    fields := Put(fields, "timestamp", Text(timestamp));
    fields := Put(fields, "データ種別", Text("emotion"));
    emotionData.fields := fields;
    if insertedId.None? {
      return "";
    }
    store.docs := store.docs + [Wrapped(emotionData.fields)];
    r := "mongo_id:" + insertedId.value;
  }

  // ---------------------------------------------------------------------
  // module/emotion/main_emotion.py

  /** `int(x)` on a real: truncation toward zero. */
  function Trunc(x: real): int {
    if x >= 0.0 then x.Floor else -((-x).Floor)
  }

  /** `int(v)`: integers stay, booleans give 0 or 1, floats truncate,
      strings parse as decimal integers; anything else raises (`None`). */
  function IntOf(v: Value): Option<int> {
    match v
    case Int(i) => Some(i)
    case Bool(b) => Some(if b then 1 else 0)
    case Float(x) => Some(Trunc(x))
    case Text(s) => Text.ParseInt(s)
    case _ => None
  }

  /** Truncating the weight first picks the same tier as comparing the real
      weight: 94.9 truncates to 94 and stays intermediate, 79.9 to 79 and
      stays short, and no weight crosses a threshold by truncation. */
  lemma TruncatedTierAgrees(x: real)
    ensures GetMemoryCategory(Trunc(x) as real) == GetMemoryCategory(x)
  {
    if x >= 0.0 {
      assert x.Floor as real <= x < x.Floor as real + 1.0;
      assert x >= 95.0 ==> x.Floor >= 95;
      assert x >= 80.0 ==> x.Floor >= 80;
    } else {
      assert (-x).Floor >= 0;
    }
  }

  /** The module-level names of module/emotion/main_emotion.py: the names
      its imports bind (lines 3-11) and the two functions it defines.
      Python looks a global name up here, then among the builtins. */
  const MainEmotionNames: set<string> := {
    "os", "json", "re", "datetime", "logger", "get_mongo_client", "save_index_data", "emotion_map",
    "save_response_to_memory", "write_structured_emotion_data"}

  /** The decision of lines 62-76 with the module's global names `names`:
      reading `emotion_map_reverse` at line 63 raises `NameError` unless
      `names` binds it (to `reverse`), and the `except` at line 103 turns
      that into no decision. */
  function DecideIn(names: set<string>, data: Dict<string, Value>, reverse: Dict<string, string>): Option<(string, Tier)> {
    if "emotion_map_reverse" !in names then None else Decide(data, reverse)
  }

  /** As written, line 63 reads `emotion_map_reverse`, which the file never
      imports (line 11 brings in `emotion_map` only): the `NameError` is
      caught at line 103 and no record is ever decided. */
  function DecideAsWritten(data: Dict<string, Value>): (r: Option<(string, Tier)>)
    ensures r.None?
  {
    DecideIn(MainEmotionNames, data, Params.EmotionMapReverse())
  }

  /** The decision of lines 62-76 with `emotion_map_reverse` in reach:
      the English name of `主感情` (default ""), and the tier of
      `int(重み)` (default 0); `None` writes nothing. */
  function Decide(data: Dict<string, Value>, reverse: Dict<string, string>): Option<(string, Tier)> {
    var ja := GetOr(data, "主感情", Text(""));
    var en := if ja.Text? then Get(reverse, ja.s) else None;
    if en.None? || en.value == "" then None
    else
      match IntOf(GetOr(data, "重み", Int(0)))
      case Some(w) => Some((en.value, GetMemoryCategory(w as real)))
      case None => None
  }

  /** Nothing is decided for a main emotion without an English name; a
      decision carries that name and the tier of the truncated weight. */
  lemma DecideSpec(data: Dict<string, Value>, reverse: Dict<string, string>)
    ensures var ja := GetOr(data, "主感情", Text(""));
      !(ja.Text? && ja.s in reverse.vals) ==> Decide(data, reverse).None?
    ensures Decide(data, reverse).Some? ==>
      var ja := GetOr(data, "主感情", Text(""));
      var w := IntOf(GetOr(data, "重み", Int(0)));
      && ja.Text? && ja.s in reverse.vals && reverse.vals[ja.s] == Decide(data, reverse).value.0
      && Decide(data, reverse).value.0 != ""
      && w.Some? && Decide(data, reverse).value.1 == GetMemoryCategory(w.value as real)
  {
  }

  /** A float weight gets the tier of the real weight. */
  lemma DecideFloatWeight(data: Dict<string, Value>, reverse: Dict<string, string>, x: real)
    requires GetOr(data, "重み", Int(0)) == Float(x)
    requires Decide(data, reverse).Some?
    ensures Decide(data, reverse).value.1 == GetMemoryCategory(x)
  {
    TruncatedTierAgrees(x);
  }

  /** The stored document: `emotion`, `category`, a copy of `data`, and a
      `履歴` holding exactly one copy of `data`. */
  function StructuredDoc(data: Dict<string, Value>, en: string, t: Tier): StoredDoc {
    Structured(en, t.Name(), data, [data])
  }

  /** The import gap loses every write: a record with main emotion 喜び,
      which `emotion_map_reverse` names Joy, is stored as short by the
      intended code and not at all as written. */
  lemma NameErrorLosesWrites()
    ensures var data := Dict(["主感情"], map["主感情" := Text("喜び")]);
      && Decide(data, Params.EmotionMapReverse()) == Some(("Joy", Short))
      && DecideAsWritten(data).None?
  {
    IndexRows.EmotionMapAt(0);
    Params.ReverseUndoes();
  }

  /** The body of `write_structured_emotion_data` run with the module's
      global names `names`.  `connected` is whether `get_mongo_client()`
      returned a client and `insertOk` whether `insert_one` succeeded; a
      failure of either ends the call with nothing (more) written.  After
      the insert, the index row is saved only when `data` has a `date`,
      through `save_index_data`, whose own client and insert succeed as
      `indexConnected` and `indexInsertOk` say; its failure leaves the data
      document in place. */
  method WriteStructuredEmotionDataIn(
    names: set<string>, data: Dict<string, Value>, reverse: Dict<string, string>, connected: bool, insertOk: bool,
    indexConnected: bool, indexInsertOk: bool, store: DataCollection, index: IndexRows.IndexStore)
    modifies store, index
    ensures !connected || DecideIn(names, data, reverse).None? || !insertOk ==>
      store.docs == old(store.docs) && index.rows == old(index.rows)
    ensures connected && insertOk && DecideIn(names, data, reverse).Some? ==>
      var (en, t) := DecideIn(names, data, reverse).value;
      && store.docs == old(store.docs) + [StructuredDoc(data, en, t)]
      && index.rows == old(index.rows) + (if !indexConnected || !indexInsertOk then [] else
                                           match IndexRows.IndexDocumentFor(data, en, t.Name())
                                           case Some(d) => [d] case None => [])
    ensures "date" !in data.vals ==> index.rows == old(index.rows)
  {
    if !connected {
      return;
    }
    var decision := DecideIn(names, data, reverse);
    if decision.None? {
      return;
    }
    var (mainEmotionEn, category) := decision.value;
    var document := StructuredDoc(data, mainEmotionEn, category);
    if !insertOk {
      return;
    }
    store.docs := store.docs + [document];
    if "date" in data.vals {
      index.SaveIndexData(data, mainEmotionEn, category.Name(), indexConnected, indexInsertOk);
    } else {
      IndexRows.IndexDocumentSpec(data, mainEmotionEn, category.Name());
    }
  }

  /** `write_structured_emotion_data` with `emotion_map_reverse` imported
      beside `emotion_map`: the decision is `Decide`, and the writes follow
      it. */
  method WriteStructuredEmotionData(
    data: Dict<string, Value>, reverse: Dict<string, string>, connected: bool, insertOk: bool,
    indexConnected: bool, indexInsertOk: bool, store: DataCollection, index: IndexRows.IndexStore)
    modifies store, index
    ensures !connected || Decide(data, reverse).None? || !insertOk ==>
      store.docs == old(store.docs) && index.rows == old(index.rows)
    ensures connected && insertOk && Decide(data, reverse).Some? ==>
      var (en, t) := Decide(data, reverse).value;
      && store.docs == old(store.docs) + [StructuredDoc(data, en, t)]
      && index.rows == old(index.rows) + (if !indexConnected || !indexInsertOk then [] else
                                           match IndexRows.IndexDocumentFor(data, en, t.Name())
                                           case Some(d) => [d] case None => [])
    ensures "date" !in data.vals ==> index.rows == old(index.rows)
  {
    WriteStructuredEmotionDataIn(MainEmotionNames + {"emotion_map_reverse"}, data, reverse, connected, insertOk,
                                 indexConnected, indexInsertOk, store, index);
  }

  /** `write_structured_emotion_data` as written: whatever the connection,
      the data and the inserts, neither collection is ever written. */
  method WriteStructuredEmotionDataAsWritten(
    data: Dict<string, Value>, connected: bool, insertOk: bool,
    indexConnected: bool, indexInsertOk: bool, store: DataCollection, index: IndexRows.IndexStore)
    modifies store, index
    ensures store.docs == old(store.docs) && index.rows == old(index.rows)
  {
    WriteStructuredEmotionDataIn(MainEmotionNames, data, Params.EmotionMapReverse(), connected, insertOk,
                                 indexConnected, indexInsertOk, store, index);
  }
}
