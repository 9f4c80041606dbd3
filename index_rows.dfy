/** The zero-filled 32-label composition vectors written into index rows:
    `emotion_order` and `save_index_data` of module/emotion/index_emotion.py,
    and `normalize_emotion_vector` and `update_emotion_index` of
    module/memory/index_emotion.py. */
module IndexRows {
  import opened Wrappers
  import opened Dicts
  import opened Values
  import Params

  /** `{k: partial.get(k, 0) for k in ks}`: exactly the keys `ks`, in order,
      each with its given value or 0; keys outside `ks` are dropped. */
  function ZeroFilled(ks: seq<string>, partial: Dict<string, Value>): (r: Dict<string, Value>)
    requires Distinct(ks)
    ensures Valid(r) && r.keys == ks
    ensures forall k | k in r.vals :: k in ks
    ensures forall k | k in ks && k in partial.vals :: k in r.vals && r.vals[k] == partial.vals[k]
    ensures forall k | k in ks && k !in partial.vals :: k in r.vals && r.vals[k] == Int(0)
  {
    var r := FromKeys(ks, (k: string) => GetOr(partial, k, Int(0)));
    assert forall k | k in ks :: exists i :: 0 <= i < |ks| && ks[i] == k;
    r
  }

  // ---------------------------------------------------------------------
  // Python's `sorted` on strings

  /** `a < b` on Python strings: lexicographic by code point, a proper
      prefix first. */
  predicate StrLess(a: string, b: string)
    decreases |a|
  {
    |b| > 0 && (|a| == 0 || a[0] < b[0] || (a[0] == b[0] && StrLess(a[1..], b[1..])))
  }

  lemma {:induction false} StrLessTrans(a: string, b: string, c: string)
    requires StrLess(a, b) && StrLess(b, c)
    ensures StrLess(a, c)
    decreases |a|
  {
    if |a| > 0 && a[0] == b[0] && b[0] == c[0] {
      StrLessTrans(a[1..], b[1..], c[1..]);
    }
  }

  lemma StrLessIrreflexive(a: string)
    ensures !StrLess(a, a)
  {
  }

  predicate AdjacentSorted(s: seq<string>) {
    forall i | 0 <= i < |s| - 1 :: StrLess(s[i], s[i + 1])
  }

  predicate StrictlySorted(s: seq<string>) {
    forall i, j | 0 <= i < j < |s| :: StrLess(s[i], s[j])
  }

  lemma {:induction false} AdjacentToStrict(s: seq<string>)
    requires AdjacentSorted(s)
    ensures StrictlySorted(s)
  {
    if |s| > 1 {
      var t := s[..|s| - 1];
      assert AdjacentSorted(t) by {
        forall i | 0 <= i < |t| - 1 ensures StrLess(t[i], t[i + 1]) {
          assert t[i] == s[i] && t[i + 1] == s[i + 1];
        }
      }
      AdjacentToStrict(t);
      forall i, j | 0 <= i < j < |s| ensures StrLess(s[i], s[j]) {
        if j < |s| - 1 {
          assert s[i] == t[i] && s[j] == t[j];
        } else if i < j - 1 {
          assert StrLess(t[i], t[j - 1]);
          StrLessTrans(s[i], s[j - 1], s[j]);
        }
      }
    }
  }

  /** `sorted(emotion_map.keys())`, written out. */
  const SortedEn: seq<string> := [
    "Aggressiveness", "Anger", "Anticipation", "Anxiety",
    "Awe", "Contempt", "Curiosity", "Cynicism",
    "Delight", "Despair", "Disappointment", "Disgust",
    "Dominance", "Envy", "Fear", "Guilt",
    "Hope", "Joy", "Love", "Morbidness",
    "Obedience", "Optimism", "Outrage", "Pessimism",
    "Pride", "Remorse", "Sadness", "Sentimentality",
    "Shame", "Surprise", "Trust", "Unbelief"
  ]

  /** Two strings that agree before position `k` and differ there are
      ordered by their characters at `k`. */
  lemma {:induction false} StrLessAt(a: string, b: string, k: nat)
    requires k < |a| && k < |b| && a[k] < b[k]
    requires forall m | 0 <= m < k :: a[m] == b[m]
    ensures StrLess(a, b)
  {
    if k > 0 {
      assert a[0] == b[0];
      StrLessAt(a[1..], b[1..], k - 1);
    }
  }

  lemma SortedEnAdjacent0()
    ensures forall i | 0 <= i < 4 :: StrLess(SortedEn[i], SortedEn[i + 1])
  {
    StrLessAt(SortedEn[0], SortedEn[1], 1);
    StrLessAt(SortedEn[1], SortedEn[2], 2);
    StrLessAt(SortedEn[2], SortedEn[3], 2);
    StrLessAt(SortedEn[3], SortedEn[4], 1);
  }

  lemma SortedEnAdjacent1()
    ensures forall i | 4 <= i < 8 :: StrLess(SortedEn[i], SortedEn[i + 1])
  {
    StrLessAt(SortedEn[4], SortedEn[5], 0);
    StrLessAt(SortedEn[5], SortedEn[6], 1);
    StrLessAt(SortedEn[6], SortedEn[7], 1);
    StrLessAt(SortedEn[7], SortedEn[8], 0);
  }

  lemma SortedEnAdjacent2()
    ensures forall i | 8 <= i < 12 :: StrLess(SortedEn[i], SortedEn[i + 1])
  {
    StrLessAt(SortedEn[8], SortedEn[9], 2);
    StrLessAt(SortedEn[9], SortedEn[10], 1);
    StrLessAt(SortedEn[10], SortedEn[11], 3);
    StrLessAt(SortedEn[11], SortedEn[12], 1);
  }

  lemma SortedEnAdjacent3()
    ensures forall i | 12 <= i < 16 :: StrLess(SortedEn[i], SortedEn[i + 1])
  {
    StrLessAt(SortedEn[12], SortedEn[13], 0);
    StrLessAt(SortedEn[13], SortedEn[14], 0);
    StrLessAt(SortedEn[14], SortedEn[15], 0);
    StrLessAt(SortedEn[15], SortedEn[16], 0);
  }

  lemma SortedEnAdjacent4()
    ensures forall i | 16 <= i < 20 :: StrLess(SortedEn[i], SortedEn[i + 1])
  {
    StrLessAt(SortedEn[16], SortedEn[17], 0);
    StrLessAt(SortedEn[17], SortedEn[18], 0);
    StrLessAt(SortedEn[18], SortedEn[19], 0);
    StrLessAt(SortedEn[19], SortedEn[20], 0);
  }

  lemma SortedEnAdjacent5()
    ensures forall i | 20 <= i < 24 :: StrLess(SortedEn[i], SortedEn[i + 1])
  {
    StrLessAt(SortedEn[20], SortedEn[21], 1);
    StrLessAt(SortedEn[21], SortedEn[22], 1);
    StrLessAt(SortedEn[22], SortedEn[23], 0);
    StrLessAt(SortedEn[23], SortedEn[24], 1);
  }

  lemma SortedEnAdjacent6()
    ensures forall i | 24 <= i < 28 :: StrLess(SortedEn[i], SortedEn[i + 1])
  {
    StrLessAt(SortedEn[24], SortedEn[25], 0);
    StrLessAt(SortedEn[25], SortedEn[26], 0);
    StrLessAt(SortedEn[26], SortedEn[27], 1);
    StrLessAt(SortedEn[27], SortedEn[28], 1);
  }

  lemma SortedEnAdjacent7()
    ensures forall i | 28 <= i < 31 :: StrLess(SortedEn[i], SortedEn[i + 1])
  {
    StrLessAt(SortedEn[28], SortedEn[29], 1);
    StrLessAt(SortedEn[29], SortedEn[30], 0);
    StrLessAt(SortedEn[30], SortedEn[31], 0);
  }

  lemma {:induction false} StrictImpliesDistinct(s: seq<string>)
    requires StrictlySorted(s)
    ensures Distinct(s)
  {
    forall i, j | 0 <= i < j < |s| ensures s[i] != s[j] {
      StrLessIrreflexive(s[i]);
    }
  }

  /** The written-out list is strictly increasing, as `sorted` leaves it. */
  lemma SortedEnOrdered()
    ensures |SortedEn| == 32 && StrictlySorted(SortedEn) && Distinct(SortedEn)
  {
    SortedEnAdjacent0(); SortedEnAdjacent1(); SortedEnAdjacent2(); SortedEnAdjacent3();
    SortedEnAdjacent4(); SortedEnAdjacent5(); SortedEnAdjacent6(); SortedEnAdjacent7();
    assert AdjacentSorted(SortedEn);
    AdjacentToStrict(SortedEn);
    StrictImpliesDistinct(SortedEn);
  }

  /** Where each entry of `SortedEn` stands in `emotion_map`. */
  const SortedIdx: seq<int> := [
    11, 2, 1, 28, 23, 14, 24, 12, 25, 21, 20, 3, 31, 15, 6, 17,
    30, 0, 29, 10, 26, 8, 16, 13, 9, 27, 4, 22, 19, 5, 7, 18
  ]

  lemma SortedIdxInRange()
    ensures |SortedIdx| == 32
    ensures forall i | 0 <= i < 32 :: 0 <= SortedIdx[i] < 32
    ensures forall j | 0 <= j < 32 :: j in SortedIdx
  {
  }

  lemma SortedEnAt0() ensures forall i | 0 <= i < 8 :: SortedEn[i] == Params.EnNames[SortedIdx[i]] {}
  lemma SortedEnAt1() ensures forall i | 8 <= i < 16 :: SortedEn[i] == Params.EnNames[SortedIdx[i]] {}
  lemma SortedEnAt2() ensures forall i | 16 <= i < 24 :: SortedEn[i] == Params.EnNames[SortedIdx[i]] {}
  lemma SortedEnAt3() ensures forall i | 24 <= i < 32 :: SortedEn[i] == Params.EnNames[SortedIdx[i]] {}

  /** The written-out list is `emotion_map`'s keys rearranged. */
  lemma SortedEnRearranges()
    ensures |SortedEn| == 32
    ensures forall i | 0 <= i < 32 :: 0 <= SortedIdx[i] < 32 && SortedEn[i] == Params.EnNames[SortedIdx[i]]
  {
    SortedIdxInRange();
    SortedEnAt0(); SortedEnAt1(); SortedEnAt2(); SortedEnAt3();
  }

  lemma SortedEnInMap()
    ensures forall i | 0 <= i < |SortedEn| :: SortedEn[i] in Params.EmotionMap().vals
  {
    SortedEnRearranges();
    Params.NamesDistinct();
  }

  /** `emotion_order`: the Japanese labels ordered by their English names. */
  function EmotionOrder(): seq<string> {
    SortedEnInMap();
    seq(|SortedEn|, i requires 0 <= i < |SortedEn| => Params.EmotionMap().vals[SortedEn[i]])
  }

  /** `emotion_map_reverse.get(ja, "")` */
  function EnglishOf(ja: string): string {
    GetOr(Params.EmotionMapReverse(), ja, "")
  }

  lemma EmotionMapAt(j: int)
    requires 0 <= j < 32
    ensures Params.EnNames[j] in Params.EmotionMap().vals
    ensures Params.EmotionMap().vals[Params.EnNames[j]] == Params.JaNames[j]
  {
    Params.NamesDistinct();
  }

  lemma EmotionOrderAt()
    ensures |EmotionOrder()| == 32
    ensures forall i | 0 <= i < 32 :: EmotionOrder()[i] == Params.JaNames[SortedIdx[i]]
  {
    SortedEnRearranges();
    forall i | 0 <= i < 32 ensures EmotionOrder()[i] == Params.JaNames[SortedIdx[i]] {
      EmotionMapAt(SortedIdx[i]);
    }
  }

  lemma EnglishOfLabel(j: int)
    requires 0 <= j < 32
    ensures EnglishOf(Params.JaNames[j]) == Params.EnNames[j]
  {
    Params.NamesDistinct();
    Params.ReverseUndoes();
    assert Params.EnNames[j] in Params.EmotionMap().vals;
  }

  lemma EmotionOrderDistinct()
    ensures |EmotionOrder()| == 32 && Distinct(EmotionOrder())
  {
    EmotionOrderAt();
    SortedEnRearranges();
    SortedEnOrdered();
    Params.NamesDistinct();
    var r := EmotionOrder();
    forall i, j | 0 <= i < j < 32 ensures r[i] != r[j] {
      assert SortedEn[i] != SortedEn[j];
    }
  }

  lemma EmotionOrderHas(j: int)
    requires 0 <= j < 32
    ensures Params.JaNames[j] in EmotionOrder()
  {
    EmotionOrderAt();
    SortedIdxInRange();
    assert j in SortedIdx;
    var i :| 0 <= i < |SortedIdx| && SortedIdx[i] == j;
    assert EmotionOrder()[i] == Params.JaNames[j];
  }

  lemma EmotionOrderCovers()
    ensures forall i | 0 <= i < |EmotionOrder()| :: EmotionOrder()[i] in Params.JaNames
    ensures forall ja | ja in Params.JaNames :: ja in EmotionOrder()
  {
    EmotionOrderAt();
    SortedIdxInRange();
    Params.NamesDistinct();
    forall ja | ja in Params.JaNames ensures ja in EmotionOrder() {
      var j :| 0 <= j < 32 && Params.JaNames[j] == ja;
      EmotionOrderHas(j);
    }
  }

  lemma EmotionOrderEnglish()
    ensures |EmotionOrder()| == |SortedEn|
    ensures forall i | 0 <= i < |SortedEn| :: EnglishOf(EmotionOrder()[i]) == SortedEn[i]
  {
    EmotionOrderAt();
    SortedEnRearranges();
    forall i | 0 <= i < 32 ensures EnglishOf(EmotionOrder()[i]) == SortedEn[i] {
      EnglishOfLabel(SortedIdx[i]);
    }
  }

  /** `emotion_order` lists each of the 32 Japanese labels once, and their
      English names strictly increase along it. */
  lemma EmotionOrderSpec()
    ensures |EmotionOrder()| == 32 && Distinct(EmotionOrder())
    ensures forall i | 0 <= i < 32 :: EmotionOrder()[i] in Params.JaNames
    ensures forall ja | ja in Params.JaNames :: ja in EmotionOrder()
    ensures forall i, j | 0 <= i < j < 32 :: StrLess(EnglishOf(EmotionOrder()[i]), EnglishOf(EmotionOrder()[j]))
  {
    EmotionOrderDistinct();
    EmotionOrderCovers();
    EmotionOrderEnglish();
    SortedEnOrdered();
  }

  // ---------------------------------------------------------------------
  // save_index_data (module/emotion/index_emotion.py)

  /** A document of `emotion_index` as `save_index_data` builds it. */
  datatype IndexDocument = IndexDocument(
    date: Value, mainEmotion: string, composition: Dict<string, Value>,
    keywords: Value, emotion: string, category: string)

  /** The row `save_index_data(data, emotion_en, category)` inserts, or
      `None` when it inserts nothing: `構成比` is not a dict (the `.get`
      raises inside the `try`), or `data` has no `date`. */
  function IndexDocumentFor(data: Dict<string, Value>, emotionEn: string, category: string): Option<IndexDocument> {
    var original := GetOr(data, "構成比", Obj(Empty()));
    if !original.Obj? || "date" !in data.vals then None
    else
      EmotionOrderSpec();
      Some(IndexDocument(
        data.vals["date"], emotionEn, ZeroFilled(EmotionOrder(), original.fields),
        GetOr(data, "keywords", Arr([])), emotionEn, category))
  }

  /** No row without a `date`; otherwise the date is copied, `主感情` and
      `emotion` are both `emotion_en`, the category is the one passed,
      `キーワード` is `keywords` or `[]`, and the composition has exactly the
      `emotion_order` keys with given values or 0. */
  lemma IndexDocumentSpec(data: Dict<string, Value>, emotionEn: string, category: string)
    ensures "date" !in data.vals ==> IndexDocumentFor(data, emotionEn, category).None?
    ensures !GetOr(data, "構成比", Obj(Empty())).Obj? ==> IndexDocumentFor(data, emotionEn, category).None?
    ensures IndexDocumentFor(data, emotionEn, category).Some? ==>
      var d := IndexDocumentFor(data, emotionEn, category).value;
      && "date" in data.vals && d.date == data.vals["date"]
      && d.mainEmotion == emotionEn && d.emotion == emotionEn && d.category == category
      && d.keywords == (if "keywords" in data.vals then data.vals["keywords"] else Arr([]))
      && Valid(d.composition) && d.composition.keys == EmotionOrder()
    ensures IndexDocumentFor(data, emotionEn, category).Some? ==>
      var d := IndexDocumentFor(data, emotionEn, category).value;
      var original := GetOr(data, "構成比", Obj(Empty()));
      && original.Obj?
      && (forall k | k in EmotionOrder() && k in original.fields.vals ::
            k in d.composition.vals && d.composition.vals[k] == original.fields.vals[k])
      && (forall k | k in EmotionOrder() && k !in original.fields.vals ::
            k in d.composition.vals && d.composition.vals[k] == Int(0))
  {
    EmotionOrderSpec();
  }

  /** `emotion_index` as a list of rows. */
  class IndexStore {
    var rows: seq<IndexDocument>

    /** The loop `for ja in order: full[ja] = original.get(ja, 0)`. */
    static method FillComposition(order: seq<string>, original: Dict<string, Value>) returns (full: Dict<string, Value>)
      requires Distinct(order)
      ensures full == ZeroFilled(order, original)
    {
      var fill := (k: string) => GetOr(original, k, Int(0));
      full := Empty();
      for i := 0 to |order|
        invariant full == BuildUpTo(order, i, fill)
      {
        full := Put(full, order[i], fill(order[i]));
      }
      BuildSpec(order, |order|, fill);
      assert order[..|order|] == order;
      var z := ZeroFilled(order, original);
      forall k | k in full.vals ensures full.vals[k] == z.vals[k] {
        var j :| 0 <= j < |order| && order[j] == k;
      }
      Extensional(full, z);
    }

    /** `save_index_data`: give up without a client, build the zero-filled
        composition, give up when `date` is missing, else insert one row.
        `connected` is whether `get_mongo_client()` returned a client and
        `insertOk` whether `insert_one` succeeded. */
    method SaveIndexData(data: Dict<string, Value>, emotionEn: string, category: string, connected: bool, insertOk: bool)
      modifies this
      ensures !connected || !insertOk ==> rows == old(rows)
      ensures connected && insertOk ==>
        rows == old(rows) + (match IndexDocumentFor(data, emotionEn, category)
                             case Some(d) => [d] case None => [])
    {
      if !connected {
        return;
      }
      var original := GetOr(data, "構成比", Obj(Empty()));
      if !original.Obj? {
        return;
      }
      EmotionOrderSpec();
      var full := FillComposition(EmotionOrder(), original.fields);
      if "date" !in data.vals || !insertOk {
        return;
      }
      rows := rows + [IndexDocument(data.vals["date"], emotionEn, full,
                                    GetOr(data, "keywords", Arr([])), emotionEn, category)];
    }
  }

  // ---------------------------------------------------------------------
  // module/memory/index_emotion.py

  /** `EMOTION_KEYS`, the keys of that file's own `EMOTION_MAP`. */
  const MemoryEmotionKeys: seq<string> := [
    "喜び", "期待", "怒り", "嫌悪", "悲しみ", "驚き", "恐れ", "信頼",
    "楽観", "誇り", "病的状態", "積極性", "冷笑", "悲観", "軽蔑", "羨望",
    "憤慨", "自責", "不信", "恥", "失望", "絶望", "感傷", "畏敬",
    "好奇心", "歓喜", "服従", "罪悪感", "不安", "愛", "希望", "優位"
  ]

  /** The file's own list coincides with the shared vocabulary. */
  lemma MemoryKeysAreLabels()
    ensures MemoryEmotionKeys == Params.JaNames
    ensures Distinct(MemoryEmotionKeys)
  {
    Params.NamesDistinct();
  }

  /** `normalize_emotion_vector`: the 32 `EMOTION_KEYS` in fixed order, each
      with its given value or 0, unknown keys dropped. */
  function NormalizeEmotionVector(c: Dict<string, Value>): (r: Dict<string, Value>)
    ensures Valid(r) && r.keys == MemoryEmotionKeys && |r.keys| == 32
    ensures forall k | k in r.vals :: k in Params.JaNames
    ensures forall k | k in MemoryEmotionKeys :: k in r.vals && r.vals[k] == GetOr(c, k, Int(0))
  {
    MemoryKeysAreLabels();
    ZeroFilled(MemoryEmotionKeys, c)
  }

  /** One line of `index/emotion_index.jsonl`. */
  datatype IndexEntry = IndexEntry(
    date: Value, mainEmotion: Value, composition: Dict<string, Value>, keywords: Value, storedAt: string)

  datatype AppendOutcome = Appended | RaisedAttributeError | RaisedFileNotFound

  /** The entry `update_emotion_index` builds; `None` when `構成比` is not a
      dict, where `normalize_emotion_vector` raises. `now` is the string
      `datetime.now().strftime("%Y%m%d%H%M%S")`. */
  function IndexEntryFor(data: Dict<string, Value>, memoryPath: string, now: string): Option<IndexEntry> {
    var comp := GetOr(data, "構成比", Obj(Empty()));
    if !comp.Obj? then None
    else Some(IndexEntry(
      GetOr(data, "date", Text(now)), GetOr(data, "主感情", Text("Unknown")),
      NormalizeEmotionVector(comp.fields), GetOr(data, "keywords", Arr([])), memoryPath))
  }

  /** The defaults of the entry: the date falls back to now, `主感情` to
      "Unknown" and `キーワード` to `[]`; `保存先` is the memory path. */
  lemma IndexEntrySpec(data: Dict<string, Value>, memoryPath: string, now: string)
    ensures GetOr(data, "構成比", Obj(Empty())).Obj? <==> IndexEntryFor(data, memoryPath, now).Some?
    ensures IndexEntryFor(data, memoryPath, now).Some? ==>
      var e := IndexEntryFor(data, memoryPath, now).value;
      && e.storedAt == memoryPath
      && ("date" !in data.vals ==> e.date == Text(now))
      && ("主感情" !in data.vals ==> e.mainEmotion == Text("Unknown"))
      && ("keywords" !in data.vals ==> e.keywords == Arr([]))
      && ("date" in data.vals ==> e.date == data.vals["date"])
      && e.composition.keys == Params.JaNames
  {
    MemoryKeysAreLabels();
  }

  /** `index/emotion_index.jsonl`, one entry per line; whether the index
      directory exists is given. */
  class IndexFile {
    var lines: seq<IndexEntry>

    /** `update_emotion_index`: builds the entry, raises
        `FileNotFoundError` before writing when the directory is missing,
        else appends exactly one line. */
    method UpdateEmotionIndex(data: Dict<string, Value>, memoryPath: string, now: string, dirExists: bool)
      returns (outcome: AppendOutcome)
      modifies this
      ensures IndexEntryFor(data, memoryPath, now).None? ==> outcome == RaisedAttributeError
      ensures IndexEntryFor(data, memoryPath, now).Some? && !dirExists ==> outcome == RaisedFileNotFound
      ensures outcome == Appended <==> IndexEntryFor(data, memoryPath, now).Some? && dirExists
      ensures outcome == Appended ==> lines == old(lines) + [IndexEntryFor(data, memoryPath, now).value]
      ensures outcome != Appended ==> lines == old(lines)
    {
      var entry := IndexEntryFor(data, memoryPath, now);
      if entry.None? {
        return RaisedAttributeError;
      }
      if !dirExists {
        return RaisedFileNotFound;
      }
      lines := lines + [entry.value];
      outcome := Appended;
    }
  }
}
