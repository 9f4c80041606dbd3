/** The stored documents the memory modules read and rewrite: an entry of a
    `履歴` (history) list, an `emotion_data` document, an `emotion_index`
    document and an `emotion_oblivion` record.  A field a document lacks
    is `Null`, which is what `doc.get(field)` returns for it. */
module Records {
  import opened Wrappers
  import opened Dicts
  import opened Values

  /** One element of a `履歴` list. */
  type Entry = Dict<string, Value>

  /** `entry.get("date")` */
  function DateOf(e: Entry): Value {
    GetOr(e, "date", Null)
  }

  /** An `emotion_data` document: its `_id`, its `emotion` field (`None`
      when the document has none), its `category` field, and
      `doc.get("data", {}).get("履歴", [])`. */
  datatype DataDoc = DataDoc(id: string, emotion: Option<Value>, category: Value, history: seq<Entry>)

  /** An `emotion_index` document: `_id`, `emotion`, `category` and the
      top-level `履歴` list (empty when absent). */
  datatype IndexDoc = IndexDoc(id: string, emotion: Option<Value>, category: Value, history: seq<Entry>)

  /** An `emotion_oblivion` record; `category` is `Null` when the record has
      no such field. */
  datatype OblivionRecord = OblivionRecord(
    sourceId: string, emotion: Value, date: Value,
    composition: Value, situation: Value, keywords: Value, category: Value)

  /** `collection.find({"category": tier})` over `emotion_data`. */
  function TierDocs(docs: seq<DataDoc>, tier: string): seq<DataDoc> {
    if docs == [] then []
    else TierDocs(docs[..|docs| - 1], tier) + (if docs[|docs| - 1].category == Text(tier) then [docs[|docs| - 1]] else [])
  }

  lemma {:induction false} TierDocsMembers(docs: seq<DataDoc>, tier: string)
    ensures forall d :: d in TierDocs(docs, tier) <==> d in docs && d.category == Text(tier)
  {
    if docs != [] {
      TierDocsMembers(docs[..|docs| - 1], tier);
      assert docs == docs[..|docs| - 1] + [docs[|docs| - 1]];
    }
  }

  /** `collection.find({"category": tier})` over `emotion_index`. */
  function IndexTierDocs(docs: seq<IndexDoc>, tier: string): seq<IndexDoc> {
    if docs == [] then []
    else
      var last := docs[|docs| - 1];
      IndexTierDocs(docs[..|docs| - 1], tier) + (if last.category == Text(tier) then [last] else [])
  }

  lemma {:induction false} IndexTierDocsMembers(docs: seq<IndexDoc>, tier: string)
    ensures forall d :: d in IndexTierDocs(docs, tier) <==> d in docs && d.category == Text(tier)
  {
    if docs != [] {
      IndexTierDocsMembers(docs[..|docs| - 1], tier);
      assert docs == docs[..|docs| - 1] + [docs[|docs| - 1]];
    }
  }

  /** A caller's `emotion_data` dict, which some operations update in place. */
  class EmotionData {
    var fields: Dict<string, Value>

    constructor (f: Dict<string, Value>)
      ensures fields == f
    {
      fields := f;
    }
  }
}
