/** The oblivion sweep of module/oblivion: short- and intermediate-term
    history entries past their age are copied into `emotion_oblivion`,
    history entries whose dates appear there (for tagged records) are
    removed from `emotion_index` and `emotion_data`, and old oblivion
    records are purged.  The three collections are sequences held by one
    object; `now` and the `%Y%m%d%H%M%S` parser are parameters, timestamps
    are seconds. */
module Oblivion {
  import opened Wrappers
  import opened Dicts
  import opened Values
  import opened Records

  const Day: int := 86400
  /** `timedelta(days=7)` of the short stage and `timedelta(days=90)` of
      the intermediate one. */
  const ShortDays: int := 7
  const IntermediateDays: int := 90
  /** The two purges: every record after 180 days, short ones after 14. */
  const PurgeDays: int := 180
  const ShortPurgeDays: int := 14

  /** `datetime.strptime(v, "%Y%m%d%H%M%S")`: a string parses as `parse`
      says; anything else raises, which every caller catches. */
  function ParsedDate(v: Value, parse: string -> Option<int>): Option<int> {
    if v.Text? then parse(v.s) else None
  }

  /** The date parses and lies strictly before `threshold`. */
  predicate Before(v: Value, threshold: int, parse: string -> Option<int>) {
    ParsedDate(v, parse).Some? && ParsedDate(v, parse).value < threshold
  }

  // ---------------------------------------------------------------------
  // Aging: get_expired_*_emotions and save_oblivion_*_entries

  /** Some history entry of `d` is dated before `threshold`. */
  predicate DocExpired(d: DataDoc, threshold: int, parse: string -> Option<int>) {
    exists j | 0 <= j < |d.history| :: Before(DateOf(d.history[j]), threshold, parse)
  }

  /** The documents `get_expired_*` collects, in order. */
  function ExpiredDocs(docs: seq<DataDoc>, threshold: int, parse: string -> Option<int>): seq<DataDoc> {
    if docs == [] then []
    else
      var last := docs[|docs| - 1];
      ExpiredDocs(docs[..|docs| - 1], threshold, parse) + (if DocExpired(last, threshold, parse) then [last] else [])
  }

  /** The record `save_oblivion_*` writes for entry `e` of document `d`; it
      has no `category` field. */
  function RecordFor(d: DataDoc, e: Entry): OblivionRecord {
    OblivionRecord(
      d.id, d.emotion.GetOr(Null), DateOf(e),
      GetOr(e, "構成比", Obj(Empty())), GetOr(e, "状況", Text("")), GetOr(e, "keywords", Arr([])),
      Null)
  }

  /** An entry the save step copies: a truthy date that parses and is
      before `threshold`. */
  predicate ToForget(e: Entry, threshold: int, parse: string -> Option<int>) {
    Truthy(DateOf(e)) && Before(DateOf(e), threshold, parse)
  }

  /** The records made from the entries `h` of document `d`. */
  function DocRecords(d: DataDoc, h: seq<Entry>, threshold: int, parse: string -> Option<int>): seq<OblivionRecord> {
    if h == [] then []
    else
      var last := h[|h| - 1];
      DocRecords(d, h[..|h| - 1], threshold, parse) + (if ToForget(last, threshold, parse) then [RecordFor(d, last)] else [])
  }

  /** All records made from the documents `docs`, document by document. */
  function AgedRecords(docs: seq<DataDoc>, threshold: int, parse: string -> Option<int>): seq<OblivionRecord> {
    if docs == [] then []
    else
      var last := docs[|docs| - 1];
      AgedRecords(docs[..|docs| - 1], threshold, parse) + DocRecords(last, last.history, threshold, parse)
  }

  /** The expired documents are the expiring ones of the tier, each listed
      no more often than the collection holds it. */
  lemma {:induction false} ExpiredDocsSpec(docs: seq<DataDoc>, threshold: int, parse: string -> Option<int>)
    ensures forall d :: d in ExpiredDocs(docs, threshold, parse) <==> d in docs && DocExpired(d, threshold, parse)
    ensures multiset(ExpiredDocs(docs, threshold, parse)) <= multiset(docs)
  {
    if docs != [] {
      ExpiredDocsSpec(docs[..|docs| - 1], threshold, parse);
      assert docs == docs[..|docs| - 1] + [docs[|docs| - 1]];
    }
  }

  /** Every record of a document comes from one of its expired entries with
      a truthy date, and every such entry yields one. */
  lemma {:induction false} DocRecordsSpec(d: DataDoc, h: seq<Entry>, threshold: int, parse: string -> Option<int>)
    ensures forall r | r in DocRecords(d, h, threshold, parse) ::
      exists e | e in h :: ToForget(e, threshold, parse) && r == RecordFor(d, e)
    ensures forall e | e in h && ToForget(e, threshold, parse) :: RecordFor(d, e) in DocRecords(d, h, threshold, parse)
  {
    if h != [] {
      DocRecordsSpec(d, h[..|h| - 1], threshold, parse);
      assert h == h[..|h| - 1] + [h[|h| - 1]];
    }
  }

  /** What every aged record looks like: no category, a truthy date older
      than the threshold, and the id of the document it came from. */
  lemma {:induction false} AgedRecordsShape(docs: seq<DataDoc>, threshold: int, parse: string -> Option<int>)
    ensures forall r | r in AgedRecords(docs, threshold, parse) ::
      && r.category == Null && Truthy(r.date) && Before(r.date, threshold, parse)
      && exists d | d in docs :: d.id == r.sourceId
  {
    if docs != [] {
      var init, last := docs[..|docs| - 1], docs[|docs| - 1];
      AgedRecordsShape(init, threshold, parse);
      DocRecordsSpec(last, last.history, threshold, parse);
      assert docs == init + [last];
    }
  }

  /** Records come one per expired entry, not one per document: the
      records of a document list are those of each document in turn. */
  lemma {:induction false} AgedRecordsAppend(a: seq<DataDoc>, b: seq<DataDoc>, threshold: int, parse: string -> Option<int>)
    ensures AgedRecords(a + b, threshold, parse) == AgedRecords(a, threshold, parse) + AgedRecords(b, threshold, parse)
    decreases |b|
  {
    if b == [] {
      assert a + b == a;
    } else {
      var init := b[..|b| - 1];
      assert (a + b)[..|a + b| - 1] == a + init;
      AgedRecordsAppend(a, init, threshold, parse);
    }
  }

  // ---------------------------------------------------------------------
  // Removal: remove_index_entries_by_date and remove_history_entries_by_date

  /** `find({"category": {"$in": ["short", "intermediate"]}})` */
  predicate IsTarget(r: OblivionRecord) {
    r.category == Text("short") || r.category == Text("intermediate")
  }

  function Targets(recs: seq<OblivionRecord>): seq<OblivionRecord> {
    if recs == [] then []
    else Targets(recs[..|recs| - 1]) + (if IsTarget(recs[|recs| - 1]) then [recs[|recs| - 1]] else [])
  }

  /** The truthy dates of `recs`, in order; a record without one is skipped. */
  function DatesOf(recs: seq<OblivionRecord>): seq<Value> {
    if recs == [] then []
    else DatesOf(recs[..|recs| - 1]) + (if Truthy(recs[|recs| - 1].date) then [recs[|recs| - 1].date] else [])
  }

  function TargetDates(recs: seq<OblivionRecord>): seq<Value> {
    DatesOf(Targets(recs))
  }

  /** `[h for h in history if h.get("date") != date]` */
  function WithoutDate(h: seq<Entry>, date: Value): seq<Entry> {
    if h == [] then []
    else WithoutDate(h[..|h| - 1], date) + (if DateOf(h[|h| - 1]) != date then [h[|h| - 1]] else [])
  }

  /** The `"履歴.date": date` query matches. */
  predicate HasDate(h: seq<Entry>, date: Value) {
    exists j | 0 <= j < |h| :: DateOf(h[j]) == date
  }

  /** One `emotion_index` document after the update for `date`. */
  function StripIndexDoc(d: IndexDoc, date: Value): IndexDoc {
    if HasDate(d.history, date) then d.(history := WithoutDate(d.history, date)) else d
  }

  /** Every matching `emotion_index` document updated for `date`. */
  function StripIndexDocs(docs: seq<IndexDoc>, date: Value): (r: seq<IndexDoc>)
    ensures |r| == |docs|
  {
    seq(|docs|, i requires 0 <= i < |docs| => StripIndexDoc(docs[i], date))
  }

  /** `emotion_index` after the updates for `dates`, in order. */
  function IndexAfter(docs: seq<IndexDoc>, dates: seq<Value>): seq<IndexDoc> {
    if dates == [] then docs
    else StripIndexDocs(IndexAfter(docs, dates[..|dates| - 1]), dates[|dates| - 1])
  }

  /** `find_one({"data.履歴.date": date})`: the first document holding it. */
  function FirstWithDate(docs: seq<DataDoc>, date: Value, k: nat): (r: Option<nat>)
    requires k <= |docs|
    ensures r.Some? ==> k <= r.value < |docs| && HasDate(docs[r.value].history, date)
    ensures r.Some? ==> forall i | k <= i < r.value :: !HasDate(docs[i].history, date)
    ensures r.None? ==> forall i | k <= i < |docs| :: !HasDate(docs[i].history, date)
    decreases |docs| - k
  {
    if k == |docs| then None
    else if HasDate(docs[k].history, date) then Some(k)
    else FirstWithDate(docs, date, k + 1)
  }

  /** `emotion_data` after the update for `date`: only the first document
      holding it changes; none holding it is a no-op. */
  function StripFirstDataDoc(docs: seq<DataDoc>, date: Value): seq<DataDoc> {
    match FirstWithDate(docs, date, 0)
    case Some(i) => docs[i := docs[i].(history := WithoutDate(docs[i].history, date))]
    case None => docs
  }

  /** `emotion_data` after the updates for `dates`, in order. */
  function DataAfter(docs: seq<DataDoc>, dates: seq<Value>): seq<DataDoc> {
    if dates == [] then docs
    else StripFirstDataDoc(DataAfter(docs, dates[..|dates| - 1]), dates[|dates| - 1])
  }

  /** The filter drops exactly the entries of that date and keeps the order
      of the rest: it distributes over concatenation. */
  lemma {:induction false} WithoutDateSpec(h: seq<Entry>, date: Value)
    ensures forall e :: e in WithoutDate(h, date) <==> e in h && DateOf(e) != date
    ensures |WithoutDate(h, date)| <= |h|
    ensures !HasDate(h, date) ==> WithoutDate(h, date) == h
  {
    if h != [] {
      var init := h[..|h| - 1];
      WithoutDateSpec(init, date);
      assert h == init + [h[|h| - 1]];
      if !HasDate(h, date) {
        assert !HasDate(init, date) by {
          forall j | 0 <= j < |init| ensures DateOf(init[j]) != date {
            assert init[j] == h[j];
          }
        }
      }
    }
  }

  lemma {:induction false} WithoutDateAppend(a: seq<Entry>, b: seq<Entry>, date: Value)
    ensures WithoutDate(a + b, date) == WithoutDate(a, date) + WithoutDate(b, date)
    decreases |b|
  {
    if b == [] {
      assert a + b == a;
    } else {
      assert (a + b)[..|a + b| - 1] == a + b[..|b| - 1];
      WithoutDateAppend(a, b[..|b| - 1], date);
    }
  }

  /** Filtering twice by the same date is filtering once. */
  lemma WithoutDateIdempotent(h: seq<Entry>, date: Value)
    ensures WithoutDate(WithoutDate(h, date), date) == WithoutDate(h, date)
  {
    WithoutDateSpec(h, date);
    var w := WithoutDate(h, date);
    assert !HasDate(w, date) by {
      forall j | 0 <= j < |w| ensures DateOf(w[j]) != date {
        assert w[j] in w;
      }
    }
    WithoutDateSpec(w, date);
  }

  /** Updating only the matching documents is the same as filtering every
      document. */
  lemma StripIndexDocsAll(docs: seq<IndexDoc>, date: Value)
    ensures StripIndexDocs(docs, date) == seq(|docs|, i requires 0 <= i < |docs| => docs[i].(history := WithoutDate(docs[i].history, date)))
  {
    forall i | 0 <= i < |docs| ensures StripIndexDoc(docs[i], date) == docs[i].(history := WithoutDate(docs[i].history, date)) {
      WithoutDateSpec(docs[i].history, date);
    }
  }

  /** No entry of the given dates is left in `emotion_index`. */
  predicate FreeOf(docs: seq<IndexDoc>, dates: seq<Value>) {
    forall i, j | 0 <= i < |docs| && 0 <= j < |docs[i].history| :: DateOf(docs[i].history[j]) !in dates
  }

  lemma {:induction false} StripIndexDocsFree(docs: seq<IndexDoc>, dates: seq<Value>, date: Value)
    requires FreeOf(docs, dates)
    ensures FreeOf(StripIndexDocs(docs, date), dates + [date])
  {
    var r := StripIndexDocs(docs, date);
    forall i, j | 0 <= i < |r| && 0 <= j < |r[i].history| ensures DateOf(r[i].history[j]) !in dates + [date] {
      WithoutDateSpec(docs[i].history, date);
      if HasDate(docs[i].history, date) {
        assert r[i].history[j] in WithoutDate(docs[i].history, date);
      }
      var k :| 0 <= k < |docs[i].history| && docs[i].history[k] == r[i].history[j];
    }
  }

  lemma {:induction false} IndexAfterFree(docs: seq<IndexDoc>, dates: seq<Value>)
    ensures FreeOf(IndexAfter(docs, dates), dates)
  {
    if dates != [] {
      var init := dates[..|dates| - 1];
      IndexAfterFree(docs, init);
      StripIndexDocsFree(IndexAfter(docs, init), init, dates[|dates| - 1]);
      assert init + [dates[|dates| - 1]] == dates;
    }
  }

  /** Updating documents that hold none of the dates changes nothing. */
  lemma {:induction false} IndexAfterNoop(docs: seq<IndexDoc>, dates: seq<Value>, all: seq<Value>)
    requires FreeOf(docs, all) && forall d | d in dates :: d in all
    ensures IndexAfter(docs, dates) == docs
  {
    if dates != [] {
      var init := dates[..|dates| - 1];
      IndexAfterNoop(docs, init, all);
      var date := dates[|dates| - 1];
      assert date in dates;
      forall i | 0 <= i < |docs| ensures StripIndexDoc(docs[i], date) == docs[i] {
        assert !HasDate(docs[i].history, date);
      }
    }
  }

  /** Running the index removal again with the same dates changes nothing. */
  lemma IndexAfterIdempotent(docs: seq<IndexDoc>, dates: seq<Value>)
    ensures IndexAfter(IndexAfter(docs, dates), dates) == IndexAfter(docs, dates)
  {
    IndexAfterFree(docs, dates);
    IndexAfterNoop(IndexAfter(docs, dates), dates, dates);
  }

  /** The data removal filters the history of the first document holding
      the date and of no other; when none holds it nothing changes. */
  lemma StripFirstSpec(docs: seq<DataDoc>, date: Value)
    ensures (forall i | 0 <= i < |docs| :: !HasDate(docs[i].history, date)) ==> StripFirstDataDoc(docs, date) == docs
    ensures forall i | 0 <= i < |docs| && HasDate(docs[i].history, date) && (forall k | 0 <= k < i :: !HasDate(docs[k].history, date)) ::
      StripFirstDataDoc(docs, date) == docs[i := docs[i].(history := WithoutDate(docs[i].history, date))]
  {
    var r := FirstWithDate(docs, date, 0);
    forall i | 0 <= i < |docs| && HasDate(docs[i].history, date) && (forall k | 0 <= k < i :: !HasDate(docs[k].history, date))
      ensures r == Some(i)
    {
    }
  }

  // ---------------------------------------------------------------------
  // Purges: delete_expired_oblivion_entries and delete_expired_short_oblivion_entries

  /** A record the purge deletes: of the short tier when `shortOnly`, with a
      truthy date that parses and is before `threshold`. */
  predicate Purged(r: OblivionRecord, threshold: int, shortOnly: bool, parse: string -> Option<int>) {
    (!shortOnly || r.category == Text("short")) && Truthy(r.date) && Before(r.date, threshold, parse)
  }

  /** The collection after the purge, in order. */
  function Kept(recs: seq<OblivionRecord>, threshold: int, shortOnly: bool, parse: string -> Option<int>): seq<OblivionRecord> {
    if recs == [] then []
    else
      var last := recs[|recs| - 1];
      Kept(recs[..|recs| - 1], threshold, shortOnly, parse) + (if Purged(last, threshold, shortOnly, parse) then [] else [last])
  }

  /** The purge deletes exactly the expired records; in particular a record
      without a date, or with one that does not parse, stays. */
  lemma {:induction false} KeptSpec(recs: seq<OblivionRecord>, threshold: int, shortOnly: bool, parse: string -> Option<int>)
    ensures forall r :: r in Kept(recs, threshold, shortOnly, parse) <==> r in recs && !Purged(r, threshold, shortOnly, parse)
    ensures multiset(Kept(recs, threshold, shortOnly, parse)) <= multiset(recs)
    ensures (forall r | r in recs :: !Purged(r, threshold, shortOnly, parse)) ==> Kept(recs, threshold, shortOnly, parse) == recs
  {
    KeptMembers(recs, threshold, shortOnly, parse);
    KeptSub(recs, threshold, shortOnly, parse);
    if forall r | r in recs :: !Purged(r, threshold, shortOnly, parse) {
      KeptAll(recs, threshold, shortOnly, parse);
    }
  }

  lemma {:induction false} KeptMembers(recs: seq<OblivionRecord>, threshold: int, shortOnly: bool, parse: string -> Option<int>)
    ensures forall r :: r in Kept(recs, threshold, shortOnly, parse) <==> r in recs && !Purged(r, threshold, shortOnly, parse)
  {
    if recs != [] {
      var init, last := recs[..|recs| - 1], recs[|recs| - 1];
      KeptMembers(init, threshold, shortOnly, parse);
      var k := Kept(init, threshold, shortOnly, parse);
      var tail := if Purged(last, threshold, shortOnly, parse) then [] else [last];
      assert Kept(recs, threshold, shortOnly, parse) == k + tail;
      assert recs == init + [last];
    }
  }

  lemma {:induction false} KeptSub(recs: seq<OblivionRecord>, threshold: int, shortOnly: bool, parse: string -> Option<int>)
    ensures multiset(Kept(recs, threshold, shortOnly, parse)) <= multiset(recs)
  {
    if recs != [] {
      var init, last := recs[..|recs| - 1], recs[|recs| - 1];
      var k := Kept(init, threshold, shortOnly, parse);
      var tail := if Purged(last, threshold, shortOnly, parse) then [] else [last];
      assert multiset(k) <= multiset(init) by {
        KeptSub(init, threshold, shortOnly, parse);
      }
      assert multiset(recs) == multiset(init) + multiset{last} by {
        assert recs == init + [last];
      }
      assert Kept(recs, threshold, shortOnly, parse) == k + tail;
      assert multiset(k + tail) == multiset(k) + multiset(tail);
    }
  }

  lemma {:induction false} KeptAll(recs: seq<OblivionRecord>, threshold: int, shortOnly: bool, parse: string -> Option<int>)
    requires forall i | 0 <= i < |recs| :: !Purged(recs[i], threshold, shortOnly, parse)
    ensures Kept(recs, threshold, shortOnly, parse) == recs
  {
    if recs != [] {
      var init, last := recs[..|recs| - 1], recs[|recs| - 1];
      assert Kept(init, threshold, shortOnly, parse) == init by {
        assert forall i | 0 <= i < |init| :: init[i] == recs[i];
        KeptAll(init, threshold, shortOnly, parse);
      }
      assert !Purged(recs[|recs| - 1], threshold, shortOnly, parse);
      assert recs == init + [last];
    }
  }

  lemma NothingPurged(recs: seq<OblivionRecord>, threshold: int, shortOnly: bool, parse: string -> Option<int>)
    requires forall k | 0 <= k < |recs| :: !Purged(recs[k], threshold, shortOnly, parse)
    ensures Kept(recs, threshold, shortOnly, parse) == recs
  {
    KeptSpec(recs, threshold, shortOnly, parse);
  }

  /** Purging twice with the same `now` is purging once. */
  lemma KeptIdempotent(recs: seq<OblivionRecord>, threshold: int, shortOnly: bool, parse: string -> Option<int>)
    ensures Kept(Kept(recs, threshold, shortOnly, parse), threshold, shortOnly, parse) == Kept(recs, threshold, shortOnly, parse)
  {
    KeptSpec(recs, threshold, shortOnly, parse);
    KeptSpec(Kept(recs, threshold, shortOnly, parse), threshold, shortOnly, parse);
  }

  // ---------------------------------------------------------------------
  // Interrupted removals: every stage runs inside one `try`, and an
  // exception ends the stage with the updates made so far kept.

  /** Where `remove_index_entries_by_date` raised: while handling the
      tagged record `target`, once the first `doc` documents of
      `emotion_index` had been handled for it (`doc` past the end: after
      all of them). */
  datatype IndexFault = IndexFault(target: nat, doc: nat)

  /** The first `k` documents updated for `date`, the rest untouched. */
  function StripIndexPrefix(docs: seq<IndexDoc>, date: Value, k: nat): (r: seq<IndexDoc>)
    ensures |r| == |docs|
  {
    seq(|docs|, i requires 0 <= i < |docs| => if i < k then StripIndexDoc(docs[i], date) else docs[i])
  }

  /** `emotion_index` after `remove_index_entries_by_date` over the tagged
      records `targets`: everything up to the fault, or all of it. */
  function IndexRemoved(docs: seq<IndexDoc>, targets: seq<OblivionRecord>, fault: Option<IndexFault>): seq<IndexDoc> {
    if fault.Some? && fault.value.target < |targets| then
      var done := IndexAfter(docs, DatesOf(targets[..fault.value.target]));
      var date := targets[fault.value.target].date;
      if Truthy(date) then StripIndexPrefix(done, date, fault.value.doc) else done
    else IndexAfter(docs, DatesOf(targets))
  }

  /** `emotion_data` after `remove_history_entries_by_date` over `targets`
      when handling the target `fault` raised: the targets before it are
      done. */
  function DataRemoved(docs: seq<DataDoc>, targets: seq<OblivionRecord>, fault: Option<nat>): seq<DataDoc> {
    if fault.Some? && fault.value < |targets| then DataAfter(docs, DatesOf(targets[..fault.value]))
    else DataAfter(docs, DatesOf(targets))
  }

  /** The entries of `h` whose date is none of `ds`, in order. */
  function Drop(h: seq<Entry>, ds: seq<Value>): seq<Entry> {
    if h == [] then []
    else Drop(h[..|h| - 1], ds) + (if DateOf(h[|h| - 1]) !in ds then [h[|h| - 1]] else [])
  }

  lemma {:induction false} DropNone(h: seq<Entry>)
    ensures Drop(h, []) == h
  {
    if h != [] {
      DropNone(h[..|h| - 1]);
      assert h == h[..|h| - 1] + [h[|h| - 1]];
    }
  }

  /** Filtering by one more date is dropping one more date. */
  lemma {:induction false} DropMore(h: seq<Entry>, ds: seq<Value>, d: Value)
    ensures WithoutDate(Drop(h, ds), d) == Drop(h, ds + [d])
    decreases |h|
  {
    if h != [] {
      var init, e := h[..|h| - 1], h[|h| - 1];
      DropMore(init, ds, d);
      var x := if DateOf(e) !in ds then [e] else [];
      WithoutDateAppend(Drop(init, ds), x, d);
      assert [e][..0] == [];
      assert WithoutDate(x, d) == (if DateOf(e) !in ds + [d] then [e] else []);
    }
  }

  /** Dropping a subset of the dates first changes nothing in the end. */
  lemma {:induction false} DropAbsorbs(h: seq<Entry>, p: seq<Value>, ds: seq<Value>)
    requires forall x | x in p :: x in ds
    ensures Drop(Drop(h, p), ds) == Drop(h, ds)
    decreases |h|
  {
    if h != [] {
      var init, e := h[..|h| - 1], h[|h| - 1];
      DropAbsorbs(init, p, ds);
      var a := Drop(init, p);
      if DateOf(e) !in p {
        assert (a + [e])[..|a + [e]| - 1] == a && (a + [e])[|a + [e]| - 1] == e;
      } else {
        assert Drop(h, p) == a;
        assert DateOf(e) in ds;
        assert Drop(h, ds) == Drop(init, ds) + [];
      }
    }
  }

  /** The index removal for `dates` drops those dates from every
      document's history and changes nothing else. */
  lemma {:induction false} IndexAfterDocs(docs: seq<IndexDoc>, dates: seq<Value>)
    ensures |IndexAfter(docs, dates)| == |docs|
    ensures forall i | 0 <= i < |docs| :: IndexAfter(docs, dates)[i] == docs[i].(history := Drop(docs[i].history, dates))
    decreases |dates|
  {
    if dates == [] {
      forall i | 0 <= i < |docs| ensures docs[i] == docs[i].(history := Drop(docs[i].history, dates)) {
        DropNone(docs[i].history);
      }
    } else {
      var init, d := dates[..|dates| - 1], dates[|dates| - 1];
      IndexAfterDocs(docs, init);
      StripIndexDocsAll(IndexAfter(docs, init), d);
      assert init + [d] == dates;
      forall i | 0 <= i < |docs| ensures IndexAfter(docs, dates)[i] == docs[i].(history := Drop(docs[i].history, dates)) {
        DropMore(docs[i].history, init, d);
      }
    }
  }

  lemma {:induction false} DatesOfAppend(a: seq<OblivionRecord>, b: seq<OblivionRecord>)
    ensures DatesOf(a + b) == DatesOf(a) + DatesOf(b)
    decreases |b|
  {
    if b == [] {
      assert a + b == a;
    } else {
      assert (a + b)[..|a + b| - 1] == a + b[..|b| - 1];
      DatesOfAppend(a, b[..|b| - 1]);
    }
  }

  /** The dates a stopped index removal has dropped from document `i`:
      those of the targets before the fault, and the fault's own date for
      the documents handled before it raised. */
  function DroppedDates(targets: seq<OblivionRecord>, fault: Option<IndexFault>, i: nat): seq<Value> {
    if fault.Some? && fault.value.target < |targets| then
      var t := fault.value.target;
      if Truthy(targets[t].date) && i < fault.value.doc then DatesOf(targets[..t + 1]) else DatesOf(targets[..t])
    else DatesOf(targets)
  }

  /** A stopped index removal has dropped, from every document, the dates
      of a prefix of the targets. */
  lemma IndexRemovedDocs(docs: seq<IndexDoc>, targets: seq<OblivionRecord>, fault: Option<IndexFault>)
    ensures |IndexRemoved(docs, targets, fault)| == |docs|
    ensures forall i | 0 <= i < |docs| ::
      IndexRemoved(docs, targets, fault)[i] == docs[i].(history := Drop(docs[i].history, DroppedDates(targets, fault, i)))
    ensures forall i: nat :: DroppedDates(targets, fault, i) <= DatesOf(targets)
  {
    var all := DatesOf(targets);
    if fault.Some? && fault.value.target < |targets| {
      var t, k := fault.value.target, fault.value.doc;
      var done := DatesOf(targets[..t]);
      var d := targets[t].date;
      assert targets[..t + 1][..t] == targets[..t];
      DatesOfAppend(targets[..t + 1], targets[t + 1..]);
      assert targets[..t + 1] + targets[t + 1..] == targets;
      var longer := DatesOf(targets[..t + 1]);
      assert longer <= all;
      IndexAfterDocs(docs, done);
      var mid := IndexAfter(docs, done);
      if Truthy(d) {
        assert longer == done + [d];
        forall i | 0 <= i < |docs|
          ensures IndexRemoved(docs, targets, fault)[i] == docs[i].(history := Drop(docs[i].history, DroppedDates(targets, fault, i)))
        {
          if i < k {
            WithoutDateSpec(mid[i].history, d);
            DropMore(docs[i].history, done, d);
          }
        }
      } else {
        assert longer == done;
      }
    } else {
      IndexAfterDocs(docs, all);
    }
  }

  /** Running the index removal again after it raised ends where an
      uninterrupted run ends. */
  lemma IndexRemovalRerun(docs: seq<IndexDoc>, targets: seq<OblivionRecord>, fault: Option<IndexFault>)
    ensures IndexAfter(IndexRemoved(docs, targets, fault), DatesOf(targets)) == IndexAfter(docs, DatesOf(targets))
  {
    var all := DatesOf(targets);
    var r := IndexRemoved(docs, targets, fault);
    IndexRemovedDocs(docs, targets, fault);
    IndexAfterDocs(r, all);
    IndexAfterDocs(docs, all);
    forall i | 0 <= i < |docs| ensures IndexAfter(r, all)[i] == IndexAfter(docs, all)[i] {
      DropAbsorbs(docs[i].history, DroppedDates(targets, fault, i), all);
    }
  }

  lemma {:induction false} DataAfterAppend(docs: seq<DataDoc>, a: seq<Value>, b: seq<Value>)
    ensures DataAfter(docs, a + b) == DataAfter(DataAfter(docs, a), b)
    decreases |b|
  {
    if b == [] {
      assert a + b == a;
    } else {
      assert (a + b)[..|a + b| - 1] == a + b[..|b| - 1];
      DataAfterAppend(docs, a, b[..|b| - 1]);
    }
  }

  /** After the data removal raised at target `t`, handling the targets
      from `t` on ends where an uninterrupted run ends. */
  lemma DataRemovalResume(docs: seq<DataDoc>, targets: seq<OblivionRecord>, t: nat)
    requires t <= |targets|
    ensures DataAfter(DataRemoved(docs, targets, Some(t)), DatesOf(targets[t..])) == DataAfter(docs, DatesOf(targets))
  {
    DatesOfAppend(targets[..t], targets[t..]);
    assert targets[..t] + targets[t..] == targets;
    DataAfterAppend(docs, DatesOf(targets[..t]), DatesOf(targets[t..]));
    if t == |targets| {
      assert targets[t..] == [];
    }
  }

  // ---------------------------------------------------------------------
  // The sweep as a whole (module/oblivion/oblivion_module.py)

  datatype Store = Store(data: seq<DataDoc>, index: seq<IndexDoc>, oblivion: seq<OblivionRecord>)

  /** An aging stage: the tier's expired entries appended as records. */
  function AgeStage(s: Store, tier: string, days: int, now: int, parse: string -> Option<int>): Store {
    s.(oblivion := s.oblivion + AgedRecords(TierDocs(s.data, tier), now - days * Day, parse))
  }

  /** Index removal, then data removal, for the dates of the tagged
      records; each stops where its fault says. */
  function RemovalStage(s: Store, indexFault: Option<IndexFault>, dataFault: Option<nat>): Store {
    s.(index := IndexRemoved(s.index, Targets(s.oblivion), indexFault),
       data := DataRemoved(s.data, Targets(s.oblivion), dataFault))
  }

  function PurgeStage(s: Store, days: int, shortOnly: bool, now: int, parse: string -> Option<int>): Store {
    s.(oblivion := Kept(s.oblivion, now - days * Day, shortOnly, parse))
  }

  /** Which stages of one sweep raise: a `false` flag is a stage whose
      client, query or write raised (the `find` flags only affect the
      logged count), and a fault is where a removal stage stopped. */
  datatype Faults = Faults(
    shortFindOk: bool, shortSaveOk: bool,
    intermediateFindOk: bool, intermediateSaveOk: bool,
    index: Option<IndexFault>, data: Option<nat>,
    purgeOk: bool, shortPurgeOk: bool)

  const NoFaults := Faults(true, true, true, true, None, None, true, true)

  /** `run_oblivion_cleanup_all` in its order: short aging, intermediate
      aging, index and data removal, 180-day purge, 14-day short purge.
      Every stage catches its own exceptions, so a failing stage leaves
      the store as it was (or, for a removal, partly updated) and the
      later stages still run. */
  function Sweep(s: Store, now: int, parse: string -> Option<int>, f: Faults): Store {
    var s1 := if f.shortSaveOk then AgeStage(s, "short", ShortDays, now, parse) else s;
    var s2 := if f.intermediateSaveOk then AgeStage(s1, "intermediate", IntermediateDays, now, parse) else s1;
    var s3 := RemovalStage(s2, f.index, f.data);
    var s4 := if f.purgeOk then PurgeStage(s3, PurgeDays, false, now, parse) else s3;
    if f.shortPurgeOk then PurgeStage(s4, ShortPurgeDays, true, now, parse) else s4
  }

  lemma {:induction false} TargetsOfAppend(a: seq<OblivionRecord>, b: seq<OblivionRecord>)
    requires forall r | r in b :: !IsTarget(r)
    ensures Targets(a + b) == Targets(a)
    decreases |b|
  {
    if b == [] {
      assert a + b == a;
    } else {
      var init := b[..|b| - 1];
      assert (a + b)[..|a + b| - 1] == a + init;
      assert b[|b| - 1] in b;
      TargetsOfAppend(a, init);
    }
  }

  lemma {:induction false} NoTargets(recs: seq<OblivionRecord>)
    requires forall r | r in recs :: !IsTarget(r)
    ensures Targets(recs) == []
  {
    TargetsOfAppend([], recs);
    assert [] + recs == recs;
  }

  /** The aging stages write records without a category, which the
      removal stage never targets: a store whose oblivion collection holds
      no short- or intermediate-tagged record keeps its `emotion_index`
      and `emotion_data` through the whole sweep, whichever stages fail. */
  lemma SweepKeepsMemories(s: Store, now: int, parse: string -> Option<int>, f: Faults)
    requires forall r | r in s.oblivion :: !IsTarget(r)
    ensures Sweep(s, now, parse, f).data == s.data
    ensures Sweep(s, now, parse, f).index == s.index
  {
    var a1 := AgedRecords(TierDocs(s.data, "short"), now - ShortDays * Day, parse);
    var a2 := AgedRecords(TierDocs(s.data, "intermediate"), now - IntermediateDays * Day, parse);
    AgedRecordsShape(TierDocs(s.data, "short"), now - ShortDays * Day, parse);
    AgedRecordsShape(TierDocs(s.data, "intermediate"), now - IntermediateDays * Day, parse);
    var s1 := if f.shortSaveOk then AgeStage(s, "short", ShortDays, now, parse) else s;
    var s2 := if f.intermediateSaveOk then AgeStage(s1, "intermediate", IntermediateDays, now, parse) else s1;
    assert s1.data == s.data && s2.data == s.data;
    assert forall r | r in s1.oblivion :: !IsTarget(r);
    assert forall r | r in s2.oblivion :: !IsTarget(r);
    NoTargets(s2.oblivion);
  }

  /** Every record an aging stage writes names a document of its tier. */
  lemma AgedFromTier(docs: seq<DataDoc>, tier: string, threshold: int, parse: string -> Option<int>)
    ensures forall r | r in AgedRecords(TierDocs(docs, tier), threshold, parse) ::
      exists d | d in docs :: d.id == r.sourceId && d.category == Text(tier)
  {
    AgedRecordsShape(TierDocs(docs, tier), threshold, parse);
    TierDocsMembers(docs, tier);
  }

  /** The records the two aging stages of the sweep append. */
  function AgingAdded(s: Store, now: int, parse: string -> Option<int>): seq<OblivionRecord> {
    AgedRecords(TierDocs(s.data, "short"), now - ShortDays * Day, parse)
      + AgedRecords(TierDocs(s.data, "intermediate"), now - IntermediateDays * Day, parse)
  }

  /** Only the two aging stages run, so every record the sweep adds comes
      from a short or an intermediate document, never a long one. */
  lemma SweepNeverCopiesLong(s: Store, now: int, parse: string -> Option<int>)
    ensures AgeStage(AgeStage(s, "short", ShortDays, now, parse), "intermediate", IntermediateDays, now, parse).oblivion
      == s.oblivion + AgingAdded(s, now, parse)
    ensures forall r | r in AgingAdded(s, now, parse) ::
      exists d | d in s.data :: d.id == r.sourceId && (d.category == Text("short") || d.category == Text("intermediate"))
  {
    AgedFromTier(s.data, "short", now - ShortDays * Day, parse);
    AgedFromTier(s.data, "intermediate", now - IntermediateDays * Day, parse);
  }

  /** The 14-day purge only looks at short-tagged records, so the untagged
      records of the aging stages survive it. */
  lemma ShortPurgeKeepsUntagged(recs: seq<OblivionRecord>, threshold: int, parse: string -> Option<int>)
    ensures forall r | r in recs && r.category == Null :: r in Kept(recs, threshold, true, parse)
  {
    KeptSpec(recs, threshold, true, parse);
  }

  /** The inner loop of `get_expired_*`: the scan of one document's
      history stops at the first entry dated before the threshold. */
  method ScanHistory(d: DataDoc, threshold: int, parse: string -> Option<int>) returns (hit: bool)
    ensures hit == DocExpired(d, threshold, parse)
  {
    var h := d.history;
    for j := 0 to |h|
      invariant forall m | 0 <= m < j :: !Before(DateOf(h[m]), threshold, parse)
    {
      if Before(DateOf(h[j]), threshold, parse) {
        return true;
      }
    }
    return false;
  }

  /** The inner loop of `save_oblivion_*`: the records of one document's
      history, an entry without a truthy date skipped. */
  method CollectRecords(d: DataDoc, threshold: int, parse: string -> Option<int>) returns (records: seq<OblivionRecord>)
    ensures records == DocRecords(d, d.history, threshold, parse)
  {
    var h := d.history;
    records := [];
    for j := 0 to |h|
      invariant records == DocRecords(d, h[..j], threshold, parse)
    {
      assert h[..j + 1][..j] == h[..j];
      var dateStr := DateOf(h[j]);
      if Truthy(dateStr) && Before(dateStr, threshold, parse) {
        records := records + [RecordFor(d, h[j])];
      }
    }
    assert h[..|h|] == h;
  }

  // ---------------------------------------------------------------------
  // The collections and the stage methods

  class Collections {
    var emotionData: seq<DataDoc>
    var emotionIndex: seq<IndexDoc>
    var emotionOblivion: seq<OblivionRecord>

    function State(): Store
      reads this
    {
      Store(emotionData, emotionIndex, emotionOblivion)
    }

    /** `get_expired_short_term_emotions` (tier "short", 7 days) and
        `get_expired_intermediate_emotions` (tier "intermediate", 90 days):
        for each document of the tier, the first history entry dated
        before the threshold adds the document and ends its scan; an entry
        whose date does not parse is skipped.  `connected` is false when
        the client or the `find` raises: the handler returns `[]`. */
    method GetExpiredEmotions(tier: string, days: int, now: int, parse: string -> Option<int>, connected: bool)
      returns (expired: seq<DataDoc>)
      ensures expired == if connected then ExpiredDocs(TierDocs(emotionData, tier), now - days * Day, parse) else []
    {
      if !connected {
        return [];
      }
      var threshold := now - days * Day;
      var docs := TierDocs(emotionData, tier);
      expired := [];
      for i := 0 to |docs|
        invariant expired == ExpiredDocs(docs[..i], threshold, parse)
      {
        assert docs[..i + 1][..i] == docs[..i];
        var hit := ScanHistory(docs[i], threshold, parse);
        if hit {
          expired := expired + [docs[i]];
        }
      }
      assert docs[..|docs|] == docs;
    }

    /** `save_oblivion_short_entries` and
        `save_oblivion_intermediate_entries`: one record per history entry
        of a tier document with a truthy date before the threshold,
        inserted only when there is at least one; `emotion_data` and
        `emotion_index` are only read.  `connected` is false when the
        client, the `find` or the `insert_many` raises: the handler logs
        and no record is stored. */
    method SaveOblivionEntries(tier: string, days: int, now: int, parse: string -> Option<int>, connected: bool)
      modifies this
      ensures emotionOblivion == old(emotionOblivion)
        + (if connected then AgedRecords(TierDocs(old(emotionData), tier), now - days * Day, parse) else [])
      ensures emotionData == old(emotionData) && emotionIndex == old(emotionIndex)
    {
      var threshold := now - days * Day;
      var docs := TierDocs(emotionData, tier);
      var entries: seq<OblivionRecord> := [];
      for i := 0 to |docs|
        invariant entries == AgedRecords(docs[..i], threshold, parse)
        invariant State() == old(State())
      {
        var records := CollectRecords(docs[i], threshold, parse);
        assert docs[..i + 1][..i] == docs[..i] && docs[..i + 1][i] == docs[i];
        assert AgedRecords(docs[..i + 1], threshold, parse) == entries + records;
        entries := entries + records;
      }
      assert docs[..|docs|] == docs;
      assert entries == AgedRecords(docs, threshold, parse);
      if !connected {
        return;
      }
      if entries != [] {
        emotionOblivion := emotionOblivion + entries;
      }
    }

    /** `run_short_oblivion_process` and
        `run_intermediate_oblivion_process`: the expired documents are
        only counted for the log, and the save step runs regardless. */
    method RunAgingProcess(tier: string, days: int, now: int, parse: string -> Option<int>, findOk: bool, saveOk: bool)
      modifies this
      ensures State() == if saveOk then AgeStage(old(State()), tier, days, now, parse) else old(State())
    {
      var expired := GetExpiredEmotions(tier, days, now, parse, findOk);
      SaveOblivionEntries(tier, days, now, parse, saveOk);
    }

    /** `remove_index_entries_by_date`: for each tagged record with a
        truthy date, every `emotion_index` document holding that date gets
        its `履歴` filtered; nothing happens without tagged records.  An
        exception at `fault` ends the stage, keeping the updates made. */
    method RemoveIndexEntriesByDate(fault: Option<IndexFault>)
      modifies this
      ensures emotionIndex == IndexRemoved(old(emotionIndex), Targets(old(emotionOblivion)), fault)
      ensures emotionData == old(emotionData) && emotionOblivion == old(emotionOblivion)
    {
      var targets := Targets(emotionOblivion);
      if targets == [] {
        return;
      }
      for t := 0 to |targets|
        invariant emotionIndex == IndexAfter(old(emotionIndex), DatesOf(targets[..t]))
        invariant fault.Some? ==> t <= fault.value.target
        invariant emotionData == old(emotionData) && emotionOblivion == old(emotionOblivion)
      {
        assert targets[..t + 1][..t] == targets[..t];
        var targetDate := targets[t].date;
        ghost var ds := DatesOf(targets[..t]);
        if Truthy(targetDate) {
          assert DatesOf(targets[..t + 1]) == ds + [targetDate];
          assert (ds + [targetDate])[..|ds|] == ds;
          var before := emotionIndex;
          for k := 0 to |before|
            invariant |emotionIndex| == |before|
            invariant forall m | 0 <= m < k :: emotionIndex[m] == StripIndexDoc(before[m], targetDate)
            invariant forall m | k <= m < |before| :: emotionIndex[m] == before[m]
            invariant fault.Some? && fault.value.target == t ==> k <= fault.value.doc
            invariant emotionData == old(emotionData) && emotionOblivion == old(emotionOblivion)
          {
            if fault == Some(IndexFault(t, k)) {
              assert emotionIndex == StripIndexPrefix(before, targetDate, k);
              return;
            }
            var doc := emotionIndex[k];
            if HasDate(doc.history, targetDate) {
              emotionIndex := emotionIndex[k := doc.(history := WithoutDate(doc.history, targetDate))];
            }
          }
          if fault.Some? && fault.value.target == t {
            assert emotionIndex == StripIndexPrefix(before, targetDate, fault.value.doc);
            return;
          }
          assert emotionIndex == StripIndexDocs(before, targetDate);
        } else {
          assert DatesOf(targets[..t + 1]) == ds;
          if fault.Some? && fault.value.target == t {
            return;
          }
        }
      }
      assert targets[..|targets|] == targets;
    }

    /** `remove_history_entries_by_date`: for each tagged record with a
        truthy date, the first `emotion_data` document holding it gets its
        `data.履歴` filtered; a date no document holds is skipped.  An
        exception while handling target `fault` ends the stage, keeping
        the updates for the targets before it. */
    method RemoveHistoryEntriesByDate(fault: Option<nat>)
      modifies this
      ensures emotionData == DataRemoved(old(emotionData), Targets(old(emotionOblivion)), fault)
      ensures emotionIndex == old(emotionIndex) && emotionOblivion == old(emotionOblivion)
    {
      var targets := Targets(emotionOblivion);
      if targets == [] {
        return;
      }
      for t := 0 to |targets|
        invariant emotionData == DataAfter(old(emotionData), DatesOf(targets[..t]))
        invariant fault.Some? ==> t <= fault.value
        invariant emotionIndex == old(emotionIndex) && emotionOblivion == old(emotionOblivion)
      {
        if fault == Some(t) {
          return;
        }
        assert targets[..t + 1][..t] == targets[..t];
        var date := targets[t].date;
        ghost var ds := DatesOf(targets[..t]);
        if Truthy(date) {
          assert DatesOf(targets[..t + 1]) == ds + [date];
          assert (ds + [date])[..|ds|] == ds;
          var found := FirstWithDate(emotionData, date, 0);
          if found.Some? {
            var i := found.value;
            emotionData := emotionData[i := emotionData[i].(history := WithoutDate(emotionData[i].history, date))];
          }
        } else {
          assert DatesOf(targets[..t + 1]) == ds;
        }
      }
      assert targets[..|targets|] == targets;
    }

    /** `run_index_and_data_removal_process`: the index first, then the data. */
    method RunIndexAndDataRemovalProcess(indexFault: Option<IndexFault>, dataFault: Option<nat>)
      modifies this
      ensures State() == RemovalStage(old(State()), indexFault, dataFault)
    {
      RemoveIndexEntriesByDate(indexFault);
      RemoveHistoryEntriesByDate(dataFault);
    }

    /** `delete_expired_oblivion_entries` (180 days, every record) and
        `delete_expired_short_oblivion_entries` (14 days, short-tagged
        records): the ids of expired records are collected, then deleted
        together when there are any.  `connected` is false when the
        client, the `find` or the `delete_many` raises: nothing is
        deleted. */
    method DeleteExpiredEntries(days: int, shortOnly: bool, now: int, parse: string -> Option<int>, connected: bool)
      modifies this
      ensures emotionOblivion == if connected then Kept(old(emotionOblivion), now - days * Day, shortOnly, parse) else old(emotionOblivion)
      ensures emotionData == old(emotionData) && emotionIndex == old(emotionIndex)
    {
      var threshold := now - days * Day;
      var recs := emotionOblivion;
      var expiredIds: set<nat> := {};
      for i := 0 to |recs|
        invariant forall k: nat :: k in expiredIds <==> k < i && Purged(recs[k], threshold, shortOnly, parse)
      {
        var r := recs[i];
        if Purged(r, threshold, shortOnly, parse) {
          expiredIds := expiredIds + {i};
        }
      }
      if !connected {
        return;
      }
      if expiredIds != {} {
        var kept: seq<OblivionRecord> := [];
        for k := 0 to |recs|
          invariant kept == Kept(recs[..k], threshold, shortOnly, parse)
        {
          assert recs[..k + 1][..k] == recs[..k];
          if k !in expiredIds {
            kept := kept + [recs[k]];
          }
        }
        assert recs[..|recs|] == recs;
        emotionOblivion := kept;
      } else {
        NothingPurged(recs, threshold, shortOnly, parse);
      }
    }

    /** `run_oblivion_cleanup_all`; `faults` says which stages raise. */
    method RunOblivionCleanupAll(now: int, parse: string -> Option<int>, faults: Faults)
      modifies this
      ensures State() == Sweep(old(State()), now, parse, faults)
    {
      RunAgingProcess("short", ShortDays, now, parse, faults.shortFindOk, faults.shortSaveOk);
      RunAgingProcess("intermediate", IntermediateDays, now, parse, faults.intermediateFindOk, faults.intermediateSaveOk);
      RunIndexAndDataRemovalProcess(faults.index, faults.data);
      DeleteExpiredEntries(PurgeDays, false, now, parse, faults.purgeOk);
      DeleteExpiredEntries(ShortPurgeDays, true, now, parse, faults.shortPurgeOk);
    }
  }
}
