# A verified model of the yumia emotion engine

yumia is a chat companion. Its state is a fixed vocabulary of 32 emotion
labels: Japanese names with English aliases. This project models the
engine's core in Dafny and proves what that core promises:

- **Affective-state dynamics.** An old emotion vector and a new one are merged
  in steps:
  - time decay by per-label half-life;
  - an adaptive blend rate;
  - the blend itself;
  - a per-call spike bound, with a cap for fast labels after a large jump;
  - a cross-inhibition table applied in its own order;
  - a pull toward the mean;
  - normalisation to 100.

  The 32 labels are also summarised into six axes scored 0..10
  (`EmotionStats`, `EmotionMerge`).
- **Memory tiers and stored documents.** A record's weight picks the short,
  intermediate or long tier. Records are annotated and written into
  `emotion_data`, with zero-filled 32-label composition rows for the index
  (`MemoryTier`, `IndexRows`, `Records`).
- **Retrieval.** Index rows are grouped by tier and filtered by shared
  keywords. A candidate must agree with the query on its strong labels
  (above 5) before it is scored. The best score in each tier wins, and a
  history lookup returns the first record with the asked date
  (`ResponseIndex`, `HistorySearch`).
- **The oblivion sweep.** Old short and intermediate history entries are
  copied to `emotion_oblivion`. Index and data histories are pruned by the
  dates of those records, and old oblivion records are purged. The three
  collections are fields of one class (`Oblivion.Collections`).
- **Aggregators.** Two "top long-term emotions" counters (`Personality`).
- **Expression mapping.** A composition is turned into Live2D model
  parameters with a weighted vote for motion and expression, and into
  VOICEVOX voice scales (`Expression`, `Live2d`, `Voice`).
- **Text helpers** (`LlmText`, `Sanitize`):
  - typographic-punctuation replacement;
  - reading an emotion summary written inside a reply;
  - cleaning and rendering the emotion data the language model returns;
  - removing the trailing JSON block from a reply before display.
- **Context selection.** The recent turns a reply is based on, with the
  language-model relatedness check as an oracle (`ContextSelector`).

These pieces are shared:

- `Dicts`: Python's insertion-ordered dict, as a key list plus a map.
- `Values`: JSON-shaped values and `float()`.
- `Text`: `strip`, `split`, `replace` and `int()`.
- `VectorMath`: clamping, exponential smoothing and round-half-even.
- `Ranking`: `max` with the first maximum kept, and the stable descending
  `sorted`.
- `Params`: the label tables and tuning constants.

Side effects become parameters. The clock is a `now` argument. Date
parsing, `float()` of a string, `0.5 ** x` and the relatedness oracle are
function parameters. Database collections are sequences held in classes.

## Model

| member | source | states |
|---|---|---|
| EmotionStats.NormalizeCompositionVector | module/emotion/emotion_stats.py:39-40 | Defined (no `float()` error) exactly when every label's value converts. The keys are then the 32 Japanese labels in table order, each holding its converted value, or 0 when absent. |
| EmotionStats.ApplyTimeDecay | module/emotion/emotion_stats.py:138-150 | The for-loop method computes the specification `TimeDecay` of the vector. |
| EmotionStats.TimeDecaySpec | module/emotion/emotion_stats.py:138-150 | `dt <= 0` returns the vector unchanged. Otherwise exactly the keys whose value `float()` accepts remain, in order. Each becomes a float `>= 0`, and no larger than its input when the input is non-negative. |
| EmotionStats.DecayUpToOrder | module/emotion/emotion_stats.py:141-149 | Decaying the first `n` entries keeps exactly the numeric keys among them, in the input's order. |
| EmotionStats.DecayFactorInRange | module/emotion/emotion_stats.py:147-148 | The per-label factor `0.5 ** (dt / max(1, hl))` lies in (0, 1] for `dt > 0`. |
| EmotionStats.DecayedInRange | module/emotion/emotion_stats.py:149 | `max(0, v * decay)` is non-negative and no larger than a non-negative `v`. |
| EmotionStats.BoundedDelta | module/emotion/emotion_stats.py:152-157 | The result lies between `prev` and `target`, within `[prev - 20, prev + 25]`, and equals `target` when the change fits those limits. |
| EmotionStats.AdaptiveAlpha | module/emotion/emotion_stats.py:159-163 | The blend rate always lies in [0.15, 0.45]. |
| EmotionStats.AlphaMonotone | module/emotion/emotion_stats.py:159-163 | A larger 怒り+驚き+恐れ sum never gives a smaller rate. |
| EmotionStats.InhibitedRange | module/emotion/emotion_stats.py:172 | One suppression step keeps a non-negative value in [0, v], and 0 stays 0. |
| EmotionStats.InhibitWith | module/emotion/emotion_stats.py:165-173 | The nested loops compute the fold `InhibitFrom` over the table in dict order. Later sources read values already suppressed by earlier ones. |
| EmotionStats.CrossInhibitCoefficients | module/emotion/emotion_stats.py:111-118 | Every coefficient of `CROSS_INHIBIT` is non-negative. |
| EmotionStats.InhibitSpec | module/emotion/emotion_stats.py:165-173 | The result is valid and extends the input's keys. A non-negative value stays in [0, its input]. A key that is no sink is unchanged. A new key is a sink holding 0, and it was named by a source whose value was positive when its turn came (after the earlier sources' suppressions). With no positive source, nothing changes. |
| EmotionStats.HomeostasisPull | module/emotion/emotion_stats.py:175-185 | The loop method computes the specification `Homeostasis`. |
| EmotionStats.HomeostasisShape | module/emotion/emotion_stats.py:177-185 | An empty vector is returned unchanged. Otherwise the keys and their order are kept. |
| EmotionStats.HomeostasisToward | module/emotion/emotion_stats.py:179-185 | On a non-negative vector, every value's distance to the mean shrinks by the factor 0.98, with its sign kept. |
| EmotionStats.HomeostasisTotal | module/emotion/emotion_stats.py:179-185 | On a non-negative vector the total is preserved exactly. |
| EmotionStats.NormalizeShape | module/emotion/emotion_stats.py:187-190 | Keys are kept. A non-positive positive-part total gives all zeros. |
| EmotionStats.NormalizeRange | module/emotion/emotion_stats.py:191 | Each share lies in [0, 100]. The stored value is that share rounded to 2 places, also in [0, 100]. |
| EmotionStats.NormalizeTotal | module/emotion/emotion_stats.py:188-191 | Before rounding, the shares sum to exactly 100. |
| EmotionMerge.CorrectKeySpec | module/emotion/emotion_stats.py:218 | A corrected key holds no `:`. Correcting twice equals correcting once. A key without `:` is unchanged. |
| EmotionMerge.CorrectTypes | module/emotion/emotion_stats.py:215-222 | The type-correction loop computes `CorrectNew`. |
| EmotionMerge.CorrectUpToSpec | module/emotion/emotion_stats.py:216-222 | Every key whose value converts reaches the result under its corrected name. Each result value comes from the last source key with that corrected name. |
| EmotionMerge.SecondsSince | module/emotion/emotion_stats.py:30-36 | Elapsed seconds are never negative. A missing or empty timestamp gives 0. A parsed past time gives `now - t`. |
| EmotionMerge.MergeAlpha | module/emotion/emotion_stats.py:229 | Without `weight_new` the rate is adaptive and within [0.15, 0.45]. Otherwise it is `float(weight_new)`, and a conversion error propagates. |
| EmotionMerge.UnionKeysSpec | module/emotion/emotion_stats.py:232 | The merged key list is duplicate-free, starts with the decayed keys, and holds exactly the keys of either vector. |
| EmotionMerge.LabelRateRange | module/emotion/emotion_stats.py:238-242 | The per-label rate stays in [0, 1]. It is raised for `FAST_DECAY` labels, lowered for `STICKY` ones, and left alone otherwise. |
| EmotionMerge.TargetRange | module/emotion/emotion_stats.py:243-244 | A blended target lies in [0, max(old, new)]. Rate 1, or equal old and new values, gives `max(0, new)`. |
| EmotionMerge.BlendTargets | module/emotion/emotion_stats.py:232-244 | The blend loop computes `BlendUpTo` over all keys. |
| EmotionMerge.BlendSpec | module/emotion/emotion_stats.py:232-244 | The blend fails exactly when some old value does not convert. Otherwise every key holds the blended target of its own old and new values. |
| EmotionMerge.SpikeScanSpec | module/emotion/emotion_stats.py:248 | `big_spike` is true exactly when some key's new value exceeds its decayed value by at least 35. |
| EmotionMerge.SpikeLimitedRange | module/emotion/emotion_stats.py:249-255 | Each merged value lies within `[prev - 20, prev + 25]`. After a big spike a `FAST_DECAY` label rises by at most 12.5. Non-negative inputs stay non-negative. |
| EmotionMerge.SpikeControl | module/emotion/emotion_stats.py:247-255 | The spike-control loop computes `SpikeUpTo`. |
| EmotionMerge.SpikeSpec | module/emotion/emotion_stats.py:247-255 | Spike control fails exactly when an old value does not convert. Otherwise every key holds its spike-limited value. |
| EmotionMerge.SpikeBounds | module/emotion/emotion_stats.py:247-255 | Every key stays in the bounded step of its decayed value. When any key jumps by 35 or more, 驚き/怒り/嫌悪 rise by at most `MAX_DELTA_UP * 0.5`. |
| EmotionMerge.SpikeStageFails | module/emotion/emotion_stats.py:215-255 | Steps 1-5 raise exactly when `float(weight_new)`, an old value's `float()` or the spike test's subtraction raises. |
| EmotionMerge.SpikeStageSpec | module/emotion/emotion_stats.py:215-255 | After steps 1-5, the keys are exactly those of either vector, each within `[prev - 20, prev + 25]` of its decayed value. After a big spike the fast labels rise by at most 12.5. |
| EmotionMerge.MergeEmotionVectors | module/emotion/emotion_stats.py:197-263 | The whole merge, type correction through normalisation, computes `MergeSpec`. |
| EmotionMerge.MergeSpecProperties | module/emotion/emotion_stats.py:257-263 | The merge fails exactly when steps 1-5 do. Otherwise the result is a valid vector holding every key of either input. With `normalize`, every value lies in [0, 100]. |
| EmotionMerge.AxisScoreRange | module/emotion/emotion_stats.py:288 | An axis score is an integer in 0..10 and is monotone in its weighted sum. |
| EmotionMerge.SummarizeFeelingSpec | module/emotion/emotion_stats.py:269-293 | The summary has exactly the keys 喜び/怒り/悲しみ/楽しさ/自信/困惑, in that order. Each holds the score of its weighted sum, in 0..10. |
| Params.NamesDistinct | module/params.py:42-51 | `emotion_map` has 32 distinct English keys and 32 distinct Japanese values. |
| Params.EmotionMapValues | module/params.py:42-51 | The Japanese values are pairwise distinct and, in order, are the label list. |
| Params.ReverseKeys | module/params.py:55 | `emotion_map_reverse` has exactly the 32 Japanese labels as keys. |
| Params.ReverseUndoes | module/params.py:42-55 | The reverse map undoes `emotion_map` on every English key. |
| Params.ReverseUndone | module/params.py:42-55 | `emotion_map` undoes the reverse map on every Japanese key. |
| Params.LabelMembership | module/params.py:42-55 | Every key of the forward map is an English label, and every key of the reverse map a Japanese label. |
| Params.VoicevoxKeys | module/params.py:61-94 | `voicevox_emotion_map` has exactly the keys of `emotion_map`, in the same order. |
| Params.Live2dPresetsInRange | module/params.py:100-133 | Every Live2D preset has its mouth, eye and brow weights in [0, 1] and BodyAngleX in [-10, 10]. |
| Params.Live2dTable | module/params.py:100-133 | `live2d_emotion_map` has exactly the keys of `emotion_map`, and every preset's weights are in range. |
| Params.ClipRangesOrdered | module/params.py:22-27 | Every `VOICEVOX_CLIP` range has its lower end strictly below its upper end. |
| Params.TopNPositive | module/params.py:12-18 | The top-N constants are 5 (VOICEVOX) and 4 (Live2D), and the ratio threshold is 10. |
| MemoryTier.GetMemoryCategory | module/memory/divide_emotion.py:27-33 | The tier is long exactly when weight ≥ 95, intermediate exactly when 80 ≤ weight < 95, and short exactly when weight < 80. |
| MemoryTier.TierMonotone | module/memory/divide_emotion.py:27-33 | A larger weight never maps to a shorter tier. |
| MemoryTier.AnnotateSpec | module/memory/divide_emotion.py:48-50 | The annotation sets category, timestamp and データ種別="emotion". Every other key keeps its value, and the existing keys keep their order. |
| MemoryTier.DivideAndStore | module/memory/divide_emotion.py:36-57 | A weight that cannot be compared, or a list or dict as 主感情 (unhashable in the `EMOTION_MAP` lookup of line 45), leaves everything untouched and returns "". Otherwise the caller's dict is annotated in place. A successful insert appends one `{"data": …}` document and returns `mongo_id:<id>`; a failed one returns "". |
| MemoryTier.TruncatedTierAgrees | module/emotion/main_emotion.py:70-76 | Truncating the weight to an int picks the same tier as the real weight: 94.9 stays intermediate and 79.9 stays short. |
| MemoryTier.DecideAsWritten | module/emotion/main_emotion.py:3-66 | With the names the file binds at lines 3-11, reading `emotion_map_reverse` at line 63 raises, so no record is ever decided. |
| MemoryTier.DecideSpec | module/emotion/main_emotion.py:62-76 | A main emotion without a translation decides nothing. A decision carries the non-empty English name and the tier of `int(重み)`. |
| MemoryTier.DecideFloatWeight | module/emotion/main_emotion.py:70-76 | For a float weight, the tier decided is that of the real weight. |
| MemoryTier.NameErrorLosesWrites | module/emotion/main_emotion.py:11-63 | A record with 主感情 喜び is decided as ("Joy", short) once the reverse map is in reach, but is never decided as written. |
| MemoryTier.WriteStructuredEmotionData | module/emotion/main_emotion.py:50-104 | With `emotion_map_reverse` imported: no connection, no translation or a failed insert writes nothing. Otherwise one document is appended (emotion, category, a copy of data, and 履歴 holding one copy). An index row follows only when data has a date and the index call's own client and insert succeed; its failure leaves the data document in place. |
| MemoryTier.WriteStructuredEmotionDataIn | module/emotion/main_emotion.py:1-104 | The same writes, with the module's global names as a parameter: with `emotion_map_reverse` unbound, nothing is decided and nothing is written. |
| MemoryTier.WriteStructuredEmotionDataAsWritten | module/emotion/main_emotion.py:1-104 | As written (the imports of lines 3-11), neither the data collection nor the index is ever written, whatever the connection, data and inserts. |
| IndexRows.ZeroFilled | module/emotion/index_emotion.py:30-33 | The composition row has exactly the given keys in order. Each holds the given value, or 0 when absent; other keys are dropped. |
| IndexRows.EmotionOrderSpec | module/emotion/index_emotion.py:14 | `emotion_order` lists all 32 Japanese labels once each, strictly ordered by their English names. |
| IndexRows.IndexDocumentSpec | module/emotion/index_emotion.py:30-48 | No row is built without "date" or when 構成比 is not a dict. A row copies the date, sets 主感情 and emotion to `emotion_en`, takes category as passed and キーワード as keywords or [], and has a zero-filled composition in `emotion_order`. |
| IndexRows.IndexStore.SaveIndexData | module/emotion/index_emotion.py:18-54 | Without a client (:20-23) or with a failed `insert_one` (:50, caught at :53), the rows stay unchanged. Otherwise they grow by exactly the row built for the data, or stay unchanged when none is built. |
| IndexRows.MemoryKeysAreLabels | module/memory/index_emotion.py:44 | `EMOTION_KEYS` is the 32-label list, in order and without duplicates. |
| IndexRows.NormalizeEmotionVector | module/memory/index_emotion.py:51-52 | The vector has exactly the 32 `EMOTION_KEYS` in order, each the input value or 0. Unknown keys are dropped. |
| IndexRows.IndexEntrySpec | module/memory/index_emotion.py:56-62 | The entry exists exactly when 構成比 is a dict. It defaults date to now, 主感情 to "Unknown" and キーワード to [], and sets 保存先 to the memory path. |
| IndexRows.IndexFile.UpdateEmotionIndex | module/memory/index_emotion.py:55-70 | A composition that is not a dict raises AttributeError, and a missing directory raises FileNotFoundError, both before writing. Otherwise exactly one line is appended. |
| ResponseIndex.TranslateEmotion | module/response/response_index.py:37-38 | A known English name becomes a Japanese label. Any other string passes through unchanged. |
| ResponseIndex.TranslateReversible | module/response/response_index.py:37-38 | The reverse map turns a translated name back into the English name. |
| ResponseIndex.NormalizeCompositionVector | module/response/response_index.py:43-44 | The keys are exactly the 32 `emotion_map` values in order, each the input value or 0. |
| ResponseIndex.CategoriesPartition | module/response/response_index.py:75-78 | Each row lands in the list of its own category when that is long, intermediate or short, and is dropped otherwise; order is kept. |
| ResponseIndex.LoadAndCategorizeIndex | module/response/response_index.py:70-84 | It raises exactly when some row's category is a list or dict (`category in categorized`, :77). Otherwise the result has exactly the keys long, intermediate and short, each holding that category's rows in their original order. |
| ResponseIndex.FilterMembers | module/response/response_index.py:89-93 | The comprehension raises exactly when a row's キーワード is not something `set` accepts (`None`, a number, a list holding a list or dict), or when there is a row and the input keywords are not. Otherwise a row is kept exactly when `set` of its キーワード shares an element with the input keywords; a string counts as its characters. |
| ResponseIndex.FilterNoKeywords | module/response/response_index.py:89-93 | Empty input keywords keep no row; the filter still raises when a row's own キーワード makes `set` raise. |
| ResponseIndex.CalculateCompositionScore | module/response/response_index.py:105-111 | The score loop computes the mean of `100 - |diff|` over the shared keys, or 0 when none are shared. |
| ResponseIndex.ScoreAtMost100 | module/response/response_index.py:105-111 | A score never exceeds 100. |
| ResponseIndex.ScoreNoneShared | module/response/response_index.py:111 | Compositions without a shared key score 0. |
| ResponseIndex.ScoreIdentical | module/response/response_index.py:105-111 | A non-empty composition scores exactly 100 against itself. |
| ResponseIndex.IsValidCandidate | module/response/response_index.py:115-137 | The counting loop decides the gate `ValidCandidate`. A query or candidate composition that is not a dict is rejected, as the `AttributeError` path does. |
| ResponseIndex.ValidCandidateIff | module/response/response_index.py:121-137 | A candidate is valid exactly when the count of query labels above 5 that are also above 5 in the candidate and within 30 is at least max(#strong − 1, 1). |
| ResponseIndex.NoStrongQueryInvalid | module/response/response_index.py:127-137 | A query with no label above 5 accepts no candidate. |
| ResponseIndex.NoSharedStrongInvalid | module/response/response_index.py:127-137 | A candidate sharing no strong label with the query is never valid. |
| ResponseIndex.BestMatchSpec | module/response/response_index.py:139-157 | The result is None exactly when no candidate is valid. Otherwise it is a valid candidate with the maximal score. |
| ResponseIndex.BestMatchEarliest | module/response/response_index.py:150 | On ties the earliest valid candidate with the maximal score is returned. |
| ResponseIndex.FindBestMatchByComposition | module/response/response_index.py:98-157 | It raises exactly when some candidate has no 構成比 key (`c["構成比"]`, a `KeyError`), or when the best match's emotion is a list or dict (`emotion_map.get` in `translate_emotion`, :154). Otherwise it returns `BestMatch`. |
| ResponseIndex.SearchIndexResponse | module/response/response_index.py:13-32 | The search raises exactly when a row's category is unhashable or some tier's filter or best-match step raises, since nothing catches either. Otherwise a category key is present exactly when that category produced a match, and it holds that match. |
| ResponseIndex.TierRaises | module/response/response_index.py:26-28 | A tier raises exactly when one of its rows has キーワード that `set` rejects, when it has rows and the query keywords are rejected, when a row sharing a keyword with the query lacks 構成比, or when the best match among those rows has an unhashable emotion. |
| ResponseIndex.SearchResultSound | module/response/response_index.py:13-32 | Every returned row comes from the index, belongs to its category, has a composition, shares a keyword, passes the gate and has a hashable emotion. |
| HistorySearch.DatedFrom | module/response/response_short.py:38-41 | The inner loop returns the first record with the target date, or None when there is none. |
| HistorySearch.HitFrom | module/response/response_short.py:35-41 | The outer loop returns the first hit in document-then-history order, or None when there is no hit. |
| HistorySearch.SearchHistorySpec | module/response/response_short.py:30-44 | The result is None exactly when no matching document has a record with that date. Otherwise the returned record has the date, comes from a document matching emotion and category, and nothing earlier hits. The same body serves response_intermediate.py:27-39 and response_long.py:27-40. |
| Oblivion.ExpiredDocsSpec | module/oblivion/oblivion_short.py:19-31 | Exactly the tier's documents with some history date strictly before the threshold are returned, each at most once, in order. The intermediate stage (oblivion_intermediate.py:18-30) is the same function with the 90-day threshold. |
| Oblivion.DocRecordsSpec | module/oblivion/oblivion_short.py:58-75 | One record is made per expired history entry, not per document. Every record comes from such an entry. The same holds for the intermediate stage (oblivion_intermediate.py:57-74). |
| Oblivion.AgedRecordsShape | module/oblivion/oblivion_short.py:60-74 | Every aged record has no category, a present date that parses before the threshold, and a source id of some document. The same holds for intermediate records (oblivion_intermediate.py:59-73). |
| Oblivion.WithoutDateSpec | module/oblivion/oblivion_index.py:38 | The pruned history keeps exactly the entries with a different date, in order, and is unchanged when no entry has the date. |
| Oblivion.WithoutDateIdempotent | module/oblivion/oblivion_index.py:38 | Filtering a history twice by the same date equals filtering it once. |
| Oblivion.StripIndexDocsAll | module/oblivion/oblivion_index.py:34-43 | Every index document has its 履歴 filtered by the date; nothing else changes. |
| Oblivion.IndexAfterFree | module/oblivion/oblivion_index.py:28-43 | After index removal, no index history holds any of the target dates. |
| Oblivion.IndexAfterIdempotent | module/oblivion/oblivion_index.py:28-43 | Running index removal twice with the same dates equals running it once. |
| Oblivion.StripFirstSpec | module/oblivion/oblivion_index.py:84-96 | Only the first data document holding the date has its history filtered. With none, nothing changes. |
| Oblivion.IndexAfterDocs | module/oblivion/oblivion_index.py:28-43 | The index removal for a list of dates drops exactly the entries with those dates from every document's 履歴 and changes nothing else. |
| Oblivion.IndexRemovedDocs | module/oblivion/oblivion_index.py:28-52 | After an index removal that raised, each document has lost the entries of a prefix of the target dates: those handled before the exception. |
| Oblivion.IndexRemovalRerun | module/oblivion/oblivion_index.py:6-52 | Running the index removal again after it raised ends in the same `emotion_index` as one uninterrupted run. |
| Oblivion.DataRemovalResume | module/oblivion/oblivion_index.py:78-105 | After the data removal raised at a target, handling the targets from that one on ends in the same `emotion_data` as one uninterrupted run. |
| Oblivion.KeptSpec | module/oblivion/oblivion_purge.py:15-32 | A purge keeps exactly the records that do not expire, in order; with nothing expired the collection is unchanged. A record expires when its date is present, parses and lies strictly before the threshold (and, for the 14-day purge, its category is short). Records without a date or with an unparsable one are kept. |
| Oblivion.KeptIdempotent | module/oblivion/oblivion_purge.py:19-32 | For a fixed `now`, purging twice equals purging once. |
| Oblivion.NoTargets | module/oblivion/oblivion_index.py:18-24 | With no short or intermediate oblivion record, there are no target dates. |
| Oblivion.SweepKeepsMemories | module/oblivion/oblivion_module.py:37-45 | When no oblivion record carries category short or intermediate, the sweep leaves `emotion_data` and `emotion_index` untouched, whichever stages fail. This always holds for the records the aging stages write. |
| Oblivion.AgedFromTier | module/oblivion/oblivion_short.py:55-75 | Every aged record's source is a document of the aged tier. |
| Oblivion.SweepNeverCopiesLong | module/oblivion/oblivion_module.py:37-39 | The two aging stages only append records, and every record appended has a short or intermediate source document, never a long one. |
| Oblivion.ShortPurgeKeepsUntagged | module/oblivion/oblivion_purge.py:51 | The 14-day purge never deletes a record without a category. |
| Oblivion.Collections.GetExpiredEmotions | module/oblivion/oblivion_short.py:9-40 | Connected, the loop with `break` returns `ExpiredDocs` of the tier's documents for the `now - days` threshold. When the client or a query raises, the handler's `[]` is returned. Called with tier intermediate and 90 days it models oblivion_intermediate.py:8-39. |
| Oblivion.Collections.SaveOblivionEntries | module/oblivion/oblivion_short.py:43-86 | Connected, `emotion_oblivion` grows by exactly the aged records of the tier, in order. When the client, the query or `insert_many` raises, it is unchanged, even if records were already gathered. `emotion_data` and `emotion_index` are unchanged either way. Called with tier intermediate and 90 days it models oblivion_intermediate.py:42-85. |
| Oblivion.Collections.RunAgingProcess | module/oblivion/oblivion_module.py:12-25 | One aging stage: the save step runs whatever the expired count, and only the save step's failure decides whether the store changes. |
| Oblivion.Collections.RemoveIndexEntriesByDate | module/oblivion/oblivion_index.py:6-52 | `emotion_index` becomes `IndexRemoved`. Without a fault that is `IndexAfter` of the target dates of the short/intermediate records, skipping records without a date. An exception stops the stage: the updates for earlier targets, and for the documents already handled for the current one, are kept. The other collections are unchanged. |
| Oblivion.Collections.RemoveHistoryEntriesByDate | module/oblivion/oblivion_index.py:56-105 | `emotion_data` becomes `DataRemoved`: `DataAfter` of the dates of the targets handled before an exception (all of them without one). Per date, the first document holding it is filtered. The other collections are unchanged. |
| Oblivion.Collections.RunIndexAndDataRemovalProcess | module/oblivion/oblivion_module.py:29-33 | Index removal runs first, then data removal. A failure in the first does not stop the second. |
| Oblivion.Collections.DeleteExpiredEntries | module/oblivion/oblivion_purge.py:9-71 | Connected, `emotion_oblivion` becomes `Kept` for the `now - days` threshold, over all records or short ones only. When the client, the query or `delete_many` raises, nothing is deleted. The other collections are unchanged. |
| Oblivion.Collections.RunOblivionCleanupAll | module/oblivion/oblivion_module.py:37-45 | The state after the sweep is `Sweep` of the old one under the given stage failures, in this order: short aging, intermediate aging, index and data removal, the 180-day purge, the 14-day short purge. Each stage catches its own exception, so the later stages still run. |
| Personality.CountedSpec | module/emotion/basic_personality.py:36-42 | The counter holds exactly the keys seen, in first-seen order, each with its total weight. |
| Personality.CountedTotal | module/emotion/basic_personality.py:45 | The counts sum to the total weight of all pairs. |
| Personality.Lookup | module/emotion/basic_personality.py:49 | A name missing from the table passes through unchanged; otherwise it maps to the first entry with it. |
| Personality.GetTopLongEmotions | module/emotion/basic_personality.py:23-56 | The result is `TopLong` of the documents, or [] without a connection. |
| Personality.TopLongSpec | module/emotion/basic_personality.py:36-49 | It holds at most 4 pairs with non-increasing counts, every count at least 1, and a total at most the number of long documents. Each pair is a taken English name, translated, with the number of long documents carrying it. No non-blank name left out occurs in more long documents than any name taken. The sort keeps the first-seen order among equal counts. |
| Personality.NamePairsCount | module/emotion/basic_personality.py:36-42 | The counter's weight of a non-blank name is the number of documents with that stripped emotion; a blank name weighs 0. |
| Personality.MostCommonCounts | module/emotion/basic_personality.py:45 | `most_common(4)` takes keys with their counts, and a key left out counts no more than any key taken. |
| Personality.HistoryPairsSpec | module/memory/emotion_stats.py:10-19 | The loop raises exactly when some document's emotion is not a string. Otherwise every document's key is present, and each key's weight is the sum of history lengths over its documents. |
| Personality.HistoryCounts | module/memory/emotion_stats.py:1-29 | With the three missing imports supplied, the loop builds `Counted` of the "category/emotion" pairs of the long index documents. When the scan raises, or without a connection, it returns {}. |
| Personality.HistoryCountsAsWritten | module/memory/emotion_stats.py:1-29 | As written, the file binds none of `get_mongo_client`, `Counter` and `logger`, so every call ends with a `NameError` for `logger` escaping from the handler at line 28. |
| Personality.ImportsRestoreCounts | module/memory/emotion_stats.py:1-29 | Once the three names are in scope, the function never raises and returns the counter of `HistoryCounts`. |
| Personality.ImportGapLosesCounts | module/memory/emotion_stats.py:3-28 | One long document with emotion Joy and one history entry counts {"long/Joy": 1} with the imports, and raises as written. |
| Personality.HistoryCountsSpec | module/memory/emotion_stats.py:10-19 | Every long document's key is in the counter, even with an empty history, and each count is the sum of history lengths for that key. |
| Expression.EnKeysUpToSpec | module/live2d/live2d_processing.py:21-34 | An English key is present exactly when some composition key is a known English key or translates to it. Its value comes from the last such key. |
| Expression.ToEnKeys | module/live2d/live2d_processing.py:21-34 | The loop computes `EnKeys`. The same body lives in module/voice/voice_processing.py:28-37. |
| Expression.EnKeysKnown | module/voice/voice_processing.py:28-37 | With a closed table, every key of the result has a preset. The result is empty exactly when no key is English or Japanese. |
| Expression.TopItemsSpec | module/live2d/live2d_processing.py:89 | At most max(1, topn) items, at least one for non-empty input, non-increasing weights, drawn from the input. Every item left out weighs no more than every item taken. |
| Expression.Subtotal | module/live2d/live2d_processing.py:90 | The divisor is never 0: a zero sum is replaced by 1. |
| Expression.Smooth | module/live2d/live2d_processing.py:134-136 | The smoothing loop computes `Smoothed`. |
| Expression.SmoothedSpec | module/live2d/live2d_processing.py:134-136 | Keys are kept. A key missing from `prev` is only re-rounded. For alpha in [0, 1], each value lies between the rounded previous and current values. |
| Expression.SmoothedWithin | module/voice/voice_processing.py:110-113 | With 0 ≤ alpha ≤ 1, smoothing a value of a range [lo, hi] toward a previous value in that range stays in it. This holds when `round(x, 3)` leaves lo and hi unchanged, as it does for the fractional VOICEVOX bounds and the integer Live2D bounds. |
| Live2d.AboveSpec | module/live2d/live2d_processing.py:82 | The threshold filter keeps exactly the items at or above `min_ratio`, in order. |
| Live2d.FilteredSpec | module/live2d/live2d_processing.py:82-84 | When some item meets the threshold, only those are kept. When none does, all items are used. |
| Live2d.SelectedSpec | module/live2d/live2d_processing.py:80-89 | Between 1 and max(1, topn) of the filtered items are selected, heaviest first. None left out outweighs one taken. |
| Live2d.TallySpec | module/live2d/live2d_processing.py:114-116 | The votes hold exactly the motions (or expressions) of the selected presets, with neutral for a missing preset. |
| Live2d.WinnerSpec | module/live2d/live2d_processing.py:139-140 | The winner has the maximal vote and is the first such in insertion order. |
| Live2d.RawInRange | module/live2d/live2d_processing.py:119-131 | The five clipped, rounded parameters lie in [0, 1], [0, 1], [0, 1], [-1, 1] and [-10, 10]. |
| Live2d.BlendItems | module/live2d/live2d_processing.py:98-116 | The blend loop computes the weighted sums and both vote tallies. |
| Live2d.GenerateLive2d | module/live2d/live2d_processing.py:37-146 | The method computes `Live2dOf`. |
| Live2d.NeutralSpec | module/live2d/live2d_processing.py:62-77 | The output is Idle_Neutral/Neutral with no parameters exactly when the input is empty or has no known key. Otherwise all five parameters are present. |
| Live2d.RangesSpec | module/live2d/live2d_processing.py:119-136 | Without previous parameters, or when they and alpha are in range, every parameter lies in its range. |
| Live2d.SmoothingSpec | module/live2d/live2d_processing.py:134-136 | Previous parameters change only the parameters, each to `round(alpha*cur + (1 - alpha)*prev, 3)`. |
| Live2d.VoteWinnerSpec | module/live2d/live2d_processing.py:114-140 | The chosen motion and expression have the maximal accumulated ratio among the selected presets. |
| Live2d.TablesClosed | module/params.py:55 | Every translation of a Japanese label has a Live2D preset. |
| Live2d.KnownPresets | module/live2d/live2d_processing.py:98-102 | With the shipped tables, every selected emotion has a preset, so the neutral fallback is never used. |
| Voice.MixSkips | module/voice/voice_processing.py:85-87 | Emotions without a preset contribute nothing to the blend. |
| Voice.ClippedInClip | module/voice/voice_processing.py:95-108 | Every computed scale lies within its `VOICEVOX_CLIP` range. |
| Voice.NeutralInClip | module/voice/voice_processing.py:50-58 | The neutral settings are pitch 0 and speed, intonation and volume 1, all inside their clip ranges. |
| Voice.MixItems | module/voice/voice_processing.py:83-92 | The blend loop computes `Mix`. |
| Voice.GenerateVoicevoxSettings | module/voice/voice_processing.py:40-115 | The method computes `VoiceOf`. |
| Voice.SettingsSpec | module/voice/voice_processing.py:49-113 | In every branch, speaker is `speaker_id` and pre/postPhonemeLength are 0.1. Without previous settings, the four scales lie in their clip ranges. |
| Voice.NeutralSpec | module/voice/voice_processing.py:48-75 | A total ≤ 0 gives the neutral scales, smoothed toward previous settings when given. No recognised key gives the neutral settings unsmoothed. |
| Voice.ClipBoundsRounded | module/params.py:22-27 | Every `VOICEVOX_CLIP` bound is its own `round(x, 3)`. |
| Voice.SmoothingKeepsClip | module/voice/voice_processing.py:110-113 | Smoothing scales inside their clip ranges toward previous settings inside them, with 0 ≤ alpha ≤ 1, keeps every scale inside its range. |
| Voice.SmoothedInClip | module/voice/voice_processing.py:100-113 | With 0 ≤ alpha ≤ 1 and previous settings inside the clip ranges, every generated scale lies in its clip range, in every branch. |
| Voice.SmoothingSpec | module/voice/voice_processing.py:110-113 | Previous settings set each scale to `round(alpha*cur + (1 - alpha)*prev, 3)`, except in the unrecognised-keys branch. |
| Voice.ContributorsSpec | module/voice/voice_processing.py:78-92 | Between 1 and max(1, topn) emotions are selected, heaviest first, and those without a preset are skipped. |
| Voice.TablesClosed | module/params.py:55-94 | Every translation of a Japanese label has a VOICEVOX preset. |
| Voice.NoneSkipped | module/voice/voice_processing.py:84-87 | With the shipped tables, no selected emotion is skipped. |
| LlmText.NormalizeJsonTextSpec | llm_client.py:77-82 | Length is preserved, each character maps to its ASCII counterpart independently, and no typographic quote, colon, comma or corner bracket remains. |
| LlmText.NormalizeJsonTextIdempotent | llm_client.py:77-82 | Normalising twice equals normalising once. |
| LlmText.SearchFromSpec | llm_client.py:57-58 | The search finds the leftmost position where `（感情\s+([^\n)]+)）` matches, with the group a backtracking matcher reports. None means no position matches. |
| LlmText.ParseEmotionSummaryFromText | llm_client.py:56-75 | The loop with `continue` over the parts computes `EmotionSummaryOf`. |
| LlmText.FillSpec | llm_client.py:63-72 | A name is in the result exactly when some kept entry names it, and it holds the value of the last such entry. |
| LlmText.PartEntrySpec | llm_client.py:62-72 | A kept part has exactly one `:`, a non-empty stripped allowed name, and a value that is the integer of the rest without `%`. |
| LlmText.EmotionSummarySpec | llm_client.py:56-75 | Without a `（感情 …）` segment the result is {}. Otherwise the result is valid, and all its keys are allowed labels. |
| LlmText.NumAdd | llm_client.py:35 | `a + b` on numbers is again a number and its value is the sum. Two ints or bools give an int. |
| LlmText.NormalizedUpToSpec | llm_client.py:31-35 | Each label present is allowed, is a number, and holds the sum of every numeric value whose key maps to it. |
| LlmText.NormalizedUpToKeys | llm_client.py:31-35 | A label is present exactly when some numeric value maps to it. |
| LlmText.SumAliases | llm_client.py:29-35 | The loop computes the normalised composition. |
| LlmText.NormalizeEmotionData | llm_client.py:28-43 | The caller's dict is updated in place. The call raises exactly when 構成比 is present but not a dict, and then nothing changes. |
| LlmText.NormalizedFrame | llm_client.py:28-43 | Raising happens exactly when 構成比 is not a dict. Otherwise 構成比 and 主感情 are both set and every other key is unchanged. |
| LlmText.NormalizedMain | llm_client.py:36-39 | With a non-empty result, 構成比 is the normalised dict. 主感情 is a key of maximal value, the first on ties. |
| LlmText.NormalizedEmpty | llm_client.py:40-42 | With an empty result, 構成比 is {}. 主感情 keeps a truthy old value, else becomes 未定義. |
| LlmText.NumericEntriesSpec | llm_client.py:52 | The filtered entries are exactly the numeric ones, in key order. |
| LlmText.RenderedSpec | llm_client.py:53 | One `k:v%` item per numeric entry, joined by ", ". |
| LlmText.ExtractSpec | llm_client.py:45-54 | Empty data or a composition that is not a dict gives `（主感情: X）`. Otherwise the result is `（主感情: X｜構成比: …）` over the rendered numeric entries. |
| Sanitize.BlockBounds | main.py:39-41 | There is a `{` followed later by a `}` exactly when the first `{` lies before the last `}`. |
| Sanitize.SanitizeSpec | main.py:38-43 | Without `{…}` the text is only stripped. Otherwise exactly the span from the first `{` to the last `}` is removed, then the rest stripped. The result holds no `{` followed by `}`, a second pass changes nothing, and it is never longer. |
| ContextSelector.SelectContextualHistory | module/context/context_selector.py:41-69 | The backward while loop computes `Contextual`. |
| ContextSelector.StartSpec | module/context/context_selector.py:50-66 | The walk stops within the length bound, at the bound when it is reached, at a position whose admitted turns are all recent or related, and only where it may stop. |
| ContextSelector.ContextualSpec | module/context/context_selector.py:41-69 | An empty history gives [], and only it does. Otherwise the result is a suffix ending with the latest turn, at most max(1, max_turns) long. Every admitted older turn was judged related, and the walk stopped only at the start, at the bound, or at an unrelated old turn. |
| ContextSelector.RecentTaken | module/context/context_selector.py:49-66 | Turns no older than five minutes before the latest are taken without consulting the oracle. When the last n turns within the bound are that recent, all of them are selected. |
| Text.StripShape | main.py:42-43 | `strip()` removes a whitespace prefix and suffix only, and the result starts and ends with a non-space. |
| Text.StripIdempotent | main.py:43 | Stripping twice equals stripping once. |
| Text.SplitJoin | llm_client.py:62 | `split` gives one more piece than there are separators, none of which contains the separator, and joining them restores the text. |
| Text.ParseShowInt | llm_client.py:70 | `int()` reads back the decimal text of every integer. |
| VectorMath.Clip | module/live2d/live2d_processing.py:13-14 | `_clip` stays in [lo, hi] and is the identity inside it. |
| VectorMath.EmaBetween | module/live2d/live2d_processing.py:17-18 | `_ema` with alpha in [0, 1] lies between prev and cur. Alpha 1 gives cur, and equal inputs are fixed. |
| VectorMath.RoundPlacesKeeps | module/voice/voice_processing.py:113 | Rounding to p places keeps a value within bounds that the same rounding leaves unchanged. |
| VectorMath.RoundPlacesWithin | module/live2d/live2d_processing.py:126-130 | Rounding to p places keeps a value within integer bounds it already lies in. |
| Ranking.FirstMaxIndex | module/response/response_index.py:150 | `max(…, key=…)` returns a maximal element, and every earlier element is strictly smaller. |
| Ranking.SortDescSpec | module/live2d/live2d_processing.py:89 | `sorted(…, reverse=True)` is non-increasing, a permutation of its input, and stable among equal keys. |

## Left out

- Storage and I/O: MongoDB clients, `find`/`insert`/`update`/`delete`, the JSONL file, `os.path.isdir` and logging are replaced by in-memory sequences in classes, or by parameters (`connected`, `insertOk`, `dirExists`, `insertedId`, and the fault positions of the oblivion removals). Exceptions from the database itself are those parameters.
- The clock and date parsing: `datetime.now` is a `now` argument. `strptime`/`fromisoformat` are a `parse` function parameter returning seconds, so their leniency and time zones are not modelled.
- `0.5 ** (dt / hl)` is a function parameter whose values lie in (0, 1]. Floating-point arithmetic is modelled on exact reals. `round` is round-half-even on exact reals, not on binary floats.
- `float()` of a string is a parameter `floatOf`. Python's `str()` of a float, used when composition values are rendered, is a parameter `showFloat`. `str()` of other values is `show`.
- Text.ParseInt: accepts ASCII decimal digits with an optional sign only. Python's `int()` also accepts Unicode digits, underscores and surrounding whitespace inside the numeral.
- EmotionMerge.MergeEmotionVectors: Python set iteration order of the merged keys is unspecified. The model lists the decayed keys first, then the new ones. `decay_factor` is accepted and unused, as in the source.
- EmotionMerge: `REFRACTORY_SEC` is declared but never read by the code, so it is not modelled.
- Values: equality of JSON values is structural. Python's `1 == 1.0 == True` across numeric types is not modelled.
- `EMOTION_MAP` of llm_client.py is read from a JSON file that is not part of this model, so it is a parameter (`aliases`).
- `is_contextually_related` calls the language model; it is an oracle parameter `related`. Each `datetime.now()` fallback of `parse_timestamp` is the same `now`.
- Regular expressions are modelled only for the two patterns the core uses (`（感情\s+([^\n)]+)）` and DOTALL `({.*})`), not Python's `re` engine.
- Live2d.GenerateLive2d: the constant `loop: true` and `priority: "normal"` fields of the motion are left out of the output datatype.
- Voice.GenerateVoicevoxSettings: `VOICEVOX_DEFAULT_SPEAKER` is absent from the parameter module, so the fallback 3 applies to the default argument. The model takes `speaker_id` explicitly.
- Expression.Smooth: previous values are reals. A non-numeric value in `prev_params` (a `TypeError` in Python) is not modelled.
- ResponseIndex: composition values are reals. A non-numeric value raising in `abs(…)` or `v > 5` is not modelled.
- Oblivion.Collections: each stage's `except` branch is a parameter, `connected` for the aging and purge stages and a fault position for the two removals. The documents are typed records, so a malformed document stands for a failing stage rather than being its own input. Only the effect of an exception on the collections is modelled, not its kind or the log line.
- Oblivion.Collections.SaveOblivionEntries: a failing `insert_many` is taken to store nothing. MongoDB's ordered insert would keep the documents before the one that failed.
- Oblivion.Collections.RemoveHistoryEntriesByDate: an `update_one` that raises is taken not to have applied its update.
- HistorySearch.SearchHistorySpec: documents are typed records, so response_long.py's `except` branch, which catches errors of malformed documents, has no counterpart.
- The OpenAI client and the `generate_*` functions, the FastAPI handlers of main.py, the background thread, VOICEVOX HTTP synthesis, the file/OCR/image handlers and the NRCLex/MeCab local analyser are foreign calls or I/O.
- `save_response_to_memory` and JSON extraction rely on `json.loads`, a foreign parser.
- The SQL modules, one-off migration scripts, file indexing, and response orchestration (`main_response.py`, `response_loader.py`) hold no core logic.
- The test files' expectations target functions the repository does not define, so they are not used as properties.

## Findings

| source | as written | input that shows it | evidently intended | confidence | as-written member | corrected member |
|---|---|---|---|---|---|---|
| module/emotion/main_emotion.py:63 | `emotion_map_reverse` is read but never imported (line 11 imports `emotion_map` only). The `NameError` is caught at line 103, so no record is ever stored or indexed. | `{"主感情": "喜び"}` | translate 主感情 with the reverse label map, then store the document under tier short | not executed | MemoryTier.WriteStructuredEmotionDataAsWritten (with MemoryTier.DecideAsWritten and MemoryTier.NameErrorLosesWrites) | MemoryTier.WriteStructuredEmotionData (with MemoryTier.DecideSpec) |
| module/memory/emotion_stats.py:3 | The file has no imports: `get_mongo_client` (line 3), `Counter` (line 8) and `logger` (line 28) are unbound. Line 3 raises `NameError`; the handler at line 27 catches it, and `logger.error` at line 28 raises a new `NameError` that reaches the caller. No counter and no `{}` is ever returned. | one long index document with emotion Joy and one history entry | import the client factory, `Counter` and `logger`, and return {"long/Joy": 1} | not executed | Personality.HistoryCountsAsWritten (with Personality.ImportGapLosesCounts) | Personality.HistoryCounts (with Personality.ImportsRestoreCounts) |
