/** `generate_voicevox_settings_from_composition`
    (module/voice/voice_processing.py): from a composition of emotions to
    the four VOICEVOX scales.  The heaviest emotions are re-weighted to
    ratios of their subtotal, their presets blended by those ratios; each
    scale is rounded to three places, clipped to its `VOICEVOX_CLIP` range
    and optionally smoothed toward the previous settings. */
module Voice {
  import opened Wrappers
  import opened Dicts
  import opened VectorMath
  import Params
  import Ranking
  import Expression

  /** `VOICEVOX_DEFAULT_SPEAKER`: module/params.py does not define it, so
      the fallback at voice_processing.py:17 applies. */
  const DefaultSpeaker: int := 3

  /** The settings: the speaker, the four scales by name, and the two
      phoneme lengths. */
  datatype Settings = Settings(speaker: int, scales: Dict<string, real>, prePhonemeLength: real, postPhonemeLength: real)

  const ScaleKeys: seq<string> := ["pitchScale", "speedScale", "intonationScale", "volumeScale"]

  lemma ScaleKeysDistinct()
    ensures Distinct(ScaleKeys)
  {
  }

  /** Pitch 0, speed, intonation and volume 1. */
  function NeutralScales(): Dict<string, real> {
    ScaleKeysDistinct();
    FromParallel(ScaleKeys, [0.0, 1.0, 1.0, 1.0])
  }

  /** The `VOICEVOX_CLIP` range of a scale. */
  function ClipOf(k: string): Params.ClipRange {
    if k == "pitchScale" then Params.PitchClip
    else if k == "speedScale" then Params.SpeedClip
    else if k == "intonationScale" then Params.IntonationClip
    else Params.VolumeClip
  }

  /** Every scale present lies within its `VOICEVOX_CLIP` range. */
  predicate InClip(scales: Dict<string, real>) {
    forall k | k in scales.vals && k in ScaleKeys :: ClipOf(k).lo <= scales.vals[k] <= ClipOf(k).hi
  }

  // ---------------------------------------------------------------------
  // Blending

  datatype Sums = Sums(pitch: real, speed: real, intonation: real, volume: real)

  /** `x * ratio` */
  function Scaled(x: real, ratio: real): real {
    x * ratio
  }

  function Step(a: Sums, p: Params.VoicePreset, ratio: real): Sums {
    Sums(a.pitch + Scaled(p.pitch, ratio), a.speed + Scaled(p.speed, ratio),
         a.intonation + Scaled(p.intonation, ratio), a.volume + Scaled(p.volume, ratio))
  }

  /** The blending loop: an item without a preset is skipped (`continue`),
      every other one adds its preset weighed by `w / subtotal`. */
  function Mix(items: seq<(string, real)>, presets: Dict<string, Params.VoicePreset>, subtotal: real): Sums
    requires subtotal != 0.0
  {
    if items == [] then Sums(0.0, 0.0, 0.0, 0.0)
    else
      var last := items[|items| - 1];
      var rest := Mix(items[..|items| - 1], presets, subtotal);
      if last.0 in presets.vals then Step(rest, presets.vals[last.0], last.1 / subtotal) else rest
  }

  /** The items that have a preset, in order. */
  function WithPreset(items: seq<(string, real)>, presets: Dict<string, Params.VoicePreset>): seq<(string, real)> {
    if items == [] then []
    else
      var last := items[|items| - 1];
      WithPreset(items[..|items| - 1], presets) + (if last.0 in presets.vals then [last] else [])
  }

  /** Skipping the items without a preset is blending only the others:
      they contribute nothing. */
  lemma {:induction false} MixSkips(items: seq<(string, real)>, presets: Dict<string, Params.VoicePreset>, subtotal: real)
    requires subtotal != 0.0
    ensures Mix(items, presets, subtotal) == Mix(WithPreset(items, presets), presets, subtotal)
  {
    if items != [] {
      var init, last := items[..|items| - 1], items[|items| - 1];
      var w := WithPreset(init, presets);
      MixSkips(init, presets, subtotal);
      if last.0 in presets.vals {
        assert (w + [last])[..|w + [last]| - 1] == w;
      } else {
        assert WithPreset(items, presets) == w;
      }
    }
  }

  /** Items all having a preset are all kept. */
  lemma {:induction false} WithPresetAll(items: seq<(string, real)>, presets: Dict<string, Params.VoicePreset>)
    requires forall i | 0 <= i < |items| :: items[i].0 in presets.vals
    ensures WithPreset(items, presets) == items
  {
    if items != [] {
      var init := items[..|items| - 1];
      assert forall i | 0 <= i < |init| :: init[i] == items[i];
      WithPresetAll(init, presets);
      assert init + [items[|items| - 1]] == items;
    }
  }

  /** Each scale rounded to three places, then clipped. */
  function ClippedScales(a: Sums): Dict<string, real> {
    ScaleKeysDistinct();
    FromParallel(ScaleKeys, [
      Clip(RoundPlaces(a.pitch, 3), Params.PitchClip.lo, Params.PitchClip.hi),
      Clip(RoundPlaces(a.speed, 3), Params.SpeedClip.lo, Params.SpeedClip.hi),
      Clip(RoundPlaces(a.intonation, 3), Params.IntonationClip.lo, Params.IntonationClip.hi),
      Clip(RoundPlaces(a.volume, 3), Params.VolumeClip.lo, Params.VolumeClip.hi)])
  }

  lemma ClippedInClip(a: Sums)
    ensures Valid(ClippedScales(a)) && ClippedScales(a).keys == ScaleKeys && InClip(ClippedScales(a))
  {
    ScaleKeysDistinct();
    Params.ClipRangesOrdered();
  }

  /** The neutral scales: pitch 0, each of the others 1, all inside
      their clip ranges. */
  lemma NeutralInClip()
    ensures Valid(NeutralScales()) && NeutralScales().keys == ScaleKeys
    ensures var n := NeutralScales();
      && "pitchScale" in n.vals && "speedScale" in n.vals && "intonationScale" in n.vals && "volumeScale" in n.vals
      && n.vals["pitchScale"] == 0.0 && n.vals["speedScale"] == 1.0
      && n.vals["intonationScale"] == 1.0 && n.vals["volumeScale"] == 1.0
    ensures InClip(NeutralScales())
  {
    ScaleKeysDistinct();
    var n := NeutralScales();
    assert ScaleKeys[0] == "pitchScale" && ScaleKeys[1] == "speedScale";
    assert ScaleKeys[2] == "intonationScale" && ScaleKeys[3] == "volumeScale";
    forall k | k in n.vals && k in ScaleKeys ensures ClipOf(k).lo <= n.vals[k] <= ClipOf(k).hi {
      if k == "pitchScale" {
      } else if k == "speedScale" {
      } else if k == "intonationScale" {
      } else {
        assert k == "volumeScale";
      }
    }
  }

  // ---------------------------------------------------------------------
  // The generator

  /** `sum((composition or {}).values()) if composition else 0.0` */
  function Total(composition: Dict<string, real>): real {
    if |composition.keys| == 0 then 0.0 else Sum(composition)
  }

  /** The blended items: the top `topn` (default 5) of the translated
      composition. */
  function Selected(en: Dict<string, real>, topn: Option<int>): seq<(string, real)> {
    Expression.TopItems(Expression.Pairs(en), topn.GetOr(Params.TopNVoicevox))
  }

  /** `generate_voicevox_settings_from_composition(composition, speaker_id,
      topn, prev_settings, smooth_alpha)` over the preset table `presets`
      and the reverse emotion map `reverse`; an empty `prev` stands for a
      missing or empty `prev_settings`. */
  function VoiceOf(
    composition: Dict<string, real>, speakerId: int, topn: Option<int>, prev: Dict<string, real>, alpha: real,
    presets: Dict<string, Params.VoicePreset>, reverse: Dict<string, string>): Settings
  {
    if Total(composition) <= 0.0 then
      Settings(speakerId, if |prev.keys| > 0 then Expression.Smoothed(NeutralScales(), prev, alpha) else NeutralScales(), 0.1, 0.1)
    else
      var en := Expression.EnKeys(composition, presets, reverse);
      if |en.keys| == 0 then Settings(speakerId, NeutralScales(), 0.1, 0.1)
      else
        var items := Selected(en, topn);
        var scales := ClippedScales(Mix(items, presets, Expression.Subtotal(items)));
        Settings(speakerId, if |prev.keys| > 0 then Expression.Smoothed(scales, prev, alpha) else scales, 0.1, 0.1)
  }

  /** The blending loop of the generator. */
  method MixItems(items: seq<(string, real)>, presets: Dict<string, Params.VoicePreset>, subtotal: real) returns (sums: Sums)
    requires subtotal != 0.0
    ensures sums == Mix(items, presets, subtotal)
  {
    var pitch, speed, intonation, volume := 0.0, 0.0, 0.0, 0.0;
    for i := 0 to |items|
      invariant Sums(pitch, speed, intonation, volume) == Mix(items[..i], presets, subtotal)
    {
      assert items[..i + 1][..i] == items[..i];
      var (emoEn, weight) := items[i];
      if emoEn !in presets.vals {
        continue;
      }
      var preset := presets.vals[emoEn];
      var ratio := weight / subtotal;
      pitch := pitch + Scaled(preset.pitch, ratio);
      speed := speed + Scaled(preset.speed, ratio);
      intonation := intonation + Scaled(preset.intonation, ratio);
      volume := volume + Scaled(preset.volume, ratio);
    }
    assert items[..|items|] == items;
    sums := Sums(pitch, speed, intonation, volume);
  }

  method GenerateVoicevoxSettings(
    composition: Dict<string, real>, speakerId: int, topn: Option<int>, prev: Dict<string, real>, alpha: real,
    presets: Dict<string, Params.VoicePreset>, reverse: Dict<string, string>)
    returns (settings: Settings)
    ensures settings == VoiceOf(composition, speakerId, topn, prev, alpha, presets, reverse)
  {
    var total := if |composition.keys| == 0 then 0.0 else Sum(composition);
    if total <= 0.0 {
      var base := NeutralScales();
      if |prev.keys| > 0 {
        base := Expression.Smooth(base, prev, alpha);
      }
      return Settings(speakerId, base, 0.1, 0.1);
    }
    var compEn := Expression.ToEnKeys(composition, presets, reverse);
    if |compEn.keys| == 0 {
      return Settings(speakerId, NeutralScales(), 0.1, 0.1);
    }
    var n := topn.GetOr(Params.TopNVoicevox);
    var items := Expression.TopItems(Expression.Pairs(compEn), n);
    var subtotal := Expression.Subtotal(items);
    var sums := MixItems(items, presets, subtotal);
    var scales := ClippedScales(sums);
    if |prev.keys| > 0 {
      ClippedInClip(sums);
      scales := Expression.Smooth(scales, prev, alpha);
    }
    settings := Settings(speakerId, scales, 0.1, 0.1);
  }

  // ---------------------------------------------------------------------
  // Properties

  /** In every branch the speaker is `speaker_id`, both phoneme lengths are
      0.1, and the four scales are present; without previous settings, each
      lies in its clip range (the neutral values included). */
  lemma SettingsSpec(
    composition: Dict<string, real>, speakerId: int, topn: Option<int>, prev: Dict<string, real>, alpha: real,
    presets: Dict<string, Params.VoicePreset>, reverse: Dict<string, string>)
    ensures var s := VoiceOf(composition, speakerId, topn, prev, alpha, presets, reverse);
      && s.speaker == speakerId && s.prePhonemeLength == 0.1 && s.postPhonemeLength == 0.1
      && Valid(s.scales) && s.scales.keys == ScaleKeys
      && (|prev.keys| == 0 ==> InClip(s.scales))
  {
    NeutralInClip();
    var en := Expression.EnKeys(composition, presets, reverse);
    if Total(composition) <= 0.0 {
      Expression.SmoothedSpec(NeutralScales(), prev, alpha);
    } else if |en.keys| > 0 {
      var items := Selected(en, topn);
      var sums := Mix(items, presets, Expression.Subtotal(items));
      ClippedInClip(sums);
      Expression.SmoothedSpec(ClippedScales(sums), prev, alpha);
    }
  }

  /** A total weight of at most 0 gives the neutral scales, smoothed toward
      the previous settings when there are any; a positive total without a
      known key gives the neutral scales unsmoothed. */
  lemma NeutralSpec(
    composition: Dict<string, real>, speakerId: int, topn: Option<int>, prev: Dict<string, real>, alpha: real,
    presets: Dict<string, Params.VoicePreset>, reverse: Dict<string, string>)
    ensures var s := VoiceOf(composition, speakerId, topn, prev, alpha, presets, reverse);
      && (Total(composition) <= 0.0 && |prev.keys| == 0 ==> s.scales == NeutralScales())
      && (Total(composition) <= 0.0 ==>
            forall k | k in ScaleKeys :: k in s.scales.vals &&
              s.scales.vals[k] == (if |prev.keys| > 0 then Expression.SmoothedValue(NeutralScales().vals[k], prev, k, alpha)
                                   else NeutralScales().vals[k]))
      && (Total(composition) > 0.0 && |Expression.EnKeys(composition, presets, reverse).keys| == 0 ==>
            s.scales == NeutralScales())
  {
    NeutralInClip();
  }

  /** Smoothing applies `round(_ema(prev.get(k, v), v, alpha), 3)` to the
      scales the same call computes without previous settings, except when
      no key is known, where the neutral scales are returned as they are. */
  lemma SmoothingSpec(
    composition: Dict<string, real>, speakerId: int, topn: Option<int>, prev: Dict<string, real>, alpha: real,
    presets: Dict<string, Params.VoicePreset>, reverse: Dict<string, string>)
    requires |prev.keys| > 0
    ensures var s := VoiceOf(composition, speakerId, topn, prev, alpha, presets, reverse);
      var plain := VoiceOf(composition, speakerId, topn, Empty(), alpha, presets, reverse);
      && s.scales.keys == plain.scales.keys
      && (if Total(composition) > 0.0 && |Expression.EnKeys(composition, presets, reverse).keys| == 0
          then s == plain
          else forall k | k in plain.scales.vals ::
                 k in s.scales.vals && s.scales.vals[k] == Expression.SmoothedValue(plain.scales.vals[k], prev, k, alpha))
  {
  }

  /** Each `VOICEVOX_CLIP` bound is a number of thousandths, so
      `round(x, 3)` leaves it unchanged. */
  lemma ClipBoundsRounded(k: string)
    ensures RoundPlaces(ClipOf(k).lo, 3) == ClipOf(k).lo && RoundPlaces(ClipOf(k).hi, 3) == ClipOf(k).hi
  {
    if k == "pitchScale" {
      RoundThousandths(-600);
      RoundThousandths(600);
    } else if k == "speedScale" {
      RoundThousandths(500);
      RoundThousandths(1500);
    } else if k == "intonationScale" {
      RoundThousandths(500);
      RoundThousandths(1600);
    } else {
      RoundThousandths(700);
      RoundThousandths(1300);
    }
  }

  /** Smoothing scales that lie inside the clip ranges toward previous
      ones that do too keeps them inside. */
  lemma SmoothingKeepsClip(base: Dict<string, real>, prev: Dict<string, real>, alpha: real)
    requires 0.0 <= alpha <= 1.0 && InClip(base) && InClip(prev)
    ensures InClip(Expression.Smoothed(base, prev, alpha))
  {
    var s := Expression.Smoothed(base, prev, alpha);
    forall k | k in s.vals && k in ScaleKeys ensures ClipOf(k).lo <= s.vals[k] <= ClipOf(k).hi {
      ClipBoundsRounded(k);
      Expression.SmoothedWithin(base.vals[k], prev, k, alpha, ClipOf(k).lo, ClipOf(k).hi);
    }
  }

  /** With `0 <= alpha <= 1` and previous settings inside the clip ranges,
      the generated scales stay inside them too: smoothing cannot undo the
      clipping. */
  lemma SmoothedInClip(
    composition: Dict<string, real>, speakerId: int, topn: Option<int>, prev: Dict<string, real>, alpha: real,
    presets: Dict<string, Params.VoicePreset>, reverse: Dict<string, string>)
    requires 0.0 <= alpha <= 1.0 && InClip(prev)
    ensures InClip(VoiceOf(composition, speakerId, topn, prev, alpha, presets, reverse).scales)
  {
    var scales := VoiceOf(composition, speakerId, topn, prev, alpha, presets, reverse).scales;
    var en := Expression.EnKeys(composition, presets, reverse);
    NeutralInClip();
    if Total(composition) > 0.0 && |en.keys| > 0 {
      var items := Selected(en, topn);
      var sums := Mix(items, presets, Expression.Subtotal(items));
      ClippedInClip(sums);
      if |prev.keys| > 0 {
        SmoothingKeepsClip(ClippedScales(sums), prev, alpha);
        assert scales == Expression.Smoothed(ClippedScales(sums), prev, alpha);
      } else {
        assert scales == ClippedScales(sums);
      }
    } else if Total(composition) <= 0.0 && |prev.keys| > 0 {
      SmoothingKeepsClip(NeutralScales(), prev, alpha);
      assert scales == Expression.Smoothed(NeutralScales(), prev, alpha);
    } else {
      assert scales == NeutralScales();
    }
  }

  /** At most `max(1, topn)` emotions are blended, heaviest first, and the
      ones without a preset add nothing: blending them equals blending the
      others alone. */
  lemma ContributorsSpec(composition: Dict<string, real>, topn: Option<int>, presets: Dict<string, Params.VoicePreset>, reverse: Dict<string, string>)
    requires |Expression.EnKeys(composition, presets, reverse).keys| > 0
    ensures var items := Selected(Expression.EnKeys(composition, presets, reverse), topn);
      && 1 <= |items| <= Expression.AtLeastOne(topn.GetOr(Params.TopNVoicevox))
      && Ranking.NonIncreasing(items, Expression.WeightKey)
      && Mix(items, presets, Expression.Subtotal(items)) == Mix(WithPreset(items, presets), presets, Expression.Subtotal(items))
  {
    var en := Expression.EnKeys(composition, presets, reverse);
    var items := Selected(en, topn);
    Expression.TopItemsSpec(Expression.Pairs(en), topn.GetOr(Params.TopNVoicevox));
    MixSkips(items, presets, Expression.Subtotal(items));
  }

  /** Every English name `emotion_map_reverse` produces has a preset in
      `voicevox_emotion_map`. */
  lemma TablesClosed()
    ensures forall ja | ja in Params.EmotionMapReverse().vals ::
      Params.EmotionMapReverse().vals[ja] in Params.VoicevoxEmotionMap().vals
  {
    Params.ReverseUndone();
    Params.VoicevoxKeys();
  }

  /** With tables like the real ones no blended item is skipped. */
  lemma NoneSkipped(composition: Dict<string, real>, topn: Option<int>, presets: Dict<string, Params.VoicePreset>, reverse: Dict<string, string>)
    requires forall ja | ja in reverse.vals :: reverse.vals[ja] in presets.vals
    requires |Expression.EnKeys(composition, presets, reverse).keys| > 0
    ensures var items := Selected(Expression.EnKeys(composition, presets, reverse), topn);
      WithPreset(items, presets) == items
  {
    var en := Expression.EnKeys(composition, presets, reverse);
    var items := Selected(en, topn);
    Expression.EnKeysKnown(composition, presets, reverse);
    Expression.PairsKeys(en);
    Expression.TopItemsSpec(Expression.Pairs(en), topn.GetOr(Params.TopNVoicevox));
    forall i | 0 <= i < |items| ensures items[i].0 in presets.vals {
      assert items[i] in multiset(Expression.Pairs(en));
    }
    WithPresetAll(items, presets);
  }
}
