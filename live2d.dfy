/** `generate_live2d_from_composition` (module/live2d/live2d_processing.py):
    from a composition of emotions to a Live2D motion, expression and five
    model parameters.  The heaviest emotions above a threshold are
    re-weighted to ratios of their subtotal; the weights of their presets
    are blended by those ratios, clipped, rounded to three places and
    optionally smoothed toward the previous parameters; the motion and the
    expression are the ones with the largest summed ratio. */
module Live2d {
  import opened Wrappers
  import opened Dicts
  import opened VectorMath
  import Params
  import Ranking
  import Expression

  /** The result: the motion's name (its `loop` is always true and its
      `priority` always "normal"), the expression, and the parameters. */
  datatype Output = Output(motion: string, expression: string, parameters: Dict<string, real>)

  /** The reply for an empty composition or one without a known key. */
  function Neutral(): Output {
    Output("Idle_Neutral", "Neutral", Empty())
  }

  const ParamKeys: seq<string> := ["ParamMouthOpenY", "ParamEyeSmile", "ParamEyeOpen", "ParamBrowLY", "ParamBodyAngleX"]

  lemma ParamKeysDistinct()
    ensures Distinct(ParamKeys)
  {
  }

  /** The preset of an English key, or the neutral stand-in with no
      weights. */
  function PresetOf(presets: Dict<string, Params.Live2dPreset>, en: string): Params.Live2dPreset {
    GetOr(presets, en, Params.Live2dPreset("Neutral", "Idle_Neutral", Params.Live2dWeights(0.0, 0.0, 0.0, 0.0, 0.0, 0.0)))
  }

  // ---------------------------------------------------------------------
  // Selection

  /** `[(k, v) for k, v in comp_en.items() if v >= min_ratio]` */
  function Above(pairs: seq<(string, real)>, minRatio: real): seq<(string, real)> {
    if pairs == [] then []
    else (if pairs[0].1 >= minRatio then [pairs[0]] else []) + Above(pairs[1..], minRatio)
  }

  /** The pairs at or above the threshold, or all pairs when none is. */
  function Filtered(pairs: seq<(string, real)>, minRatio: real): seq<(string, real)> {
    var above := Above(pairs, minRatio);
    if above == [] then pairs else above
  }

  /** The items blended: the top `topn` (default 4) of the pairs at or
      above `min_ratio` (default 10). */
  function Selected(en: Dict<string, real>, minRatio: Option<real>, topn: Option<int>): seq<(string, real)> {
    Expression.TopItems(Filtered(Expression.Pairs(en), minRatio.GetOr(Params.EmotionThreshold as real)),
                        topn.GetOr(Params.TopNLive2d))
  }

  /** The threshold filter keeps, in order, exactly the pairs at or above
      it. */
  lemma {:induction false} AboveSpec(pairs: seq<(string, real)>, minRatio: real)
    ensures multiset(Above(pairs, minRatio)) <= multiset(pairs)
    ensures forall i | 0 <= i < |Above(pairs, minRatio)| :: Above(pairs, minRatio)[i].1 >= minRatio
    ensures forall i | 0 <= i < |pairs| && pairs[i].1 >= minRatio :: pairs[i] in Above(pairs, minRatio)
  {
    if pairs != [] {
      AboveSpec(pairs[1..], minRatio);
      assert pairs == [pairs[0]] + pairs[1..];
      forall i | 0 <= i < |pairs| && pairs[i].1 >= minRatio ensures pairs[i] in Above(pairs, minRatio) {
        if i > 0 {
          assert pairs[i] == pairs[1..][i - 1];
        }
      }
    }
  }

  /** When some pair reaches the threshold, the filter keeps exactly those
      pairs; otherwise it keeps all of them. */
  lemma FilteredSpec(pairs: seq<(string, real)>, minRatio: real)
    ensures multiset(Filtered(pairs, minRatio)) <= multiset(pairs)
    ensures (exists i | 0 <= i < |pairs| :: pairs[i].1 >= minRatio) ==>
      && (forall i | 0 <= i < |Filtered(pairs, minRatio)| :: Filtered(pairs, minRatio)[i].1 >= minRatio)
      && (forall i | 0 <= i < |pairs| && pairs[i].1 >= minRatio :: pairs[i] in Filtered(pairs, minRatio))
    ensures (forall i | 0 <= i < |pairs| :: pairs[i].1 < minRatio) ==> Filtered(pairs, minRatio) == pairs
  {
    AboveSpec(pairs, minRatio);
    if exists i | 0 <= i < |pairs| :: pairs[i].1 >= minRatio {
      var i :| 0 <= i < |pairs| && pairs[i].1 >= minRatio;
      assert pairs[i] in Above(pairs, minRatio);
    }
  }

  /** At most `max(1, topn)` items and at least one, heaviest first, all
      taken from the filtered pairs, with no filtered pair left out that
      weighs more than a selected one. */
  lemma SelectedSpec(en: Dict<string, real>, minRatio: Option<real>, topn: Option<int>)
    requires |en.keys| > 0
    ensures var items := Selected(en, minRatio, topn);
      var filtered := Filtered(Expression.Pairs(en), minRatio.GetOr(Params.EmotionThreshold as real));
      && 1 <= |items| <= Expression.AtLeastOne(topn.GetOr(Params.TopNLive2d))
      && Ranking.NonIncreasing(items, Expression.WeightKey)
      && multiset(items) <= multiset(filtered)
      && forall x | x in multiset(filtered) - multiset(items) :: forall i | 0 <= i < |items| :: x.1 <= items[i].1
  {
    var pairs := Expression.Pairs(en);
    var m := minRatio.GetOr(Params.EmotionThreshold as real);
    FilteredSpec(pairs, m);
    if Above(pairs, m) == [] {
      assert |Filtered(pairs, m)| == |en.keys|;
    }
    Expression.TopItemsSpec(Filtered(pairs, m), topn.GetOr(Params.TopNLive2d));
  }

  // ---------------------------------------------------------------------
  // Blending

  /** The running sums of the blending loop. */
  datatype Acc = Acc(mouth: real, eyeSmile: real, eyeOpen: real, browUp: real, browDown: real, bodyAngleX: real)

  /** `x * ratio` */
  function Scaled(x: real, ratio: real): real {
    x * ratio
  }

  /** One iteration: every weight of the preset scaled by `ratio` and
      added to its sum. */
  function Step(a: Acc, w: Params.Live2dWeights, ratio: real): Acc {
    Acc(a.mouth + Scaled(w.mouthOpen, ratio), a.eyeSmile + Scaled(w.eyeSmile, ratio),
        a.eyeOpen + Scaled(w.eyeOpen, ratio), a.browUp + Scaled(w.browUp, ratio),
        a.browDown + Scaled(w.browDown, ratio), a.bodyAngleX + Scaled(w.bodyAngleX, ratio))
  }

  /** The blended weights of `items`, each weighed by `w / subtotal`. */
  function Blend(items: seq<(string, real)>, presets: Dict<string, Params.Live2dPreset>, subtotal: real): Acc
    requires subtotal != 0.0
  {
    if items == [] then Acc(0.0, 0.0, 0.0, 0.0, 0.0, 0.0)
    else
      var last := items[|items| - 1];
      Step(Blend(items[..|items| - 1], presets, subtotal), PresetOf(presets, last.0).w, last.1 / subtotal)
  }

  /** What a preset votes for: its motion, or its expression. */
  function Choice(p: Params.Live2dPreset, ofMotion: bool): string {
    if ofMotion then p.motion else p.expression
  }

  /** `votes[k] = votes.get(k, 0.0) + ratio` */
  function Vote(votes: Dict<string, real>, k: string, ratio: real): Dict<string, real> {
    Put(votes, k, GetOr(votes, k, 0.0) + ratio)
  }

  /** `votes_motion` (or `votes_expression`) after the blending loop. */
  function Tally(items: seq<(string, real)>, presets: Dict<string, Params.Live2dPreset>, subtotal: real, ofMotion: bool): Dict<string, real>
    requires subtotal != 0.0
  {
    if items == [] then Empty()
    else
      var last := items[|items| - 1];
      Vote(Tally(items[..|items| - 1], presets, subtotal, ofMotion), Choice(PresetOf(presets, last.0), ofMotion), last.1 / subtotal)
  }

  /** The votes form a valid dict holding exactly the motions (or the
      expressions) of the presets of the blended items. */
  lemma {:induction false} TallySpec(items: seq<(string, real)>, presets: Dict<string, Params.Live2dPreset>, subtotal: real, ofMotion: bool)
    requires subtotal != 0.0
    ensures Valid(Tally(items, presets, subtotal, ofMotion))
    ensures forall k :: k in Tally(items, presets, subtotal, ofMotion).vals <==>
      exists i | 0 <= i < |items| :: Choice(PresetOf(presets, items[i].0), ofMotion) == k
  {
    if items != [] {
      var init, last := items[..|items| - 1], items[|items| - 1];
      var t := Tally(init, presets, subtotal, ofMotion);
      var c := Choice(PresetOf(presets, last.0), ofMotion);
      TallySpec(init, presets, subtotal, ofMotion);
      PutValid(t, c, GetOr(t, c, 0.0) + last.1 / subtotal);
      assert forall i | 0 <= i < |init| :: init[i] == items[i];
      forall k | exists i | 0 <= i < |items| :: Choice(PresetOf(presets, items[i].0), ofMotion) == k
        ensures k in Tally(items, presets, subtotal, ofMotion).vals
      {
        var i :| 0 <= i < |items| && Choice(PresetOf(presets, items[i].0), ofMotion) == k;
        if i < |init| {
          assert Choice(PresetOf(presets, init[i].0), ofMotion) == k;
        }
      }
    }
  }

  /** `max(votes.items(), key=lambda kv: kv[1])[0]`: the first key of
      largest vote. */
  function Winner(votes: Dict<string, real>): string
    requires |votes.keys| > 0
  {
    votes.keys[Ranking.FirstMaxIndex(RealValues(votes))]
  }

  /** The winner is voted for, no key has more votes, and every key listed
      before it has fewer. */
  lemma WinnerSpec(votes: Dict<string, real>)
    requires Valid(votes) && |votes.keys| > 0
    ensures Winner(votes) in votes.vals
    ensures forall k | k in votes.vals :: votes.vals[k] <= votes.vals[Winner(votes)]
    ensures forall j | 0 <= j < |votes.keys| && votes.keys[j] == Winner(votes) ::
      forall i | 0 <= i < j :: votes.vals[votes.keys[i]] < votes.vals[Winner(votes)]
  {
    var xs := RealValues(votes);
    var w := Ranking.FirstMaxIndex(xs);
    forall k | k in votes.vals ensures votes.vals[k] <= votes.vals[Winner(votes)] {
      var i :| 0 <= i < |votes.keys| && votes.keys[i] == k;
      assert xs[i] == votes.vals[k];
    }
    forall j | 0 <= j < |votes.keys| && votes.keys[j] == Winner(votes)
      ensures forall i | 0 <= i < j :: votes.vals[votes.keys[i]] < votes.vals[Winner(votes)]
    {
      assert j == w;
      forall i | 0 <= i < j ensures votes.vals[votes.keys[i]] < votes.vals[Winner(votes)] {
        assert xs[i] == votes.vals[votes.keys[i]];
      }
    }
  }

  /** The five parameters before smoothing: clipped to their ranges and
      rounded to three places. */
  function RawParams(a: Acc): Dict<string, real> {
    ParamKeysDistinct();
    FromParallel(ParamKeys, [
      RoundPlaces(Clip(a.mouth, 0.0, 1.0), 3),
      RoundPlaces(Clip(a.eyeSmile, 0.0, 1.0), 3),
      RoundPlaces(Clip(a.eyeOpen, 0.0, 1.0), 3),
      RoundPlaces(Clip(a.browUp - a.browDown, -1.0, 1.0), 3),
      RoundPlaces(Clip(a.bodyAngleX, -10.0, 10.0), 3)])
  }

  /** The documented range of each parameter. */
  function Lo(k: string): int {
    if k == "ParamBrowLY" then -1 else if k == "ParamBodyAngleX" then -10 else 0
  }

  function Hi(k: string): int {
    if k == "ParamBodyAngleX" then 10 else 1
  }

  /** Every parameter present lies in its documented range. */
  predicate InRange(params: Dict<string, real>) {
    forall k | k in params.vals && k in ParamKeys :: Lo(k) as real <= params.vals[k] <= Hi(k) as real
  }

  lemma RawInRange(a: Acc)
    ensures RawParams(a).keys == ParamKeys && Valid(RawParams(a)) && InRange(RawParams(a))
  {
    ParamKeysDistinct();
    RoundPlacesWithin(Clip(a.mouth, 0.0, 1.0), 3, 0, 1);
    RoundPlacesWithin(Clip(a.eyeSmile, 0.0, 1.0), 3, 0, 1);
    RoundPlacesWithin(Clip(a.eyeOpen, 0.0, 1.0), 3, 0, 1);
    RoundPlacesWithin(Clip(a.browUp - a.browDown, -1.0, 1.0), 3, -1, 1);
    RoundPlacesWithin(Clip(a.bodyAngleX, -10.0, 10.0), 3, -10, 10);
  }

  // ---------------------------------------------------------------------
  // The generator

  /** `generate_live2d_from_composition(composition, topn, prev_params,
      smooth_alpha, min_ratio)` over the preset table `presets` and the
      reverse emotion map `reverse`; an empty `prev` stands for a missing
      or empty `prev_params`. */
  function Live2dOf(
    composition: Dict<string, real>, topn: Option<int>, prev: Dict<string, real>, alpha: real, minRatio: Option<real>,
    presets: Dict<string, Params.Live2dPreset>, reverse: Dict<string, string>): Output
  {
    if |composition.keys| == 0 then Neutral()
    else
      var en := Expression.EnKeys(composition, presets, reverse);
      if |en.keys| == 0 then Neutral()
      else
        var items := Selected(en, minRatio, topn);
        var subtotal := Expression.Subtotal(items);
        var raw := RawParams(Blend(items, presets, subtotal));
        var motions, expressions := Tally(items, presets, subtotal, true), Tally(items, presets, subtotal, false);
        VotesNonEmpty(en, minRatio, topn, presets);
        Output(Winner(motions), Winner(expressions), if |prev.keys| > 0 then Expression.Smoothed(raw, prev, alpha) else raw)
  }

  /** Some item is blended, so both votes have a winner. */
  lemma VotesNonEmpty(en: Dict<string, real>, minRatio: Option<real>, topn: Option<int>, presets: Dict<string, Params.Live2dPreset>)
    requires |en.keys| > 0
    ensures var items := Selected(en, minRatio, topn);
      && |items| > 0
      && |Tally(items, presets, Expression.Subtotal(items), true).keys| > 0
      && |Tally(items, presets, Expression.Subtotal(items), false).keys| > 0
  {
    var items := Selected(en, minRatio, topn);
    SelectedSpec(en, minRatio, topn);
    var subtotal := Expression.Subtotal(items);
    TallySpec(items, presets, subtotal, true);
    TallySpec(items, presets, subtotal, false);
    var m, e := Tally(items, presets, subtotal, true), Tally(items, presets, subtotal, false);
    assert Choice(PresetOf(presets, items[0].0), true) in m.vals;
    assert Choice(PresetOf(presets, items[0].0), false) in e.vals;
  }

  /** The blending loop: the six weighted sums and the two votes. */
  method BlendItems(items: seq<(string, real)>, presets: Dict<string, Params.Live2dPreset>, subtotal: real)
    returns (acc: Acc, votesMotion: Dict<string, real>, votesExpression: Dict<string, real>)
    requires subtotal != 0.0
    ensures acc == Blend(items, presets, subtotal)
    ensures votesMotion == Tally(items, presets, subtotal, true)
    ensures votesExpression == Tally(items, presets, subtotal, false)
  {
    var mouth, eyeSmile, eyeOpen, browUp, browDown, bodyAngleX := 0.0, 0.0, 0.0, 0.0, 0.0, 0.0;
    votesMotion, votesExpression := Empty(), Empty();
    for i := 0 to |items|
      invariant Acc(mouth, eyeSmile, eyeOpen, browUp, browDown, bodyAngleX) == Blend(items[..i], presets, subtotal)
      invariant votesMotion == Tally(items[..i], presets, subtotal, true)
      invariant votesExpression == Tally(items[..i], presets, subtotal, false)
    {
      assert items[..i + 1][..i] == items[..i];
      var (emoEn, w) := items[i];
      var preset := PresetOf(presets, emoEn);
      var ratio := w / subtotal;
      var ww := preset.w;
      mouth := mouth + Scaled(ww.mouthOpen, ratio);
      eyeSmile := eyeSmile + Scaled(ww.eyeSmile, ratio);
      eyeOpen := eyeOpen + Scaled(ww.eyeOpen, ratio);
      browUp := browUp + Scaled(ww.browUp, ratio);
      browDown := browDown + Scaled(ww.browDown, ratio);
      bodyAngleX := bodyAngleX + Scaled(ww.bodyAngleX, ratio);
      votesMotion := Vote(votesMotion, preset.motion, ratio);
      votesExpression := Vote(votesExpression, preset.expression, ratio);
    }
    assert items[..|items|] == items;
    acc := Acc(mouth, eyeSmile, eyeOpen, browUp, browDown, bodyAngleX);
  }

  method GenerateLive2d(
    composition: Dict<string, real>, topn: Option<int>, prev: Dict<string, real>, alpha: real, minRatio: Option<real>,
    presets: Dict<string, Params.Live2dPreset>, reverse: Dict<string, string>)
    returns (out: Output)
    ensures out == Live2dOf(composition, topn, prev, alpha, minRatio, presets, reverse)
  {
    if |composition.keys| == 0 {
      return Neutral();
    }
    var compEn := Expression.ToEnKeys(composition, presets, reverse);
    if |compEn.keys| == 0 {
      return Neutral();
    }
    var ratioMin := minRatio.GetOr(Params.EmotionThreshold as real);
    var filtered := Above(Expression.Pairs(compEn), ratioMin);
    if filtered == [] {
      filtered := Expression.Pairs(compEn);
    }
    var n := topn.GetOr(Params.TopNLive2d);
    var items := Expression.TopItems(filtered, n);
    assert items == Selected(compEn, minRatio, topn);
    var subtotal := Expression.Subtotal(items);

    var acc, votesMotion, votesExpression := BlendItems(items, presets, subtotal);
    var params := RawParams(acc);
    if |prev.keys| > 0 {
      RawInRange(acc);
      params := Expression.Smooth(params, prev, alpha);
    }
    VotesNonEmpty(compEn, minRatio, topn, presets);
    out := Output(Winner(votesMotion), Winner(votesExpression), params);
  }

  // ---------------------------------------------------------------------
  // Properties

  /** The neutral reply comes exactly for an empty composition or one with
      no key the tables know; any other reply has all five parameters. */
  lemma NeutralSpec(
    composition: Dict<string, real>, topn: Option<int>, prev: Dict<string, real>, alpha: real, minRatio: Option<real>,
    presets: Dict<string, Params.Live2dPreset>, reverse: Dict<string, string>)
    ensures var out := Live2dOf(composition, topn, prev, alpha, minRatio, presets, reverse);
      && (out == Neutral() <==>
            (|composition.keys| == 0 || |Expression.EnKeys(composition, presets, reverse).keys| == 0))
      && (out != Neutral() ==> out.parameters.keys == ParamKeys)
  {
    var en := Expression.EnKeys(composition, presets, reverse);
    if |composition.keys| > 0 && |en.keys| > 0 {
      var items := Selected(en, minRatio, topn);
      var acc := Blend(items, presets, Expression.Subtotal(items));
      RawInRange(acc);
      Expression.SmoothedSpec(RawParams(acc), prev, alpha);
    }
  }

  /** Without previous parameters every parameter lies in its range; with
      previous parameters in range and `0 <= smooth_alpha <= 1` they stay
      in range after smoothing. */
  lemma RangesSpec(
    composition: Dict<string, real>, topn: Option<int>, prev: Dict<string, real>, alpha: real, minRatio: Option<real>,
    presets: Dict<string, Params.Live2dPreset>, reverse: Dict<string, string>)
    requires |prev.keys| == 0 || (0.0 <= alpha <= 1.0 && InRange(prev))
    ensures InRange(Live2dOf(composition, topn, prev, alpha, minRatio, presets, reverse).parameters)
  {
    var en := Expression.EnKeys(composition, presets, reverse);
    if |composition.keys| > 0 && |en.keys| > 0 {
      var items := Selected(en, minRatio, topn);
      var acc := Blend(items, presets, Expression.Subtotal(items));
      var raw := RawParams(acc);
      RawInRange(acc);
      if |prev.keys| > 0 {
        var s := Expression.Smoothed(raw, prev, alpha);
        forall k | k in s.vals && k in ParamKeys ensures Lo(k) as real <= s.vals[k] <= Hi(k) as real {
          RoundPlacesOfInt(Lo(k), 3);
          RoundPlacesOfInt(Hi(k), 3);
          Expression.SmoothedWithin(raw.vals[k], prev, k, alpha, Lo(k) as real, Hi(k) as real);
        }
      }
    }
  }

  /** Smoothing applies `round(_ema(prev.get(k, v), v, alpha), 3)` to the
      parameters the same call computes without previous parameters; motion
      and expression do not depend on them. */
  lemma SmoothingSpec(
    composition: Dict<string, real>, topn: Option<int>, prev: Dict<string, real>, alpha: real, minRatio: Option<real>,
    presets: Dict<string, Params.Live2dPreset>, reverse: Dict<string, string>)
    requires |prev.keys| > 0
    ensures var out := Live2dOf(composition, topn, prev, alpha, minRatio, presets, reverse);
      var plain := Live2dOf(composition, topn, Empty(), alpha, minRatio, presets, reverse);
      && out.motion == plain.motion && out.expression == plain.expression
      && out.parameters.keys == plain.parameters.keys
      && forall k | k in plain.parameters.vals ::
           k in out.parameters.vals && out.parameters.vals[k] == Expression.SmoothedValue(plain.parameters.vals[k], prev, k, alpha)
  {
  }

  /** The motion and the expression are the ones of largest summed ratio
      (the first such in voting order), chosen among the presets of the
      blended items. */
  lemma VoteWinnerSpec(
    composition: Dict<string, real>, topn: Option<int>, prev: Dict<string, real>, alpha: real, minRatio: Option<real>,
    presets: Dict<string, Params.Live2dPreset>, reverse: Dict<string, string>, ofMotion: bool)
    requires |composition.keys| > 0 && |Expression.EnKeys(composition, presets, reverse).keys| > 0
    ensures var out := Live2dOf(composition, topn, prev, alpha, minRatio, presets, reverse);
      var items := Selected(Expression.EnKeys(composition, presets, reverse), minRatio, topn);
      var votes := Tally(items, presets, Expression.Subtotal(items), ofMotion);
      var chosen := if ofMotion then out.motion else out.expression;
      && chosen in votes.vals
      && (forall k | k in votes.vals :: votes.vals[k] <= votes.vals[chosen])
      && (exists i | 0 <= i < |items| :: Choice(PresetOf(presets, items[i].0), ofMotion) == chosen)
  {
    var en := Expression.EnKeys(composition, presets, reverse);
    var items := Selected(en, minRatio, topn);
    VotesNonEmpty(en, minRatio, topn, presets);
    TallySpec(items, presets, Expression.Subtotal(items), ofMotion);
    WinnerSpec(Tally(items, presets, Expression.Subtotal(items), ofMotion));
  }

  /** Every English name `emotion_map_reverse` produces has a preset in
      `live2d_emotion_map`. */
  lemma TablesClosed()
    ensures forall ja | ja in Params.EmotionMapReverse().vals ::
      Params.EmotionMapReverse().vals[ja] in Params.Live2dEmotionMap().vals
  {
    Params.ReverseUndone();
    Params.Live2dTable();
    var m, l := Params.EmotionMap(), Params.Live2dEmotionMap();
    forall en | en in m.vals ensures en in l.vals {
      var i :| 0 <= i < |m.keys| && m.keys[i] == en;
      assert l.keys[i] == en;
    }
  }

  /** With tables like the real ones, every blended item has its own
      preset, so the neutral stand-in is never used. */
  lemma KnownPresets(
    composition: Dict<string, real>, minRatio: Option<real>, topn: Option<int>,
    presets: Dict<string, Params.Live2dPreset>, reverse: Dict<string, string>)
    requires forall ja | ja in reverse.vals :: reverse.vals[ja] in presets.vals
    requires |Expression.EnKeys(composition, presets, reverse).keys| > 0
    ensures var items := Selected(Expression.EnKeys(composition, presets, reverse), minRatio, topn);
      forall i | 0 <= i < |items| :: items[i].0 in presets.vals
  {
    var en := Expression.EnKeys(composition, presets, reverse);
    var pairs := Expression.Pairs(en);
    var items := Selected(en, minRatio, topn);
    var filtered := Filtered(pairs, minRatio.GetOr(Params.EmotionThreshold as real));
    Expression.EnKeysKnown(composition, presets, reverse);
    Expression.PairsKeys(en);
    SelectedSpec(en, minRatio, topn);
    FilteredSpec(pairs, minRatio.GetOr(Params.EmotionThreshold as real));
    forall i | 0 <= i < |items| ensures items[i].0 in presets.vals {
      assert items[i] in multiset(filtered);
      assert items[i] in multiset(pairs);
    }
  }
}
