/** The fixed 32-label emotion vocabulary and the tuning tables of the
    expression generators (module/params.py). */
module Params {
  import opened Dicts

  /** `EMOTION_THRESHOLD`: composition percentages below it are ignored. */
  const EmotionThreshold: int := 10
  /** `DEFAULT_MAIN_EMOTION` */
  const DefaultMainEmotion: string := "未定義"
  /** `EMOTION_TOPN_VOICEVOX` and `EMOTION_TOPN_LIVE2D` */
  const TopNVoicevox: int := 5
  const TopNLive2d: int := 4

  /** A closed range `(lo, hi)` of `VOICEVOX_CLIP`. */
  datatype ClipRange = ClipRange(lo: real, hi: real)

  const PitchClip := ClipRange(-0.6, 0.6)
  const SpeedClip := ClipRange(0.5, 1.5)
  const IntonationClip := ClipRange(0.5, 1.6)
  const VolumeClip := ClipRange(0.7, 1.3)

  /** The keys of `emotion_map`, in their order of definition. */
  const EnNames: seq<string> := [
    "Joy", "Anticipation", "Anger", "Disgust",
    "Sadness", "Surprise", "Fear", "Trust",
    "Optimism", "Pride", "Morbidness", "Aggressiveness",
    "Cynicism", "Pessimism", "Contempt", "Envy",
    "Outrage", "Guilt", "Unbelief", "Shame",
    "Disappointment", "Despair", "Sentimentality", "Awe",
    "Curiosity", "Delight", "Obedience", "Remorse",
    "Anxiety", "Love", "Hope", "Dominance"
  ]

  /** The values of `emotion_map`, side by side with `EnNames`. */
  const JaNames: seq<string> := [
    "喜び", "期待", "怒り", "嫌悪",
    "悲しみ", "驚き", "恐れ", "信頼",
    "楽観", "誇り", "病的状態", "積極性",
    "冷笑", "悲観", "軽蔑", "羨望",
    "憤慨", "自責", "不信", "恥",
    "失望", "絶望", "感傷", "畏敬",
    "好奇心", "歓喜", "服従", "罪悪感",
    "不安", "愛", "希望", "優位"
  ]
  /** `voicevox_emotion_map`: one preset of the four VOICEVOX scales. */
  datatype VoicePreset = VoicePreset(pitch: real, speed: real, intonation: real, volume: real)

  /** The keys of `voicevox_emotion_map`, in their order of definition. */
  const VoiceKeys: seq<string> := [
    "Joy", "Anticipation", "Anger", "Disgust",
    "Sadness", "Surprise", "Fear", "Trust",
    "Optimism", "Pride", "Morbidness", "Aggressiveness",
    "Cynicism", "Pessimism", "Contempt", "Envy",
    "Outrage", "Guilt", "Unbelief", "Shame",
    "Disappointment", "Despair", "Sentimentality", "Awe",
    "Curiosity", "Delight", "Obedience", "Remorse",
    "Anxiety", "Love", "Hope", "Dominance"
  ]

  const VoicePresets: seq<VoicePreset> := [
    VoicePreset(0.20, 0.53, 0.78, 0.83),
    VoicePreset(0.33, 1.18, 1.39, 0.75),
    VoicePreset(-0.11, 0.53, 0.72, 1.00),
    VoicePreset(-0.66, 0.70, 1.15, 1.03),
    VoicePreset(-0.39, 1.09, 1.31, 0.70),
    VoicePreset(-0.57, 1.25, 1.47, 1.03),
    VoicePreset(0.21, 0.73, 0.58, 0.76),
    VoicePreset(-0.63, 1.36, 1.11, 1.24),
    VoicePreset(0.58, 1.04, 0.96, 0.98),
    VoicePreset(-0.52, 0.97, 1.02, 1.14),
    VoicePreset(-0.37, 1.04, 0.75, 0.77),
    VoicePreset(0.18, 1.30, 0.96, 0.93),
    VoicePreset(-0.41, 0.99, 0.54, 1.14),
    VoicePreset(0.26, 1.14, 0.68, 0.95),
    VoicePreset(-0.67, 0.93, 1.06, 0.89),
    VoicePreset(-0.20, 1.03, 0.87, 0.79),
    VoicePreset(-0.61, 0.92, 0.83, 1.08),
    VoicePreset(-0.60, 1.46, 0.93, 1.13),
    VoicePreset(0.41, 1.45, 1.03, 0.87),
    VoicePreset(-0.21, 1.33, 1.10, 1.24),
    VoicePreset(-0.27, 0.65, 0.65, 1.08),
    VoicePreset(-0.35, 1.18, 0.89, 1.02),
    VoicePreset(-0.66, 1.22, 0.69, 1.13),
    VoicePreset(0.26, 0.72, 1.46, 1.02),
    VoicePreset(0.32, 0.91, 1.10, 1.16),
    VoicePreset(-0.39, 1.12, 1.18, 1.12),
    VoicePreset(-0.65, 1.09, 1.12, 0.94),
    VoicePreset(0.05, 1.33, 1.26, 0.91),
    VoicePreset(0.37, 1.36, 0.86, 1.09),
    VoicePreset(-0.58, 1.04, 1.27, 0.77),
    VoicePreset(-0.06, 0.73, 0.87, 1.03),
    VoicePreset(-0.24, 1.45, 1.12, 1.01)
  ]
  /** `live2d_emotion_map`: an expression, a motion and the weights `w`. */
  datatype Live2dPreset = Live2dPreset(expression: string, motion: string, w: Live2dWeights)

  datatype Live2dWeights = Live2dWeights(
    mouthOpen: real, eyeSmile: real, eyeOpen: real, browUp: real, browDown: real, bodyAngleX: real)

  /** The keys of `live2d_emotion_map`, in their order of definition. */
  const Live2dKeys: seq<string> := [
    "Joy", "Anticipation", "Anger", "Disgust",
    "Sadness", "Surprise", "Fear", "Trust",
    "Optimism", "Pride", "Morbidness", "Aggressiveness",
    "Cynicism", "Pessimism", "Contempt", "Envy",
    "Outrage", "Guilt", "Unbelief", "Shame",
    "Disappointment", "Despair", "Sentimentality", "Awe",
    "Curiosity", "Delight", "Obedience", "Remorse",
    "Anxiety", "Love", "Hope", "Dominance"
  ]

  const Live2dPresets: seq<Live2dPreset> := [
    Live2dPreset("Smile", "Idle_Happy", Live2dWeights(0.35, 0.70, 0.35, 0.20, 0.00, 4.0)),
    Live2dPreset("Expect", "Idle_Shy", Live2dWeights(0.25, 0.30, 0.40, 0.15, 0.00, 3.0)),
    Live2dPreset("Angry", "Idle_Angry", Live2dWeights(0.20, 0.00, 0.25, 0.00, 0.60, -2.0)),
    Live2dPreset("Disgust", "Idle_Contempt", Live2dWeights(0.10, 0.00, 0.20, 0.00, 0.55, 0.0)),
    Live2dPreset("Sad", "Idle_Sad", Live2dWeights(0.10, 0.00, 0.15, 0.00, 0.45, -5.0)),
    Live2dPreset("Surprise", "Idle_Surprise", Live2dWeights(0.50, 0.00, 0.75, 0.45, 0.00, 6.0)),
    Live2dPreset("Fear", "Idle_Think", Live2dWeights(0.15, 0.00, 0.45, 0.00, 0.30, -3.0)),
    Live2dPreset("Calm", "Idle_Calm", Live2dWeights(0.20, 0.20, 0.35, 0.10, 0.00, 1.0)),
    Live2dPreset("Bright", "Idle_Optimistic", Live2dWeights(0.30, 0.50, 0.40, 0.20, 0.00, 3.0)),
    Live2dPreset("Proud", "Pose_Proud", Live2dWeights(0.20, 0.25, 0.35, 0.30, 0.00, 3.0)),
    Live2dPreset("Sick", "Idle_Sick", Live2dWeights(0.05, 0.00, 0.10, 0.00, 0.30, -6.0)),
    Live2dPreset("Active", "Talk_Active", Live2dWeights(0.35, 0.35, 0.40, 0.15, 0.00, 4.0)),
    Live2dPreset("Sarcasm", "Idle_Sarcastic", Live2dWeights(0.15, 0.20, 0.25, 0.00, 0.35, 0.0)),
    Live2dPreset("Gloom", "Idle_Pessimistic", Live2dWeights(0.10, 0.00, 0.20, 0.00, 0.35, -2.0)),
    Live2dPreset("Contempt", "Idle_Contempt", Live2dWeights(0.10, 0.00, 0.20, 0.00, 0.50, 1.0)),
    Live2dPreset("Envy", "Idle_Envy", Live2dWeights(0.12, 0.00, 0.25, 0.00, 0.20, -1.0)),
    Live2dPreset("Indignant", "Idle_Indignant", Live2dWeights(0.18, 0.00, 0.25, 0.00, 0.70, -1.0)),
    Live2dPreset("Guilt", "Idle_Guilt", Live2dWeights(0.08, 0.00, 0.12, 0.00, 0.50, -4.0)),
    Live2dPreset("Distrust", "Idle_Distrust", Live2dWeights(0.12, 0.00, 0.18, 0.00, 0.30, -1.0)),
    Live2dPreset("Shame", "Idle_Shame", Live2dWeights(0.05, 0.00, 0.05, 0.00, 0.40, -5.0)),
    Live2dPreset("Disappoint", "Idle_Disappointed", Live2dWeights(0.08, 0.00, 0.10, 0.00, 0.30, -4.0)),
    Live2dPreset("Despair", "Idle_Despair", Live2dWeights(0.05, 0.00, 0.05, 0.00, 0.60, -7.0)),
    Live2dPreset("Sentimental", "Idle_Sentimental", Live2dWeights(0.12, 0.10, 0.20, 0.10, 0.10, -2.0)),
    Live2dPreset("Awe", "Idle_Awe", Live2dWeights(0.30, 0.00, 0.60, 0.50, 0.00, 2.0)),
    Live2dPreset("Curious", "Idle_Curious", Live2dWeights(0.20, 0.15, 0.50, 0.20, 0.00, 3.0)),
    Live2dPreset("Ecstatic", "Idle_Ecstatic", Live2dWeights(0.50, 0.80, 0.45, 0.30, 0.00, 6.0)),
    Live2dPreset("Submissive", "Idle_Submissive", Live2dWeights(0.10, 0.00, 0.20, 0.00, 0.20, -3.0)),
    Live2dPreset("Remorse", "Idle_Remorse", Live2dWeights(0.08, 0.00, 0.12, 0.00, 0.50, -4.0)),
    Live2dPreset("Anxious", "Idle_Anxious", Live2dWeights(0.15, 0.00, 0.40, 0.00, 0.30, -2.0)),
    Live2dPreset("Loving", "Idle_Love", Live2dWeights(0.20, 0.50, 0.30, 0.20, 0.00, 2.0)),
    Live2dPreset("Hope", "Idle_Hope", Live2dWeights(0.20, 0.30, 0.40, 0.20, 0.00, 3.0)),
    Live2dPreset("Superior", "Pose_Superior", Live2dWeights(0.18, 0.20, 0.30, 0.30, 0.00, 4.0))
  ]

  // The labels are shown pairwise distinct eight against eight, which keeps
  // each comparison of literal strings small.
  lemma EnApart00() ensures forall i, j | 0 <= i < j < 8 :: EnNames[i] != EnNames[j] {}
  lemma EnApart01() ensures forall i, j | 0 <= i < 8 && 8 <= j < 16 :: EnNames[i] != EnNames[j] {}
  lemma EnApart02() ensures forall i, j | 0 <= i < 8 && 16 <= j < 24 :: EnNames[i] != EnNames[j] {}
  lemma EnApart03() ensures forall i, j | 0 <= i < 8 && 24 <= j < 32 :: EnNames[i] != EnNames[j] {}
  lemma EnApart11() ensures forall i, j | 8 <= i < j < 16 :: EnNames[i] != EnNames[j] {}
  lemma EnApart12() ensures forall i, j | 8 <= i < 16 && 16 <= j < 24 :: EnNames[i] != EnNames[j] {}
  lemma EnApart13() ensures forall i, j | 8 <= i < 16 && 24 <= j < 32 :: EnNames[i] != EnNames[j] {}
  lemma EnApart22() ensures forall i, j | 16 <= i < j < 24 :: EnNames[i] != EnNames[j] {}
  lemma EnApart23() ensures forall i, j | 16 <= i < 24 && 24 <= j < 32 :: EnNames[i] != EnNames[j] {}
  lemma EnApart33() ensures forall i, j | 24 <= i < j < 32 :: EnNames[i] != EnNames[j] {}

  lemma EnDistinct()
    ensures Distinct(EnNames)
  {
    EnApart00(); EnApart01(); EnApart02(); EnApart03(); EnApart11();
    EnApart12(); EnApart13(); EnApart22(); EnApart23(); EnApart33();
  }

  lemma JaApart00() ensures forall i, j | 0 <= i < j < 8 :: JaNames[i] != JaNames[j] {}
  lemma JaApart01() ensures forall i, j | 0 <= i < 8 && 8 <= j < 16 :: JaNames[i] != JaNames[j] {}
  lemma JaApart02() ensures forall i, j | 0 <= i < 8 && 16 <= j < 24 :: JaNames[i] != JaNames[j] {}
  lemma JaApart03() ensures forall i, j | 0 <= i < 8 && 24 <= j < 32 :: JaNames[i] != JaNames[j] {}
  lemma JaApart11() ensures forall i, j | 8 <= i < j < 16 :: JaNames[i] != JaNames[j] {}
  lemma JaApart12() ensures forall i, j | 8 <= i < 16 && 16 <= j < 24 :: JaNames[i] != JaNames[j] {}
  lemma JaApart13() ensures forall i, j | 8 <= i < 16 && 24 <= j < 32 :: JaNames[i] != JaNames[j] {}
  lemma JaApart22() ensures forall i, j | 16 <= i < j < 24 :: JaNames[i] != JaNames[j] {}
  lemma JaApart23() ensures forall i, j | 16 <= i < 24 && 24 <= j < 32 :: JaNames[i] != JaNames[j] {}
  lemma JaApart33() ensures forall i, j | 24 <= i < j < 32 :: JaNames[i] != JaNames[j] {}

  lemma JaDistinct()
    ensures Distinct(JaNames)
  {
    JaApart00(); JaApart01(); JaApart02(); JaApart03(); JaApart11();
    JaApart12(); JaApart13(); JaApart22(); JaApart23(); JaApart33();
  }

  lemma NamesDistinct()
    ensures |EnNames| == |JaNames| == 32
    ensures Distinct(EnNames) && Distinct(JaNames)
  {
    EnDistinct();
    JaDistinct();
  }

  lemma EmotionMapValues()
    ensures DistinctValues(EmotionMap())
    ensures Values(EmotionMap()) == JaNames
  {
    JaDistinct();
  }

  /** `emotion_map` */
  function EmotionMap(): Dict<string, string> {
    NamesDistinct();
    FromParallel(EnNames, JaNames)
  }

  /** `emotion_map_reverse`, the comprehension at module/params.py:55. */
  function EmotionMapReverse(): Dict<string, string> {
    Invert(EmotionMap())
  }

  /** `emotion_map` has 32 entries whose Japanese values are pairwise
      distinct, so `emotion_map_reverse` keeps all 32 values as keys, and
      undoes `emotion_map` in both directions (the next two lemmas). */
  lemma ReverseKeys()
    ensures |EmotionMap().keys| == 32 && DistinctValues(EmotionMap())
    ensures EmotionMapReverse().keys == JaNames
  {
    NamesDistinct();
    EmotionMapValues();
    InvertSpec(EmotionMap());
  }

  lemma ReverseValid()
    ensures Valid(EmotionMapReverse())
  {
    EmotionMapValues();
    InvertSpec(EmotionMap());
  }

  lemma ReverseUndoes()
    ensures forall en | en in EmotionMap().vals ::
      EmotionMap().vals[en] in EmotionMapReverse().vals && EmotionMapReverse().vals[EmotionMap().vals[en]] == en
  {
    EmotionMapValues();
    InvertSpec(EmotionMap());
  }

  lemma ReverseUndone()
    ensures forall ja | ja in EmotionMapReverse().vals ::
      EmotionMapReverse().vals[ja] in EmotionMap().vals && EmotionMap().vals[EmotionMapReverse().vals[ja]] == ja
  {
    EmotionMapValues();
    InvertSpec(EmotionMap());
  }

  /** The English and Japanese label sets as sets. */
  lemma LabelMembership()
    ensures forall en | en in EmotionMap().vals :: en in EnNames
    ensures forall ja | ja in EmotionMapReverse().vals :: ja in JaNames
  {
    ReverseKeys();
    ReverseUndone();
  }

  /** `voicevox_emotion_map` */
  function VoicevoxEmotionMap(): Dict<string, VoicePreset> {
    VoiceKeysMatch();
    FromParallel(VoiceKeys, VoicePresets)
  }

  lemma VoiceKeysMatch()
    ensures VoiceKeys == EnNames && |VoicePresets| == |EnNames|
    ensures Distinct(VoiceKeys)
  {
    NamesDistinct();
  }

  /** `voicevox_emotion_map` has exactly the keys of `emotion_map`, in the
      same order, each with its four scales. */
  lemma VoicevoxKeys()
    ensures VoicevoxEmotionMap().keys == EmotionMap().keys
    ensures forall en :: en in VoicevoxEmotionMap().vals <==> en in EmotionMap().vals
  {
    VoiceKeysMatch();
  }

  /** `live2d_emotion_map` */
  function Live2dEmotionMap(): Dict<string, Live2dPreset> {
    Live2dKeysMatch();
    FromParallel(Live2dKeys, Live2dPresets)
  }

  lemma Live2dKeysMatch()
    ensures Live2dKeys == EnNames && |Live2dPresets| == |EnNames|
    ensures Distinct(Live2dKeys)
  {
    NamesDistinct();
  }

  /** Mouth, eye and brow weights lie in [0, 1]; the body angle in [-10, 10]. */
  predicate WeightsInRange(w: Live2dWeights) {
    && 0.0 <= w.mouthOpen <= 1.0 && 0.0 <= w.eyeSmile <= 1.0 && 0.0 <= w.eyeOpen <= 1.0
    && 0.0 <= w.browUp <= 1.0 && 0.0 <= w.browDown <= 1.0
    && -10.0 <= w.bodyAngleX <= 10.0
  }

  lemma Live2dPresetsInRange()
    ensures forall i | 0 <= i < |Live2dPresets| :: WeightsInRange(Live2dPresets[i].w)
  {
  }

  /** `live2d_emotion_map` has exactly the keys of `emotion_map`, and every
      preset keeps its weights inside the documented ranges. */
  lemma Live2dTable()
    ensures Live2dEmotionMap().keys == EmotionMap().keys
    ensures forall en | en in Live2dEmotionMap().vals :: WeightsInRange(Live2dEmotionMap().vals[en].w)
  {
    Live2dKeysMatch();
    Live2dPresetsInRange();
    var m := Live2dEmotionMap();
    forall en | en in m.vals ensures WeightsInRange(m.vals[en].w) {
      var i :| 0 <= i < |Live2dKeys| && Live2dKeys[i] == en;
    }
  }

  /** Each `VOICEVOX_CLIP` range is non-empty. */
  lemma ClipRangesOrdered()
    ensures PitchClip.lo < PitchClip.hi && SpeedClip.lo < SpeedClip.hi
    ensures IntonationClip.lo < IntonationClip.hi && VolumeClip.lo < VolumeClip.hi
  {
  }

  lemma TopNPositive()
    ensures TopNVoicevox == 5 && TopNLive2d == 4 && EmotionThreshold == 10
  {
  }
}
