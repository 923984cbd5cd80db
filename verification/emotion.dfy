/** The keyword emotion detector (Backend/src/services/emotion.service.js). */
module EmotionService {
  import opened Wrappers
  import opened Schema
  import opened Seqs
  import opened Text

  datatype Intensity = LowIntensity | MediumIntensity | HighIntensity

  function IntensityName(i: Intensity): string {
    match i
    case LowIntensity => "low"
    case MediumIntensity => "medium"
    case HighIntensity => "high"
  }

  /** The detector's answer. `confidence` is the exact rational 0.8 or 0.5. */
  datatype EmotionResult = EmotionResult(emotion: Label, confidence: real, intensity: Intensity, rawLabel: Label)

  /** The categories in the table's declaration order (the iteration order of
      `Object.entries`). */
  const Order: seq<Label> := [Happy, Sad, Lonely, Angry, Anxious, Confused]

  /** The keyword list of each category; neutral has none. */
  function Keywords(l: Label): seq<string> {
    match l
    case Happy => ["happy", "joy", "excited", "great", "awesome", "wonderful", "love", "amazing", "good", "glad"]
    case Sad => ["sad", "unhappy", "depressed", "down", "miserable", "grief", "disappointed", "upset"]
    case Lonely => ["lonely", "alone", "isolated", "abandoned"]
    case Angry => ["angry", "mad", "furious", "annoyed", "irritated", "hate", "frustrated"]
    case Anxious => ["anxious", "worried", "nervous", "stressed", "scared", "afraid", "fear"]
    case Confused => ["confused", "unsure", "lost", "puzzled", "don't understand"]
    case Neutral => []
  }

  /** The position of a non-neutral label in the table. */
  function IndexOf(l: Label): (i: nat)
    requires l != Neutral
    ensures i < |Order| && Order[i] == l
  {
    match l
    case Happy => 0
    case Sad => 1
    case Lonely => 2
    case Angry => 3
    case Anxious => 4
    case Confused => 5
  }

  /** The six non-neutral labels, each once, make up the table. */
  lemma OrderShape()
    ensures |Order| == 6
    ensures forall i :: 0 <= i < |Order| ==> Order[i] != Neutral
    ensures forall i, j :: 0 <= i < j < |Order| ==> Order[i] != Order[j]
    ensures forall l: Label :: l != Neutral <==> l in Order
  {
  }

  /** No keyword is listed twice in a category, and none is empty. */
  lemma KeywordsShape(l: Label)
    ensures NoDups(Keywords(l))
    ensures "" !in Keywords(l)
  {
  }

  /** The filter's callback `keyword => lowerText.includes(keyword)`. */
  function Occurs(lower: string): string -> bool {
    k => Contains(lower, k)
  }

  /** The score of a category: how many of its keywords occur in the lower-cased
      text (`keywords.filter(...).length`). */
  function Score(lower: string, l: Label): nat {
    |Filter(Keywords(l), Occurs(lower))|
  }

  /** The scores of the table's categories, in table order. */
  function Scores(lower: string): (ss: seq<nat>)
    ensures |ss| == |Order|
    ensures forall i :: 0 <= i < |Order| ==> ss[i] == Score(lower, Order[i])
  {
    seq(|Order|, i requires 0 <= i < |Order| => Score(lower, Order[i]))
  }

  /** The loop over the table: only a strictly greater score replaces the
      current winner, which starts as (neutral, 0). */
  function Pick(ss: seq<nat>, i: nat, best: Label, bestScore: nat): (r: (Label, nat))
    requires |ss| == |Order| && i <= |Order|
    decreases |Order| - i
  {
    if i == |Order| then (best, bestScore)
    else if ss[i] > bestScore then Pick(ss, i + 1, Order[i], ss[i])
    else Pick(ss, i + 1, best, bestScore)
  }

  /** `detectEmotion(text)`. */
  function Detect(text: string): (r: EmotionResult)
    ensures r.rawLabel == r.emotion
  {
    var picked := Pick(Scores(ToLower(text)), 0, Neutral, 0);
    var winner := picked.0;
    var maxScore := picked.1;
    EmotionResult(
      winner,
      if maxScore > 0 then 0.8 else 0.5,
      if maxScore > 2 then HighIntensity else if maxScore > 0 then MediumIntensity else LowIntensity,
      winner)
  }

  // ---------------------------------------------------------------- reference characterisation

  /** The largest of the first `n` scores, or 0. */
  function MaxUpTo(ss: seq<nat>, n: nat): (m: nat)
    requires n <= |ss|
    ensures forall i :: 0 <= i < n ==> ss[i] <= m
    ensures m == 0 || exists i :: 0 <= i < n && ss[i] == m
  {
    if n == 0 then 0
    else if ss[n - 1] > MaxUpTo(ss, n - 1) then ss[n - 1]
    else MaxUpTo(ss, n - 1)
  }

  /** The maximal category score of a lower-cased text. */
  function MaxScore(lower: string): nat {
    MaxUpTo(Scores(lower), |Order|)
  }

  /** Position `i` wins: its score is the positive maximum `m` and every earlier score is smaller. */
  ghost predicate Wins(ss: seq<nat>, i: nat, m: nat)
    requires i < |ss|
  {
    m > 0 && ss[i] == m && forall j :: 0 <= j < i ==> ss[j] < m
  }

  /** The loop's state after the first `n` categories. */
  ghost predicate PickInvariant(ss: seq<nat>, n: nat, best: Label, bestScore: nat)
    requires |ss| == |Order| && n <= |Order|
  {
    && bestScore == MaxUpTo(ss, n)
    && (best == Neutral <==> bestScore == 0)
    && (best != Neutral ==> exists i :: 0 <= i < n && Order[i] == best && Wins(ss, i, bestScore))
  }

  /** No entry of the table is neutral. */
  lemma OrderNotNeutral(i: nat)
    requires i < |Order|
    ensures Order[i] != Neutral
  {
    OrderShape();
  }

  /** A strictly greater score takes over. */
  lemma PickStepGreater(ss: seq<nat>, n: nat, best: Label, bestScore: nat)
    requires |ss| == |Order| && n < |Order|
    requires PickInvariant(ss, n, best, bestScore) && ss[n] > bestScore
    ensures PickInvariant(ss, n + 1, Order[n], ss[n])
  {
    OrderNotNeutral(n);
    assert MaxUpTo(ss, n + 1) == ss[n];
    assert Wins(ss, n, ss[n]);
  }

  /** A score no greater than the current one leaves the winner in place. */
  lemma PickStepKeep(ss: seq<nat>, n: nat, best: Label, bestScore: nat)
    requires |ss| == |Order| && n < |Order|
    requires PickInvariant(ss, n, best, bestScore) && ss[n] <= bestScore
    ensures PickInvariant(ss, n + 1, best, bestScore)
  {
    assert MaxUpTo(ss, n + 1) == bestScore;
    if best != Neutral {
      var i :| 0 <= i < n && Order[i] == best && Wins(ss, i, bestScore);
      assert Wins(ss, i, bestScore);
    }
  }

  lemma {:induction false} PickCorrect(ss: seq<nat>, n: nat, best: Label, bestScore: nat)
    requires |ss| == |Order| && n <= |Order|
    requires PickInvariant(ss, n, best, bestScore)
    ensures PickInvariant(ss, |Order|, Pick(ss, n, best, bestScore).0, Pick(ss, n, best, bestScore).1)
    decreases |Order| - n
  {
    if n < |Order| {
      if ss[n] > bestScore {
        PickStepGreater(ss, n, best, bestScore);
        PickCorrect(ss, n + 1, Order[n], ss[n]);
      } else {
        PickStepKeep(ss, n, best, bestScore);
        PickCorrect(ss, n + 1, best, bestScore);
      }
    }
  }

  /** No keyword is counted exactly when none occurs. */
  lemma CountZero(lower: string, ks: seq<string>)
    ensures |Filter(ks, Occurs(lower))| == 0 <==> forall k :: k in ks ==> !Contains(lower, k)
  {
    var f := Filter(ks, Occurs(lower));
    if |f| > 0 {
      assert f[0] in f;
    }
  }

  /** The distinct keywords of `ks` that occur in the lower-cased text. */
  ghost function Present(lower: string, ks: seq<string>): set<string> {
    set k | k in ks && Contains(lower, k)
  }

  /** For a duplicate-free keyword list, the count is the number of distinct keywords present. */
  lemma CountDistinct(lower: string, ks: seq<string>)
    requires NoDups(ks)
    ensures |Filter(ks, Occurs(lower))| == |Present(lower, ks)|
  {
    var p := Occurs(lower);
    FilterCardinality(ks, p);
    assert KeptSet(ks, p) == Present(lower, ks) by {
      forall k
        ensures k in KeptSet(ks, p) <==> k in Present(lower, ks)
      {
        assert p(k) == Contains(lower, k);
      }
    }
  }

  /** None of the keywords of category `l` occurs in the lower-cased text. */
  predicate NoKeyword(lower: string, l: Label) {
    forall k :: k in Keywords(l) ==> !Contains(lower, k)
  }

  /** A category scores zero exactly when none of its keywords occurs. */
  lemma ScoreZero(lower: string, l: Label)
    ensures Score(lower, l) == 0 <==> NoKeyword(lower, l)
  {
    CountZero(lower, Keywords(l));
  }

  /** The score counts distinct keywords present, however often each occurs. */
  lemma ScoreCountsDistinctKeywords(lower: string, l: Label)
    ensures Score(lower, l) == |Present(lower, Keywords(l))|
  {
    KeywordsShape(l);
    CountDistinct(lower, Keywords(l));
  }

  /** Every category's score is at most the maximal score. */
  lemma ScoreBelowMax(lower: string, l: Label)
    ensures Score(lower, l) <= MaxScore(lower)
  {
    if l != Neutral {
      assert Scores(lower)[IndexOf(l)] == Score(lower, l);
    }
  }

  /** The maximal score is zero exactly when no keyword of any category occurs. */
  lemma MaxScoreZero(lower: string)
    ensures MaxScore(lower) == 0 <==> forall l :: NoKeyword(lower, l)
  {
    var ss := Scores(lower);
    if MaxScore(lower) == 0 {
      forall l
        ensures NoKeyword(lower, l)
      {
        ScoreBelowMax(lower, l);
        ScoreZero(lower, l);
      }
    } else {
      var i :| 0 <= i < |Order| && ss[i] == MaxScore(lower);
      ScoreZero(lower, Order[i]);
    }
  }

  /** The loop ends holding the maximal score and its first holder (or neutral). */
  lemma DetectPicks(text: string)
    ensures var lower := ToLower(text);
            var picked := Pick(Scores(lower), 0, Neutral, 0);
            PickInvariant(Scores(lower), |Order|, picked.0, picked.1)
  {
    PickCorrect(Scores(ToLower(text)), 0, Neutral, 0);
  }

  /** What `detectEmotion` returns, stated against the scores: the label is
      neutral exactly when no keyword of any category occurs; otherwise it is the
      first category in table order with the maximal score; confidence and
      intensity follow the maximal score's thresholds. */
  lemma {:induction false} DetectSpec(text: string)
    ensures var lower := ToLower(text);
            var r := Detect(text);
            var m := MaxScore(lower);
            && (r.emotion == Neutral <==> m == 0)
            && (m == 0 <==> forall l :: NoKeyword(lower, l))
            && (forall l :: Score(lower, l) <= m)
            && (r.emotion != Neutral ==> exists i :: 0 <= i < |Order| && Order[i] == r.emotion && Wins(Scores(lower), i, m))
            && (r.confidence == if m > 0 then 0.8 else 0.5)
            && (r.intensity == if m > 2 then HighIntensity else if m > 0 then MediumIntensity else LowIntensity)
  {
    var lower := ToLower(text);
    DetectPicks(text);
    MaxScoreZero(lower);
    forall l
      ensures Score(lower, l) <= MaxScore(lower)
    {
      ScoreBelowMax(lower, l);
    }
  }

  /** The winner is unique: two positions cannot both win. */
  lemma WinnerUnique(ss: seq<nat>, i: nat, j: nat, m: nat)
    requires i < |ss| && j < |ss|
    requires Wins(ss, i, m) && Wins(ss, j, m)
    ensures i == j
  {
  }

  /** The result does not depend on the case of the input. */
  lemma DetectCaseInsensitive(text: string)
    ensures Detect(ToLower(text)) == Detect(text)
  {
    ToLowerIdempotent(text);
  }

  /** The empty message is neutral with confidence 0.5 and low intensity. */
  lemma DetectEmpty()
    ensures Detect("") == EmotionResult(Neutral, 0.5, LowIntensity, Neutral)
  {
    DetectSpec("");
    assert ToLower("") == "";
    forall l
      ensures NoKeyword("", l)
    {
      KeywordsShape(l);
      forall k | k in Keywords(l)
        ensures !Contains("", k)
      {
        ContainsInEmpty(k);
      }
    }
  }

  /** The label is always one of the seven names the Message schema accepts. */
  lemma DetectLabelStorable(text: string)
    ensures ParseLabel(LabelName(Detect(text).emotion)) == Some(Detect(text).emotion)
  {
    LabelRoundTrip(Detect(text).emotion, "");
  }
}
