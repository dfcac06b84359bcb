/** The focus score formula and its reading: `calculate_focus_score` and
    `interpret_score` in focus_analyzer.py. The exponential base score
    `100 * exp(-k * switches_per_hour)` is taken as a given number. */
module FocusScore {
  import opened Numeric

  /** `min(20, median_session_min)`: the bonus for long sessions, capped at 20. */
  function SessionBonus(medianMin: real): (bonus: real)
    ensures bonus <= 20.0 && bonus <= medianMin
    ensures bonus == 20.0 || bonus == medianMin
  {
    if medianMin < 20.0 then medianMin else 20.0
  }

  /** The unclamped score: base, plus the session bonus, minus 5 points per unit
      of entropy. */
  function RawScore(base: real, medianMin: real, entropy: real): (raw: real)
    ensures raw <= base + 20.0 - entropy * 5.0
    ensures medianMin >= 20.0 ==> raw == base + 20.0 - entropy * 5.0
    ensures medianMin >= 0.0 ==> raw >= base - entropy * 5.0
    ensures medianMin < 20.0 ==> raw == base + medianMin - entropy * 5.0
  {
    base + SessionBonus(medianMin) - entropy * 5.0
  }

  /** `max(0, min(100, int(round(score))))`. The result is 0 exactly when the raw
      score rounds to 0 or below (ties go to even, so 0.5 gives 0), and 100
      exactly when it rounds to 100 or above (99.5 gives 100). */
  function ClampScore(raw: real): (score: int)
    ensures 0 <= score <= 100
    ensures score == 0 <==> raw <= 1.0 / 2.0
    ensures score == 100 <==> raw >= 199.0 / 2.0
    ensures 0 < score < 100 ==> -1.0 / 2.0 <= score as real - raw <= 1.0 / 2.0
    ensures 0 < score < 100 && (score as real - raw == 1.0 / 2.0 || raw - score as real == 1.0 / 2.0)
            ==> score % 2 == 0
  {
    var rounded := RoundHalfEven(raw);
    if rounded < 0 then 0 else if rounded > 100 then 100 else rounded
  }

  /** Clamping before rounding gives the same score as the source's rounding
      before clamping, because the bounds 0 and 100 are integers. */
  lemma ClampBeforeRoundAgrees(raw: real)
    ensures ClampScore(raw) == RoundHalfEven(if raw < 0.0 then 0.0 else if raw > 100.0 then 100.0 else raw)
  {
    if raw < 0.0 {
      RoundHalfEvenMonotone(raw, 0.0);
      RoundHalfEvenOfInt(0);
    } else if raw > 100.0 {
      RoundHalfEvenMonotone(100.0, raw);
      RoundHalfEvenOfInt(100);
    }
  }

  /** `calculate_focus_score` with the exponential base score passed in. */
  function FocusScoreOf(base: real, medianMin: real, entropy: real): (score: int)
    ensures 0 <= score <= 100
  {
    ClampScore(RawScore(base, medianMin, entropy))
  }

  /** The score never falls when the base score or the median session rises, or
      when the entropy falls. Since the base score falls as the switch rate rises,
      the score is non-increasing in the switch rate. */
  lemma FocusScoreMonotone(base1: real, base2: real, median1: real, median2: real,
                           entropy1: real, entropy2: real)
    requires base1 <= base2 && median1 <= median2 && entropy2 <= entropy1
    ensures FocusScoreOf(base1, median1, entropy1) <= FocusScoreOf(base2, median2, entropy2)
  {
    RoundHalfEvenMonotone(RawScore(base1, median1, entropy1), RawScore(base2, median2, entropy2));
  }

  /** The five readings of a score. */
  datatype Band = DeepWork | GoodFocus | Moderate | Fragmented | SevereFragmentation

  /** The score range each band stands for; the cut points are 80, 60, 40 and 20. */
  predicate InBand(band: Band, score: int) {
    match band
    case DeepWork => 80 <= score
    case GoodFocus => 60 <= score < 80
    case Moderate => 40 <= score < 60
    case Fragmented => 20 <= score < 40
    case SevereFragmentation => score < 20
  }

  /** `interpret_score`: the first band, from the top, whose lower cut point the
      score reaches. */
  function Interpret(score: int): (band: Band)
    ensures InBand(band, score)
  {
    if score >= 80 then DeepWork
    else if score >= 60 then GoodFocus
    else if score >= 40 then Moderate
    else if score >= 20 then Fragmented
    else SevereFragmentation
  }

  /** The bands do not overlap, so every integer lies in exactly one of them. */
  lemma BandsDisjoint(b1: Band, b2: Band, score: int)
    requires InBand(b1, score) && InBand(b2, score)
    ensures b1 == b2
  {
  }

  /** `Interpret(score) == band` exactly when the score lies in that band's range. */
  lemma InterpretIffInBand(score: int, band: Band)
    ensures Interpret(score) == band <==> InBand(band, score)
  {
    if InBand(band, score) {
      BandsDisjoint(band, Interpret(score), score);
    }
  }

  /** Bands ordered from worst to best. */
  function Rank(band: Band): nat {
    match band
    case SevereFragmentation => 0
    case Fragmented => 1
    case Moderate => 2
    case GoodFocus => 3
    case DeepWork => 4
  }

  /** A higher score never gets a worse reading. */
  lemma InterpretMonotone(s1: int, s2: int)
    requires s1 <= s2
    ensures Rank(Interpret(s1)) <= Rank(Interpret(s2))
  {
  }

  /** The text shown for each band (the source prefixes each with an emoji). */
  function Message(band: Band): string {
    match band
    case DeepWork => "Deep Work Machine - Excellent focus!"
    case GoodFocus => "Good Focus - Solid work session"
    case Moderate => "Moderate - Some fragmentation"
    case Fragmented => "Fragmented - Many context switches"
    case SevereFragmentation => "Severe Fragmentation - Dopamine detox needed"
  }

  /** Each band has its own text, so the message tells the reading apart. */
  lemma MessagesDistinct(b1: Band, b2: Band)
    ensures Message(b1) == Message(b2) <==> b1 == b2
  {
    if b1 != b2 {
      assert Message(DeepWork)[0] == 'D';
      assert Message(GoodFocus)[0] == 'G';
      assert Message(Moderate)[0] == 'M';
      assert Message(Fragmented)[0] == 'F';
      assert Message(SevereFragmentation) == "Severe Fragmentation - Dopamine detox needed";
      assert Message(SevereFragmentation)[0] == 'S';
      assert Message(b1)[0] != Message(b2)[0];
    }
  }
}
