/** The arithmetic tail of `analyze_focus_for_date` and the neutral default of
    `get_focus_score_for_date` in focus_analyzer.py. The exponential base score
    and the Shannon entropy are computed by functions passed in. */
module FocusAnalysis {
  import opened Wrappers
  import opened Debouncer
  import opened Statistics
  import opened FocusScore

  /** `NOISE_THRESHOLD_SEC` of config.py: runs shorter than this are noise. */
  const NoiseThresholdSec: real := 5.0

  /** The score reported for a day without data. */
  const NeutralScore: int := 50

  /** The metrics record of one day. */
  datatype FocusMetrics = FocusMetrics(
    medianSessionMin: real,
    switchesPerHour: real,
    shannonEntropy: real,
    totalSessions: nat,
    totalTimeMin: real,
    focusScore: int)

  /** Context switches per active hour: the number of transitions between
      sessions divided by the active hours, or 0 when there are no active hours. */
  function SwitchesPerHour(sessionCount: nat, totalSec: real): (rate: real)
    ensures totalSec > 0.0 ==> rate * (totalSec / 3600.0) == sessionCount as real - 1.0
    ensures totalSec <= 0.0 ==> rate == 0.0
    ensures sessionCount == 1 ==> rate == 0.0
    ensures sessionCount >= 1 ==> rate >= 0.0
  {
    var hours := totalSec / 3600.0;
    if hours > 0.0 then (sessionCount as real - 1.0) / hours else 0.0
  }

  /** `[d / 60 for d in durations_sec]`. */
  function DurationsInMinutes(sessions: seq<Run>): (minutes: seq<real>)
    ensures |minutes| == |sessions|
    ensures forall k :: 0 <= k < |sessions| ==> minutes[k] * 60.0 == sessions[k].duration
  {
    seq(|sessions|, k requires 0 <= k < |sessions| => sessions[k].duration / 60.0)
  }

  /** `get_window_events_for_date`: no events when there is no window bucket,
      otherwise the AFK-filtered events of the day. */
  function WindowEventsForDate(windowBucket: Option<string>, filtered: seq<Event>): (events: seq<Event>)
    ensures windowBucket.None? ==> events == []
    ensures windowBucket.Some? ==> events == filtered
  {
    if windowBucket.None? then [] else filtered
  }

  /** The metrics of a non-empty list of sessions: the tail of
      `analyze_focus_for_date` after de-bouncing. `None` when there is no
      session. */
  function SessionMetrics(sessions: seq<Run>, baseScore: real -> real,
                          entropyOf: seq<Run> -> real): (r: Option<FocusMetrics>)
    ensures r.None? <==> sessions == []
    ensures r.Some? ==>
      && r.value.totalSessions == |sessions|
      && r.value.totalTimeMin * 60.0 == RunsTotal(sessions)
      && r.value.switchesPerHour >= 0.0
      && (|sessions| == 1 ==> r.value.switchesPerHour == 0.0)
      && 0 <= r.value.focusScore <= 100
    ensures r.Some? ==>
      && r.value.switchesPerHour == SwitchesPerHour(|sessions|, RunsTotal(sessions))
      && r.value.medianSessionMin == Median(DurationsInMinutes(sessions))
      && r.value.shannonEntropy == entropyOf(sessions)
      && r.value.focusScore == FocusScoreOf(baseScore(r.value.switchesPerHour),
                                            r.value.medianSessionMin, r.value.shannonEntropy)
  {
    if sessions == [] then None
    else
      var totalSec := RunsTotal(sessions);
      var medianMin := Median(DurationsInMinutes(sessions));
      var rate := SwitchesPerHour(|sessions|, totalSec);
      var entropy := entropyOf(sessions);
      Some(FocusMetrics(
        medianSessionMin := medianMin,
        switchesPerHour := rate,
        shannonEntropy := entropy,
        totalSessions := |sessions|,
        totalTimeMin := totalSec / 60.0,
        focusScore := FocusScoreOf(baseScore(rate), medianMin, entropy)))
  }

  /** `analyze_focus_for_date` once the day's events are known: `None` when there
      are no events or no session survives de-bouncing, otherwise the metrics of
      the sessions. */
  function AnalyzeFocus(events: seq<Event>, threshold: real,
                        baseScore: real -> real, entropyOf: seq<Run> -> real): (r: Option<FocusMetrics>)
    ensures r.None? <==> events == [] || Debounce(events, threshold) == []
    ensures r.Some? ==> r.value.totalSessions == |Debounce(events, threshold)|
    ensures r.Some? ==> r == SessionMetrics(Debounce(events, threshold), baseScore, entropyOf)
  {
    if events == [] then None
    else SessionMetrics(Debounce(events, threshold), baseScore, entropyOf)
  }

  /** `get_focus_score_for_date`: the day's score, or 50 when there is no data. */
  function FocusScoreForDate(windowBucket: Option<string>, filtered: seq<Event>, threshold: real,
                             baseScore: real -> real, entropyOf: seq<Run> -> real): (score: int)
    ensures 0 <= score <= 100
    ensures windowBucket.None? ==> score == NeutralScore
    ensures AnalyzeFocus(WindowEventsForDate(windowBucket, filtered), threshold, baseScore, entropyOf).None?
            ==> score == NeutralScore
    ensures AnalyzeFocus(WindowEventsForDate(windowBucket, filtered), threshold, baseScore, entropyOf).Some?
            ==> score == AnalyzeFocus(WindowEventsForDate(windowBucket, filtered), threshold, baseScore, entropyOf)
                         .value.focusScore
  {
    match AnalyzeFocus(WindowEventsForDate(windowBucket, filtered), threshold, baseScore, entropyOf)
    case Some(metrics) => metrics.focusScore
    case None => NeutralScore
  }

  /** The median session length lies between the shortest and the longest
      session, in minutes. */
  lemma MedianWithinSessions(sessions: seq<Run>, baseScore: real -> real, entropyOf: seq<Run> -> real)
    requires sessions != []
    ensures var m := SessionMetrics(sessions, baseScore, entropyOf).value;
            (exists i :: 0 <= i < |sessions| && sessions[i].duration <= m.medianSessionMin * 60.0) &&
            (exists j :: 0 <= j < |sessions| && m.medianSessionMin * 60.0 <= sessions[j].duration)
  {
    var minutes := DurationsInMinutes(sessions);
    MedianBetweenExtremes(minutes);
    var m := Median(minutes);
    var i :| 0 <= i < |minutes| && minutes[i] <= m;
    var j :| 0 <= j < |minutes| && m <= minutes[j];
    assert sessions[i].duration <= m * 60.0;
    assert m * 60.0 <= sessions[j].duration;
  }

  /** The events of a day in which a 4 s chat message interrupts an hour of IDE. */
  function InterruptedHour(): seq<Event> {
    [Event(Some("09:00:00"), Some("IDE"), Some(1800.0)),
     Event(Some("09:30:00"), Some("Chat"), Some(4.0)),
     Event(Some("09:30:04"), Some("IDE"), Some(1800.0))]
  }

  /** The timestamps are in order: they first differ at the minutes' tens digit
      and at the seconds' units digit. */
  lemma InterruptedHourChronological()
    ensures Text.LexLe("09:00:00", "09:30:00") && Text.LexLe("09:30:00", "09:30:04")
  {
    Text.LexLeAtFirstDifference("09:00:00", "09:30:00", 3);
    Text.LexLeAtFirstDifference("09:30:00", "09:30:04", 7);
  }

  /** The chat message is absorbed: the day is one IDE session of 3604 s. */
  lemma InterruptedHourSessions()
    ensures Debounce(InterruptedHour(), NoiseThresholdSec) == [Run("IDE", 3604.0)]
  {
    InterruptedHourChronological();
    SandwichedEvents("09:00:00", "09:30:00", "09:30:04", "IDE", "Chat",
                     1800.0, 4.0, 1800.0, NoiseThresholdSec);
  }

  /** A single session of `d` seconds means no switches, a median and a
      total of `d / 60` minutes, and the score the formula gives for a zero
      switch rate. */
  lemma SingleSessionMetrics(app: string, d: real, baseScore: real -> real, entropyOf: seq<Run> -> real)
    ensures SessionMetrics([Run(app, d)], baseScore, entropyOf)
            == Some(FocusMetrics(d / 60.0, 0.0, entropyOf([Run(app, d)]), 1, d / 60.0,
                                 FocusScoreOf(baseScore(0.0), d / 60.0, entropyOf([Run(app, d)]))))
  {
    SingleSessionMedian(app, d);
    assert RunsTotal([Run(app, d)]) == d;
  }

  lemma SingleSessionMedian(app: string, d: real)
    ensures Median(DurationsInMinutes([Run(app, d)])) == d / 60.0
  {
    var minutes := DurationsInMinutes([Run(app, d)]);
    assert minutes == [d / 60.0];
    assert Ascending(minutes);
    MedianOfAscending(minutes);
  }

  /** With no entropy and a full base score of 100 at zero switches, the
      interrupted hour has no switches, a median of 3604/60 minutes and a score
      clamped to 100. */
  lemma InterruptedHourMetrics(baseScore: real -> real, entropyOf: seq<Run> -> real)
    requires baseScore(0.0) == 100.0
    requires entropyOf([Run("IDE", 3604.0)]) == 0.0
    ensures AnalyzeFocus(InterruptedHour(), NoiseThresholdSec, baseScore, entropyOf)
            == Some(FocusMetrics(3604.0 / 60.0, 0.0, 0.0, 1, 3604.0 / 60.0, 100))
  {
    InterruptedHourSessions();
    SingleSessionMetrics("IDE", 3604.0, baseScore, entropyOf);
    assert RawScore(100.0, 3604.0 / 60.0, 0.0) == 120.0;
  }

  /** No window bucket, or no events, means no metrics and the neutral score. */
  lemma NoDataIsNeutral(filtered: seq<Event>, threshold: real,
                        baseScore: real -> real, entropyOf: seq<Run> -> real)
    ensures AnalyzeFocus([], threshold, baseScore, entropyOf) == None
    ensures FocusScoreForDate(Some("aw-watcher-window_host"), [], threshold, baseScore, entropyOf) == NeutralScore
    ensures FocusScoreForDate(None, filtered, threshold, baseScore, entropyOf) == NeutralScore
  {
  }
}
