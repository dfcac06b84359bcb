/** The pure parts of activitywatch_client.py: picking a bucket by id prefix,
    the three filtered duration sums, and the conversion of seconds to whole
    minutes. The HTTP calls that list the buckets and fetch a day's events are
    replaced by their results, passed in as parameters. */
module ActivityWatch {
  import opened Wrappers
  import opened Text
  import opened Numeric

  /** The id prefixes of the window, AFK and browser watcher buckets. */
  const WindowBucketPrefix: string := "aw-watcher-window_"
  const AfkBucketPrefix: string := "aw-watcher-afk_"
  const WebBucketPrefix: string := "aw-watcher-web"

  /** `SOCIAL_APPS` of config.py: window app names counted as social networks. */
  const SocialApps: seq<string> := ["telegram-desktop", "Telegram", "org.telegram.desktop", "telegramdesktop"]

  /** `GPT_DOMAINS` of config.py: web domains counted as AI assistants. */
  const GptDomains: seq<string> :=
    ["chat.openai.com", "chatgpt.com", "gemini.google.com", "perplexity.ai",
     "www.perplexity.ai", "claude.ai", "poe.com", "bard.google.com"]

  /** `find_bucket_by_prefix`: the first bucket id, in listing order, that starts
      with `prefix`, or `None` when no id does. */
  function FindBucketByPrefix(ids: seq<string>, prefix: string): (r: Option<string>)
    ensures r.None? <==> forall k :: 0 <= k < |ids| ==> !StartsWith(ids[k], prefix)
    ensures r.Some? ==>
      exists k :: 0 <= k < |ids| && ids[k] == r.value && StartsWith(ids[k], prefix) &&
                  forall j :: 0 <= j < k ==> !StartsWith(ids[j], prefix)
  {
    if ids == [] then None
    else if StartsWith(ids[0], prefix) then Some(ids[0])
    else
      var r := FindBucketByPrefix(ids[1..], prefix);
      assert forall k :: 1 <= k < |ids| ==> ids[k] == ids[1..][k - 1];
      if r.Some? then
        ghost var k :| 0 <= k < |ids[1..]| && ids[1..][k] == r.value && StartsWith(ids[1..][k], prefix) &&
                       forall j :: 0 <= j < k ==> !StartsWith(ids[1..][j], prefix);
        assert ids[k + 1] == r.value;
        r
      else
        r
  }

  /** An event as fetched: the fields the sums read. `status` and `app` are
      `None` when missing from the event's data. `netloc` is the network location
      `urlparse` finds in the event's url ("" when there is no url), or `None`
      when `urlparse` raises. */
  datatype AwEvent = AwEvent(status: Option<string>, app: Option<string>,
                             netloc: Option<string>, duration: Option<real>)

  /** `event.get("duration", 0)`. */
  function DurationOf(e: AwEvent): real {
    e.duration.GetOr(0.0)
  }

  /** Whether some needle, lower-cased, occurs in `hay`. */
  function MatchesAny(needles: seq<string>, hay: string): (b: bool)
    ensures b <==> exists k :: 0 <= k < |needles| && IsSubstring(Lower(needles[k]), hay)
  {
    if needles == [] then false
    else if Contains(hay, Lower(needles[0])) then true
    else
      assert forall k :: 1 <= k < |needles| ==> needles[k] == needles[1..][k - 1];
      var b := MatchesAny(needles[1..], hay);
      if b then
        ghost var k :| 0 <= k < |needles[1..]| && IsSubstring(Lower(needles[1..][k]), hay);
        assert IsSubstring(Lower(needles[k + 1]), hay);
        b
      else
        b
  }

  /** The three daily sums. */
  datatype Category = Screen | Social | Gpt

  /** Whether an event counts towards a sum: screen time counts the "not-afk"
      events, social time the events whose lower-cased app contains a social
      app name, GPT time the events whose lower-cased domain contains a GPT
      domain. */
  predicate Counts(c: Category, e: AwEvent): (b: bool)
    ensures c == Social && e.app.None? ==> !b
    ensures c == Gpt && e.netloc.None? ==> !b
  {
    match c
    case Screen => e.status == Some("not-afk")
    case Social => MatchesAny(SocialApps, Lower(e.app.GetOr("")))
    case Gpt => e.netloc.Some? && MatchesAny(GptDomains, Lower(e.netloc.value))
  }

  /** The total duration of the events that count, each counted once. With
      non-negative durations it lies between 0 and the total of all events. */
  function FilteredTotal(c: Category, events: seq<AwEvent>): (total: real)
    ensures NonNegativeDurations(events) ==> 0.0 <= total <= AllTotal(events)
  {
    if events == [] then 0.0
    else
      var init := events[..|events| - 1];
      var last := events[|events| - 1];
      assert NonNegativeDurations(events) ==> NonNegativeDurations(init) by {
        if NonNegativeDurations(events) {
          forall k | 0 <= k < |init|
            ensures DurationOf(init[k]) >= 0.0
          {
            assert init[k] == events[k];
          }
        }
      }
      FilteredTotal(c, init) + (if Counts(c, last) then DurationOf(last) else 0.0)
  }

  /** The total duration of all ActivityWatch events. Its element type differs
      from the de-bouncer's `Event`, and it recurses from the end to match the
      left-to-right accumulation of the summing loops. */
  function AllTotal(events: seq<AwEvent>): real {
    if events == [] then 0.0
    else AllTotal(events[..|events| - 1]) + DurationOf(events[|events| - 1])
  }

  /** The events that count, in their order. */
  function CountedEvents(c: Category, events: seq<AwEvent>): (r: seq<AwEvent>)
    ensures forall e :: e in r <==> e in events && Counts(c, e)
    ensures forall e :: multiset(r)[e] == if Counts(c, e) then multiset(events)[e] else 0
  {
    if events == [] then []
    else
      var init := events[..|events| - 1];
      var last := events[|events| - 1];
      assert events == init + [last];
      CountedEvents(c, init) + (if Counts(c, last) then [last] else [])
  }

  /** `round(total_seconds / 60)`: whole minutes, ties to the even minute. */
  function Minutes(totalSec: real): (m: int)
    ensures -30.0 <= m as real * 60.0 - totalSec <= 30.0
    ensures (m as real * 60.0 - totalSec == 30.0 || totalSec - m as real * 60.0 == 30.0) ==> m % 2 == 0
  {
    RoundHalfEven(totalSec / 60.0)
  }

  /** Whether any needle, lower-cased, occurs in `hay`: the inner loop of the
      social and GPT sums, which stops at the first match. */
  method AnyNeedleIn(needles: seq<string>, hay: string) returns (found: bool)
    ensures found == MatchesAny(needles, hay)
  {
    found := false;
    var j := 0;
    while j < |needles|
      invariant 0 <= j <= |needles|
      invariant forall k :: 0 <= k < j ==> !IsSubstring(Lower(needles[k]), hay)
    {
      if Contains(hay, Lower(needles[j])) {
        found := true;
        return;
      }
      j := j + 1;
    }
  }

  /** The summation loop of `get_screen_time_for_date`. */
  method ScreenSeconds(events: seq<AwEvent>) returns (total: real)
    ensures total == FilteredTotal(Screen, events)
  {
    total := 0.0;
    var i := 0;
    while i < |events|
      invariant 0 <= i <= |events|
      invariant total == FilteredTotal(Screen, events[..i])
    {
      assert events[..i + 1][..i] == events[..i];
      if events[i].status == Some("not-afk") {
        total := total + DurationOf(events[i]);
      }
      i := i + 1;
    }
    assert events[..|events|] == events;
  }

  /** The summation loop of `get_social_time_for_date`. */
  method SocialSeconds(events: seq<AwEvent>) returns (total: real)
    ensures total == FilteredTotal(Social, events)
  {
    total := 0.0;
    var i := 0;
    while i < |events|
      invariant 0 <= i <= |events|
      invariant total == FilteredTotal(Social, events[..i])
    {
      assert events[..i + 1][..i] == events[..i];
      var app := Lower(events[i].app.GetOr(""));
      var hit := AnyNeedleIn(SocialApps, app);
      if hit {
        total := total + DurationOf(events[i]);
      }
      i := i + 1;
    }
    assert events[..|events|] == events;
  }

  /** The summation loop of `get_gpt_time_for_date`; an event whose url
      `urlparse` rejects is skipped. */
  method GptSeconds(events: seq<AwEvent>) returns (total: real)
    ensures total == FilteredTotal(Gpt, events)
  {
    total := 0.0;
    var i := 0;
    while i < |events|
      invariant 0 <= i <= |events|
      invariant total == FilteredTotal(Gpt, events[..i])
    {
      assert events[..i + 1][..i] == events[..i];
      match events[i].netloc {
        case None =>
        case Some(netloc) =>
          var hit := AnyNeedleIn(GptDomains, Lower(netloc));
          if hit {
            total := total + DurationOf(events[i]);
          }
      }
      i := i + 1;
    }
    assert events[..|events|] == events;
  }

  /** What goes wrong in fetching a day's figures. */
  datatype ClientError = MissingAfkBucket | MissingWindowBucket

  /** `get_screen_time_for_date`: an error without an AFK bucket, otherwise the
      "not-afk" time of the bucket's events in whole minutes. */
  method ScreenTimeForDate(bucketIds: seq<string>, events: seq<AwEvent>) returns (r: Result<int, ClientError>)
    ensures r.Failure? <==> FindBucketByPrefix(bucketIds, AfkBucketPrefix).None?
    ensures r.Failure? ==> r.error == MissingAfkBucket
    ensures r.Success? ==> r.value == Minutes(FilteredTotal(Screen, events))
  {
    if FindBucketByPrefix(bucketIds, AfkBucketPrefix).None? {
      return Failure(MissingAfkBucket);
    }
    var total := ScreenSeconds(events);
    return Success(Minutes(total));
  }

  /** `get_social_time_for_date`: an error without a window bucket, otherwise
      the social-app time of the bucket's events in whole minutes. */
  method SocialTimeForDate(bucketIds: seq<string>, events: seq<AwEvent>) returns (r: Result<int, ClientError>)
    ensures r.Failure? <==> FindBucketByPrefix(bucketIds, WindowBucketPrefix).None?
    ensures r.Failure? ==> r.error == MissingWindowBucket
    ensures r.Success? ==> r.value == Minutes(FilteredTotal(Social, events))
  {
    if FindBucketByPrefix(bucketIds, WindowBucketPrefix).None? {
      return Failure(MissingWindowBucket);
    }
    var total := SocialSeconds(events);
    return Success(Minutes(total));
  }

  /** `get_gpt_time_for_date`: 0 without a web bucket (not an error), otherwise
      the AI-assistant time of the bucket's events in whole minutes. */
  method GptTimeForDate(bucketIds: seq<string>, events: seq<AwEvent>) returns (minutes: int)
    ensures FindBucketByPrefix(bucketIds, WebBucketPrefix).None? ==> minutes == 0
    ensures FindBucketByPrefix(bucketIds, WebBucketPrefix).Some? ==> minutes == Minutes(FilteredTotal(Gpt, events))
  {
    if FindBucketByPrefix(bucketIds, WebBucketPrefix).None? {
      return 0;
    }
    var total := GptSeconds(events);
    minutes := Minutes(total);
  }

  predicate NonNegativeDurations(events: seq<AwEvent>) {
    forall k :: 0 <= k < |events| ==> DurationOf(events[k]) >= 0.0
  }

  /** Appending one event adds its duration to the plain sum. */
  lemma AllTotalSnoc(s: seq<AwEvent>, x: AwEvent)
    ensures AllTotal(s + [x]) == AllTotal(s) + DurationOf(x)
  {
    assert (s + [x])[..|s|] == s;
  }

  /** The filtered sum is the plain sum over the events that count: each
      counting event contributes its duration exactly once, however many names
      or domains it matches. */
  lemma {:induction false} FilteredTotalOfCounted(c: Category, events: seq<AwEvent>)
    ensures FilteredTotal(c, events) == AllTotal(CountedEvents(c, events))
  {
    if events != [] {
      var init := events[..|events| - 1];
      var last := events[|events| - 1];
      FilteredTotalOfCounted(c, init);
      var counted := CountedEvents(c, init);
      if Counts(c, last) {
        assert FilteredTotal(c, events) == FilteredTotal(c, init) + DurationOf(last);
        assert CountedEvents(c, events) == counted + [last];
        AllTotalSnoc(counted, last);
      } else {
        assert FilteredTotal(c, events) == FilteredTotal(c, init);
        assert CountedEvents(c, events) == counted + [];
        assert counted + [] == counted;
      }
    }
  }

  /** Whole minutes never go down when the seconds go up. */
  lemma MinutesMonotone(s1: real, s2: real)
    requires s1 <= s2
    ensures Minutes(s1) <= Minutes(s2)
  {
    RoundHalfEvenMonotone(s1 / 60.0, s2 / 60.0);
  }

  /** Ties go to the even minute: 90 s is 2 minutes and 150 s is 2 minutes too. */
  lemma MinutesTiesToEven()
    ensures Minutes(90.0) == 2 && Minutes(150.0) == 2
  {
    RoundHalfEvenUnique(3.0 / 2.0, 2);
    RoundHalfEvenUnique(5.0 / 2.0, 2);
  }
}
