/** De-bouncing of window-focus events into sessions: `debounce_events` in
    focus_analyzer.py. The pipeline is a stable sort by timestamp, a run-length
    merge of same-app events, a greedy "peek two ahead" absorption of short noise
    runs, and a final threshold filter. */
module Debouncer {
  import opened Wrappers
  import opened Text

  /** A window event as fetched. Each field may be missing from the record. */
  datatype Event = Event(timestamp: Option<string>, app: Option<string>, duration: Option<real>)

  /** A stretch of time spent in one app; after the final filter, a session. */
  datatype Run = Run(app: string, duration: real)

  /** The sort key: the timestamp string, or "" when it is missing. */
  function SortKey(e: Event): string {
    e.timestamp.GetOr("")
  }

  /** The app name, or "unknown" when it is missing. */
  function AppOf(e: Event): string {
    e.app.GetOr("unknown")
  }

  /** The duration in seconds, or 0 when it is missing. */
  function DurationOf(e: Event): real {
    e.duration.GetOr(0.0)
  }

  /** The total duration of raw events, a missing duration counting as 0. */
  function EventsTotal(s: seq<Event>): real {
    if s == [] then 0.0 else DurationOf(s[0]) + EventsTotal(s[1..])
  }

  /** The total duration of runs; `SliceTotal` below is its index-based form,
      used where the absorption pass walks a cursor (`SliceTotalSuffix` relates
      the two). */
  function RunsTotal(s: seq<Run>): real {
    if s == [] then 0.0 else s[0].duration + RunsTotal(s[1..])
  }

  lemma {:induction false} EventsTotalConcat(a: seq<Event>, b: seq<Event>)
    ensures EventsTotal(a + b) == EventsTotal(a) + EventsTotal(b)
  {
    if a != [] {
      assert (a + b)[1..] == a[1..] + b;
      EventsTotalConcat(a[1..], b);
    } else {
      assert a + b == b;
    }
  }

  lemma {:induction false} RunsTotalConcat(a: seq<Run>, b: seq<Run>)
    ensures RunsTotal(a + b) == RunsTotal(a) + RunsTotal(b)
  {
    if a != [] {
      assert (a + b)[1..] == a[1..] + b;
      RunsTotalConcat(a[1..], b);
    } else {
      assert a + b == b;
    }
  }

  predicate NonNegativeEvents(s: seq<Event>) {
    forall k :: 0 <= k < |s| ==> DurationOf(s[k]) >= 0.0
  }

  predicate NonNegativeRuns(s: seq<Run>) {
    forall k :: 0 <= k < |s| ==> s[k].duration >= 0.0
  }

  lemma {:induction false} RunsTotalNonNegative(s: seq<Run>)
    requires NonNegativeRuns(s)
    ensures RunsTotal(s) >= 0.0
  {
    if s != [] {
      RunsTotalNonNegative(s[1..]);
    }
  }

  // ---------------------------------------------------------------------------
  // Step 0: `sorted(events, key=lambda e: e.get("timestamp", ""))`, a stable sort.
  // ---------------------------------------------------------------------------

  /** Neighbouring events are in timestamp order. */
  predicate Chronological(s: seq<Event>) {
    forall i :: 0 < i < |s| ==> LexLe(SortKey(s[i - 1]), SortKey(s[i]))
  }

  /** The events of `s` whose sort key is `k`, in their order in `s`. */
  function WithKey(s: seq<Event>, k: string): seq<Event> {
    if s == [] then []
    else WithKey(s[..|s| - 1], k) + (if SortKey(s[|s| - 1]) == k then [s[|s| - 1]] else [])
  }

  /** Inserts `e` after every element of `xs` whose key is not greater than its own. */
  function Insert(xs: seq<Event>, e: Event): (r: seq<Event>)
    ensures |r| == |xs| + 1
    ensures multiset(r) == multiset(xs) + multiset{e}
    ensures r[|r| - 1] == e || (xs != [] && r[|r| - 1] == xs[|xs| - 1])
  {
    if xs == [] then [e]
    else if LexLe(SortKey(xs[|xs| - 1]), SortKey(e)) then xs + [e]
    else
      var init := xs[..|xs| - 1];
      SplitLast(xs);
      Insert(init, e) + [xs[|xs| - 1]]
  }

  lemma {:induction false} InsertChronological(xs: seq<Event>, e: Event)
    requires Chronological(xs)
    ensures Chronological(Insert(xs, e))
  {
    if xs != [] && !LexLe(SortKey(xs[|xs| - 1]), SortKey(e)) {
      var init := xs[..|xs| - 1];
      InsertChronological(init, e);
      LexLeTotal(SortKey(xs[|xs| - 1]), SortKey(e));
      var r := Insert(xs, e);
      assert r == Insert(init, e) + [xs[|xs| - 1]];
    }
  }

  /** Appending one event adds it to the events of its own key only. */
  lemma WithKeySnoc(s: seq<Event>, x: Event, k: string)
    ensures WithKey(s + [x], k) == WithKey(s, k) + (if SortKey(x) == k then [x] else [])
  {
    assert (s + [x])[..|s|] == s;
  }

  lemma {:induction false} InsertWithKey(xs: seq<Event>, e: Event, k: string)
    ensures WithKey(Insert(xs, e), k) == WithKey(xs, k) + (if SortKey(e) == k then [e] else [])
  {
    var tail := if SortKey(e) == k then [e] else [];
    if xs == [] {
      assert Insert(xs, e) == [] + [e];
      WithKeySnoc([], e, k);
    } else if LexLe(SortKey(xs[|xs| - 1]), SortKey(e)) {
      WithKeySnoc(xs, e, k);
    } else {
      var init := xs[..|xs| - 1];
      var last := xs[|xs| - 1];
      var mid := if SortKey(last) == k then [last] else [];
      InsertWithKey(init, e, k);
      assert WithKey(Insert(xs, e), k) == (WithKey(init, k) + tail) + mid by {
        assert Insert(xs, e) == Insert(init, e) + [last];
        WithKeySnoc(Insert(init, e), last, k);
      }
      assert WithKey(xs, k) == WithKey(init, k) + mid by {
        SplitLast(xs);
        WithKeySnoc(init, last, k);
      }
      assert mid == [] || tail == [] by {
        LexLeReflexive(SortKey(e));
      }
      SwapEmpty(WithKey(init, k), tail, mid);
    }
  }

  /** Two appended pieces commute when one of them is empty. */
  lemma SwapEmpty<T>(w: seq<T>, a: seq<T>, b: seq<T>)
    requires a == [] || b == []
    ensures (w + a) + b == (w + b) + a
  {
    if a == [] {
      assert w + a == w;
    } else {
      assert w + b == w;
    }
  }

  lemma {:induction false} InsertTotal(xs: seq<Event>, e: Event)
    ensures EventsTotal(Insert(xs, e)) == EventsTotal(xs) + DurationOf(e)
  {
    if xs == [] {
    } else if LexLe(SortKey(xs[|xs| - 1]), SortKey(e)) {
      EventsTotalConcat(xs, [e]);
    } else {
      var init := xs[..|xs| - 1];
      var last := xs[|xs| - 1];
      InsertTotal(init, e);
      EventsTotalConcat(Insert(init, e), [last]);
      assert xs == init + [last];
      EventsTotalConcat(init, [last]);
    }
  }

  /** Python's `sorted` by timestamp: an insertion sort. */
  function SortByTimestamp(s: seq<Event>): (r: seq<Event>)
    ensures multiset(r) == multiset(s)
    ensures |r| == |s|
    ensures Chronological(r)
    ensures EventsTotal(r) == EventsTotal(s)
  {
    if s == [] then []
    else
      var init := s[..|s| - 1];
      var last := s[|s| - 1];
      assert s == init + [last];
      var sortedInit := SortByTimestamp(init);
      InsertChronological(sortedInit, last);
      InsertTotal(sortedInit, last);
      EventsTotalConcat(init, [last]);
      Insert(sortedInit, last)
  }

  /** The sort is stable: the events sharing one timestamp keep their relative
      order. */
  lemma {:induction false} SortByTimestampStable(s: seq<Event>, k: string)
    ensures WithKey(SortByTimestamp(s), k) == WithKey(s, k)
  {
    if s != [] {
      var init := s[..|s| - 1];
      var last := s[|s| - 1];
      SortByTimestampStable(init, k);
      InsertWithKey(SortByTimestamp(init), last, k);
    }
  }

  /** An event whose key is not below the last key goes to the end. */
  lemma InsertAtEnd(xs: seq<Event>, e: Event)
    requires xs != [] ==> LexLe(SortKey(xs[|xs| - 1]), SortKey(e))
    ensures Insert(xs, e) == xs + [e]
  {
  }

  /** Events already in timestamp order are left exactly as they are. */
  lemma {:induction false} SortOfChronological(s: seq<Event>)
    requires Chronological(s)
    ensures SortByTimestamp(s) == s
  {
    if s != [] {
      var init := s[..|s| - 1];
      var last := s[|s| - 1];
      assert Chronological(init) by {
        forall i | 0 < i < |init|
          ensures LexLe(SortKey(init[i - 1]), SortKey(init[i]))
        {
          assert init[i - 1] == s[i - 1] && init[i] == s[i];
        }
      }
      SortOfChronological(init);
      InsertAtEnd(init, last);
      SplitLast(s);
    }
  }

  lemma SplitLast<T>(s: seq<T>)
    requires s != []
    ensures s == s[..|s| - 1] + [s[|s| - 1]]
  {
  }

  // ---------------------------------------------------------------------------
  // Step 1: merge consecutive events of the same app into runs.
  // ---------------------------------------------------------------------------

  /** No two neighbouring runs belong to the same app. */
  predicate NoAdjacentDup(r: seq<Run>) {
    forall i :: 0 < i < |r| ==> r[i - 1].app != r[i].app
  }

  /** The number of positions at which the app changes between neighbouring events. */
  function AppChanges(s: seq<Event>): (c: nat)
    ensures s != [] ==> c < |s|
  {
    if |s| <= 1 then 0
    else AppChanges(s[..|s| - 1]) + (if AppOf(s[|s| - 2]) != AppOf(s[|s| - 1]) then 1 else 0)
  }

  /** One step of the merge loop: extend the last run or open a new one. */
  function Push(runs: seq<Run>, e: Event): (r: seq<Run>)
    ensures r != [] && r[|r| - 1].app == AppOf(e)
    ensures |r| == |runs| + (if runs != [] && runs[|runs| - 1].app == AppOf(e) then 0 else 1)
    ensures runs != [] ==> r[..|runs| - 1] == runs[..|runs| - 1] && r[0].app == runs[0].app
    ensures r[..|r| - 1] == if runs != [] && runs[|runs| - 1].app == AppOf(e) then runs[..|runs| - 1] else runs
    ensures r[|r| - 1].duration ==
            (if runs != [] && runs[|runs| - 1].app == AppOf(e) then runs[|runs| - 1].duration else 0.0) + DurationOf(e)
  {
    if runs != [] && runs[|runs| - 1].app == AppOf(e) then
      runs[..|runs| - 1] + [Run(AppOf(e), runs[|runs| - 1].duration + DurationOf(e))]
    else
      runs + [Run(AppOf(e), DurationOf(e))]
  }

  /** A merge step keeps neighbouring runs apart, keeps the first run's app,
      ends with the event's app, and opens a new run exactly when the app
      changes. */
  lemma PushShape(runs: seq<Run>, e: Event)
    requires NoAdjacentDup(runs)
    ensures var r := Push(runs, e);
            && NoAdjacentDup(r)
            && r != []
            && (runs != [] ==> r[0].app == runs[0].app)
            && r[|r| - 1].app == AppOf(e)
            && |r| == |runs| + (if runs != [] && runs[|runs| - 1].app == AppOf(e) then 0 else 1)
  {
  }

  /** The merge loop over the (sorted) events, left to right. */
  function MergeRuns(s: seq<Event>): (r: seq<Run>)
    ensures r == [] <==> s == []
    ensures |r| <= |s|
    ensures s != [] ==> r[0].app == AppOf(s[0]) && r[|r| - 1].app == AppOf(s[|s| - 1])
    ensures NoAdjacentDup(r)
  {
    if s == [] then []
    else
      var init := s[..|s| - 1];
      PushShape(MergeRuns(init), s[|s| - 1]);
      Push(MergeRuns(init), s[|s| - 1])
  }

  /** The merge opens one run for the first event and one more at every app
      change. */
  lemma {:induction false} MergeRunsCount(s: seq<Event>)
    requires s != []
    ensures |MergeRuns(s)| == AppChanges(s) + 1
  {
    var init := s[..|s| - 1];
    var e := s[|s| - 1];
    if |s| == 1 {
      assert |MergeRuns(s)| == 1 by {
        MergeRunsUnfold(s);
        assert init == [];
      }
    } else {
      MergeRunsCount(init);
      var m := MergeRuns(init);
      var change := if AppOf(s[|s| - 2]) != AppOf(e) then 1 else 0;
      assert m[|m| - 1].app == AppOf(s[|s| - 2]) by {
        assert init[|init| - 1] == s[|s| - 2];
      }
      assert AppChanges(s) == AppChanges(init) + change;
      assert |MergeRuns(s)| == |m| + change by {
        MergeRunsUnfold(s);
      }
    }
  }

  /** One merge step adds exactly the event's duration. */
  lemma PushTotal(runs: seq<Run>, e: Event)
    ensures RunsTotal(Push(runs, e)) == RunsTotal(runs) + DurationOf(e)
  {
    if runs != [] && runs[|runs| - 1].app == AppOf(e) {
      var front := runs[..|runs| - 1];
      var last := runs[|runs| - 1];
      assert runs == front + [last];
      RunsTotalConcat(front, [last]);
      RunsTotalConcat(front, [Run(AppOf(e), last.duration + DurationOf(e))]);
    } else {
      RunsTotalConcat(runs, [Run(AppOf(e), DurationOf(e))]);
    }
  }

  /** Merging neither loses nor invents time: the runs hold exactly the events'
      total duration, a missing duration counting as 0. */
  lemma {:induction false} MergeRunsTotal(s: seq<Event>)
    ensures RunsTotal(MergeRuns(s)) == EventsTotal(s)
  {
    if s != [] {
      var init := s[..|s| - 1];
      var e := s[|s| - 1];
      MergeRunsUnfold(s);
      MergeRunsTotal(init);
      PushTotal(MergeRuns(init), e);
      SplitLast(s);
      EventsTotalConcat(init, [e]);
    }
  }

  lemma {:induction false} MergeRunsNonNegative(s: seq<Event>)
    requires NonNegativeEvents(s)
    ensures NonNegativeRuns(MergeRuns(s))
  {
    if s != [] {
      var init := s[..|s| - 1];
      assert NonNegativeEvents(init);
      MergeRunsNonNegative(init);
    }
  }

  /** A merge step only looks at the last run: runs in front of a non-empty
      tail are left alone. */
  lemma PushAppend(a: seq<Run>, b: seq<Run>, e: Event)
    requires b != []
    ensures Push(a + b, e) == a + Push(b, e)
  {
    assert (a + b)[|a + b| - 1] == b[|b| - 1];
    assert (a + b)[..|a + b| - 1] == a + b[..|b| - 1];
  }

  /** One unfolding of the merge: the last event is pushed onto the runs of
      the others. */
  lemma MergeRunsUnfold(s: seq<Event>)
    requires s != []
    ensures MergeRuns(s) == Push(MergeRuns(s[..|s| - 1]), s[|s| - 1])
  {
  }

  /** Merging one more event is one more merge step. */
  lemma MergeRunsSnoc(init: seq<Event>, e: Event)
    ensures MergeRuns(init + [e]) == Push(MergeRuns(init), e)
  {
    var s := init + [e];
    assert s[..|s| - 1] == init && s[|s| - 1] == e;
    MergeRunsUnfold(s);
  }

  /** An event of the run's own app extends that run. */
  lemma PushSameApp(run: Run, e: Event)
    requires run.app == AppOf(e)
    ensures Push([run], e) == [Run(run.app, run.duration + DurationOf(e))]
  {
    assert [run][..0] == [];
  }

  /** An event of the app of a single run extends that run. */
  lemma MergeRunsSameApp(init: seq<Event>, e: Event, a: string, total: real)
    requires MergeRuns(init) == [Run(a, total)] && AppOf(e) == a
    ensures MergeRuns(init + [e]) == [Run(a, total + DurationOf(e))]
  {
    MergeRunsSnoc(init, e);
    PushSameApp(Run(a, total), e);
  }

  /** One event merges into one run. */
  lemma MergeRunsSingle(e: Event)
    ensures MergeRuns([e]) == [Run(AppOf(e), DurationOf(e))]
  {
    MergeRunsUnfold([e]);
    assert [e][..0] == [];
  }

  /** An event of a new app opens a new run after the runs already built. */
  lemma MergeRunsNewApp(s1: seq<Event>, e: Event)
    requires s1 != [] && AppOf(s1[|s1| - 1]) != AppOf(e)
    ensures MergeRuns(s1 + [e]) == MergeRuns(s1) + [Run(AppOf(e), DurationOf(e))]
  {
    MergeRunsSnoc(s1, e);
  }

  /** Merging splits at an app change: the runs of two blocks whose meeting
      events belong to different apps are the runs of each block, side by side.
      With `MergeRunsOneApp` this fixes every run of the merge. */
  lemma {:induction false} MergeRunsConcat(s1: seq<Event>, s2: seq<Event>)
    requires s1 != [] && s2 != []
    requires AppOf(s1[|s1| - 1]) != AppOf(s2[0])
    ensures MergeRuns(s1 + s2) == MergeRuns(s1) + MergeRuns(s2)
    decreases |s2|
  {
    var e := s2[|s2| - 1];
    if |s2| == 1 {
      assert s2 == [e];
      MergeRunsNewApp(s1, e);
      MergeRunsSingle(e);
    } else {
      var s := s1 + s2;
      var init2 := s2[..|s2| - 1];
      assert s[|s| - 1] == e;
      assert s[..|s| - 1] == s1 + init2;
      assert init2[0] == s2[0];
      MergeRunsUnfold(s);
      MergeRunsUnfold(s2);
      MergeRunsConcat(s1, init2);
      PushAppend(MergeRuns(s1), MergeRuns(init2), e);
    }
  }

  /** A block of events of one app merges into one run holding the block's
      whole duration. */
  lemma {:induction false} MergeRunsOneApp(s: seq<Event>)
    requires s != []
    requires forall k :: 0 <= k < |s| ==> AppOf(s[k]) == AppOf(s[0])
    ensures MergeRuns(s) == [Run(AppOf(s[0]), EventsTotal(s))]
  {
    var a := AppOf(s[0]);
    var init := s[..|s| - 1];
    var e := s[|s| - 1];
    assert AppOf(e) == a;
    if |s| == 1 {
      assert s == [e];
      MergeRunsSingle(e);
      assert EventsTotal([e]) == DurationOf(e);
    } else {
      assert init[0] == s[0];
      assert forall k :: 0 <= k < |init| ==> AppOf(init[k]) == AppOf(init[0]) by {
        forall k | 0 <= k < |init|
          ensures AppOf(init[k]) == AppOf(init[0])
        {
          assert init[k] == s[k];
        }
      }
      MergeRunsOneApp(init);
      MergeRunsOneAppStep(init, e, a);
      SplitLast(s);
    }
  }

  /** The inductive step of `MergeRunsOneApp`: a last event of the block's app
      extends the block's single run. */
  lemma MergeRunsOneAppStep(init: seq<Event>, e: Event, a: string)
    requires MergeRuns(init) == [Run(a, EventsTotal(init))] && AppOf(e) == a
    ensures MergeRuns(init + [e]) == [Run(a, EventsTotal(init + [e]))]
  {
    MergeRunsSameApp(init, e, a, EventsTotal(init));
    EventsTotalConcat(init, [e]);
    assert EventsTotal([e]) == DurationOf(e);
  }

  // ---------------------------------------------------------------------------
  // Step 2: absorb short noise runs sandwiched between two runs of one app.
  // ---------------------------------------------------------------------------

  /** The inner look-ahead loop: starting with `cur` at cursor `j`, folds the pair
      `m[j+1], m[j+2]` into `cur` while `m[j+1]` is shorter than `t` and `m[j+2]`
      has the app of `cur`. Returns the grown run and the final cursor. */
  function Extend(m: seq<Run>, j: nat, cur: Run, t: real): (p: (Run, nat))
    requires j < |m|
    ensures j <= p.1 < |m|
    ensures p.0.app == cur.app
    ensures m[j].app == cur.app ==> m[p.1].app == cur.app
    ensures p.1 + 2 < |m| ==> !(m[p.1 + 1].duration < t && m[p.1 + 2].app == cur.app)
    decreases |m| - j
  {
    if j + 2 < |m| && m[j + 1].duration < t && m[j + 2].app == cur.app then
      Extend(m, j + 2, Run(cur.app, cur.duration + m[j + 1].duration + m[j + 2].duration), t)
    else
      (cur, j)
  }

  /** The look-ahead moves the cursor two runs at a time. */
  lemma {:induction false} ExtendParity(m: seq<Run>, j: nat, cur: Run, t: real)
    requires j < |m|
    ensures (Extend(m, j, cur, t).1 - j) % 2 == 0
    decreases |m| - j
  {
    if j + 2 < |m| && m[j + 1].duration < t && m[j + 2].app == cur.app {
      var grown := Run(cur.app, cur.duration + m[j + 1].duration + m[j + 2].duration);
      ExtendParity(m, j + 2, grown, t);
    }
  }

  /** The runs the look-ahead passes at odd offsets from `j` are the noise, and
      each is strictly shorter than `t`: a run at least `t` long is never folded
      in as noise. */
  lemma {:induction false} ExtendNoiseShort(m: seq<Run>, j: nat, cur: Run, t: real)
    requires j < |m|
    ensures forall k :: j < k <= Extend(m, j, cur, t).1 && (k - j) % 2 == 1 ==> m[k].duration < t
    decreases |m| - j
  {
    if j + 2 < |m| && m[j + 1].duration < t && m[j + 2].app == cur.app {
      var grown := Run(cur.app, cur.duration + m[j + 1].duration + m[j + 2].duration);
      ExtendNoiseShort(m, j + 2, grown, t);
      forall k | j < k <= Extend(m, j, cur, t).1 && (k - j) % 2 == 1
        ensures m[k].duration < t
      {
        if k > j + 2 {
          assert (k - (j + 2)) % 2 == 1;
        }
      }
    }
  }

  /** The runs the look-ahead passes at even offsets from `j` carry the app of
      the run being grown. */
  lemma {:induction false} ExtendSameApp(m: seq<Run>, j: nat, cur: Run, t: real)
    requires j < |m|
    ensures forall k :: j < k <= Extend(m, j, cur, t).1 && (k - j) % 2 == 0 ==> m[k].app == cur.app
    decreases |m| - j
  {
    if j + 2 < |m| && m[j + 1].duration < t && m[j + 2].app == cur.app {
      var grown := Run(cur.app, cur.duration + m[j + 1].duration + m[j + 2].duration);
      ExtendSameApp(m, j + 2, grown, t);
      forall k | j < k <= Extend(m, j, cur, t).1 && (k - j) % 2 == 0
        ensures m[k].app == cur.app
      {
        if k > j + 2 {
          assert (k - (j + 2)) % 2 == 0;
        }
      }
    }
  }

  /** The total duration of the runs at positions `a` up to, not including, `b`:
      `RunsTotal` over a slice, indexed so that the cursor proofs avoid slicing. */
  function SliceTotal(m: seq<Run>, a: nat, b: nat): real
    requires a <= b <= |m|
    decreases b - a
  {
    if a == b then 0.0 else m[a].duration + SliceTotal(m, a + 1, b)
  }

  lemma {:induction false} SliceTotalSplit(m: seq<Run>, a: nat, b: nat, c: nat)
    requires a <= b <= c <= |m|
    ensures SliceTotal(m, a, c) == SliceTotal(m, a, b) + SliceTotal(m, b, c)
    decreases b - a
  {
    if a < b {
      SliceTotalSplit(m, a + 1, b, c);
    }
  }

  lemma {:induction false} SliceTotalSuffix(m: seq<Run>, a: nat)
    requires a <= |m|
    ensures SliceTotal(m, a, |m|) == RunsTotal(m[a..])
    decreases |m| - a
  {
    if a < |m| {
      SliceTotalSuffix(m, a + 1);
      assert m[a..][1..] == m[a + 1..];
    }
  }

  lemma {:induction false} SliceTotalNonNegative(m: seq<Run>, a: nat, b: nat)
    requires a <= b <= |m| && NonNegativeRuns(m)
    ensures SliceTotal(m, a, b) >= 0.0
    decreases b - a
  {
    if a < b {
      SliceTotalNonNegative(m, a + 1, b);
    }
  }

  /** The grown run holds its starting duration plus every run the cursor
      passed over. */
  lemma {:induction false} ExtendTotal(m: seq<Run>, j: nat, cur: Run, t: real)
    requires j < |m|
    ensures var p := Extend(m, j, cur, t);
            p.0.duration == cur.duration + SliceTotal(m, j + 1, p.1 + 1)
    decreases |m| - j
  {
    if j + 2 < |m| && m[j + 1].duration < t && m[j + 2].app == cur.app {
      ExtendTotal(m, j + 2, Run(cur.app, cur.duration + m[j + 1].duration + m[j + 2].duration), t);
    }
  }

  /** The outer loop of the absorption pass, from cursor `i` on. */
  function AbsorbFrom(m: seq<Run>, i: nat, t: real): (r: seq<Run>)
    requires i <= |m|
    ensures |r| <= |m| - i
    ensures r == [] <==> i == |m|
    ensures i < |m| ==> r[0].app == m[i].app
    decreases |m| - i
  {
    if i == |m| then []
    else
      var p := Extend(m, i, m[i], t);
      [p.0] + AbsorbFrom(m, p.1 + 1, t)
  }

  /** Absorption from cursor `i` on neither loses nor invents time. */
  lemma {:induction false} AbsorbFromTotal(m: seq<Run>, i: nat, t: real)
    requires i <= |m|
    ensures RunsTotal(AbsorbFrom(m, i, t)) == SliceTotal(m, i, |m|)
    decreases |m| - i
  {
    if i < |m| {
      var p := Extend(m, i, m[i], t);
      var rest := AbsorbFrom(m, p.1 + 1, t);
      AbsorbFromUnfold(m, i, t);
      RunsTotalCons(p.0, rest);
      ExtendTotal(m, i, m[i], t);
      AbsorbFromTotal(m, p.1 + 1, t);
      SliceTotalSplit(m, i + 1, p.1 + 1, |m|);
    }
  }

  lemma RunsTotalCons(x: Run, rest: seq<Run>)
    ensures RunsTotal([x] + rest) == x.duration + RunsTotal(rest)
  {
    assert ([x] + rest)[1..] == rest;
  }

  lemma AbsorbFromUnfold(m: seq<Run>, i: nat, t: real)
    requires i < |m|
    ensures var p := Extend(m, i, m[i], t); AbsorbFrom(m, i, t) == [p.0] + AbsorbFrom(m, p.1 + 1, t)
  {
  }

  /** The absorption pass over the merged runs. */
  function Absorbed(m: seq<Run>, t: real): (r: seq<Run>)
    ensures |r| <= |m|
    ensures r == [] <==> m == []
    ensures RunsTotal(r) == RunsTotal(m)
  {
    assert m[0..] == m;
    AbsorbFromTotal(m, 0, t);
    SliceTotalSuffix(m, 0);
    AbsorbFrom(m, 0, t)
  }

  /** The inner look-ahead loop of the absorption pass, started at cursor `i`. */
  method LookAhead(merged: seq<Run>, i: nat, t: real) returns (current: Run, j: nat)
    requires i < |merged|
    ensures (current, j) == Extend(merged, i, merged[i], t)
  {
    current := merged[i];
    j := i;
    while j + 2 < |merged|
      invariant i <= j < |merged|
      invariant Extend(merged, j, current, t) == Extend(merged, i, merged[i], t)
      decreases |merged| - j
    {
      var noise := merged[j + 1];
      var nextSame := merged[j + 2];
      if noise.duration < t && nextSame.app == current.app {
        current := Run(current.app, current.duration + noise.duration + nextSame.duration);
        j := j + 2;
      } else {
        break;
      }
    }
  }

  /** One iteration of the outer loop moves one grown run from the pending
      part to the cleaned part and advances the cursor past what it absorbed. */
  lemma AbsorbFromStep(m: seq<Run>, i: nat, t: real, cleaned: seq<Run>, current: Run, last: nat)
    requires i < |m| && (current, last) == Extend(m, i, m[i], t)
    ensures i < last + 1 <= |m|
    ensures (cleaned + [current]) + AbsorbFrom(m, last + 1, t) == cleaned + AbsorbFrom(m, i, t)
  {
    AbsorbFromUnfold(m, i, t);
    assert (cleaned + [current]) + AbsorbFrom(m, last + 1, t) == cleaned + ([current] + AbsorbFrom(m, last + 1, t));
  }

  /** The absorption pass as the source writes it: an index walk whose cursor
      strictly increases on every iteration. */
  method AbsorbNoise(merged: seq<Run>, t: real) returns (cleaned: seq<Run>)
    ensures cleaned == Absorbed(merged, t)
    ensures RunsTotal(cleaned) == RunsTotal(merged)
    ensures |cleaned| <= |merged|
  {
    cleaned := [];
    var i := 0;
    while i < |merged|
      invariant 0 <= i <= |merged|
      invariant cleaned + AbsorbFrom(merged, i, t) == Absorbed(merged, t)
      decreases |merged| - i
    {
      var current, last := LookAhead(merged, i, t);
      AbsorbFromStep(merged, i, t, cleaned, current, last);
      cleaned := cleaned + [current];
      i := last + 1;
    }
  }

  lemma ConsNoAdjacentDup(x: Run, rest: seq<Run>)
    requires NoAdjacentDup(rest)
    requires rest != [] ==> x.app != rest[0].app
    ensures NoAdjacentDup([x] + rest)
  {
    var r := [x] + rest;
    forall k | 1 < k < |r|
      ensures r[k - 1].app != r[k].app
    {
      assert r[k - 1] == rest[k - 2] && r[k] == rest[k - 1];
    }
  }

  lemma {:induction false} AbsorbFromNoAdjacentDup(m: seq<Run>, i: nat, t: real)
    requires i <= |m|
    requires NoAdjacentDup(m)
    ensures NoAdjacentDup(AbsorbFrom(m, i, t))
    decreases |m| - i
  {
    if i < |m| {
      var p := Extend(m, i, m[i], t);
      var rest := AbsorbFrom(m, p.1 + 1, t);
      AbsorbFromNoAdjacentDup(m, p.1 + 1, t);
      AbsorbFromUnfold(m, i, t);
      if rest != [] {
        assert m[p.1].app != m[p.1 + 1].app;
      }
      ConsNoAdjacentDup(p.0, rest);
    }
  }

  /** Absorption never puts two runs of the same app next to each other. */
  lemma AbsorbedNoAdjacentDup(m: seq<Run>, t: real)
    requires NoAdjacentDup(m)
    ensures NoAdjacentDup(Absorbed(m, t))
  {
    AbsorbFromNoAdjacentDup(m, 0, t);
  }

  lemma {:induction false} AbsorbFromLastApp(m: seq<Run>, i: nat, t: real)
    requires i < |m|
    ensures var r := AbsorbFrom(m, i, t); r[|r| - 1].app == m[|m| - 1].app
    decreases |m| - i
  {
    var p := Extend(m, i, m[i], t);
    if p.1 + 1 < |m| {
      AbsorbFromLastApp(m, p.1 + 1, t);
    }
  }

  /** The last run is never swallowed as noise: it has nothing two places ahead of
      it, so the last cleaned run is of its app. */
  lemma AbsorbedLastApp(m: seq<Run>, t: real)
    requires m != []
    ensures var r := Absorbed(m, t); r[|r| - 1].app == m[|m| - 1].app
  {
    AbsorbFromLastApp(m, 0, t);
  }

  lemma {:induction false} AbsorbFromWithoutNoise(m: seq<Run>, i: nat, t: real)
    requires i <= |m|
    requires forall k :: 0 <= k < |m| ==> m[k].duration >= t
    ensures AbsorbFrom(m, i, t) == m[i..]
    decreases |m| - i
  {
    if i < |m| {
      assert Extend(m, i, m[i], t) == (m[i], i);
      AbsorbFromWithoutNoise(m, i + 1, t);
      assert m[i..] == [m[i]] + m[i + 1..];
    }
  }

  /** A run that is at least `t` long is never noise (the test is a strict `<`):
      when no run is shorter than `t`, absorption changes nothing. */
  lemma AbsorbedWithoutNoise(m: seq<Run>, t: real)
    requires forall k :: 0 <= k < |m| ==> m[k].duration >= t
    ensures Absorbed(m, t) == m
  {
    AbsorbFromWithoutNoise(m, 0, t);
  }

  /** The positions `j + 1, j + 3, ..., e - 1`: the noise runs of one look-ahead
      that grew a run from cursor `j` to cursor `e`. */
  function OddPositions(j: nat, e: nat): (ps: seq<nat>)
    requires j <= e
    ensures |ps| == (e - j) / 2
    ensures forall n :: 0 <= n < |ps| ==> ps[n] == j + 2 * n + 1
    decreases e - j
  {
    if e < j + 2 then [] else [j + 1] + OddPositions(j + 2, e)
  }

  /** The positions of the runs that the absorption pass, from cursor `i` on,
      takes as `noise` and folds into the run being grown. */
  function NoiseFrom(m: seq<Run>, i: nat, t: real): (ps: seq<nat>)
    requires i <= |m|
    decreases |m| - i
  {
    if i == |m| then []
    else
      var p := Extend(m, i, m[i], t);
      OddPositions(i, p.1) + NoiseFrom(m, p.1 + 1, t)
  }

  /** Position `k` holds a run shorter than `t` between two runs of one app. */
  predicate ShortBetweenSameApp(m: seq<Run>, k: int, t: real) {
    0 < k < |m| - 1 && m[k].duration < t && m[k - 1].app == m[k + 1].app
  }

  /** The noise runs of one look-ahead from cursor `i` lie before its final
      cursor, and each is short and between two runs of the app being grown. */
  lemma OddPositionsNoise(m: seq<Run>, i: nat, t: real)
    requires i < |m|
    ensures forall n :: 0 <= n < |OddPositions(i, Extend(m, i, m[i], t).1)| ==>
              i < OddPositions(i, Extend(m, i, m[i], t).1)[n] < Extend(m, i, m[i], t).1
              && ShortBetweenSameApp(m, OddPositions(i, Extend(m, i, m[i], t).1)[n], t)
  {
    var p := Extend(m, i, m[i], t);
    var odd := OddPositions(i, p.1);
    ExtendNoiseShort(m, i, m[i], t);
    ExtendSameApp(m, i, m[i], t);
    forall n | 0 <= n < |odd|
      ensures i < odd[n] < p.1 && ShortBetweenSameApp(m, odd[n], t)
    {
      var k := odd[n];
      assert k == i + 2 * n + 1 && k + 1 <= p.1;
      assert (k - i) % 2 == 1 && (k + 1 - i) % 2 == 0;
      assert m[k + 1].app == m[i].app;
      assert k - 1 == i || (k - 1 - i) % 2 == 0;
      assert m[k - 1].app == m[i].app;
    }
  }

  /** Every noise position from cursor `i` on lies after `i` and holds a short
      run between two runs of one app. */
  lemma {:induction false} NoiseFromSandwiched(m: seq<Run>, i: nat, t: real)
    requires i <= |m|
    ensures forall n :: 0 <= n < |NoiseFrom(m, i, t)| ==>
              i < NoiseFrom(m, i, t)[n] && ShortBetweenSameApp(m, NoiseFrom(m, i, t)[n], t)
    decreases |m| - i
  {
    if i < |m| {
      var p := Extend(m, i, m[i], t);
      var odd := OddPositions(i, p.1);
      var rest := NoiseFrom(m, p.1 + 1, t);
      NoiseFromSandwiched(m, p.1 + 1, t);
      OddPositionsNoise(m, i, t);
      var ps := odd + rest;
      assert NoiseFrom(m, i, t) == ps;
      forall n | 0 <= n < |ps|
        ensures i < ps[n] && ShortBetweenSameApp(m, ps[n], t)
      {
        if n < |odd| {
          assert ps[n] == odd[n];
        } else {
          assert ps[n] == rest[n - |odd|];
        }
      }
    }
  }

  /** Positions listed in strictly increasing order. */
  predicate Increasing(ps: seq<nat>) {
    forall a, b :: 0 <= a < b < |ps| ==> ps[a] < ps[b]
  }

  /** Two increasing lists, all of the first below `bound` and all of the
      second above it, concatenate into an increasing list. */
  lemma IncreasingConcat(xs: seq<nat>, ys: seq<nat>, bound: nat)
    requires Increasing(xs) && Increasing(ys)
    requires forall n :: 0 <= n < |xs| ==> xs[n] < bound
    requires forall n :: 0 <= n < |ys| ==> bound < ys[n]
    ensures Increasing(xs + ys)
  {
    var zs := xs + ys;
    forall a, b | 0 <= a < b < |zs|
      ensures zs[a] < zs[b]
    {
      if b < |xs| {
        assert zs[a] == xs[a] && zs[b] == xs[b];
      } else if a < |xs| {
        assert zs[a] == xs[a] && zs[b] == ys[b - |xs|];
      } else {
        assert zs[a] == ys[a - |xs|] && zs[b] == ys[b - |xs|];
      }
    }
  }

  /** The noise positions from cursor `i` on strictly increase. */
  lemma {:induction false} NoiseFromIncreasing(m: seq<Run>, i: nat, t: real)
    requires i <= |m|
    ensures Increasing(NoiseFrom(m, i, t))
    decreases |m| - i
  {
    if i < |m| {
      var p := Extend(m, i, m[i], t);
      var odd := OddPositions(i, p.1);
      var rest := NoiseFrom(m, p.1 + 1, t);
      NoiseFromIncreasing(m, p.1 + 1, t);
      NoiseFromSandwiched(m, p.1 + 1, t);
      assert forall n :: 0 <= n < |odd| ==> odd[n] < p.1 + 1;
      assert Increasing(odd);
      IncreasingConcat(odd, rest, p.1 + 1);
      assert NoiseFrom(m, i, t) == odd + rest;
    }
  }

  /** Each noise run takes the same-app run after it along, so the output from
      cursor `i` on is two runs shorter per noise run. */
  lemma {:induction false} NoiseFromCount(m: seq<Run>, i: nat, t: real)
    requires i <= |m|
    ensures |AbsorbFrom(m, i, t)| + 2 * |NoiseFrom(m, i, t)| == |m| - i
    decreases |m| - i
  {
    if i < |m| {
      var p := Extend(m, i, m[i], t);
      NoiseFromCount(m, p.1 + 1, t);
      AbsorbFromUnfold(m, i, t);
      ExtendParity(m, i, m[i], t);
      assert |NoiseFrom(m, i, t)| == |OddPositions(i, p.1)| + |NoiseFrom(m, p.1 + 1, t)|;
    }
  }

  /** Only short runs caught between two runs of one app are ever absorbed as
      noise: the first run, the last run and every run at least `t` long (the
      test is a strict `<`) are never noise. Each noise run takes the same-app
      run after it along, so the output is two runs shorter per noise run. */
  lemma AbsorbedNoise(m: seq<Run>, t: real)
    ensures forall n :: 0 <= n < |NoiseFrom(m, 0, t)| ==> ShortBetweenSameApp(m, NoiseFrom(m, 0, t)[n], t)
    ensures Increasing(NoiseFrom(m, 0, t))
    ensures |Absorbed(m, t)| + 2 * |NoiseFrom(m, 0, t)| == |m|
    ensures forall k :: 0 <= k < |m| && (k == 0 || k == |m| - 1 || m[k].duration >= t) ==> k !in NoiseFrom(m, 0, t)
  {
    NoiseFromSandwiched(m, 0, t);
    NoiseFromIncreasing(m, 0, t);
    NoiseFromCount(m, 0, t);
  }

  /** The pattern `A, B, A` collapses into one `A` run exactly when `B` is
      strictly shorter than the threshold. */
  lemma SandwichCollapsesIffShort(a: string, b: string, da: real, db: real, dc: real, t: real)
    requires a != b
    ensures Absorbed([Run(a, da), Run(b, db), Run(a, dc)], t) ==
            if db < t then [Run(a, da + db + dc)] else [Run(a, da), Run(b, db), Run(a, dc)]
  {
    var m := [Run(a, da), Run(b, db), Run(a, dc)];
    if db < t {
      assert Extend(m, 2, Run(a, da + db + dc), t) == (Run(a, da + db + dc), 2);
      assert Extend(m, 0, m[0], t) == (Run(a, da + db + dc), 2);
      assert AbsorbFrom(m, 3, t) == [];
    } else {
      assert Extend(m, 0, m[0], t) == (m[0], 0);
      assert Extend(m, 1, m[1], t) == (m[1], 1);
      assert Extend(m, 2, m[2], t) == (m[2], 2);
      assert AbsorbFrom(m, 3, t) == [];
      assert AbsorbFrom(m, 2, t) == [m[2]];
      assert AbsorbFrom(m, 1, t) == [m[1], m[2]];
    }
  }

  lemma {:induction false} AbsorbFromNonNegative(m: seq<Run>, i: nat, t: real)
    requires i <= |m|
    requires NonNegativeRuns(m)
    ensures NonNegativeRuns(AbsorbFrom(m, i, t))
    decreases |m| - i
  {
    if i < |m| {
      var p := Extend(m, i, m[i], t);
      ExtendTotal(m, i, m[i], t);
      SliceTotalNonNegative(m, i + 1, p.1 + 1);
      AbsorbFromNonNegative(m, p.1 + 1, t);
    }
  }

  // ---------------------------------------------------------------------------
  // Step 3: drop the runs still shorter than the threshold.
  // ---------------------------------------------------------------------------

  /** `a` is `b` with some elements left out, order kept. */
  predicate IsSubsequence(a: seq<Run>, b: seq<Run>)
    decreases |b|
  {
    if a == [] then true
    else if b == [] then false
    else if a[0] == b[0] then IsSubsequence(a[1..], b[1..])
    else IsSubsequence(a, b[1..])
  }

  /** The list comprehension `[s for s in cleaned if s["duration"] >= t]`. */
  function KeepAtLeast(c: seq<Run>, t: real): (r: seq<Run>)
    ensures |r| <= |c|
    ensures forall k :: 0 <= k < |r| ==> r[k].duration >= t
    ensures forall x :: x in r <==> x in c && x.duration >= t
    ensures forall x :: multiset(r)[x] == if x.duration >= t then multiset(c)[x] else 0
    ensures IsSubsequence(r, c)
  {
    if c == [] then []
    else if c[0].duration >= t then
      assert c == [c[0]] + c[1..];
      [c[0]] + KeepAtLeast(c[1..], t)
    else
      assert c == [c[0]] + c[1..];
      KeepAtLeast(c[1..], t)
  }

  lemma {:induction false} KeepAtLeastTotal(c: seq<Run>, t: real)
    requires NonNegativeRuns(c)
    ensures RunsTotal(KeepAtLeast(c, t)) <= RunsTotal(c)
  {
    if c != [] {
      KeepAtLeastTotal(c[1..], t);
    }
  }

  // ---------------------------------------------------------------------------
  // The whole de-bouncer.
  // ---------------------------------------------------------------------------

  /** The runs before the final filter: sorted, merged and noise-absorbed. */
  function CleanedRuns(events: seq<Event>, t: real): (c: seq<Run>)
    ensures RunsTotal(c) == EventsTotal(events)
    ensures |c| <= |events|
    ensures NoAdjacentDup(c)
  {
    var merged := MergeRuns(SortByTimestamp(events));
    MergeRunsTotal(SortByTimestamp(events));
    AbsorbedNoAdjacentDup(merged, t);
    Absorbed(merged, t)
  }

  /** `debounce_events(events, t)`: the sessions of the day. */
  function Debounce(events: seq<Event>, t: real): (sessions: seq<Run>)
    ensures events == [] ==> sessions == []
    ensures |sessions| <= |events|
    ensures forall k :: 0 <= k < |sessions| ==> sessions[k].duration >= t
  {
    if events == [] then []
    else KeepAtLeast(CleanedRuns(events, t), t)
  }

  /** The sessions are the cleaned runs that reach the threshold, in their order:
      an order-preserving subsequence holding every run of at least `t` seconds
      and no other. */
  lemma DebounceKeepsLongRuns(events: seq<Event>, t: real)
    ensures IsSubsequence(Debounce(events, t), CleanedRuns(events, t))
    ensures forall x :: x in Debounce(events, t) <==> x in CleanedRuns(events, t) && x.duration >= t
    ensures forall x :: multiset(Debounce(events, t))[x]
                        == if x.duration >= t then multiset(CleanedRuns(events, t))[x] else 0
  {
    if events == [] {
      assert CleanedRuns(events, t) == [];
    }
  }

  /** With non-negative durations the sessions never hold more time than the
      events did; what is missing is exactly the time of the runs dropped by the
      final filter. */
  lemma DebounceTotalBound(events: seq<Event>, t: real)
    requires NonNegativeEvents(events)
    ensures RunsTotal(Debounce(events, t)) <= EventsTotal(events)
  {
    if events != [] {
      var merged := MergeRuns(SortByTimestamp(events));
      var sorted := SortByTimestamp(events);
      assert NonNegativeEvents(sorted) by {
        forall k | 0 <= k < |sorted|
          ensures DurationOf(sorted[k]) >= 0.0
        {
          assert sorted[k] in multiset(events);
        }
      }
      MergeRunsNonNegative(sorted);
      AbsorbFromNonNegative(merged, 0, t);
      KeepAtLeastTotal(CleanedRuns(events, t), t);
    }
  }

  /** Merging three events whose apps go `A, B, A` keeps three runs. */
  lemma MergeThreeAlternating(e0: Event, e1: Event, e2: Event)
    requires AppOf(e0) == AppOf(e2) != AppOf(e1)
    ensures MergeRuns([e0, e1, e2])
            == [Run(AppOf(e0), DurationOf(e0)), Run(AppOf(e1), DurationOf(e1)), Run(AppOf(e2), DurationOf(e2))]
  {
    MergeRunsSingle(e0);
    MergeRunsNewApp([e0], e1);
    assert [e0] + [e1] == [e0, e1];
    MergeRunsNewApp([e0, e1], e2);
    assert [e0, e1] + [e2] == [e0, e1, e2];
  }

  /** Three timestamp-ordered events `A, B, A` whose middle one is shorter than
      the threshold make one `A` session holding all three durations, provided
      that total reaches the threshold. */
  lemma SandwichedEvents(ts0: string, ts1: string, ts2: string, a: string, b: string,
                         da: real, db: real, dc: real, t: real)
    requires LexLe(ts0, ts1) && LexLe(ts1, ts2)
    requires a != b && db < t <= da + db + dc
    ensures Debounce([Event(Some(ts0), Some(a), Some(da)),
                      Event(Some(ts1), Some(b), Some(db)),
                      Event(Some(ts2), Some(a), Some(dc))], t)
            == [Run(a, da + db + dc)]
  {
    SandwichedCleaned(ts0, ts1, ts2, a, b, da, db, dc, t);
    assert KeepAtLeast([Run(a, da + db + dc)], t) == [Run(a, da + db + dc)];
  }

  lemma SandwichedCleaned(ts0: string, ts1: string, ts2: string, a: string, b: string,
                          da: real, db: real, dc: real, t: real)
    requires LexLe(ts0, ts1) && LexLe(ts1, ts2)
    requires a != b && db < t
    ensures CleanedRuns([Event(Some(ts0), Some(a), Some(da)),
                         Event(Some(ts1), Some(b), Some(db)),
                         Event(Some(ts2), Some(a), Some(dc))], t)
            == [Run(a, da + db + dc)]
  {
    var e0, e1, e2 := Event(Some(ts0), Some(a), Some(da)), Event(Some(ts1), Some(b), Some(db)),
                      Event(Some(ts2), Some(a), Some(dc));
    var s := [e0, e1, e2];
    assert Chronological(s);
    SortOfChronological(s);
    MergeThreeAlternating(e0, e1, e2);
    SandwichCollapsesIffShort(a, b, da, db, dc, t);
  }

  /** The example of the source's doc comment: `[A 5s, B 2s, A 600s]` with a 5 s
      threshold is one session of 607 s. */
  lemma DocExample()
    ensures Debounce([Event(Some("1"), Some("VS Code"), Some(5.0)),
                      Event(Some("2"), Some("Chrome"), Some(2.0)),
                      Event(Some("3"), Some("VS Code"), Some(600.0))], 5.0)
            == [Run("VS Code", 607.0)]
  {
    assert LexLe("1", "2") && LexLe("2", "3");
    SandwichedEvents("1", "2", "3", "VS Code", "Chrome", 5.0, 2.0, 600.0, 5.0);
  }

  /** A 3 s switch between two 600 s stretches of one app is absorbed into a
      single 1203 s session. */
  lemma ShortSwitchAbsorbed()
    ensures Debounce([Event(Some("1"), Some("A"), Some(600.0)),
                      Event(Some("2"), Some("B"), Some(3.0)),
                      Event(Some("3"), Some("A"), Some(600.0))], 5.0)
            == [Run("A", 1203.0)]
  {
    assert LexLe("1", "2") && LexLe("2", "3");
    SandwichedEvents("1", "2", "3", "A", "B", 600.0, 3.0, 600.0, 5.0);
  }

  /** A lone event shorter than the threshold leaves no session. */
  lemma ShortLoneEvent(ts: string, app: string, d: real, t: real)
    requires d < t
    ensures Debounce([Event(Some(ts), Some(app), Some(d))], t) == []
  {
    var s := [Event(Some(ts), Some(app), Some(d))];
    assert SortByTimestamp(s) == s;
    assert MergeRuns(s) == [Run(app, d)];
    assert Extend([Run(app, d)], 0, Run(app, d), t) == (Run(app, d), 0);
  }

  /** A short run at the very end has nothing after it to be sandwiched by, so it
      is not absorbed; only the final filter removes it. */
  lemma TrailingNoiseIsFiltered(a: string, b: string, da: real, db: real, t: real)
    requires a != b && db < t <= da
    ensures Absorbed([Run(a, da), Run(b, db)], t) == [Run(a, da), Run(b, db)]
    ensures KeepAtLeast([Run(a, da), Run(b, db)], t) == [Run(a, da)]
  {
    var m := [Run(a, da), Run(b, db)];
    assert Extend(m, 0, m[0], t) == (m[0], 0);
    assert Extend(m, 1, m[1], t) == (m[1], 1);
    assert AbsorbFrom(m, 2, t) == [];
    assert AbsorbFrom(m, 1, t) == [m[1]];
  }
}
