# exist-activitywatch, the pure cores in Dafny

exist-activitywatch reads a day of computer-usage telemetry from ActivityWatch and pushes daily figures to Exist.io:
- screen time;
- time in social-network apps;
- time on AI-assistant sites;
- a 0-100 focus score.

It keeps a small ledger of the dates it has already pushed. This project models the three pure cores of that program and proves their properties.

- **Focus pipeline** (`focus_analyzer.py`), in modules `Debouncer`, `Statistics`, `FocusScore` and `FocusAnalysis`:
  - the de-bouncer that turns window events into sessions. It sorts by timestamp, merges runs of one app, absorbs short noise runs sandwiched inside one app, and drops what is still too short;
  - the median;
  - the clamp of the focus score and its five-band reading;
  - the arithmetic tail of the daily analysis, with its neutral default of 50.
- **Sync ledger** (`sync_state.py`), in module `SyncState`: a map from date to sync time. It supports mark, check, the oldest-first list of unsynced dates of the last `days` days, and pruning by a cutoff. The state file becomes a `StoredFile` value. The clock becomes parameters.
- **ActivityWatch aggregation** (`activitywatch_client.py`), in module `ActivityWatch`:
  - first-match bucket lookup by id prefix;
  - the three filtered duration sums;
  - the conversion to whole minutes with Python's round-half-to-even.

Shared modules:
- `Wrappers`: `Option`, `Result`.
- `Numeric`: Python's `round`.
- `Text`: Python string order, `startswith`, substring `in`, ASCII `lower`.

Durations are exact `real`s, and a missing duration counts as 0. A missing app is `"unknown"` in the de-bouncer (focus_analyzer.py:87) and `""` in the social sum (activitywatch_client.py:117). The transcendental parts of the score are passed in as functions: the `exp` base score and the `log2` entropy.

Three behaviours of the code are worth stating:
- **A document without "synced_dates".** A state file that parses as JSON but lacks the "synced_dates" key makes `mark_synced`, `is_synced` and `cleanup_old_entries` raise `KeyError` (sync_state.py:32, 39, 73). Only a missing file, an OS error or invalid JSON gives an empty ledger. `get_unsynced_dates` uses `.get` and treats such a document as an empty ledger (sync_state.py:56). The model returns `Failure(MissingSyncedDates)` in the three raising operations.
- **Re-marking a date.** Re-marking a date overwrites its stored timestamp with the current time, so marking is not idempotent. `MarkSynced` does the same.
- **Order of clamp and round.** The code rounds before it clamps (focus_analyzer.py:206). `FocusScore.ClampBeforeRoundAgrees` proves the order does not change the score.

## Model

| member | source | states |
|---|---|---|
| Numeric.RoundHalfEven | activitywatch_client.py:94 | `round(x)` lies within 1/2 of `x`, and on an exact tie it is the even neighbour |
| Numeric.RoundHalfEvenUnique | activitywatch_client.py:94 | those two properties single out one integer, so they define Python's `round` |
| Numeric.RoundHalfEvenMonotone | focus_analyzer.py:206 | rounding never reverses the order of two numbers |
| Numeric.RoundHalfEvenOfInt | focus_analyzer.py:206 | rounding an integer gives it back |
| Text.LexLeTotal | focus_analyzer.py:82 | any two timestamp strings are comparable under Python's string order |
| Text.LexLeTransitive | focus_analyzer.py:82 | Python's string order is transitive, so sorting by it is well defined |
| Text.LexLeAtFirstDifference | focus_analyzer.py:82 | strings that agree up to a position and differ there are ordered by that character |
| Text.Contains | activitywatch_client.py:119 | the substring test holds exactly when the needle occurs at some position of the text |
| Text.LowerChar | activitywatch_client.py:117 | an ASCII capital becomes its own small letter (code point plus 32); every other character is unchanged |
| Text.Lower | activitywatch_client.py:117 | same length, every character lower-cased (ASCII letters) and nothing else changed |
| Debouncer.SortByTimestamp | focus_analyzer.py:82 | the sorted events are a permutation of the input, in timestamp order, with the same total duration |
| Debouncer.SortByTimestampStable | focus_analyzer.py:82 | events sharing a timestamp keep their relative order (the sort is stable) |
| Debouncer.SortOfChronological | focus_analyzer.py:82 | events already in timestamp order come out unchanged |
| Debouncer.Push | focus_analyzer.py:90-93 | one merge step: an event of the last run's app adds its duration to that run and leaves the runs before it unchanged; an event of another app keeps every existing run and appends a new run of its app holding its duration |
| Debouncer.MergeRuns | focus_analyzer.py:84-93 | no runs exactly for no events; never more runs than events; the first and last runs carry the first and last events' apps; no two neighbouring runs share an app |
| Debouncer.MergeRunsCount | focus_analyzer.py:84-93 | a non-empty event list gives one run for its first event plus one for every app change |
| Debouncer.MergeRunsTotal | focus_analyzer.py:85-93 | the runs hold exactly the events' total duration, a missing duration counting as 0 |
| Debouncer.MergeRunsOneApp | focus_analyzer.py:90-91 | consecutive events of one app merge into one run holding their whole duration |
| Debouncer.MergeRunsConcat | focus_analyzer.py:92-93 | at an app change the merge splits: the runs of two blocks are the runs of each block, side by side (with the previous row this fixes every run) |
| Debouncer.MergeRunsNewApp | focus_analyzer.py:92-93 | an event of a different app opens a new run holding its duration |
| Debouncer.Extend | focus_analyzer.py:103-113 | the look-ahead keeps the cursor in range and the run's app, never moves from a run of the app to one of another, and stops only when the "short noise, then same app" pattern fails |
| Debouncer.ExtendParity | focus_analyzer.py:110-111 | the look-ahead moves the cursor two runs at a time |
| Debouncer.ExtendNoiseShort | focus_analyzer.py:107-111 | every run the look-ahead folds in as noise (odd offsets from its start) is strictly shorter than the threshold, so a run at least the threshold long is never folded in as noise |
| Debouncer.ExtendSameApp | focus_analyzer.py:108-111 | every run the look-ahead folds in after a noise run (even offsets from its start) has the app of the run being grown |
| Debouncer.ExtendTotal | focus_analyzer.py:110 | the grown run holds its own duration plus every run the cursor passed over |
| Debouncer.LookAhead | focus_analyzer.py:100-113 | the inner while loop computes exactly the look-ahead |
| Debouncer.AbsorbFrom | focus_analyzer.py:97-116 | from cursor `i` the pass yields no more runs than remain, none exactly when the cursor is at the end, and starts with the app at the cursor |
| Debouncer.AbsorbFromTotal | focus_analyzer.py:97-116 | absorption from cursor `i` keeps the total duration of the runs from `i` on |
| Debouncer.AbsorbFromStep | focus_analyzer.py:115-116 | each outer iteration moves one run to the output and strictly advances the cursor, so the walk terminates |
| Debouncer.Absorbed | focus_analyzer.py:97-116 | the absorption pass keeps the total duration, never yields more runs than it read, and yields none only for no input |
| Debouncer.AbsorbNoise | focus_analyzer.py:97-116 | the index walk computes the absorption pass, with the same total and no more runs |
| Debouncer.AbsorbedNoAdjacentDup | focus_analyzer.py:97-116 | absorption never puts two runs of one app side by side |
| Debouncer.AbsorbedLastApp | focus_analyzer.py:103 | the last run is never swallowed: the output ends with the last input run's app |
| Debouncer.AbsorbedWithoutNoise | focus_analyzer.py:107 | when no run is shorter than the threshold, absorption changes nothing |
| Debouncer.AbsorbedNoise | focus_analyzer.py:98-116 | over the whole pass, every run absorbed as noise is strictly shorter than the threshold and lies between two runs of one app; the first run, the last run and every run at least the threshold long are never noise; the noise positions increase; and each noise run removes two runs from the output |
| Debouncer.SandwichCollapsesIffShort | focus_analyzer.py:107-111 | `A, B, A` becomes one `A` run exactly when `B` is strictly shorter than the threshold |
| Debouncer.KeepAtLeast | focus_analyzer.py:119 | the kept runs all reach the threshold; each run of at least the threshold is kept as many times as it occurs and every other run never; order is kept (a subsequence) |
| Debouncer.KeepAtLeastTotal | focus_analyzer.py:119 | with non-negative durations the filter never adds time |
| Debouncer.CleanedRuns | focus_analyzer.py:82-116 | sorting, merging and absorbing keep the events' total duration, yield no more runs than events, and leave no neighbouring duplicates |
| Debouncer.Debounce | focus_analyzer.py:78-121 | no events give no sessions; never more sessions than events; every session reaches the threshold |
| Debouncer.DebounceKeepsLongRuns | focus_analyzer.py:119 | the sessions are the cleaned runs of at least threshold length, each as often as it occurs, in order |
| Debouncer.DebounceTotalBound | focus_analyzer.py:82-121 | with non-negative durations the sessions hold no more time than the events |
| Debouncer.MergeThreeAlternating | focus_analyzer.py:90-93 | events of apps `A, B, A` merge into three runs |
| Debouncer.SandwichedEvents | focus_analyzer.py:96-119 | three ordered events `A, short B, A` whose sum reaches the threshold give one `A` session of all three durations |
| Debouncer.DocExample | focus_analyzer.py:70-73 | `[VS Code 5s, Chrome 2s, VS Code 600s]` at threshold 5 is one 607 s VS Code session |
| Debouncer.ShortSwitchAbsorbed | focus_analyzer.py:96-119 | `[A 600s, B 3s, A 600s]` at threshold 5 is one 1203 s `A` session |
| Debouncer.ShortLoneEvent | focus_analyzer.py:119 | a single event shorter than the threshold gives no session |
| Debouncer.TrailingNoiseIsFiltered | focus_analyzer.py:103-119 | a short last run is not absorbed (nothing follows it) and only the final filter removes it |
| Statistics.InsertAscending | focus_analyzer.py:161 | inserting into an ascending list keeps it ascending and adds exactly one element |
| Statistics.SortAscending | focus_analyzer.py:161 | `sorted(values)` is ascending and a permutation of the values |
| Statistics.AscendingUnique | focus_analyzer.py:161 | two ascending lists with the same elements are equal, so the sort has one outcome |
| Statistics.Median | focus_analyzer.py:159-160 | the median of no values is 0 |
| Statistics.MedianOfAscending | focus_analyzer.py:162-166 | the middle value for an odd count, the mean of the two middle values for an even count |
| Statistics.MedianBetweenExtremes | focus_analyzer.py:157-166 | the median lies between some value at or below it and some value at or above it |
| Statistics.MedianOrderIndependent | focus_analyzer.py:161-166 | the median depends only on the multiset of values |
| Statistics.MedianOddExample | focus_analyzer.py:162-166 | the median of 1, 2, 3 is 2 |
| Statistics.MedianEvenExample | focus_analyzer.py:162-166 | the median of 1, 2, 3, 4 is 2.5 |
| FocusScore.SessionBonus | focus_analyzer.py:195 | the bonus never exceeds 20 or the median, and is one of the two |
| FocusScore.RawScore | focus_analyzer.py:195-203 | the unclamped score is the base plus the median in minutes, capped at 20, minus 5 per unit of entropy: exactly base + median − 5·entropy below a 20-minute median, base + 20 − 5·entropy from 20 minutes on |
| FocusScore.ClampScore | focus_analyzer.py:206 | the score is an integer in [0, 100]; it is 0 exactly when the raw score is at most 1/2, 100 exactly when it is at least 99.5, and otherwise within 1/2 of the raw score, an exact tie going to the even integer |
| FocusScore.ClampBeforeRoundAgrees | focus_analyzer.py:206 | rounding then clamping equals clamping then rounding |
| FocusScore.FocusScoreOf | focus_analyzer.py:189-206 | the focus score lies in [0, 100] for every base score, median and entropy |
| FocusScore.FocusScoreMonotone | focus_analyzer.py:191-206 | the score never falls when the base score or the median rises or the entropy falls |
| FocusScore.Interpret | focus_analyzer.py:264-275 | the reading of a score is a band whose range holds the score |
| FocusScore.BandsDisjoint | focus_analyzer.py:264-275 | no score lies in two bands |
| FocusScore.InterpretIffInBand | focus_analyzer.py:264-275 | the reading is a band exactly when the score lies in its range (cut points 80, 60, 40, 20) |
| FocusScore.InterpretMonotone | focus_analyzer.py:264-275 | a higher score never gets a worse reading |
| FocusScore.MessagesDistinct | focus_analyzer.py:266-275 | `Message` gives each band its own text (emoji aside), so two readings share a text only when they are the same band |
| FocusAnalysis.SwitchesPerHour | focus_analyzer.py:232-235 | with active time, the rate times the active hours is the number of transitions; with none, the rate is 0; one session means no switches |
| FocusAnalysis.DurationsInMinutes | focus_analyzer.py:227-228 | each session length converted to minutes, one per session |
| FocusAnalysis.WindowEventsForDate | focus_analyzer.py:53-60 | no window bucket means no events; with a bucket, the day's AFK-filtered events are returned unchanged |
| FocusAnalysis.SessionMetrics | focus_analyzer.py:223-250 | metrics exist exactly when there are sessions, count them, and total their time in minutes; the switch rate is the transitions per active hour (non-negative, 0 for one session), the median is that of the session lengths in minutes, the entropy is that of the sessions, and the score is the clamped formula over those three, in [0, 100] |
| FocusAnalysis.AnalyzeFocus | focus_analyzer.py:217-250 | no metrics exactly when there are no events or no sessions survive; otherwise the metrics are those of the de-bounced sessions, as `SessionMetrics` characterises them |
| FocusAnalysis.FocusScoreForDate | focus_analyzer.py:253-256 | the day's score is in [0, 100]: the metrics' score when there are metrics, and 50 when there is no window bucket or no metrics |
| FocusAnalysis.MedianWithinSessions | focus_analyzer.py:227-230 | the median session length lies between the shortest and longest session |
| FocusAnalysis.SingleSessionMetrics | focus_analyzer.py:227-250 | one session of `d` seconds has no switches, median and total `d/60` minutes, and the score of a zero switch rate |
| FocusAnalysis.InterruptedHourSessions | focus_analyzer.py:78-121 | an hour of IDE interrupted by a 4 s chat message de-bounces to one 3604 s IDE session |
| FocusAnalysis.InterruptedHourMetrics | focus_analyzer.py:217-250 | that day has 0 switches, a median of 3604/60 minutes, and a score clamped to 100 when entropy is 0 and the base score is 100 |
| FocusAnalysis.NoDataIsNeutral | focus_analyzer.py:253-256 | no events or no window bucket gives no metrics and the neutral score 50 |
| SyncState.LoadState | sync_state.py:11-19 | a missing file, an OS error or invalid JSON gives a document with an empty ledger; otherwise the parsed document |
| SyncState.LoadSaveRoundTrip | sync_state.py:11-25 | saving a document and loading it again gives it back; this restates the JSON round-trip assumption listed under "Left out" rather than deriving it |
| SyncState.MarkSynced | sync_state.py:28-33 | marking fails exactly when the document lacks "synced_dates"; otherwise the ledger gains the date with time `now` and every other entry is kept |
| SyncState.IsSynced | sync_state.py:36-39 | fails exactly when the document lacks "synced_dates"; otherwise true exactly when the ledger holds the date |
| SyncState.UnsyncedMembers | sync_state.py:59-65 | a date is reported exactly when it lies in `today - days` up to `today - 1` and the ledger lacks it, so today never is |
| SyncState.UnsyncedIncreasing | sync_state.py:59-65 | the dates come strictly increasing: oldest first, each once |
| SyncState.UnsyncedLength | sync_state.py:59-65 | at most `days` dates (none when `days <= 0`) |
| SyncState.CollectUnsynced | sync_state.py:59-65 | the countdown loop computes exactly the oldest-first unsynced list |
| SyncState.UnsyncedDates | sync_state.py:42-65 | the result holds exactly the window dates the ledger lacks (an empty ledger when "synced_dates" is missing), strictly increasing, never today, at most `days` long |
| SyncState.CleanupOldEntries | sync_state.py:68-75 | fails exactly when the document lacks "synced_dates"; otherwise keeps exactly the entries dated on or after the cutoff, with their timestamps |
| SyncState.MarkThenIsSynced | sync_state.py:28-39 | after marking a date and saving, the date reads as synced |
| SyncState.MarkKeepsOtherDates | sync_state.py:32 | marking one date leaves every other date's status unchanged |
| SyncState.MarkRemovesFromUnsynced | sync_state.py:28-65 | a marked date leaves the unsynced list and nothing else does |
| SyncState.CleanupIdempotent | sync_state.py:71-74 | cleaning up twice with one cutoff equals cleaning up once |
| SyncState.UnsyncedDependsOnWindowOnly | sync_state.py:60-63 | the unsynced list depends only on which window dates the ledger holds |
| SyncState.CleanupKeepsWindow | sync_state.py:60-74 | pruning with a retention period at least as long as the window never changes the unsynced list |
| SyncState.EmptyLedgerAllUnsynced | sync_state.py:59-65 | with nothing synced, all `days` dates of the window are reported |
| SyncState.MissingFileIsEmptyLedger | sync_state.py:11-19 | a missing state file, or one whose reading fails with an OS error or invalid JSON, reads as an empty ledger: nothing synced, marking succeeds, cleanup succeeds, the whole window is unsynced |
| ActivityWatch.FindBucketByPrefix | activitywatch_client.py:22-28 | `None` exactly when no id starts with the prefix; otherwise the first id, in listing order, that does |
| ActivityWatch.MatchesAny | activitywatch_client.py:118-121 | true exactly when some needle, lower-cased, occurs in the text |
| ActivityWatch.AnyNeedleIn | activitywatch_client.py:118-121 | the inner loop with `break` finds a match exactly when one exists |
| ActivityWatch.Counts | activitywatch_client.py:117-151 | an event without an app never counts as social, and one whose url `urlparse` rejects never counts as GPT |
| ActivityWatch.CountedEvents | activitywatch_client.py:88-92 | exactly the events that count for a sum, each as many times as it occurs |
| ActivityWatch.FilteredTotal | activitywatch_client.py:88-92 | with non-negative durations a filtered sum lies between 0 and the total of all events |
| ActivityWatch.Minutes | activitywatch_client.py:94 | the whole minutes are within 30 s of the seconds, an exact half minute going to the even minute |
| ActivityWatch.ScreenSeconds | activitywatch_client.py:88-92 | the loop sums the durations of exactly the "not-afk" events, each once |
| ActivityWatch.SocialSeconds | activitywatch_client.py:114-121 | the loop sums the durations of exactly the events whose lower-cased app contains a lower-cased social app name, each once |
| ActivityWatch.GptSeconds | activitywatch_client.py:144-155 | the loop sums the durations of exactly the events whose lower-cased domain contains a lower-cased GPT domain, skipping urls `urlparse` rejects |
| ActivityWatch.ScreenTimeForDate | activitywatch_client.py:81-94 | an error exactly when there is no AFK bucket; otherwise the "not-afk" time in whole minutes |
| ActivityWatch.SocialTimeForDate | activitywatch_client.py:107-123 | an error exactly when there is no window bucket; otherwise the social time in whole minutes |
| ActivityWatch.GptTimeForDate | activitywatch_client.py:136-157 | 0, not an error, without a web bucket; otherwise the AI-assistant time in whole minutes |
| ActivityWatch.FilteredTotalOfCounted | activitywatch_client.py:115-121 | a filtered sum is the plain sum over the counting events: an event matching several names counts once |
| ActivityWatch.MinutesMonotone | activitywatch_client.py:94 | more seconds never give fewer minutes |
| ActivityWatch.MinutesTiesToEven | activitywatch_client.py:94 | 90 s and 150 s both round to 2 minutes |

## Left out

- The AFK interval filter is not modelled. `get_not_afk_intervals` and `filter_events_by_not_afk` are imported by focus_analyzer.py, but their definitions are not part of this model. `WindowEventsForDate` takes the already-filtered events as a parameter.
- The Shannon entropy (focus_analyzer.py:124-154) needs `log2`. The base score `100 * exp(-k * rate)` (focus_analyzer.py:191) needs `exp`. Both are passed in as functions.
- HTTP is left out: `get_buckets`, `get_events_for_date`, the `get_today_*` wrappers, exist_client.py and sync.py. Their results are parameters: the bucket ids and the day's events.
- File I/O and JSON are left out.
  - `_load_state` becomes `LoadState` over a `StoredFile` of three cases: absent, unreadable (an OS error or invalid JSON, the two failures it catches), parsed.
  - A state file whose bytes do not decode in the locale's text encoding raises `UnicodeDecodeError`, which `_load_state` does not catch (sync_state.py:18), so every ledger operation fails. The model has no case for such a file.
  - `_save_state` becomes `SaveState`, assuming JSON encoding round-trips.
  - Other keys of the state document are not modelled.
  - A parsed value that is not a mapping is not modelled.
- Dates are modelled as integer day numbers.
  - `strftime("%Y-%m-%d")` and `timedelta` are not modelled.
  - The cleanup compares date strings, and that coincides with day order for zero-padded four-digit years.
  - Ledger keys that are not such dates are not modelled.
- `datetime.now()` becomes the parameters `now` (the stored timestamp) and `today` (the day number of the current date).
- config.py defines neither `SYNC_STATE_FILE` nor `BACKFILL_DAYS`, so the import at sync_state.py:8 fails and the module cannot load as written. The model takes the state file as a `StoredFile` value and always passes `days` (whose default is `BACKFILL_DAYS`). `keep_days` (default 30) and the de-bounce threshold are passed too. `NOISE_THRESHOLD_SEC` = 5 appears as `FocusAnalysis.NoiseThresholdSec`.
- Durations are exact reals, not IEEE doubles. Rounding errors of float sums and of `d / 60` are not modelled.
- Text.Lower: lower-cases ASCII letters only, whereas Python's `str.lower` also maps non-ASCII letters.
- `urlparse(url).netloc` is given per event as `netloc`; `None` stands for `urlparse` raising.
- Events whose fields have the wrong JSON type are not modelled. Examples: a non-string app, which makes `.lower()` fail, and timestamps of mixed types, which make `sorted` fail.
- `Debouncer.SortByTimestamp` is an insertion sort. It agrees with Python's `sorted` because both are stable sorts by the same key (`SortByTimestampStable`).
- FocusScore.Message: the band texts omit the emoji that the source puts in front of each.
- `FocusMetrics.__str__` and the `__main__` blocks print only and are not modelled.
- ActivityWatch.FindBucketByPrefix: takes the ids in the order the bucket mapping iterates; that order comes from the server.
