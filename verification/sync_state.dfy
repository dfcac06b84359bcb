/** The sync ledger of sync_state.py: which calendar dates have been pushed, and
    when. Reading and writing the state file become a `StoredFile` value and a
    returned `Document`; the wall clock becomes the `now` and `today` parameters. */
module SyncState {
  import opened Wrappers

  /** A calendar date as a day number: consecutive dates differ by one. */
  type Day = int

  /** For each synced date, the ISO timestamp of the moment it was synced. */
  type Ledger = map<Day, string>

  /** The state document as parsed from JSON. `syncedDates` is `None` when the
      document has no "synced_dates" key. */
  datatype Document = Document(syncedDates: Option<Ledger>)

  /** What the state file holds on disk. `Unreadable` stands for the two
      failures `_load_state` catches: an OS error while opening or reading the
      file, and text that is not valid JSON. */
  datatype StoredFile = Absent | Unreadable | Parsed(doc: Document)

  /** Indexing a document without "synced_dates" raises `KeyError`. */
  datatype LedgerError = MissingSyncedDates

  /** `_load_state`: a missing or unreadable file is a fresh document with an
      empty ledger; otherwise the parsed document. */
  function LoadState(f: StoredFile): (doc: Document)
    ensures !f.Parsed? ==> doc == Document(Some(map[]))
    ensures f.Parsed? ==> doc == f.doc
  {
    if f.Parsed? then f.doc else Document(Some(map[]))
  }

  /** `_save_state`: the document written as JSON. */
  function SaveState(doc: Document): StoredFile {
    Parsed(doc)
  }

  /** Saving a document and loading it again gives the document back. This is
      the assumption that JSON encoding round-trips, restated for the model's
      `LoadState` and `SaveState`; it is not derived from anything deeper. */
  lemma LoadSaveRoundTrip(doc: Document)
    ensures LoadState(SaveState(doc)) == doc
  {
  }

  /** `mark_synced`: records `now` as the sync time of `day`, overwriting an
      earlier record of that day, and returns the document that is saved. */
  function MarkSynced(f: StoredFile, day: Day, now: string): (r: Result<Document, LedgerError>)
    ensures r.Failure? <==> LoadState(f).syncedDates.None?
    ensures r.Success? ==>
      var before := LoadState(f).syncedDates.value;
      && r.value.syncedDates.Some?
      && r.value.syncedDates.value.Keys == before.Keys + {day}
      && r.value.syncedDates.value[day] == now
      && (forall d :: d in before && d != day ==> r.value.syncedDates.value[d] == before[d])
  {
    match LoadState(f).syncedDates
    case None => Failure(MissingSyncedDates)
    case Some(ledger) => Success(Document(Some(ledger[day := now])))
  }

  /** `is_synced`: whether the ledger holds `day`. */
  function IsSynced(f: StoredFile, day: Day): (r: Result<bool, LedgerError>)
    ensures r.Failure? <==> LoadState(f).syncedDates.None?
    ensures r.Success? ==> (r.value <==> day in LoadState(f).syncedDates.value)
  {
    match LoadState(f).syncedDates
    case None => Failure(MissingSyncedDates)
    case Some(ledger) => Success(day in ledger)
  }

  /** `state.get("synced_dates", {})`: the ledger, or an empty one when the key
      is missing. */
  function LedgerOrEmpty(doc: Document): Ledger {
    doc.syncedDates.GetOr(map[])
  }

  /** Every element is smaller than every later one. */
  predicate StrictlyIncreasing(s: seq<Day>) {
    forall i, j :: 0 <= i < j < |s| ==> s[i] < s[j]
  }

  /** The dates `today - days` up to `today - 1` that the ledger lacks, oldest
      first: the reference definition of the loop in `get_unsynced_dates`. */
  function Unsynced(ledger: Ledger, today: Day, days: int): seq<Day>
    decreases days
  {
    if days <= 0 then []
    else
      var date := today - days;
      (if date in ledger then [] else [date]) + Unsynced(ledger, today, days - 1)
  }

  /** A date is reported exactly when it lies in the window and the ledger
      lacks it; in particular today is never reported. */
  lemma {:induction false} UnsyncedMembers(ledger: Ledger, today: Day, days: int)
    ensures forall d :: d in Unsynced(ledger, today, days) <==> today - days <= d < today && d !in ledger
    decreases days
  {
    if days > 0 {
      UnsyncedMembers(ledger, today, days - 1);
    }
  }

  /** The dates come oldest first, each once. */
  lemma {:induction false} UnsyncedIncreasing(ledger: Ledger, today: Day, days: int)
    ensures StrictlyIncreasing(Unsynced(ledger, today, days))
    decreases days
  {
    if days > 0 && today - days !in ledger {
      var rest := Unsynced(ledger, today, days - 1);
      UnsyncedIncreasing(ledger, today, days - 1);
      UnsyncedMembers(ledger, today, days - 1);
      PrependIncreasing(today - days, rest);
    } else if days > 0 {
      UnsyncedIncreasing(ledger, today, days - 1);
    }
  }

  /** No more dates than the window holds. */
  lemma {:induction false} UnsyncedLength(ledger: Ledger, today: Day, days: int)
    ensures |Unsynced(ledger, today, days)| <= if days > 0 then days else 0
    decreases days
  {
    if days > 0 {
      UnsyncedLength(ledger, today, days - 1);
    }
  }

  lemma PrependIncreasing(x: Day, rest: seq<Day>)
    requires StrictlyIncreasing(rest)
    requires forall d :: d in rest ==> x < d
    ensures StrictlyIncreasing([x] + rest)
  {
    var r := [x] + rest;
    forall i, j | 0 <= i < j < |r|
      ensures r[i] < r[j]
    {
      assert r[j] == rest[j - 1];
      if i > 0 {
        assert r[i] == rest[i - 1];
      } else {
        assert rest[j - 1] in rest;
      }
    }
  }

  /** One iteration of the loop of `get_unsynced_dates`. */
  lemma UnsyncedStep(ledger: Ledger, today: Day, i: int, acc: seq<Day>)
    requires i > 0
    ensures var date := today - i;
            (if date in ledger then acc else acc + [date]) + Unsynced(ledger, today, i - 1)
            == acc + Unsynced(ledger, today, i)
  {
    var date := today - i;
    var head := if date in ledger then [] else [date];
    var rest := Unsynced(ledger, today, i - 1);
    assert Unsynced(ledger, today, i) == head + rest;
    assert (if date in ledger then acc else acc + [date]) == acc + head;
    assert (acc + head) + rest == acc + (head + rest);
  }

  /** The loop of `get_unsynced_dates`: walks `i` from `days` down to 1 and
      collects `today - i` when the ledger lacks it. */
  method CollectUnsynced(synced: Ledger, today: Day, days: int) returns (unsynced: seq<Day>)
    ensures unsynced == Unsynced(synced, today, days)
  {
    unsynced := [];
    var i := days;
    while i > 0
      invariant i <= days
      invariant unsynced + Unsynced(synced, today, i) == Unsynced(synced, today, days)
      decreases i
    {
      var date := today - i;
      UnsyncedStep(synced, today, i, unsynced);
      if date !in synced {
        unsynced := unsynced + [date];
      }
      i := i - 1;
    }
  }

  /** `get_unsynced_dates(days)`: the dates of the last `days` days, oldest
      first, that the ledger lacks; a document without "synced_dates" counts as
      an empty ledger here. */
  method UnsyncedDates(f: StoredFile, today: Day, days: int) returns (unsynced: seq<Day>)
    ensures unsynced == Unsynced(LedgerOrEmpty(LoadState(f)), today, days)
    ensures forall d :: d in unsynced <==> today - days <= d < today && d !in LedgerOrEmpty(LoadState(f))
    ensures StrictlyIncreasing(unsynced)
    ensures today !in unsynced
    ensures |unsynced| <= if days > 0 then days else 0
  {
    var synced := LedgerOrEmpty(LoadState(f));
    unsynced := CollectUnsynced(synced, today, days);
    UnsyncedMembers(synced, today, days);
    UnsyncedIncreasing(synced, today, days);
    UnsyncedLength(synced, today, days);
  }

  /** `cleanup_old_entries(keep_days)`: keeps the entries dated on or after
      `today - keepDays`. */
  function CleanupOldEntries(f: StoredFile, today: Day, keepDays: int): (r: Result<Document, LedgerError>)
    ensures r.Failure? <==> LoadState(f).syncedDates.None?
    ensures r.Success? ==>
      var before := LoadState(f).syncedDates.value;
      && r.value.syncedDates.Some?
      && (forall d :: d in r.value.syncedDates.value <==> d in before && d >= today - keepDays)
      && (forall d :: d in r.value.syncedDates.value ==> r.value.syncedDates.value[d] == before[d])
  {
    match LoadState(f).syncedDates
    case None => Failure(MissingSyncedDates)
    case Some(ledger) =>
      var cutoff := today - keepDays;
      Success(Document(Some(map d | d in ledger && d >= cutoff :: ledger[d])))
  }

  /** After a date is marked, it reads as synced. */
  lemma MarkThenIsSynced(f: StoredFile, day: Day, now: string)
    requires MarkSynced(f, day, now).Success?
    ensures IsSynced(SaveState(MarkSynced(f, day, now).value), day) == Success(true)
  {
  }

  /** Marking one date leaves the status of every other date as it was. */
  lemma MarkKeepsOtherDates(f: StoredFile, day: Day, other: Day, now: string)
    requires MarkSynced(f, day, now).Success? && other != day
    ensures IsSynced(SaveState(MarkSynced(f, day, now).value), other) == IsSynced(f, other)
  {
  }

  /** A marked date drops out of the unsynced window, and nothing else does. */
  lemma MarkRemovesFromUnsynced(f: StoredFile, day: Day, now: string, today: Day, days: int)
    requires MarkSynced(f, day, now).Success?
    ensures forall d ::
      d in Unsynced(LedgerOrEmpty(MarkSynced(f, day, now).value), today, days)
      <==> d in Unsynced(LedgerOrEmpty(LoadState(f)), today, days) && d != day
  {
    UnsyncedMembers(LedgerOrEmpty(MarkSynced(f, day, now).value), today, days);
    UnsyncedMembers(LedgerOrEmpty(LoadState(f)), today, days);
  }

  /** Cleaning up twice with the same cutoff is the same as cleaning up once. */
  lemma CleanupIdempotent(f: StoredFile, today: Day, keepDays: int)
    requires CleanupOldEntries(f, today, keepDays).Success?
    ensures CleanupOldEntries(SaveState(CleanupOldEntries(f, today, keepDays).value), today, keepDays)
            == CleanupOldEntries(f, today, keepDays)
  {
    var once := CleanupOldEntries(f, today, keepDays).value.syncedDates.value;
    var twice := CleanupOldEntries(SaveState(CleanupOldEntries(f, today, keepDays).value), today, keepDays)
                 .value.syncedDates.value;
    assert once == twice;
  }

  /** Two ledgers that agree on which dates of the window they hold give the
      same unsynced dates. */
  lemma {:induction false} UnsyncedDependsOnWindowOnly(l1: Ledger, l2: Ledger, today: Day, days: int)
    requires forall d :: today - days <= d < today ==> (d in l1 <==> d in l2)
    ensures Unsynced(l1, today, days) == Unsynced(l2, today, days)
    decreases days
  {
    if days > 0 {
      UnsyncedDependsOnWindowOnly(l1, l2, today, days - 1);
    }
  }

  /** Cleaning up never makes a date of the backfill window look unsynced again
      as long as the window is no longer than the retention period. */
  lemma CleanupKeepsWindow(f: StoredFile, today: Day, keepDays: int, days: int)
    requires CleanupOldEntries(f, today, keepDays).Success?
    requires days <= keepDays
    ensures Unsynced(LedgerOrEmpty(CleanupOldEntries(f, today, keepDays).value), today, days)
            == Unsynced(LedgerOrEmpty(LoadState(f)), today, days)
  {
    UnsyncedDependsOnWindowOnly(LedgerOrEmpty(CleanupOldEntries(f, today, keepDays).value),
                                LedgerOrEmpty(LoadState(f)), today, days);
  }

  /** With nothing synced, every date of the window is reported. */
  lemma {:induction false} EmptyLedgerAllUnsynced(today: Day, days: int)
    ensures |Unsynced(map[], today, days)| == if days > 0 then days else 0
    decreases days
  {
    if days > 0 {
      EmptyLedgerAllUnsynced(today, days - 1);
    }
  }

  /** A missing or unreadable state file is an empty ledger, never an error:
      no date is synced, marking succeeds with a one-entry ledger, and the whole
      window is unsynced. */
  lemma MissingFileIsEmptyLedger(f: StoredFile, day: Day, now: string, today: Day, days: int)
    requires !f.Parsed?
    ensures IsSynced(f, day) == Success(false)
    ensures MarkSynced(f, day, now) == Success(Document(Some(map[day := now])))
    ensures CleanupOldEntries(f, today, days) == Success(Document(Some(map[])))
    ensures |Unsynced(LedgerOrEmpty(LoadState(f)), today, days)| == if days > 0 then days else 0
  {
    EmptyLedgerAllUnsynced(today, days);
  }
}
