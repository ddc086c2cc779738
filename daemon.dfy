/** The daemon's ingestion cycle (src/daemon/khronicle_daemon.cpp): a
    small state machine over the package-log cursor, the journal watermark
    and the last snapshot, feeding parsed events and snapshots into the
    store and the watch engine. What the source reads from the outside
    world is a parameter: the bytes of pacman.log (None when it cannot be
    opened), the journal's output lines, the snapshot the builder produced,
    the clock reading and the calendar functions. */
module Daemon {
  import opened Wrappers
  import opened JsonModel
  import opened Models
  import opened Text
  import opened Store
  import opened WatchEngine
  import PacmanParser
  import JournalParser

  /** defaultJournalStart looks back thirty minutes. */
  const JournalLookbackMs := 30 * 60 * 1000

  const PacmanCursorKey := "pacman_last_cursor"
  const JournalTimestampKey := "journal_last_timestamp"

  /** The kernel packages detectKernelPackage looks for, in order. */
  const KernelPackages: seq<string> := ["linux-cachyos", "linux", "linux-zen", "linux-lts"]

  /** What one cycle reads from the clock and the id generators: the
      current time, the local minutes of the day of a time point, and the
      UUIDs the watch engine draws for the signals of one origin id. */
  datatype CycleEnv = CycleEnv(now: TimePoint, localMinutes: TimePoint -> int, signalIds: string -> nat -> string)

  function DefaultJournalStart(now: TimePoint): TimePoint
  {
    now - JournalLookbackMs
  }

  /** isoToTimePoint: an unparsable value (the epoch) falls back to the
      default start. */
  function IsoToTimePoint(cal: Calendar, value: string, now: TimePoint): TimePoint
  {
    var parsed := FromIso8601Utc(cal, value);
    if parsed == 0 then DefaultJournalStart(now) else parsed
  }

  // ---------------------------------------------------------------------
  // detectKernelPackage

  /** The position of the first name that is a key of the object. */
  function FirstPresent(keyPackages: Json, names: seq<string>): (r: Option<nat>)
    ensures r.Some? ==> r.value < |names| && Has(keyPackages, names[r.value])
    ensures r.Some? ==> forall j :: 0 <= j < r.value ==> !Has(keyPackages, names[j])
    ensures r.None? ==> forall j :: 0 <= j < |names| ==> !Has(keyPackages, names[j])
  {
    if names == [] then None
    else if Has(keyPackages, names[0]) then Some(0)
    else
      match FirstPresent(keyPackages, names[1..])
      case None => None
      case Some(i) => Some(i + 1)
  }

  /** The kernel package named in a kernel-change event. */
  function KernelPackageOf(snapshot: SystemSnapshot): string
  {
    match FirstPresent(snapshot.keyPackages, KernelPackages)
    case Some(i) => KernelPackages[i]
    case None => "linux"
  }

  /** The first listed kernel package present in keyPackages wins, and
      "linux" is the answer when none is; the answer is always one of the
      kernel packages the package-log parser knows. */
  lemma KernelPackageChoice(snapshot: SystemSnapshot)
    ensures PacmanParser.IsKernelPackage(KernelPackageOf(snapshot))
    ensures Has(snapshot.keyPackages, "linux-cachyos") ==> KernelPackageOf(snapshot) == "linux-cachyos"
    ensures !Has(snapshot.keyPackages, "linux-cachyos") && Has(snapshot.keyPackages, "linux") ==>
      KernelPackageOf(snapshot) == "linux"
    ensures KernelPackageOf(snapshot) != "linux" ==> Has(snapshot.keyPackages, KernelPackageOf(snapshot))
  {
    var r := FirstPresent(snapshot.keyPackages, KernelPackages);
    if Has(snapshot.keyPackages, "linux-cachyos") {
      assert KernelPackages[0] == "linux-cachyos";
    } else if Has(snapshot.keyPackages, "linux") {
      assert KernelPackages[0] == "linux-cachyos" && KernelPackages[1] == "linux";
    }
  }

  /** detectKernelPackage: the loop over the candidate names. */
  method DetectKernelPackage(snapshot: SystemSnapshot) returns (name: string)
    ensures name == KernelPackageOf(snapshot)
  {
    var i := 0;
    while i < |KernelPackages|
      invariant 0 <= i <= |KernelPackages|
      invariant forall j :: 0 <= j < i ==> !Has(snapshot.keyPackages, KernelPackages[j])
    {
      if Has(snapshot.keyPackages, KernelPackages[i]) {
        return KernelPackages[i];
      }
      i := i + 1;
    }
    return "linux";
  }

  // ---------------------------------------------------------------------
  // Events the daemon writes

  /** Events stamped with the store's host id before they are added. */
  function Stamped(events: seq<KhronicleEvent>, hostId: string): (r: seq<KhronicleEvent>)
    ensures |r| == |events|
    ensures forall i :: 0 <= i < |events| ==> r[i] == events[i].(hostId := hostId)
  {
    seq(|events|, i requires 0 <= i < |events| => events[i].(hostId := hostId))
  }

  /** The events table after addEvent of each event of a batch, in order. */
  function AddedAll(events: map<string, EventRow>, batch: seq<KhronicleEvent>): map<string, EventRow>
  {
    if batch == [] then events
    else AddedEvents(AddedAll(events, batch[..|batch| - 1]), batch[|batch| - 1])
  }

  /** A batch never removes a row and adds no key but the ids of its
      events. */
  lemma {:induction false} AddedAllKeys(events: map<string, EventRow>, batch: seq<KhronicleEvent>)
    ensures events.Keys <= AddedAll(events, batch).Keys
    ensures forall k :: k in AddedAll(events, batch) ==> k in events || exists i :: 0 <= i < |batch| && batch[i].id == k
  {
    if batch != [] {
      var init := batch[..|batch| - 1];
      var e := batch[|batch| - 1];
      AddedAllKeys(events, init);
      forall k | k in AddedAll(events, batch)
        ensures k in events || exists i :: 0 <= i < |batch| && batch[i].id == k
      {
        if k != e.id && k !in events {
          var i :| 0 <= i < |init| && init[i].id == k;
          assert batch[i] == init[i];
        }
      }
    }
  }

  /** A batch keeps a table free of duplicates. */
  lemma {:induction false} AddedAllNoDuplicates(events: map<string, EventRow>, batch: seq<KhronicleEvent>)
    requires NoDuplicates(events)
    ensures NoDuplicates(AddedAll(events, batch))
  {
    if batch != [] {
      AddedAllNoDuplicates(events, batch[..|batch| - 1]);
      AddedEventsNoDuplicates(AddedAll(events, batch[..|batch| - 1]), batch[|batch| - 1]);
    }
  }

  /** An id that is neither in the table nor the id of an event of the
      batch is not in the table afterwards. */
  lemma {:induction false} AddedAllFresh(events: map<string, EventRow>, batch: seq<KhronicleEvent>, id: string)
    requires id !in events
    requires forall i :: 0 <= i < |batch| ==> batch[i].id != id
    ensures id !in AddedAll(events, batch)
  {
    if batch != [] {
      AddedAllFresh(events, batch[..|batch| - 1], id);
    }
  }

  /** A new id replaces no row, so every stored duplicate survives; and
      the added event is always represented afterwards. */
  lemma AddedEventsRepresents(events: map<string, EventRow>, e: KhronicleEvent, x: KhronicleEvent)
    requires e.id !in events
    ensures HasDuplicate(AddedEvents(events, e), e)
    ensures HasDuplicate(events, x) ==> HasDuplicate(AddedEvents(events, e), x)
  {
    var after := AddedEvents(events, e);
    if !HasDuplicate(events, e) {
      assert IsDuplicate(after[e.id], e);
    }
    if HasDuplicate(events, x) {
      var k :| k in events && IsDuplicate(events[k], x);
      assert k in after && after[k] == events[k];
    }
  }

  /** With ids that are new to the table and to each other, every event of
      a batch ends up stored: some row has its second, category and
      summary. */
  lemma {:induction false} IngestedRepresented(events: map<string, EventRow>, batch: seq<KhronicleEvent>)
    requires forall i :: 0 <= i < |batch| ==> batch[i].id !in events
    requires forall i, j :: 0 <= i < j < |batch| ==> batch[i].id != batch[j].id
    ensures forall i :: 0 <= i < |batch| ==> HasDuplicate(AddedAll(events, batch), batch[i])
  {
    if batch != [] {
      var n := |batch| - 1;
      var init := batch[..n];
      var e := batch[n];
      assert forall i :: 0 <= i < n ==> init[i] == batch[i];
      IngestedRepresented(events, init);
      var before := AddedAll(events, init);
      AddedAllFresh(events, init, e.id);
      forall i | 0 <= i < |batch| ensures HasDuplicate(AddedAll(events, batch), batch[i]) {
        AddedEventsRepresents(before, e, batch[i]);
      }
    }
  }

  /** The host id is not a column of the events table, so the stamp does
      not change what is stored. */
  lemma {:induction false} StampNotStored(events: map<string, EventRow>, batch: seq<KhronicleEvent>, hostId: string)
    ensures AddedAll(events, Stamped(batch, hostId)) == AddedAll(events, batch)
  {
    if batch != [] {
      var stamped := Stamped(batch, hostId);
      assert stamped[..|batch| - 1] == Stamped(batch[..|batch| - 1], hostId);
      StampNotStored(events, batch[..|batch| - 1], hostId);
      var e := batch[|batch| - 1];
      assert EventRowOf(e.(hostId := hostId)) == EventRowOf(e);
    }
  }

  /** The event runSnapshotCheck writes when the kernel version changes. */
  function KernelChangeEvent(previous: string, current: SystemSnapshot): KhronicleEvent
  {
    KhronicleEvent(
      "kernel-change-" + IntToString(current.timestamp),
      current.timestamp,
      Kernel,
      Uname,
      "Kernel changed: " + previous + " -> " + current.kernelVersion,
      "Kernel version changed from " + previous + " to " + current.kernelVersion,
      JObj(map["kernelVersion" := JStr(previous)]),
      JObj(map["kernelVersion" := JStr(current.kernelVersion)]),
      [KernelPackageOf(current)],
      "",
      "",
      EmptyProvenance,
      current.hostIdentity.hostId)
  }

  /** The snapshot as the daemon stores it: with the store's host identity. */
  function Observed(built: SystemSnapshot, host: HostIdentity): SystemSnapshot
  {
    built.(hostIdentity := host)
  }

  // ---------------------------------------------------------------------
  // Signals the daemon raises

  /** The signals appended by evaluating each event of a batch right after
      adding it, in order, every evaluation seeing the same rule cache.
      Events the store suppresses as duplicates are evaluated as well. */
  function BatchSignals(cache: seq<WatchRule>, batch: seq<KhronicleEvent>, env: CycleEnv): seq<WatchSignal>
  {
    if batch == [] then []
    else
      var e := batch[|batch| - 1];
      BatchSignals(cache, batch[..|batch| - 1], env) + EventSignals(cache, e, env.localMinutes, env.signalIds(e.id))
  }

  /** Appending signals in two steps appends their concatenation. */
  lemma AppendSignals(stored: seq<WatchSignal>, first: seq<WatchSignal>, second: seq<WatchSignal>)
    ensures stored + first + second == stored + (first + second)
  {
  }

  /** Every signal of a batch has an event of the batch as its origin,
      and that event's timestamp. */
  lemma {:induction false} BatchSignalsFromBatch(cache: seq<WatchRule>, batch: seq<KhronicleEvent>, env: CycleEnv)
    ensures forall k :: 0 <= k < |BatchSignals(cache, batch, env)| ==>
      && BatchSignals(cache, batch, env)[k].originType == "event"
      && exists j :: 0 <= j < |batch| && BatchSignals(cache, batch, env)[k].originId == batch[j].id
                                      && BatchSignals(cache, batch, env)[k].timestamp == batch[j].timestamp
  {
    if batch != [] {
      var init := batch[..|batch| - 1];
      var e := batch[|batch| - 1];
      BatchSignalsFromBatch(cache, init, env);
      var earlier: seq<WatchSignal> := BatchSignals(cache, init, env);
      var last: seq<WatchSignal> := EventSignals(cache, e, env.localMinutes, env.signalIds(e.id));
      SignalsOfFiringRules(cache, EventOrigin(e), r => RuleMatchesEvent(r, e, env.localMinutes), env.signalIds(e.id));
      forall k | 0 <= k < |earlier + last|
        ensures (earlier + last)[k].originType == "event"
        ensures exists j :: 0 <= j < |batch| && (earlier + last)[k].originId == batch[j].id
                                             && (earlier + last)[k].timestamp == batch[j].timestamp
      {
        if k < |earlier| {
          var j :| 0 <= j < |init| && earlier[k].originId == init[j].id && earlier[k].timestamp == init[j].timestamp;
          assert batch[j] == init[j];
        } else {
          assert batch[|batch| - 1] == e;
        }
      }
    }
  }

  /** The signals runSnapshotCheck appends: the new snapshot's when it is
      stored, then the kernel-change event's. */
  function SnapshotCheckSignals(cache: seq<WatchRule>, last: Option<SystemSnapshot>, current: SystemSnapshot,
                                env: CycleEnv): seq<WatchSignal>
  {
    if last.None? then SnapshotSignals(cache, current, env.localMinutes, env.signalIds(current.id))
    else if last.value.kernelVersion == current.kernelVersion then []
    else
      var event := KernelChangeEvent(last.value.kernelVersion, current);
      SnapshotSignals(cache, current, env.localMinutes, env.signalIds(current.id))
      + EventSignals(cache, event, env.localMinutes, env.signalIds(event.id))
  }

  /** The events table after runSnapshotCheck: the kernel-change event is
      added only when a previous snapshot had another kernel version. */
  function SnapshotCheckEvents(events: map<string, EventRow>, last: Option<SystemSnapshot>, current: SystemSnapshot): map<string, EventRow>
  {
    if last.Some? && last.value.kernelVersion != current.kernelVersion
    then AddedEvents(events, KernelChangeEvent(last.value.kernelVersion, current))
    else events
  }

  /** The snapshot table after runSnapshotCheck: the snapshot is stored
      unless a previous snapshot had the same kernel version. */
  function SnapshotCheckSnapshots(snapshots: map<string, SnapshotRow>, last: Option<SystemSnapshot>, current: SystemSnapshot): map<string, SnapshotRow>
  {
    if last.Some? && last.value.kernelVersion == current.kernelVersion then snapshots
    else snapshots[current.id := SnapshotRowOf(current)]
  }

  /** The last snapshot after runSnapshotCheck. */
  function SnapshotCheckLast(last: Option<SystemSnapshot>, current: SystemSnapshot): Option<SystemSnapshot>
  {
    if last.Some? && last.value.kernelVersion == current.kernelVersion then last else Some(current)
  }

  /** The cursor after runPacmanIngestion: the parser's, unless empty. */
  function AdvancedCursor(cursor: Option<string>, newCursor: string): Option<string>
  {
    if newCursor != "" then Some(newCursor) else cursor
  }

  /** The watermark after runJournalIngestion: raised, never lowered. */
  function RaisedWatermark(watermark: TimePoint, lastTimestamp: TimePoint): TimePoint
  {
    if lastTimestamp > watermark then lastTimestamp else watermark
  }

  /** An ingestion cycle never loses a stored event or snapshot. */
  lemma CycleKeepsRows(events: map<string, EventRow>, snapshots: map<string, SnapshotRow>,
                       pacmanBatch: seq<KhronicleEvent>, journalBatch: seq<KhronicleEvent>,
                       last: Option<SystemSnapshot>, current: SystemSnapshot)
    ensures events.Keys <= SnapshotCheckEvents(AddedAll(AddedAll(events, pacmanBatch), journalBatch), last, current).Keys
    ensures snapshots.Keys <= SnapshotCheckSnapshots(snapshots, last, current).Keys
  {
    AddedAllKeys(events, pacmanBatch);
    AddedAllKeys(AddedAll(events, pacmanBatch), journalBatch);
  }

  /** The rule cache and reload time of the watch engine after a step of
      the cycle that started from `cache` and `lastReload`: untouched when
      the step evaluated nothing, reloaded as maybeReloadRules does
      otherwise. */
  predicate EngineAfter(rules: seq<WatchRule>, reload: TimePoint, cache: seq<WatchRule>, lastReload: TimePoint,
                        stored: seq<WatchRule>, now: TimePoint, evaluated: bool)
  {
    if evaluated then rules == CachedRules(cache, lastReload, stored, now) && reload == ReloadTime(cache, lastReload, now)
    else rules == cache && reload == lastReload
  }

  /** Two steps of a cycle leave the engine as one step that evaluated
      whenever either did. */
  lemma EngineAfterChain(rules: seq<WatchRule>, reload: TimePoint, midRules: seq<WatchRule>, midReload: TimePoint,
                         cache: seq<WatchRule>, lastReload: TimePoint, stored: seq<WatchRule>, now: TimePoint,
                         first: bool, second: bool)
    requires EngineAfter(midRules, midReload, cache, lastReload, stored, now, first)
    requires EngineAfter(rules, reload, midRules, midReload, stored, now, second)
    ensures EngineAfter(rules, reload, cache, lastReload, stored, now, first || second)
  {
    ReloadSettles(cache, lastReload, stored, now);
  }


  /** Every step of a cycle reads the same rule cache: the one the first
      evaluation of the cycle leaves. */
  lemma EngineAfterSettles(rules: seq<WatchRule>, reload: TimePoint, cache: seq<WatchRule>, lastReload: TimePoint,
                           stored: seq<WatchRule>, now: TimePoint, evaluated: bool)
    requires EngineAfter(rules, reload, cache, lastReload, stored, now, evaluated)
    ensures CachedRules(rules, reload, stored, now) == CachedRules(cache, lastReload, stored, now)
    ensures ReloadTime(rules, reload, now) == ReloadTime(cache, lastReload, now)
  {
    ReloadSettles(cache, lastReload, stored, now);
  }


  // ---------------------------------------------------------------------
  // Persisted state

  /** The meta table after persistStateToMeta. */
  function PersistedMeta(meta: map<string, string>, cursor: Option<string>, watermark: TimePoint, cal: Calendar): map<string, string>
  {
    var withCursor := if cursor.Some? then meta[PacmanCursorKey := cursor.value] else meta;
    withCursor[JournalTimestampKey := ToIso8601Utc(cal, watermark)]
  }

  /** The cursor loadStateFromMeta leaves: the stored one, if any. */
  function LoadedCursor(meta: map<string, string>, cursor: Option<string>): Option<string>
  {
    if PacmanCursorKey in meta then Some(meta[PacmanCursorKey]) else cursor
  }

  /** The watermark loadStateFromMeta leaves. */
  function LoadedWatermark(meta: map<string, string>, watermark: TimePoint, cal: Calendar, now: TimePoint): TimePoint
  {
    if JournalTimestampKey in meta then IsoToTimePoint(cal, meta[JournalTimestampKey], now) else watermark
  }

  /** What is persisted is what the next start loads: the cursor, and the
      watermark to the second (unless it lies in the first second after
      the epoch or the last one before it, which read back as the epoch and
      so as the default start). */
  lemma PersistLoadRoundTrip(meta: map<string, string>, cursor: Option<string>, watermark: TimePoint, cal: Calendar,
                             now: TimePoint, staleCursor: Option<string>, staleWatermark: TimePoint)
    requires CalendarInverse(cal)
    requires ToEpochSeconds(watermark) != 0 && ToEpochSeconds(watermark) != -1
    ensures cursor.Some? ==> LoadedCursor(PersistedMeta(meta, cursor, watermark, cal), staleCursor) == cursor
    ensures cursor.None? ==> LoadedCursor(PersistedMeta(meta, cursor, watermark, cal), staleCursor) == LoadedCursor(meta, staleCursor)
    ensures LoadedWatermark(PersistedMeta(meta, cursor, watermark, cal), staleWatermark, cal, now)
      == FromEpochSeconds(ToEpochSeconds(watermark))
  {
    assert |PacmanCursorKey| != |JournalTimestampKey|;
    IsoRoundTrip(cal, watermark);
  }

  /** std::max_element by timestamp over a non-empty listing. */
  method MaxElement(snapshots: seq<SystemSnapshot>) returns (best: nat)
    requires |snapshots| > 0
    ensures best == FirstLatest(snapshots)
  {
    best := 0;
    var i := 1;
    while i < |snapshots|
      invariant 1 <= i <= |snapshots|
      invariant best == FirstLatest(snapshots[..i])
    {
      assert snapshots[..i + 1][..i] == snapshots[..i];
      if snapshots[best].timestamp < snapshots[i].timestamp {
        best := i;
      }
      i := i + 1;
    }
    assert snapshots[..i] == snapshots;
  }

  class KhronicleDaemon {
    const store: KhronicleStore
    const watch: WatchEngine
    var pacmanCursor: Option<string>
    var journalLastTimestamp: TimePoint
    var lastSnapshot: Option<SystemSnapshot>

    /** The watch engine works on the daemon's store. */
    ghost predicate Valid()
      reads this, store
    {
      store.Valid() && watch.store == store
    }

    /** The constructor: a watch engine over the store, then the state
        loaded from the meta table and the latest stored snapshot. */
    constructor (store: KhronicleStore, cal: Calendar, now: TimePoint)
      requires store.Valid()
      ensures Valid() && this.store == store && fresh(watch)
      ensures watch.rulesCache == [] && watch.lastRulesReload == 0
      ensures pacmanCursor == LoadedCursor(store.meta, None)
      ensures journalLastTimestamp == LoadedWatermark(store.meta, DefaultJournalStart(now), cal, now)
      ensures store.snapshots == map[] ==> lastSnapshot == None
      ensures store.snapshots != map[] ==> lastSnapshot.Some? && IsLatestStored(store.snapshots, lastSnapshot.value)
    {
      this.store := store;
      watch := new WatchEngine(store);
      pacmanCursor := None;
      journalLastTimestamp := DefaultJournalStart(now);
      lastSnapshot := None;
      new;
      LoadStateFromMeta(cal, now);
      LoadLastSnapshotFromStore();
    }

    /** loadStateFromMeta. */
    method LoadStateFromMeta(cal: Calendar, now: TimePoint)
      requires Valid()
      modifies this
      ensures Valid()
      ensures pacmanCursor == LoadedCursor(store.meta, old(pacmanCursor))
      ensures journalLastTimestamp == LoadedWatermark(store.meta, old(journalLastTimestamp), cal, now)
      ensures lastSnapshot == old(lastSnapshot)
    {
      var cursor := store.GetMeta(PacmanCursorKey);
      if cursor.Some? {
        pacmanCursor := cursor;
      }
      var timestamp := store.GetMeta(JournalTimestampKey);
      if timestamp.Some? {
        journalLastTimestamp := IsoToTimePoint(cal, timestamp.value, now);
      }
    }

    /** persistStateToMeta: the cursor when there is one, and always the
        watermark as ISO text. */
    method PersistStateToMeta(cal: Calendar)
      requires Valid()
      modifies store
      ensures Valid()
      ensures store.meta == PersistedMeta(old(store.meta), pacmanCursor, journalLastTimestamp, cal)
      ensures store.events == old(store.events) && store.snapshots == old(store.snapshots)
      ensures store.auditLog == old(store.auditLog) && store.hostIdentity == old(store.hostIdentity)
      ensures store.watchRules == old(store.watchRules) && store.watchSignals == old(store.watchSignals)
    {
      if pacmanCursor.Some? {
        store.SetMeta(PacmanCursorKey, pacmanCursor.value);
      }
      store.SetMeta(JournalTimestampKey, ToIso8601Utc(cal, journalLastTimestamp));
    }

    /** loadLastSnapshotFromStore: the first snapshot of the listing with
        the largest timestamp. */
    method LoadLastSnapshotFromStore()
      requires Valid()
      modifies this
      ensures Valid()
      ensures store.snapshots == map[] ==> lastSnapshot == old(lastSnapshot)
      ensures store.snapshots != map[] ==> lastSnapshot.Some? && IsLatestStored(store.snapshots, lastSnapshot.value)
      ensures pacmanCursor == old(pacmanCursor) && journalLastTimestamp == old(journalLastTimestamp)
    {
      var snapshots := store.ListSnapshots();
      if |snapshots| == 0 {
        return;
      }
      var best := MaxElement(snapshots);
      LatestListed(store.snapshots, snapshots);
      lastSnapshot := Some(snapshots[best]);
    }

    /** Each event of a batch stamped with the host id, added to the store
        and evaluated by the watch engine. */
    method IngestEvents(events: seq<KhronicleEvent>, hostId: string, env: CycleEnv)
      requires Valid()
      modifies store, watch
      ensures Valid()
      ensures store.events == AddedAll(old(store.events), Stamped(events, hostId))
      ensures store.watchSignals == old(store.watchSignals) + BatchSignals(
        CachedRules(old(watch.rulesCache), old(watch.lastRulesReload), old(store.watchRules), env.now), Stamped(events, hostId), env)
      ensures EngineAfter(watch.rulesCache, watch.lastRulesReload, old(watch.rulesCache), old(watch.lastRulesReload), old(store.watchRules), env.now, events != [])
      ensures store.snapshots == old(store.snapshots) && store.meta == old(store.meta)
      ensures store.auditLog == old(store.auditLog) && store.hostIdentity == old(store.hostIdentity)
      ensures store.watchRules == old(store.watchRules)
    {
      ghost var cache := CachedRules(watch.rulesCache, watch.lastRulesReload, store.watchRules, env.now);
      ghost var stamped := Stamped(events, hostId);
      var i := 0;
      while i < |events|
        invariant 0 <= i <= |events|
        invariant Valid()
        invariant store.events == AddedAll(old(store.events), stamped[..i])
        invariant store.watchSignals == old(store.watchSignals) + BatchSignals(cache, stamped[..i], env)
        invariant EngineAfter(watch.rulesCache, watch.lastRulesReload, old(watch.rulesCache), old(watch.lastRulesReload), old(store.watchRules), env.now, i > 0)
        invariant store.snapshots == old(store.snapshots) && store.meta == old(store.meta)
        invariant store.auditLog == old(store.auditLog) && store.hostIdentity == old(store.hostIdentity)
        invariant store.watchRules == old(store.watchRules)
      {
        var event := events[i].(hostId := hostId);
        assert stamped[..i + 1][..i] == stamped[..i] && stamped[..i + 1][i] == event;
        assert AddedAll(old(store.events), stamped[..i + 1]) == AddedEvents(AddedAll(old(store.events), stamped[..i]), event);
        ghost var added := EventSignals(cache, event, env.localMinutes, env.signalIds(event.id));
        ghost var earlier := BatchSignals(cache, stamped[..i], env);
        assert BatchSignals(cache, stamped[..i + 1], env) == earlier + added;
        ReloadSettles(old(watch.rulesCache), old(watch.lastRulesReload), old(store.watchRules), env.now);
        RecordEvent(event, env);
        AppendSignals(old(store.watchSignals), earlier, added);
        i := i + 1;
      }
      assert stamped[..i] == stamped;
    }

    /** runPacmanIngestion: parse from the cursor, ingest what the parser
        emits, and move the cursor only to a non-empty one. */
    method RunPacmanIngestion(file: Option<string>, localTime: string -> Option<TimePoint>, env: CycleEnv)
      requires Valid()
      modifies this, store, watch
      ensures Valid()
      ensures store.events == AddedAll(old(store.events),
        Stamped(PacmanParser.PacmanLog(file, old(pacmanCursor), localTime).events, old(store.hostIdentity).hostId))
      ensures PacmanParser.PacmanLog(file, old(pacmanCursor), localTime).newCursor != "" ==>
        pacmanCursor == Some(PacmanParser.PacmanLog(file, old(pacmanCursor), localTime).newCursor)
      ensures PacmanParser.PacmanLog(file, old(pacmanCursor), localTime).newCursor == "" ==> pacmanCursor == old(pacmanCursor)
      ensures store.watchSignals == old(store.watchSignals) + BatchSignals(
        CachedRules(old(watch.rulesCache), old(watch.lastRulesReload), old(store.watchRules), env.now),
        Stamped(PacmanParser.PacmanLog(file, old(pacmanCursor), localTime).events, old(store.hostIdentity).hostId), env)
      ensures EngineAfter(watch.rulesCache, watch.lastRulesReload, old(watch.rulesCache), old(watch.lastRulesReload), old(store.watchRules), env.now,
                          PacmanParser.PacmanLog(file, old(pacmanCursor), localTime).events != [])
      ensures journalLastTimestamp == old(journalLastTimestamp) && lastSnapshot == old(lastSnapshot)
      ensures store.snapshots == old(store.snapshots) && store.meta == old(store.meta)
      ensures store.auditLog == old(store.auditLog) && store.hostIdentity == old(store.hostIdentity)
      ensures store.watchRules == old(store.watchRules)
    {
      var result := PacmanParser.ParsePacmanLog(file, pacmanCursor, localTime);
      var host := store.GetHostIdentity();
      IngestEvents(result.events, host.hostId, env);
      if result.newCursor != "" {
        pacmanCursor := Some(result.newCursor);
      }
    }

    /** runJournalIngestion: parse the journal lines since the watermark,
        ingest the events, and raise the watermark only to a later time. */
    method RunJournalIngestion(journal: JournalParser.JournalEnv, lines: seq<string>, env: CycleEnv)
      requires Valid()
      modifies this, store, watch
      ensures Valid()
      ensures store.events == AddedAll(old(store.events),
        Stamped(JournalParser.JournalLines(journal, lines, old(journalLastTimestamp)).events, old(store.hostIdentity).hostId))
      ensures journalLastTimestamp >= old(journalLastTimestamp)
      ensures journalLastTimestamp >= JournalParser.JournalLines(journal, lines, old(journalLastTimestamp)).lastTimestamp
      ensures journalLastTimestamp == old(journalLastTimestamp)
        || journalLastTimestamp == JournalParser.JournalLines(journal, lines, old(journalLastTimestamp)).lastTimestamp
      ensures store.watchSignals == old(store.watchSignals) + BatchSignals(
        CachedRules(old(watch.rulesCache), old(watch.lastRulesReload), old(store.watchRules), env.now),
        Stamped(JournalParser.JournalLines(journal, lines, old(journalLastTimestamp)).events, old(store.hostIdentity).hostId), env)
      ensures EngineAfter(watch.rulesCache, watch.lastRulesReload, old(watch.rulesCache), old(watch.lastRulesReload), old(store.watchRules), env.now,
                          JournalParser.JournalLines(journal, lines, old(journalLastTimestamp)).events != [])
      ensures pacmanCursor == old(pacmanCursor) && lastSnapshot == old(lastSnapshot)
      ensures store.snapshots == old(store.snapshots) && store.meta == old(store.meta)
      ensures store.auditLog == old(store.auditLog) && store.hostIdentity == old(store.hostIdentity)
      ensures store.watchRules == old(store.watchRules)
    {
      var result := JournalParser.ParseJournalOutputLines(journal, lines, journalLastTimestamp);
      var host := store.GetHostIdentity();
      IngestEvents(result.events, host.hostId, env);
      if result.lastTimestamp > journalLastTimestamp {
        journalLastTimestamp := result.lastTimestamp;
      }
    }

    /** runSnapshotCheck: the first snapshot is always stored; later ones
        only when the kernel version changed, together with a kernel-change
        event. */
    method RunSnapshotCheck(built: SystemSnapshot, env: CycleEnv)
      requires Valid()
      modifies this, store, watch
      ensures Valid()
      ensures store.snapshots == SnapshotCheckSnapshots(old(store.snapshots), old(lastSnapshot), Observed(built, old(store.hostIdentity)))
      ensures store.events == SnapshotCheckEvents(old(store.events), old(lastSnapshot), Observed(built, old(store.hostIdentity)))
      ensures lastSnapshot == SnapshotCheckLast(old(lastSnapshot), Observed(built, old(store.hostIdentity)))
      ensures pacmanCursor == old(pacmanCursor) && journalLastTimestamp == old(journalLastTimestamp)
      ensures store.meta == old(store.meta) && store.auditLog == old(store.auditLog)
      ensures store.hostIdentity == old(store.hostIdentity) && store.watchRules == old(store.watchRules)
      ensures store.watchSignals == old(store.watchSignals) + SnapshotCheckSignals(
        CachedRules(old(watch.rulesCache), old(watch.lastRulesReload), old(store.watchRules), env.now),
        old(lastSnapshot), Observed(built, old(store.hostIdentity)), env)
      ensures EngineAfter(watch.rulesCache, watch.lastRulesReload, old(watch.rulesCache), old(watch.lastRulesReload), old(store.watchRules), env.now,
                          old(lastSnapshot).None? || old(lastSnapshot).value.kernelVersion != built.kernelVersion)
    {
      var host := store.GetHostIdentity();
      var current := Observed(built, host);
      if lastSnapshot.None? {
        RecordSnapshot(current, env);
        lastSnapshot := Some(current);
        return;
      }
      var previous := lastSnapshot.value;
      if previous.kernelVersion == current.kernelVersion {
        return;
      }
      RecordSnapshot(current, env);
      ghost var stored := store.watchSignals;
      ReloadSettles(old(watch.rulesCache), old(watch.lastRulesReload), old(store.watchRules), env.now);
      RecordKernelChange(previous.kernelVersion, current, env);
      ghost var event := KernelChangeEvent(previous.kernelVersion, current);
      AppendSignals(old(store.watchSignals), SnapshotSignals(watch.rulesCache, current, env.localMinutes, env.signalIds(current.id)),
                    EventSignals(watch.rulesCache, event, env.localMinutes, env.signalIds(event.id)));
      lastSnapshot := Some(current);
    }

    /** The snapshot stored, then evaluated by the watch engine
        (runSnapshotCheck does this in both branches that store). */
    method RecordSnapshot(current: SystemSnapshot, env: CycleEnv)
      requires Valid()
      modifies store, watch
      ensures Valid()
      ensures store.snapshots == old(store.snapshots)[current.id := SnapshotRowOf(current)]
      ensures watch.rulesCache == CachedRules(old(watch.rulesCache), old(watch.lastRulesReload), old(store.watchRules), env.now)
      ensures watch.lastRulesReload == ReloadTime(old(watch.rulesCache), old(watch.lastRulesReload), env.now)
      ensures store.watchSignals == old(store.watchSignals)
        + SnapshotSignals(watch.rulesCache, current, env.localMinutes, env.signalIds(current.id))
      ensures store.events == old(store.events) && store.meta == old(store.meta) && store.auditLog == old(store.auditLog)
      ensures store.hostIdentity == old(store.hostIdentity) && store.watchRules == old(store.watchRules)
    {
      store.AddSnapshot(current);
      watch.EvaluateSnapshot(current, env.now, env.localMinutes, env.signalIds(current.id));
    }

    /** The kernel-change event runSnapshotCheck builds from the previous
        and the current kernel version, stored, then evaluated by the watch
        engine. */
    method RecordKernelChange(previous: string, current: SystemSnapshot, env: CycleEnv)
      requires Valid()
      modifies store, watch
      ensures Valid()
      ensures store.events == AddedEvents(old(store.events), KernelChangeEvent(previous, current))
      ensures watch.rulesCache == CachedRules(old(watch.rulesCache), old(watch.lastRulesReload), old(store.watchRules), env.now)
      ensures watch.lastRulesReload == ReloadTime(old(watch.rulesCache), old(watch.lastRulesReload), env.now)
      ensures store.watchSignals == old(store.watchSignals)
        + EventSignals(watch.rulesCache, KernelChangeEvent(previous, current), env.localMinutes,
                       env.signalIds(KernelChangeEvent(previous, current).id))
      ensures store.snapshots == old(store.snapshots) && store.meta == old(store.meta) && store.auditLog == old(store.auditLog)
      ensures store.hostIdentity == old(store.hostIdentity) && store.watchRules == old(store.watchRules)
    {
      var package := DetectKernelPackage(current);
      var event := KhronicleEvent(
        "kernel-change-" + IntToString(current.timestamp),
        current.timestamp,
        Kernel,
        Uname,
        "Kernel changed: " + previous + " -> " + current.kernelVersion,
        "Kernel version changed from " + previous + " to " + current.kernelVersion,
        JObj(map["kernelVersion" := JStr(previous)]),
        JObj(map["kernelVersion" := JStr(current.kernelVersion)]),
        [package],
        "",
        "",
        EmptyProvenance,
        current.hostIdentity.hostId);
      assert event == KernelChangeEvent(previous, current);
      RecordEvent(event, env);
    }

    /** An event added to the store, then evaluated by the watch engine,
        whether or not the store kept it. */
    method RecordEvent(event: KhronicleEvent, env: CycleEnv)
      requires Valid()
      modifies store, watch
      ensures Valid()
      ensures store.events == AddedEvents(old(store.events), event)
      ensures watch.rulesCache == CachedRules(old(watch.rulesCache), old(watch.lastRulesReload), old(store.watchRules), env.now)
      ensures watch.lastRulesReload == ReloadTime(old(watch.rulesCache), old(watch.lastRulesReload), env.now)
      ensures store.watchSignals == old(store.watchSignals)
        + EventSignals(watch.rulesCache, event, env.localMinutes, env.signalIds(event.id))
      ensures store.snapshots == old(store.snapshots) && store.meta == old(store.meta) && store.auditLog == old(store.auditLog)
      ensures store.hostIdentity == old(store.hostIdentity) && store.watchRules == old(store.watchRules)
    {
      store.AddEvent(event);
      watch.EvaluateEvent(event, env.now, env.localMinutes, env.signalIds(event.id));
    }

    /** runIngestionCycle: packages, journal, snapshot, then persist. */
    method RunIngestionCycle(file: Option<string>, localTime: string -> Option<TimePoint>,
                             journal: JournalParser.JournalEnv, lines: seq<string>,
                             built: SystemSnapshot, cal: Calendar, env: CycleEnv)
      requires Valid()
      modifies this, store, watch
      ensures Valid()
      ensures pacmanCursor == AdvancedCursor(old(pacmanCursor), PacmanParser.PacmanLog(file, old(pacmanCursor), localTime).newCursor)
      ensures journalLastTimestamp
        == RaisedWatermark(old(journalLastTimestamp), JournalParser.JournalLines(journal, lines, old(journalLastTimestamp)).lastTimestamp)
      ensures lastSnapshot == SnapshotCheckLast(old(lastSnapshot), Observed(built, old(store.hostIdentity)))
      ensures store.meta == PersistedMeta(old(store.meta), pacmanCursor, journalLastTimestamp, cal)
      ensures store.events == SnapshotCheckEvents(
        AddedAll(AddedAll(old(store.events),
                          Stamped(PacmanParser.PacmanLog(file, old(pacmanCursor), localTime).events, old(store.hostIdentity).hostId)),
                 Stamped(JournalParser.JournalLines(journal, lines, old(journalLastTimestamp)).events, old(store.hostIdentity).hostId)),
        old(lastSnapshot), Observed(built, old(store.hostIdentity)))
      ensures store.snapshots == SnapshotCheckSnapshots(old(store.snapshots), old(lastSnapshot), Observed(built, old(store.hostIdentity)))
      ensures store.watchSignals == old(store.watchSignals)
        + BatchSignals(CachedRules(old(watch.rulesCache), old(watch.lastRulesReload), old(store.watchRules), env.now),
                       Stamped(PacmanParser.PacmanLog(file, old(pacmanCursor), localTime).events, old(store.hostIdentity).hostId), env)
        + BatchSignals(CachedRules(old(watch.rulesCache), old(watch.lastRulesReload), old(store.watchRules), env.now),
                       Stamped(JournalParser.JournalLines(journal, lines, old(journalLastTimestamp)).events, old(store.hostIdentity).hostId), env)
        + SnapshotCheckSignals(CachedRules(old(watch.rulesCache), old(watch.lastRulesReload), old(store.watchRules), env.now),
                               old(lastSnapshot), Observed(built, old(store.hostIdentity)), env)
      ensures EngineAfter(watch.rulesCache, watch.lastRulesReload, old(watch.rulesCache), old(watch.lastRulesReload), old(store.watchRules), env.now,
                          || PacmanParser.PacmanLog(file, old(pacmanCursor), localTime).events != []
                          || JournalParser.JournalLines(journal, lines, old(journalLastTimestamp)).events != []
                          || old(lastSnapshot).None? || old(lastSnapshot).value.kernelVersion != built.kernelVersion)
      ensures store.auditLog == old(store.auditLog) && store.hostIdentity == old(store.hostIdentity)
      ensures store.watchRules == old(store.watchRules)
    {
      ghost var stored, now := old(store.watchRules), env.now;
      ghost var pacmanEvaluated := PacmanParser.PacmanLog(file, old(pacmanCursor), localTime).events != [];
      ghost var journalEvaluated := JournalParser.JournalLines(journal, lines, old(journalLastTimestamp)).events != [];
      ghost var snapshotEvaluated := old(lastSnapshot).None? || old(lastSnapshot).value.kernelVersion != built.kernelVersion;
      RunPacmanIngestion(file, localTime, env);
      ghost var journalCache, journalReload := watch.rulesCache, watch.lastRulesReload;
      EngineAfterSettles(journalCache, journalReload, old(watch.rulesCache), old(watch.lastRulesReload), stored, now, pacmanEvaluated);
      RunJournalIngestion(journal, lines, env);
      ghost var snapshotCache, snapshotReload := watch.rulesCache, watch.lastRulesReload;
      EngineAfterSettles(snapshotCache, snapshotReload, journalCache, journalReload, stored, now, journalEvaluated);
      EngineAfterChain(snapshotCache, snapshotReload, journalCache, journalReload,
                       old(watch.rulesCache), old(watch.lastRulesReload), stored, now, pacmanEvaluated, journalEvaluated);
      RunSnapshotCheck(built, env);
      EngineAfterSettles(watch.rulesCache, watch.lastRulesReload, snapshotCache, snapshotReload, stored, now, snapshotEvaluated);
      EngineAfterChain(watch.rulesCache, watch.lastRulesReload, snapshotCache, snapshotReload,
                       old(watch.rulesCache), old(watch.lastRulesReload), stored, now, pacmanEvaluated || journalEvaluated, snapshotEvaluated);
      PersistStateToMeta(cal);
    }
  }
}
