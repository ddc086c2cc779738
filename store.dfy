/** The persistent store (src/daemon/khronicle_store.cpp) with its SQLite
    tables replaced by in-memory maps keyed by primary key. A row keeps what
    the source binds into the table: timestamps as whole epoch seconds,
    enums as their integer values, JSON columns as the stored value (None
    for SQL NULL; text that no longer parses reads back like NULL). Every
    optional column of a migrated database is taken to exist. */
module Store {
  import opened Wrappers
  import opened JsonModel
  import opened Models
  import opened Text
  import opened JsonUtils
  import Counterfactual
  import ChangeExplainer

  // ---------------------------------------------------------------------
  // Enum columns

  /** `static_cast<int>` of a category: its position in the enum. */
  function CategoryToInt(c: EventCategory): int
  {
    match c
    case Kernel => 0
    case GpuDriver => 1
    case Firmware => 2
    case Package => 3
    case System => 4
  }

  function SourceToInt(src: EventSource): int
  {
    match src
    case Pacman => 0
    case Journal => 1
    case Uname => 2
    case Fwupd => 3
    case Other => 4
  }

  /** categoryFromInt: 0..4 in enum order, System for anything else. */
  function CategoryFromInt(value: int): (c: EventCategory)
    ensures !(0 <= value <= 4) ==> c == System
    ensures 0 <= value <= 4 ==> CategoryToInt(c) == value
  {
    if value == 0 then Kernel
    else if value == 1 then GpuDriver
    else if value == 2 then Firmware
    else if value == 3 then Package
    else System
  }

  /** sourceFromInt: 0..4 in enum order, Other for anything else. */
  function SourceFromInt(value: int): (src: EventSource)
    ensures !(0 <= value <= 4) ==> src == Other
    ensures 0 <= value <= 4 ==> SourceToInt(src) == value
  {
    if value == 0 then Pacman
    else if value == 1 then Journal
    else if value == 2 then Uname
    else if value == 3 then Fwupd
    else Other
  }

  /** Every enum value reads back as itself. */
  lemma EnumColumnsRoundTrip(c: EventCategory, src: EventSource)
    ensures CategoryFromInt(CategoryToInt(c)) == c
    ensures SourceFromInt(SourceToInt(src)) == src
  {
  }

  // ---------------------------------------------------------------------
  // JSON columns

  /** bindJson: a null value is stored as SQL NULL. */
  function StoredJson(j: Json): Option<Json>
  {
    if j.JNull? then None else Some(j)
  }

  /** columnJson: NULL (or text that fails to parse) reads back as {}. */
  function ColumnJson(c: Option<Json>): Json
  {
    match c
    case None => EmptyObject
    case Some(j) => j
  }

  /** A JSON value through bindJson and columnJson: unchanged except that
      null comes back as an empty object. */
  lemma JsonColumnRoundTrip(j: Json)
    ensures ColumnJson(StoredJson(j)) == (if j.JNull? then EmptyObject else j)
    ensures ColumnJson(StoredJson(j)) != JNull
  {
  }

  // ---------------------------------------------------------------------
  // The events table

  datatype EventRow = EventRow(
    id: string,
    seconds: int,
    category: int,
    source: int,
    summary: string,
    details: string,
    beforeState: Option<Json>,
    afterState: Option<Json>,
    relatedPackages: Option<Json>,
    riskLevel: string,
    riskReason: string,
    provenance: Option<Json>)

  /** The row addEvent binds for an event. The hostId is not stored, an
      empty riskLevel is stored as "info", and provenance is stored as an
      object of its four strings. */
  function EventRowOf(e: KhronicleEvent): EventRow
  {
    EventRow(e.id, ToEpochSeconds(e.timestamp), CategoryToInt(e.category), SourceToInt(e.source),
             e.summary, e.details, StoredJson(e.beforeState), StoredJson(e.afterState),
             Some(StringsToJson(e.relatedPackages)),
             if e.riskLevel == "" then "info" else e.riskLevel,
             e.riskReason, Some(ProvenanceToJson(e.provenance)))
  }

  /** The provenance column as read back: NULL, empty or unparsable text
      gives the legacy provenance; a parsed value is read with value() and
      its defaults, whose type errors propagate. */
  function ReadProvenance(column: Option<Json>): (r: Result<Provenance, string>)
    ensures column.None? ==> r == Ok(LegacyProvenance)
    ensures column.Some? && column.value.JObj? && column.value.fields == map[] ==> r == Ok(LegacyProvenance)
    ensures column.Some? && !column.value.JObj? ==> r.Err?
  {
    match column
    case None => Ok(LegacyProvenance)
    case Some(j) =>
      var sourceType :- ValueString(j, "sourceType", "unknown");
      var sourceRef :- ValueString(j, "sourceRef", "");
      var parserVersion :- ValueString(j, "parserVersion", "legacy");
      var ingestionId :- ValueString(j, "ingestionId", "");
      Ok(Provenance(sourceType, sourceRef, parserVersion, ingestionId))
  }

  /** One result row of getEventsSince/getEventsBetween turned back into an
      event. Failure is the nlohmann type error the source lets escape: a
      related-packages array holding a non-string, or a provenance that is
      not an object of strings. */
  function ReadEvent(row: EventRow): (r: Result<KhronicleEvent, string>)
    ensures r.Ok? ==> r.value.id == row.id && r.value.timestamp == FromEpochSeconds(row.seconds)
    ensures r.Ok? ==> r.value.category == CategoryFromInt(row.category) && r.value.source == SourceFromInt(row.source)
    ensures r.Ok? ==> r.value.riskLevel != "" && (row.riskLevel != "" ==> r.value.riskLevel == row.riskLevel)
    ensures r.Ok? ==> r.value.beforeState == ColumnJson(row.beforeState) && r.value.afterState == ColumnJson(row.afterState)
    ensures r.Ok? && row.provenance.None? ==> r.value.provenance == LegacyProvenance
    ensures r.Ok? ==> r.value.hostId == ""
  {
    var related :- match ColumnJson(row.relatedPackages)
      case JArr(items) => StringsFromArray(items)
      case _ => Ok([]);
    var provenance :- ReadProvenance(row.provenance);
    Ok(KhronicleEvent(row.id, FromEpochSeconds(row.seconds), CategoryFromInt(row.category),
                      SourceFromInt(row.source), row.summary, row.details,
                      ColumnJson(row.beforeState), ColumnJson(row.afterState), related,
                      if row.riskLevel == "" then "info" else row.riskLevel,
                      row.riskReason, provenance, ""))
  }

  /** What an event looks like after it is stored and read back: its
      timestamp truncated to whole seconds, null states as {}, an empty
      riskLevel as "info" and no hostId. */
  lemma {:induction false} StoredEventRoundTrip(e: KhronicleEvent)
    ensures ReadEvent(EventRowOf(e)) == Ok(e.(
      timestamp := FromEpochSeconds(ToEpochSeconds(e.timestamp)),
      beforeState := if e.beforeState.JNull? then EmptyObject else e.beforeState,
      afterState := if e.afterState.JNull? then EmptyObject else e.afterState,
      riskLevel := if e.riskLevel == "" then "info" else e.riskLevel,
      hostId := ""))
  {
    StringListOfStrings(e.relatedPackages);
    EnumColumnsRoundTrip(e.category, e.source);
    var p := ProvenanceToJson(e.provenance);
    assert p.fields["sourceType"] == JStr(e.provenance.sourceType);
    assert p.fields["sourceRef"] == JStr(e.provenance.sourceRef);
    assert p.fields["parserVersion"] == JStr(e.provenance.parserVersion);
    assert p.fields["ingestionId"] == JStr(e.provenance.ingestionId);
    assert ReadProvenance(Some(p)) == Ok(e.provenance);
  }

  /** The de-duplication query: same epoch second, category and summary. */
  predicate IsDuplicate(row: EventRow, e: KhronicleEvent)
  {
    row.seconds == ToEpochSeconds(e.timestamp) && row.category == CategoryToInt(e.category)
    && row.summary == e.summary
  }

  predicate HasDuplicate(events: map<string, EventRow>, e: KhronicleEvent)
  {
    exists k :: k in events && IsDuplicate(events[k], e)
  }

  /** The events table after addEvent(e). */
  function AddedEvents(events: map<string, EventRow>, e: KhronicleEvent): (r: map<string, EventRow>)
    ensures HasDuplicate(events, e) ==> r == events
    ensures !HasDuplicate(events, e) ==> e.id in r && r[e.id] == EventRowOf(e)
    ensures forall k :: k != e.id ==> (k in r <==> k in events)
    ensures forall k :: k != e.id && k in events ==> r[k] == events[k]
  {
    if HasDuplicate(events, e) then events else events[e.id := EventRowOf(e)]
  }

  /** No two rows share an epoch second, category and summary. */
  predicate NoDuplicates(events: map<string, EventRow>)
  {
    forall k1, k2 :: k1 in events && k2 in events && k1 != k2 ==>
      !(events[k1].seconds == events[k2].seconds && events[k1].category == events[k2].category
        && events[k1].summary == events[k2].summary)
  }

  /** addEvent keeps a duplicate-free table duplicate-free. */
  lemma AddedEventsNoDuplicates(events: map<string, EventRow>, e: KhronicleEvent)
    requires NoDuplicates(events)
    ensures NoDuplicates(AddedEvents(events, e))
  {
    if !HasDuplicate(events, e) {
      var r := AddedEvents(events, e);
      forall k1, k2 | k1 in r && k2 in r && k1 != k2
        ensures !(r[k1].seconds == r[k2].seconds && r[k1].category == r[k2].category && r[k1].summary == r[k2].summary)
      {
        if k1 == e.id {
          assert !IsDuplicate(events[k2], e);
        } else if k2 == e.id {
          assert !IsDuplicate(events[k1], e);
        }
      }
    }
  }

  /** Adding the same event twice stores it once. */
  lemma AddEventIdempotent(events: map<string, EventRow>, e: KhronicleEvent)
    ensures AddedEvents(AddedEvents(events, e), e) == AddedEvents(events, e)
  {
    var r := AddedEvents(events, e);
    if !HasDuplicate(events, e) {
      assert IsDuplicate(r[e.id], e);
    }
  }

  /** A second event with another id but the same second, category and
      summary is suppressed (tests/test_store.cpp). */
  lemma DuplicateSuppressed(events: map<string, EventRow>, first: KhronicleEvent, second: KhronicleEvent)
    requires ToEpochSeconds(first.timestamp) == ToEpochSeconds(second.timestamp)
    requires first.category == second.category && first.summary == second.summary
    ensures AddedEvents(AddedEvents(events, first), second) == AddedEvents(events, first)
  {
    var r := AddedEvents(events, first);
    if HasDuplicate(events, first) {
      var k :| k in events && IsDuplicate(events[k], first);
      assert k in r && IsDuplicate(r[k], second);
    } else {
      assert IsDuplicate(r[first.id], second);
    }
  }

  // ---------------------------------------------------------------------
  // The snapshots table

  datatype SnapshotRow = SnapshotRow(
    id: string,
    seconds: int,
    kernelVersion: string,
    gpuDriver: Option<Json>,
    firmwareVersions: Option<Json>,
    keyPackages: Option<Json>,
    snapshotId: string,
    ingestionId: string,
    kernelSource: string)

  /** The row addSnapshot binds; the host identity is not stored. */
  function SnapshotRowOf(s: SystemSnapshot): SnapshotRow
  {
    SnapshotRow(s.id, ToEpochSeconds(s.timestamp), s.kernelVersion, StoredJson(s.gpuDriver),
                StoredJson(s.firmwareVersions), StoredJson(s.keyPackages),
                s.snapshotId, s.ingestionId, s.kernelSource)
  }

  /** One result row of listSnapshots/getSnapshot. */
  function ReadSnapshot(row: SnapshotRow): (s: SystemSnapshot)
    ensures s.id == row.id && s.timestamp == FromEpochSeconds(row.seconds)
    ensures s.hostIdentity == NoHost
    ensures row.keyPackages.None? ==> s.keyPackages == EmptyObject
  {
    SystemSnapshot(row.id, FromEpochSeconds(row.seconds), row.kernelVersion,
                   ColumnJson(row.gpuDriver), ColumnJson(row.firmwareVersions), ColumnJson(row.keyPackages),
                   row.snapshotId, row.ingestionId, row.kernelSource, NoHost)
  }

  /** A snapshot after it is stored and read back: whole seconds, null
      JSON fields as {}, no host identity. */
  lemma StoredSnapshotRoundTrip(s: SystemSnapshot)
    ensures ReadSnapshot(SnapshotRowOf(s)) == s.(
      timestamp := FromEpochSeconds(ToEpochSeconds(s.timestamp)),
      gpuDriver := ColumnJson(StoredJson(s.gpuDriver)),
      firmwareVersions := ColumnJson(StoredJson(s.firmwareVersions)),
      keyPackages := ColumnJson(StoredJson(s.keyPackages)),
      hostIdentity := NoHost)
    ensures ReadSnapshot(SnapshotRowOf(s)).kernelVersion == s.kernelVersion
  {
  }

  /** diffSnapshots over the stored snapshots: the ids as given, no changed
      fields when either snapshot is missing, otherwise the counterfactual
      field diff of the two snapshots as read back. */
  ghost function StoredDiff(snapshots: map<string, SnapshotRow>, aId: string, bId: string): KhronicleDiff
  {
    if aId in snapshots && bId in snapshots then
      KhronicleDiff(aId, bId,
        Counterfactual.SnapshotDiff(ReadSnapshot(snapshots[aId]), ReadSnapshot(snapshots[bId])).changedFields)
    else KhronicleDiff(aId, bId, [])
  }

  /** The stored diff keeps the given ids, is empty for an unknown id, and
      has a kernel entry exactly when the two stored kernels differ. */
  lemma StoredDiffShape(snapshots: map<string, SnapshotRow>, aId: string, bId: string)
    ensures StoredDiff(snapshots, aId, bId).snapshotAId == aId
    ensures StoredDiff(snapshots, aId, bId).snapshotBId == bId
    ensures aId !in snapshots || bId !in snapshots ==> StoredDiff(snapshots, aId, bId).changedFields == []
    ensures aId in snapshots && bId in snapshots ==>
      (ChangeExplainer.HasPath(StoredDiff(snapshots, aId, bId).changedFields, "kernelVersion")
       <==> snapshots[aId].kernelVersion != snapshots[bId].kernelVersion)
  {
    if aId in snapshots && bId in snapshots {
      Counterfactual.DiffScalars(ReadSnapshot(snapshots[aId]), ReadSnapshot(snapshots[bId]));
    }
  }

  /** A stored snapshot compared with itself has no changed fields. */
  lemma StoredDiffOfSelf(snapshots: map<string, SnapshotRow>, id: string)
    ensures StoredDiff(snapshots, id, id).changedFields == []
  {
    if id in snapshots {
      Counterfactual.DiffOfSelf(ReadSnapshot(snapshots[id]));
    }
  }

  // ---------------------------------------------------------------------
  // The audit log

  /** An audit entry as stored: whole seconds (its input references are
      written as a JSON array of strings and read back unchanged). */
  function StoredAudit(entry: AuditLogEntry): AuditLogEntry
  {
    entry.(timestamp := FromEpochSeconds(ToEpochSeconds(entry.timestamp)))
  }

  /** The entry diffSnapshots records. */
  function DiffAudit(aId: string, bId: string, changed: nat, auditId: string, now: TimePoint): AuditLogEntry
  {
    AuditLogEntry(auditId, now, "snapshot_diff", [aId, bId], "SnapshotDiffer@1",
                  "Changed fields: " + NatToString(changed))
  }

  /** The entry addRiskAuditIfNeeded records, if any. */
  function RiskAudit(event: KhronicleEvent, auditId: string, now: TimePoint): (r: Option<AuditLogEntry>)
    ensures r.Some? <==> event.riskLevel == "important" || event.riskLevel == "critical"
    ensures r.Some? ==> r.value.inputRefs == [event.id] && r.value.id == auditId
    ensures r.Some? && event.riskReason != "" ==> r.value.outputSummary == event.riskReason
    ensures r.Some? && event.riskReason == "" ==> r.value.outputSummary == event.summary
  {
    if event.riskLevel != "important" && event.riskLevel != "critical" then None
    else Some(AuditLogEntry(auditId, now, "risk_classification", [event.id], "RiskClassifier@1",
                            if event.riskReason == "" then event.summary else event.riskReason))
  }

  // ---------------------------------------------------------------------
  // Ordered query results

  predicate SortedBy<T>(xs: seq<T>, key: T -> int)
  {
    forall i, j :: 0 <= i < j < |xs| ==> key(xs[i]) <= key(xs[j])
  }

  /** x inserted after every element whose key is not larger than its own. */
  function InsertSorted<T>(xs: seq<T>, key: T -> int, x: T): seq<T>
  {
    if xs == [] || key(x) < key(xs[0]) then [x] + xs
    else [xs[0]] + InsertSorted(xs[1..], key, x)
  }

  /** Inserting adds exactly x and grows by one. */
  lemma {:induction false} InsertSortedMembers<T>(xs: seq<T>, key: T -> int, x: T)
    ensures |InsertSorted(xs, key, x)| == |xs| + 1
    ensures x in InsertSorted(xs, key, x)
    ensures forall i :: 0 <= i < |xs| ==> xs[i] in InsertSorted(xs, key, x)
    ensures forall i :: 0 <= i < |InsertSorted(xs, key, x)| ==> InsertSorted(xs, key, x)[i] in xs || InsertSorted(xs, key, x)[i] == x
  {
    if xs == [] || key(x) < key(xs[0]) {
      assert forall i :: 0 <= i < |xs| ==> InsertSorted(xs, key, x)[i + 1] == xs[i];
    } else {
      InsertSortedMembers(xs[1..], key, x);
      var r := InsertSorted(xs, key, x);
      var rest := InsertSorted(xs[1..], key, x);
      assert r == [xs[0]] + rest;
      forall i | 0 <= i < |xs| ensures xs[i] in r {
        if i > 0 {
          assert xs[i] == xs[1..][i - 1];
        }
      }
      forall i | 0 <= i < |r| ensures r[i] in xs || r[i] == x {
        if i > 0 {
          assert r[i] == rest[i - 1];
          if rest[i - 1] != x {
            assert rest[i - 1] in xs[1..];
          }
        }
      }
    }
  }
  /** An ordered sequence stays ordered behind a head no larger than any
      of its keys. */
  lemma SortedCons<T>(h: T, rest: seq<T>, key: T -> int)
    requires SortedBy(rest, key)
    requires forall i :: 0 <= i < |rest| ==> key(h) <= key(rest[i])
    ensures SortedBy([h] + rest, key)
  {
    var r := [h] + rest;
    forall a, b | 0 <= a < b < |r| ensures key(r[a]) <= key(r[b]) {
      assert r[b] == rest[b - 1];
      if a > 0 {
        assert r[a] == rest[a - 1];
      }
    }
  }

  /** A lower bound on every key, and on x's, bounds the keys after the
      insertion. */
  lemma {:induction false} InsertSortedBound<T>(xs: seq<T>, key: T -> int, x: T, lo: int)
    requires forall i :: 0 <= i < |xs| ==> lo <= key(xs[i])
    requires lo <= key(x)
    ensures forall i :: 0 <= i < |InsertSorted(xs, key, x)| ==> lo <= key(InsertSorted(xs, key, x)[i])
  {
    var r := InsertSorted(xs, key, x);
    if xs == [] || key(x) < key(xs[0]) {
      assert r == [x] + xs;
      forall i | 0 <= i < |r| ensures lo <= key(r[i]) {
        if i > 0 {
          assert r[i] == xs[i - 1];
        }
      }
    } else {
      var rest := InsertSorted(xs[1..], key, x);
      assert forall i :: 0 <= i < |xs[1..]| ==> xs[1..][i] == xs[i + 1];
      InsertSortedBound(xs[1..], key, x, lo);
      assert r == [xs[0]] + rest;
      forall i | 0 <= i < |r| ensures lo <= key(r[i]) {
        if i > 0 {
          assert r[i] == rest[i - 1];
        }
      }
    }
  }

  /** Inserting into an ordered sequence keeps it ordered. */
  lemma {:induction false} InsertSortedSpec<T>(xs: seq<T>, key: T -> int, x: T)
    requires SortedBy(xs, key)
    ensures SortedBy(InsertSorted(xs, key, x), key)
  {
    if xs == [] || key(x) < key(xs[0]) {
      SortedCons(x, xs, key);
    } else {
      var tail := xs[1..];
      assert SortedBy(tail, key) by {
        forall a, b | 0 <= a < b < |tail| ensures key(tail[a]) <= key(tail[b]) {
          assert tail[a] == xs[a + 1] && tail[b] == xs[b + 1];
        }
      }
      forall i | 0 <= i < |tail| ensures key(xs[0]) <= key(tail[i]) {
        assert tail[i] == xs[i + 1];
      }
      InsertSortedSpec(tail, key, x);
      InsertSortedBound(tail, key, x, key(xs[0]));
      SortedCons(xs[0], InsertSorted(tail, key, x), key);
    }
  }

  /** std::max_element by timestamp: the first snapshot of the list with
      the largest timestamp. */
  function FirstLatest(ss: seq<SystemSnapshot>): (i: nat)
    requires |ss| > 0
    ensures i < |ss|
    ensures forall j :: 0 <= j < |ss| ==> ss[j].timestamp <= ss[i].timestamp
    ensures forall j :: 0 <= j < i ==> ss[j].timestamp < ss[i].timestamp
  {
    if |ss| == 1 then 0
    else
      var i := FirstLatest(ss[..|ss| - 1]);
      if ss[i].timestamp < ss[|ss| - 1].timestamp then |ss| - 1 else i
  }

  /** The stored snapshot s has the largest timestamp of all stored ones. */
  ghost predicate IsLatestStored(snapshots: map<string, SnapshotRow>, s: SystemSnapshot)
  {
    s.id in snapshots && s == ReadSnapshot(snapshots[s.id])
    && forall k :: k in snapshots ==> ReadSnapshot(snapshots[k]).timestamp <= s.timestamp
  }

  /** The first latest snapshot of a listing of the table is a latest
      stored snapshot. */
  lemma LatestListed(snapshots: map<string, SnapshotRow>, listed: seq<SystemSnapshot>)
    requires |listed| > 0
    requires forall s :: s in listed ==> s.id in snapshots && s == ReadSnapshot(snapshots[s.id])
    requires forall k :: k in snapshots ==> ReadSnapshot(snapshots[k]) in listed
    ensures IsLatestStored(snapshots, listed[FirstLatest(listed)])
  {
    var best := FirstLatest(listed);
    assert listed[best] in listed;
    forall k | k in snapshots ensures ReadSnapshot(snapshots[k]).timestamp <= listed[best].timestamp {
      var j :| 0 <= j < |listed| && listed[j] == ReadSnapshot(snapshots[k]);
    }
  }

  /** The window a query selects, in epoch seconds: `timestamp >= lo` and,
      for getEventsBetween, `timestamp <= hi`. */
  predicate InWindow(row: EventRow, lo: int, hi: Option<int>)
  {
    lo <= row.seconds && (hi.None? || row.seconds <= hi.value)
  }

  /** es lists every row in the window exactly once, each as ReadEvent
      returns it. */
  ghost predicate ListsWindow(events: map<string, EventRow>, lo: int, hi: Option<int>, es: seq<KhronicleEvent>)
  {
    && (forall e :: e in es ==> e.id in events && InWindow(events[e.id], lo, hi) && ReadEvent(events[e.id]) == Ok(e))
    && (forall k :: k in events && InWindow(events[k], lo, hi) ==>
          ReadEvent(events[k]).Ok? && ReadEvent(events[k]).value in es)
    && |es| == |set k | k in events && InWindow(events[k], lo, hi)|
  }

  function EventTime(e: KhronicleEvent): int
  {
    e.timestamp
  }

  function SnapshotTime(s: SystemSnapshot): int
  {
    s.timestamp
  }

  /** The state of the query loop: found holds the visited rows in the
      window, and acc lists them once each, read back and in time order. */
  ghost predicate Collected(events: map<string, EventRow>, lo: int, hi: Option<int>,
                            remaining: set<string>, found: set<string>, acc: seq<KhronicleEvent>)
  {
    && remaining <= events.Keys
    && (forall k :: k in found <==> k in events && k !in remaining && InWindow(events[k], lo, hi))
    && SortedBy(acc, EventTime) && |acc| == |found|
    && (forall e :: e in acc ==> e.id in found && ReadEvent(events[e.id]) == Ok(e))
    && (forall k :: k in found ==> ReadEvent(events[k]).Ok? && ReadEvent(events[k]).value in acc)
  }

  lemma CollectStep(events: map<string, EventRow>, lo: int, hi: Option<int>,
                    remaining: set<string>, found: set<string>, acc: seq<KhronicleEvent>, k: string)
    requires forall key :: key in events ==> events[key].id == key
    requires Collected(events, lo, hi, remaining, found, acc) && k in remaining
    ensures !InWindow(events[k], lo, hi) ==> Collected(events, lo, hi, remaining - {k}, found, acc)
    ensures InWindow(events[k], lo, hi) && ReadEvent(events[k]).Ok? ==>
      Collected(events, lo, hi, remaining - {k}, found + {k}, InsertSorted(acc, EventTime, ReadEvent(events[k]).value))
  {
    if InWindow(events[k], lo, hi) && ReadEvent(events[k]).Ok? {
      var e := ReadEvent(events[k]).value;
      InsertSortedSpec(acc, EventTime, e);
      InsertSortedMembers(acc, EventTime, e);
      var grown := InsertSorted(acc, EventTime, e);
      forall x | x in grown ensures x.id in found + {k} && ReadEvent(events[x.id]) == Ok(x) {
        var i :| 0 <= i < |grown| && grown[i] == x;
        assert grown[i] in acc || grown[i] == e;
      }
      forall k2 | k2 in found + {k} ensures ReadEvent(events[k2]).Ok? && ReadEvent(events[k2]).value in grown {
        if k2 != k {
          var i :| 0 <= i < |acc| && acc[i] == ReadEvent(events[k2]).value;
          assert acc[i] in grown;
        }
      }
    }
  }

  lemma CollectedAll(events: map<string, EventRow>, lo: int, hi: Option<int>,
                     found: set<string>, acc: seq<KhronicleEvent>)
    requires Collected(events, lo, hi, {}, found, acc)
    ensures SortedBy(acc, EventTime) && ListsWindow(events, lo, hi, acc)
  {
    assert found == set k | k in events && InWindow(events[k], lo, hi);
  }

  // ---------------------------------------------------------------------
  // The store

  class KhronicleStore {
    var events: map<string, EventRow>
    var snapshots: map<string, SnapshotRow>
    var meta: map<string, string>
    var auditLog: map<string, AuditLogEntry>
    var hostIdentity: HostIdentity
    /** The watch tables; their queries are not shown in the source, so
        they are kept as the listing the store returns. */
    var watchRules: seq<WatchRule>
    var watchSignals: seq<WatchSignal>

    /** Every table is keyed by its rows' id column. */
    ghost predicate Valid()
      reads this
    {
      && (forall k :: k in events ==> events[k].id == k)
      && (forall k :: k in snapshots ==> snapshots[k].id == k)
      && (forall k :: k in auditLog ==> auditLog[k].id == k)
    }

    /** Opening a database with the given tables. */
    constructor (events: map<string, EventRow>, snapshots: map<string, SnapshotRow>,
                 meta: map<string, string>, auditLog: map<string, AuditLogEntry>,
                 hostIdentity: HostIdentity, watchRules: seq<WatchRule>, watchSignals: seq<WatchSignal>)
      requires forall k :: k in events ==> events[k].id == k
      requires forall k :: k in snapshots ==> snapshots[k].id == k
      requires forall k :: k in auditLog ==> auditLog[k].id == k
      ensures Valid()
      ensures this.events == events && this.snapshots == snapshots && this.meta == meta
      ensures this.auditLog == auditLog && this.hostIdentity == hostIdentity
      ensures this.watchRules == watchRules && this.watchSignals == watchSignals
    {
      this.events := events;
      this.snapshots := snapshots;
      this.meta := meta;
      this.auditLog := auditLog;
      this.hostIdentity := hostIdentity;
      this.watchRules := watchRules;
      this.watchSignals := watchSignals;
    }

    /** addEvent: nothing when a duplicate exists, else insert-or-replace. */
    method AddEvent(e: KhronicleEvent)
      requires Valid()
      modifies this
      ensures Valid()
      ensures events == AddedEvents(old(events), e)
      ensures snapshots == old(snapshots) && meta == old(meta) && auditLog == old(auditLog)
      ensures hostIdentity == old(hostIdentity) && watchRules == old(watchRules) && watchSignals == old(watchSignals)
    {
      if exists k :: k in events && IsDuplicate(events[k], e) {
        return;
      }
      events := events[e.id := EventRowOf(e)];
    }

    /** addSnapshot: insert-or-replace by id. */
    method AddSnapshot(s: SystemSnapshot)
      requires Valid()
      modifies this
      ensures Valid()
      ensures snapshots == old(snapshots)[s.id := SnapshotRowOf(s)]
      ensures events == old(events) && meta == old(meta) && auditLog == old(auditLog)
      ensures hostIdentity == old(hostIdentity) && watchRules == old(watchRules) && watchSignals == old(watchSignals)
    {
      snapshots := snapshots[s.id := SnapshotRowOf(s)];
    }

    method GetHostIdentity() returns (host: HostIdentity)
      ensures host == hostIdentity
    {
      host := hostIdentity;
    }

    method ListWatchRules() returns (rules: seq<WatchRule>)
      ensures rules == watchRules
    {
      rules := watchRules;
    }

    /** Signals are append-only. */
    method AddWatchSignal(signal: WatchSignal)
      modifies this
      ensures watchSignals == old(watchSignals) + [signal]
      ensures events == old(events) && snapshots == old(snapshots) && meta == old(meta)
      ensures auditLog == old(auditLog) && hostIdentity == old(hostIdentity) && watchRules == old(watchRules)
    {
      watchSignals := watchSignals + [signal];
    }

    /** The rows with lo <= seconds (<= hi), read back in ascending time. */
    method QueryEvents(lo: int, hi: Option<int>) returns (r: Result<seq<KhronicleEvent>, string>)
      requires Valid()
      ensures r.Ok? ==> SortedBy(r.value, EventTime) && ListsWindow(events, lo, hi, r.value)
      ensures r.Err? ==> exists k :: k in events && InWindow(events[k], lo, hi) && ReadEvent(events[k]) == Err(r.error)
    {
      var acc: seq<KhronicleEvent> := [];
      var remaining := events.Keys;
      ghost var found: set<string> := {};
      while remaining != {}
        invariant Collected(events, lo, hi, remaining, found, acc)
        decreases remaining
      {
        var k :| k in remaining;
        CollectStep(events, lo, hi, remaining, found, acc, k);
        var row := events[k];
        if InWindow(row, lo, hi) {
          match ReadEvent(row) {
            case Err(msg) =>
              return Err(msg);
            case Ok(e) =>
              acc := InsertSorted(acc, EventTime, e);
              found := found + {k};
          }
        }
        remaining := remaining - {k};
      }
      CollectedAll(events, lo, hi, found, acc);
      r := Ok(acc);
    }

    /** getEventsSince: `timestamp >= since`, in whole seconds. */
    method GetEventsSince(since: TimePoint) returns (r: Result<seq<KhronicleEvent>, string>)
      requires Valid()
      ensures r.Ok? ==> SortedBy(r.value, EventTime) && ListsWindow(events, ToEpochSeconds(since), None, r.value)
      ensures r.Err? ==> (exists k :: k in events && InWindow(events[k], ToEpochSeconds(since), None)
                                     && ReadEvent(events[k]) == Err(r.error))
    {
      r := QueryEvents(ToEpochSeconds(since), None);
    }

    /** getEventsBetween: `from <= timestamp <= to`, in whole seconds. */
    method GetEventsBetween(from: TimePoint, to: TimePoint) returns (r: Result<seq<KhronicleEvent>, string>)
      requires Valid()
      ensures r.Ok? ==> (SortedBy(r.value, EventTime)
                         && ListsWindow(events, ToEpochSeconds(from), Some(ToEpochSeconds(to)), r.value))
      ensures r.Err? ==> (exists k :: k in events && InWindow(events[k], ToEpochSeconds(from), Some(ToEpochSeconds(to)))
                                     && ReadEvent(events[k]) == Err(r.error))
    {
      r := QueryEvents(ToEpochSeconds(from), Some(ToEpochSeconds(to)));
    }

    /** listSnapshots: every snapshot once, in ascending time. */
    method ListSnapshots() returns (r: seq<SystemSnapshot>)
      requires Valid()
      ensures SortedBy(r, SnapshotTime) && |r| == |snapshots|
      ensures forall s :: s in r ==> s.id in snapshots && s == ReadSnapshot(snapshots[s.id])
      ensures forall k :: k in snapshots ==> ReadSnapshot(snapshots[k]) in r
    {
      r := [];
      var remaining := snapshots.Keys;
      ghost var done: set<string> := {};
      while remaining != {}
        invariant remaining <= snapshots.Keys
        invariant forall k :: k in done <==> k in snapshots && k !in remaining
        invariant SortedBy(r, SnapshotTime) && |r| == |done|
        invariant forall s :: s in r ==> s.id in done && s == ReadSnapshot(snapshots[s.id])
        invariant forall k :: k in done ==> ReadSnapshot(snapshots[k]) in r
        decreases remaining
      {
        var k :| k in remaining;
        InsertSortedSpec(r, SnapshotTime, ReadSnapshot(snapshots[k]));
        InsertSortedMembers(r, SnapshotTime, ReadSnapshot(snapshots[k]));
        r := InsertSorted(r, SnapshotTime, ReadSnapshot(snapshots[k]));
        done := done + {k};
        remaining := remaining - {k};
      }
      assert done == snapshots.Keys;
    }

    method GetSnapshot(id: string) returns (r: Option<SystemSnapshot>)
      requires Valid()
      ensures r.Some? <==> id in snapshots
      ensures r.Some? ==> r.value.id == id && r.value == ReadSnapshot(snapshots[id])
    {
      if id in snapshots {
        r := Some(ReadSnapshot(snapshots[id]));
      } else {
        r := None;
      }
    }

    /** diffSnapshots: the stored diff; when both snapshots exist, one
        "snapshot_diff" audit entry is recorded under auditId. */
    method DiffSnapshots(aId: string, bId: string, auditId: string, now: TimePoint) returns (diff: KhronicleDiff)
      requires Valid()
      modifies this
      ensures Valid()
      ensures diff == StoredDiff(snapshots, aId, bId)
      ensures aId in snapshots && bId in snapshots ==>
        auditLog == old(auditLog)[auditId := StoredAudit(DiffAudit(aId, bId, |diff.changedFields|, auditId, now))]
      ensures !(aId in snapshots && bId in snapshots) ==> auditLog == old(auditLog)
      ensures events == old(events) && snapshots == old(snapshots) && meta == old(meta)
      ensures hostIdentity == old(hostIdentity) && watchRules == old(watchRules) && watchSignals == old(watchSignals)
    {
      diff := KhronicleDiff(aId, bId, []);
      var a := GetSnapshot(aId);
      var b := GetSnapshot(bId);
      if a.None? || b.None? {
        return;
      }
      var computed := Counterfactual.ComputeDiff(a.value, b.value);
      diff := KhronicleDiff(aId, bId, computed.changedFields);
      AddAuditLog(DiffAudit(aId, bId, |diff.changedFields|, auditId, now));
    }

    method GetMeta(key: string) returns (value: Option<string>)
      ensures value.Some? <==> key in meta
      ensures value.Some? ==> value.value == meta[key]
    {
      if key in meta {
        value := Some(meta[key]);
      } else {
        value := None;
      }
    }

    /** setMeta: insert-or-replace by key. */
    method SetMeta(key: string, value: string)
      requires Valid()
      modifies this
      ensures Valid()
      ensures meta == old(meta)[key := value]
      ensures events == old(events) && snapshots == old(snapshots) && auditLog == old(auditLog)
      ensures hostIdentity == old(hostIdentity) && watchRules == old(watchRules) && watchSignals == old(watchSignals)
    {
      meta := meta[key := value];
    }

    /** addAuditLog: insert-or-replace by id, in whole seconds. */
    method AddAuditLog(entry: AuditLogEntry)
      requires Valid()
      modifies this
      ensures Valid()
      ensures auditLog == old(auditLog)[entry.id := StoredAudit(entry)]
      ensures events == old(events) && snapshots == old(snapshots) && meta == old(meta)
      ensures hostIdentity == old(hostIdentity) && watchRules == old(watchRules) && watchSignals == old(watchSignals)
    {
      auditLog := auditLog[entry.id := StoredAudit(entry)];
    }

    /** addRiskAuditIfNeeded: one entry for an important or critical event. */
    method AddRiskAuditIfNeeded(event: KhronicleEvent, auditId: string, now: TimePoint)
      requires Valid()
      modifies this
      ensures Valid()
      ensures RiskAudit(event, auditId, now).None? ==> auditLog == old(auditLog)
      ensures RiskAudit(event, auditId, now).Some? ==>
        auditLog == old(auditLog)[auditId := StoredAudit(RiskAudit(event, auditId, now).value)]
      ensures events == old(events) && snapshots == old(snapshots) && meta == old(meta)
      ensures hostIdentity == old(hostIdentity) && watchRules == old(watchRules) && watchSignals == old(watchSignals)
    {
      if event.riskLevel != "important" && event.riskLevel != "critical" {
        return;
      }
      var entry := AuditLogEntry(auditId, now, "risk_classification", [event.id], "RiskClassifier@1",
                                 if event.riskReason == "" then event.summary else event.riskReason);
      AddAuditLog(entry);
    }
  }

  /** The meta table: a value set is read back, a later set overwrites,
      other keys are unaffected. */
  lemma MetaSetGet(meta: map<string, string>, key: string, other: string, v1: string, v2: string)
    requires other != key
    ensures key in meta[key := v1] && meta[key := v1][key] == v1
    ensures meta[key := v1][key := v2][key] == v2
    ensures (other in meta[key := v1] <==> other in meta) && (other in meta ==> meta[key := v1][other] == meta[other])
  {
  }
}
