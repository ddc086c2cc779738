/** The records the daemon passes around (src/common/models.hpp and
    src/common/enums.hpp), with the fields the code uses but that header
    omits: an event's riskLevel, riskReason and provenance, a snapshot's
    snapshotId, ingestionId and kernelSource, and the audit-log entry. */
module Models {
  import opened Wrappers
  import opened JsonModel

  datatype EventCategory = Kernel | GpuDriver | Firmware | Package | System

  datatype EventSource = Pacman | Journal | Uname | Fwupd | Other

  datatype HostIdentity = HostIdentity(
    hostId: string, hostname: string, displayName: string, os: string, hardware: string)

  const NoHost := HostIdentity("", "", "", "", "")

  datatype Provenance = Provenance(
    sourceType: string, sourceRef: string, parserVersion: string, ingestionId: string)

  const EmptyProvenance := Provenance("", "", "", "")

  /** A system_clock time point, in milliseconds since the Unix epoch.
      std::chrono::time_point{} (the epoch itself) is 0. */
  type TimePoint = int

  datatype KhronicleEvent = KhronicleEvent(
    id: string,
    timestamp: TimePoint,
    category: EventCategory,
    source: EventSource,
    summary: string,
    details: string,
    beforeState: Json,
    afterState: Json,
    relatedPackages: seq<string>,
    riskLevel: string,
    riskReason: string,
    provenance: Provenance,
    hostId: string)

  datatype SystemSnapshot = SystemSnapshot(
    id: string,
    timestamp: TimePoint,
    kernelVersion: string,
    gpuDriver: Json,
    firmwareVersions: Json,
    keyPackages: Json,
    snapshotId: string,
    ingestionId: string,
    kernelSource: string,
    hostIdentity: HostIdentity)

  datatype ChangedField = ChangedField(path: string, before: Json, after: Json)

  datatype KhronicleDiff = KhronicleDiff(
    snapshotAId: string, snapshotBId: string, changedFields: seq<ChangedField>)

  datatype WatchScope = EventScope | SnapshotScope

  datatype WatchSeverity = Info | Warning | Critical

  datatype WatchRule = WatchRule(
    id: string,
    name: string,
    description: string,
    scope: WatchScope,
    severity: WatchSeverity,
    enabled: bool,
    categoryEquals: string,
    riskLevelAtLeast: string,
    packageNameContains: string,
    activeFrom: string,
    activeTo: string,
    extra: Json)

  datatype WatchSignal = WatchSignal(
    id: string,
    timestamp: TimePoint,
    ruleId: string,
    ruleName: string,
    severity: WatchSeverity,
    originType: string,
    originId: string,
    message: string)

  datatype AuditLogEntry = AuditLogEntry(
    id: string,
    timestamp: TimePoint,
    auditType: string,
    inputRefs: seq<string>,
    auditMethod: string,
    outputSummary: string)

  /** duration_cast<seconds>: truncation toward zero, as C++ does. */
  function ToEpochSeconds(t: TimePoint): (s: int)
    ensures t >= 0 ==> 0 <= s * 1000 <= t < s * 1000 + 1000
    ensures t < 0 ==> s * 1000 - 1000 < t <= s * 1000 <= 0
  {
    if t >= 0 then t / 1000 else -((-t) / 1000)
  }

  function FromEpochSeconds(s: int): TimePoint
  {
    s * 1000
  }

  /** The calendar conversions the source delegates to the C library:
      `format` is gmtime_r + put_time("%Y-%m-%dT%H:%M:%SZ") of epoch
      seconds; `scan` is get_time with the same pattern followed by timegm,
      None where the stream fails. */
  datatype Calendar = Calendar(format: int -> string, scan: string -> Option<int>)

  /** The calendar functions are mutual inverses on whole seconds. */
  ghost predicate CalendarInverse(cal: Calendar)
  {
    forall s: int :: cal.scan(cal.format(s)) == Some(s)
  }

  /** toIso8601Utc (src/common/json_utils.hpp). */
  function ToIso8601Utc(cal: Calendar, t: TimePoint): string
  {
    cal.format(ToEpochSeconds(t))
  }

  /** fromIso8601Utc: a failed scan, or timegm's -1, gives the epoch. */
  function FromIso8601Utc(cal: Calendar, value: string): (t: TimePoint)
    ensures cal.scan(value).None? ==> t == 0
    ensures cal.scan(value) == Some(-1) ==> t == 0
    ensures cal.scan(value).Some? && cal.scan(value).value != -1 ==> t == cal.scan(value).value * 1000
  {
    match cal.scan(value)
    case None => 0
    case Some(s) => if s == -1 then 0 else FromEpochSeconds(s)
  }

  /** Through the ISO text and back a time point keeps its whole seconds,
      except the one second that timegm reports as its error value. */
  lemma IsoRoundTrip(cal: Calendar, t: TimePoint)
    requires CalendarInverse(cal)
    requires ToEpochSeconds(t) != -1
    ensures FromIso8601Utc(cal, ToIso8601Utc(cal, t)) == FromEpochSeconds(ToEpochSeconds(t))
    ensures 0 <= t ==> FromIso8601Utc(cal, ToIso8601Utc(cal, t)) <= t < FromIso8601Utc(cal, ToIso8601Utc(cal, t)) + 1000
  {
    assert cal.scan(cal.format(ToEpochSeconds(t))) == Some(ToEpochSeconds(t));
  }
}
