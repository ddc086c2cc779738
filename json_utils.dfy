/** The JSON mapping of the model (src/common/json_utils.hpp): the string
    names of categories and sources, and to_json / from_json for events,
    snapshots, diffs and audit entries with the defaults from_json applies
    to missing fields. nlohmann's type errors are Err values carrying the
    exception's message. */
module JsonUtils {
  import opened Wrappers
  import opened JsonModel
  import opened Models

  function ParseCategoryString(value: string): (c: EventCategory)
    ensures value == "kernel" <==> c == Kernel
    ensures value == "gpu_driver" <==> c == GpuDriver
    ensures value == "firmware" <==> c == Firmware
    ensures value == "package" <==> c == Package
    ensures value !in {"kernel", "gpu_driver", "firmware", "package"} <==> c == System
  {
    if value == "kernel" then Kernel
    else if value == "gpu_driver" then GpuDriver
    else if value == "firmware" then Firmware
    else if value == "package" then Package
    else System
  }

  function ToCategoryString(c: EventCategory): (s: string)
    ensures ParseCategoryString(s) == c
  {
    match c
    case Kernel => "kernel"
    case GpuDriver => "gpu_driver"
    case Firmware => "firmware"
    case Package => "package"
    case System => "system"
  }

  function ParseSourceString(value: string): (src: EventSource)
    ensures value == "pacman" <==> src == Pacman
    ensures value == "journal" <==> src == Journal
    ensures value == "uname" <==> src == Uname
    ensures value == "fwupd" <==> src == Fwupd
    ensures value !in {"pacman", "journal", "uname", "fwupd"} <==> src == Other
  {
    if value == "pacman" then Pacman
    else if value == "journal" then Journal
    else if value == "uname" then Uname
    else if value == "fwupd" then Fwupd
    else Other
  }

  function ToSourceString(src: EventSource): (s: string)
    ensures ParseSourceString(s) == src
  {
    match src
    case Pacman => "pacman"
    case Journal => "journal"
    case Uname => "uname"
    case Fwupd => "fwupd"
    case Other => "other"
  }

  /** from_json for a category: only a string names one. */
  function CategoryFromJson(j: Json): (c: EventCategory)
    ensures !j.JStr? ==> c == System
    ensures j.JStr? ==> c == ParseCategoryString(j.s)
  {
    if j.JStr? then ParseCategoryString(j.s) else System
  }

  function SourceFromJson(j: Json): (src: EventSource)
    ensures !j.JStr? ==> src == Other
    ensures j.JStr? ==> src == ParseSourceString(j.s)
  {
    if j.JStr? then ParseSourceString(j.s) else Other
  }

  /** The field itself when present, an empty object otherwise
      (`j.contains(k) ? j.at(k) : json::object()`). */
  function FieldOrEmptyObject(j: Json, key: string): Json
  {
    if Has(j, key) then j.fields[key] else EmptyObject
  }

  /** The error nlohmann raises converting a non-string to std::string. */
  function NotAString(j: Json): string
  {
    "[json.exception.type_error.302] type must be string, but is " + TypeName(j)
  }

  /** `get<std::vector<std::string>>()` of an array. */
  function StringsFromArray(items: seq<Json>): (r: Result<seq<string>, string>)
    ensures r.Ok? <==> StringList(items).Some?
    ensures r.Ok? ==> r.value == StringList(items).value
  {
    match StringList(items)
    case Some(xs) => Ok(xs)
    case None =>
      var k := FirstNonString(items);
      Err(NotAString(items[k]))
  }

  function FirstNonString(items: seq<Json>): (k: nat)
    requires exists k :: 0 <= k < |items| && !items[k].JStr?
    ensures k < |items| && !items[k].JStr?
  {
    if !items[0].JStr? then 0 else 1 + FirstNonString(items[1..])
  }

  function ProvenanceToJson(p: Provenance): Json
  {
    JObj(map["sourceType" := JStr(p.sourceType), "sourceRef" := JStr(p.sourceRef),
             "parserVersion" := JStr(p.parserVersion), "ingestionId" := JStr(p.ingestionId)])
  }

  /** The provenance event from_json falls back to. */
  const LegacyProvenance := Provenance("unknown", "", "legacy", "")

  function EventToJson(cal: Calendar, e: KhronicleEvent): (j: Json)
    ensures j.JObj? && "riskLevel" in j.fields && j.fields["riskLevel"] == JStr(if e.riskLevel == "" then "info" else e.riskLevel)
  {
    JObj(map[
      "id" := JStr(e.id),
      "timestamp" := JStr(ToIso8601Utc(cal, e.timestamp)),
      "category" := JStr(ToCategoryString(e.category)),
      "source" := JStr(ToSourceString(e.source)),
      "summary" := JStr(e.summary),
      "details" := JStr(e.details),
      "beforeState" := e.beforeState,
      "afterState" := e.afterState,
      "relatedPackages" := StringsToJson(e.relatedPackages),
      "riskLevel" := JStr(if e.riskLevel == "" then "info" else e.riskLevel),
      "riskReason" := JStr(e.riskReason),
      "provenance" := ProvenanceToJson(e.provenance)])
  }

  function ProvenanceFromJson(j: Json): Result<Provenance, string>
  {
    if Has(j, "provenance") && j.fields["provenance"].JObj? then
      var prov := j.fields["provenance"];
      var sourceType :- ValueString(prov, "sourceType", "unknown");
      var sourceRef :- ValueString(prov, "sourceRef", "");
      var parserVersion :- ValueString(prov, "parserVersion", "legacy");
      var ingestionId :- ValueString(prov, "ingestionId", "");
      Ok(Provenance(sourceType, sourceRef, parserVersion, ingestionId))
    else
      Ok(LegacyProvenance)
  }

  /** An object holding a provenance as to_json writes it reads back as
      that provenance. */
  lemma ProvenanceRoundTrip(p: Provenance, j: Json)
    requires Has(j, "provenance") && j.fields["provenance"] == ProvenanceToJson(p)
    ensures ProvenanceFromJson(j) == Ok(p)
  {
    var prov := ProvenanceToJson(p);
    assert Has(prov, "sourceType") && prov.fields["sourceType"] == JStr(p.sourceType);
    assert Has(prov, "sourceRef") && prov.fields["sourceRef"] == JStr(p.sourceRef);
    assert Has(prov, "parserVersion") && prov.fields["parserVersion"] == JStr(p.parserVersion);
    assert Has(prov, "ingestionId") && prov.fields["ingestionId"] == JStr(p.ingestionId);
    assert ValueString(prov, "sourceType", "unknown") == Ok(p.sourceType);
    assert ValueString(prov, "sourceRef", "") == Ok(p.sourceRef);
    assert ValueString(prov, "parserVersion", "legacy") == Ok(p.parserVersion);
    assert ValueString(prov, "ingestionId", "") == Ok(p.ingestionId);
  }

  function EventFromJson(cal: Calendar, j: Json): (r: Result<KhronicleEvent, string>)
    ensures r.Ok? ==> j.JObj?
    ensures r.Ok? && !Has(j, "category") ==> r.value.category == System
    ensures r.Ok? && !Has(j, "source") ==> r.value.source == Other
    ensures r.Ok? && !Has(j, "beforeState") ==> r.value.beforeState == EmptyObject
    ensures r.Ok? && !Has(j, "afterState") ==> r.value.afterState == EmptyObject
    ensures r.Ok? && !Has(j, "relatedPackages") ==> r.value.relatedPackages == []
    ensures r.Ok? && !Has(j, "riskLevel") ==> r.value.riskLevel == "info"
    ensures r.Ok? && !Has(j, "provenance") ==> r.value.provenance == LegacyProvenance
  {
    var id :- ValueString(j, "id", "");
    var ts :- ValueString(j, "timestamp", "");
    var category := if Has(j, "category") then CategoryFromJson(j.fields["category"]) else System;
    var source := if Has(j, "source") then SourceFromJson(j.fields["source"]) else Other;
    var summary :- ValueString(j, "summary", "");
    var details :- ValueString(j, "details", "");
    var related :-
      if Has(j, "relatedPackages") && j.fields["relatedPackages"].JArr?
      then StringsFromArray(j.fields["relatedPackages"].items)
      else Ok([]);
    var riskLevel :- ValueString(j, "riskLevel", "info");
    var riskReason :- ValueString(j, "riskReason", "");
    var provenance :- ProvenanceFromJson(j);
    Ok(KhronicleEvent(id, FromIso8601Utc(cal, ts), category, source, summary, details,
                      FieldOrEmptyObject(j, "beforeState"), FieldOrEmptyObject(j, "afterState"),
                      related, riskLevel, riskReason, provenance, ""))
  }

  /** The event an object with no fields decodes to. */
  lemma EmptyEventDefaults(cal: Calendar)
    ensures EventFromJson(cal, EmptyObject) == Ok(KhronicleEvent(
      "", FromIso8601Utc(cal, ""), System, Other, "", "", EmptyObject, EmptyObject, [],
      "info", "", LegacyProvenance, ""))
  {
  }

  /** What survives an event's trip through JSON: everything but the
      sub-second part of its timestamp and its hostId (neither is written),
      with an empty riskLevel read back as "info". */
  /** The members EventToJson writes. */
  lemma EventJsonFields(cal: Calendar, e: KhronicleEvent)
    ensures var j := EventToJson(cal, e);
      && Has(j, "id") && j.fields["id"] == JStr(e.id)
      && Has(j, "timestamp") && j.fields["timestamp"] == JStr(ToIso8601Utc(cal, e.timestamp))
      && Has(j, "category") && j.fields["category"] == JStr(ToCategoryString(e.category))
      && Has(j, "source") && j.fields["source"] == JStr(ToSourceString(e.source))
      && Has(j, "summary") && j.fields["summary"] == JStr(e.summary)
      && Has(j, "details") && j.fields["details"] == JStr(e.details)
      && Has(j, "relatedPackages") && j.fields["relatedPackages"] == StringsToJson(e.relatedPackages)
      && Has(j, "riskReason") && j.fields["riskReason"] == JStr(e.riskReason)
      && Has(j, "provenance") && j.fields["provenance"] == ProvenanceToJson(e.provenance)
      && Has(j, "beforeState") && j.fields["beforeState"] == e.beforeState
      && Has(j, "afterState") && j.fields["afterState"] == e.afterState
  {
  }

  lemma {:induction false} EventRoundTrip(cal: Calendar, e: KhronicleEvent)
    requires CalendarInverse(cal)
    requires ToEpochSeconds(e.timestamp) != -1
    ensures EventFromJson(cal, EventToJson(cal, e)) == Ok(e.(
      timestamp := FromEpochSeconds(ToEpochSeconds(e.timestamp)),
      riskLevel := if e.riskLevel == "" then "info" else e.riskLevel,
      hostId := ""))
  {
    IsoRoundTrip(cal, e.timestamp);
    StringListOfStrings(e.relatedPackages);
    var j := EventToJson(cal, e);
    EventJsonFields(cal, e);
    assert ValueString(j, "id", "") == Ok(e.id);
    assert ValueString(j, "timestamp", "") == Ok(ToIso8601Utc(cal, e.timestamp));
    assert ValueString(j, "summary", "") == Ok(e.summary);
    assert ValueString(j, "details", "") == Ok(e.details);
    assert ValueString(j, "riskReason", "") == Ok(e.riskReason);
    ProvenanceRoundTrip(e.provenance, j);
    assert FieldOrEmptyObject(j, "beforeState") == e.beforeState;
    assert FieldOrEmptyObject(j, "afterState") == e.afterState;
  }

  function SnapshotToJson(cal: Calendar, s: SystemSnapshot): Json
  {
    JObj(map[
      "id" := JStr(s.id),
      "timestamp" := JStr(ToIso8601Utc(cal, s.timestamp)),
      "kernelVersion" := JStr(s.kernelVersion),
      "gpuDriver" := s.gpuDriver,
      "firmwareVersions" := s.firmwareVersions,
      "keyPackages" := s.keyPackages,
      "snapshotId" := JStr(s.snapshotId),
      "ingestionId" := JStr(s.ingestionId),
      "kernelSource" := JStr(s.kernelSource)])
  }

  function SnapshotFromJson(cal: Calendar, j: Json): (r: Result<SystemSnapshot, string>)
    ensures r.Ok? ==> j.JObj?
    ensures r.Ok? && !Has(j, "snapshotId") ==> r.value.snapshotId == r.value.id
    ensures r.Ok? && !Has(j, "gpuDriver") ==> r.value.gpuDriver == EmptyObject
    ensures r.Ok? && !Has(j, "firmwareVersions") ==> r.value.firmwareVersions == EmptyObject
    ensures r.Ok? && !Has(j, "keyPackages") ==> r.value.keyPackages == EmptyObject
  {
    var id :- ValueString(j, "id", "");
    var ts :- ValueString(j, "timestamp", "");
    var kernelVersion :- ValueString(j, "kernelVersion", "");
    var snapshotId :- ValueString(j, "snapshotId", id);
    var ingestionId :- ValueString(j, "ingestionId", "");
    var kernelSource :- ValueString(j, "kernelSource", "");
    Ok(SystemSnapshot(id, FromIso8601Utc(cal, ts), kernelVersion,
                      FieldOrEmptyObject(j, "gpuDriver"), FieldOrEmptyObject(j, "firmwareVersions"),
                      FieldOrEmptyObject(j, "keyPackages"), snapshotId, ingestionId, kernelSource,
                      NoHost))
  }

  /** A snapshot comes back from JSON with whole-second time and without
      its host identity, which to_json does not write. */
  lemma SnapshotJsonFields(cal: Calendar, s: SystemSnapshot)
    ensures var j := SnapshotToJson(cal, s);
      && Has(j, "id") && j.fields["id"] == JStr(s.id)
      && Has(j, "timestamp") && j.fields["timestamp"] == JStr(ToIso8601Utc(cal, s.timestamp))
      && Has(j, "kernelVersion") && j.fields["kernelVersion"] == JStr(s.kernelVersion)
      && Has(j, "gpuDriver") && j.fields["gpuDriver"] == s.gpuDriver
      && Has(j, "firmwareVersions") && j.fields["firmwareVersions"] == s.firmwareVersions
      && Has(j, "keyPackages") && j.fields["keyPackages"] == s.keyPackages
      && Has(j, "snapshotId") && j.fields["snapshotId"] == JStr(s.snapshotId)
      && Has(j, "ingestionId") && j.fields["ingestionId"] == JStr(s.ingestionId)
      && Has(j, "kernelSource") && j.fields["kernelSource"] == JStr(s.kernelSource)
  {
  }

  lemma {:induction false} SnapshotRoundTrip(cal: Calendar, s: SystemSnapshot)
    requires CalendarInverse(cal)
    requires ToEpochSeconds(s.timestamp) != -1
    ensures SnapshotFromJson(cal, SnapshotToJson(cal, s)) == Ok(s.(
      timestamp := FromEpochSeconds(ToEpochSeconds(s.timestamp)), hostIdentity := NoHost))
  {
    IsoRoundTrip(cal, s.timestamp);
    var j := SnapshotToJson(cal, s);
    SnapshotJsonFields(cal, s);
    assert ValueString(j, "id", "") == Ok(s.id);
    assert ValueString(j, "timestamp", "") == Ok(ToIso8601Utc(cal, s.timestamp));
    assert ValueString(j, "kernelVersion", "") == Ok(s.kernelVersion);
    assert ValueString(j, "snapshotId", s.id) == Ok(s.snapshotId);
    assert ValueString(j, "ingestionId", "") == Ok(s.ingestionId);
    assert ValueString(j, "kernelSource", "") == Ok(s.kernelSource);
    assert FieldOrEmptyObject(j, "gpuDriver") == s.gpuDriver;
    assert FieldOrEmptyObject(j, "firmwareVersions") == s.firmwareVersions;
    assert FieldOrEmptyObject(j, "keyPackages") == s.keyPackages;
  }

  function ChangedFieldToJson(f: ChangedField): Json
  {
    JObj(map["path" := JStr(f.path), "before" := f.before, "after" := f.after])
  }

  function ChangedFieldFromJson(j: Json): (r: Result<ChangedField, string>)
    ensures r.Ok? && !Has(j, "before") ==> r.value.before == EmptyObject
    ensures r.Ok? && !Has(j, "after") ==> r.value.after == EmptyObject
  {
    var path :- ValueString(j, "path", "");
    Ok(ChangedField(path, FieldOrEmptyObject(j, "before"), FieldOrEmptyObject(j, "after")))
  }

  function ChangedFieldsToJson(fields: seq<ChangedField>): (j: Json)
    ensures j.JArr? && |j.items| == |fields|
    ensures forall k :: 0 <= k < |fields| ==> j.items[k] == ChangedFieldToJson(fields[k])
  {
    JArr(seq(|fields|, k requires 0 <= k < |fields| => ChangedFieldToJson(fields[k])))
  }

  /** `get<std::vector<ChangedField>>()`: each element in turn; the first
      failure is the result. */
  function ChangedFieldsFromJson(items: seq<Json>): (r: Result<seq<ChangedField>, string>)
    ensures r.Ok? ==> |r.value| == |items|
    ensures r.Ok? ==> forall k :: 0 <= k < |items| ==> ChangedFieldFromJson(items[k]) == Ok(r.value[k])
  {
    if items == [] then Ok([])
    else
      var first :- ChangedFieldFromJson(items[0]);
      var rest :- ChangedFieldsFromJson(items[1..]);
      Ok([first] + rest)
  }

  function DiffToJson(d: KhronicleDiff): Json
  {
    JObj(map[
      "snapshotAId" := JStr(d.snapshotAId),
      "snapshotBId" := JStr(d.snapshotBId),
      "changedFields" := ChangedFieldsToJson(d.changedFields)])
  }

  function DiffFromJson(j: Json): (r: Result<KhronicleDiff, string>)
    ensures r.Ok? && !(Has(j, "changedFields") && j.fields["changedFields"].JArr?) ==> r.value.changedFields == []
  {
    var a :- ValueString(j, "snapshotAId", "");
    var b :- ValueString(j, "snapshotBId", "");
    var fields :-
      if Has(j, "changedFields") && j.fields["changedFields"].JArr?
      then ChangedFieldsFromJson(j.fields["changedFields"].items)
      else Ok([]);
    Ok(KhronicleDiff(a, b, fields))
  }

  lemma {:induction false} ChangedFieldsRoundTrip(fields: seq<ChangedField>)
    ensures ChangedFieldsFromJson(ChangedFieldsToJson(fields).items) == Ok(fields)
  {
    var items := ChangedFieldsToJson(fields).items;
    if fields != [] {
      ChangedFieldsRoundTrip(fields[1..]);
      assert items[1..] == ChangedFieldsToJson(fields[1..]).items;
      assert ChangedFieldFromJson(items[0]) == Ok(fields[0]);
      assert [fields[0]] + fields[1..] == fields;
    }
  }

  /** A diff survives to_json then from_json unchanged. */
  lemma DiffRoundTrip(d: KhronicleDiff)
    ensures DiffFromJson(DiffToJson(d)) == Ok(d)
  {
    ChangedFieldsRoundTrip(d.changedFields);
  }

  function AuditToJson(cal: Calendar, a: AuditLogEntry): Json
  {
    JObj(map[
      "id" := JStr(a.id),
      "timestamp" := JStr(ToIso8601Utc(cal, a.timestamp)),
      "auditType" := JStr(a.auditType),
      "inputRefs" := StringsToJson(a.inputRefs),
      "method" := JStr(a.auditMethod),
      "outputSummary" := JStr(a.outputSummary)])
  }

  function AuditFromJson(cal: Calendar, j: Json): (r: Result<AuditLogEntry, string>)
    ensures r.Ok? && !Has(j, "inputRefs") ==> r.value.inputRefs == []
  {
    var id :- ValueString(j, "id", "");
    var ts :- ValueString(j, "timestamp", "");
    var auditType :- ValueString(j, "auditType", "");
    var refs :-
      if Has(j, "inputRefs") && j.fields["inputRefs"].JArr?
      then StringsFromArray(j.fields["inputRefs"].items)
      else Ok([]);
    var auditMethod :- ValueString(j, "method", "");
    var outputSummary :- ValueString(j, "outputSummary", "");
    Ok(AuditLogEntry(id, FromIso8601Utc(cal, ts), auditType, refs, auditMethod, outputSummary))
  }

  lemma AuditRoundTrip(cal: Calendar, a: AuditLogEntry)
    requires CalendarInverse(cal)
    requires ToEpochSeconds(a.timestamp) != -1
    ensures AuditFromJson(cal, AuditToJson(cal, a)) == Ok(a.(timestamp := FromEpochSeconds(ToEpochSeconds(a.timestamp))))
  {
    IsoRoundTrip(cal, a.timestamp);
    StringListOfStrings(a.inputRefs);
  }
}
