/** The request handler of the local API (handleRequestPayload in
    src/daemon/khronicle_api_server.cpp): validation of a JSON-RPC style
    request, dispatch on its method over the store, and the error and
    result envelopes. The payload arrives already parsed (None where
    nlohmann::json::parse discards it); responses are JSON values, their
    serialisation is not modelled. The watch-rule and watch-signal store
    operations, getSnapshotBefore/After and the WatchRule JSON conversions
    have no body in the source and are parameters; the rule writes are
    returned as the write the store is asked to perform. */
module ApiServer {
  import opened Wrappers
  import opened JsonModel
  import opened Models
  import opened Text
  import opened JsonUtils
  import opened Store
  import opened ChangeExplainer
  import Counterfactual
  import Daemon

  // ---------------------------------------------------------------------
  // Envelopes

  /** makeErrorResponse: {"error": message, "id": id}. */
  function ErrorResponse(message: string, id: int): (r: Json)
    ensures IsEnvelope(r, id)
  {
    JObj(map["error" := JStr(message), "id" := JInt(id)])
  }

  /** makeResultResponse: {"result": result, "id": id}. */
  function ResultResponse(result: Json, id: int): (r: Json)
    ensures IsEnvelope(r, id)
  {
    JObj(map["result" := result, "id" := JInt(id)])
  }

  /** A client tells the two envelopes apart by their keys, and reads back
      the message, the result and the id it sent. */
  lemma EnvelopesDistinct(message: string, result: Json, id1: int, id2: int)
    ensures ErrorResponse(message, id1) != ResultResponse(result, id2)
    ensures StringAt(ErrorResponse(message, id1), "error") == Some(message)
    ensures !Has(ErrorResponse(message, id1), "result") && !Has(ResultResponse(result, id2), "error")
    ensures ResultResponse(result, id2).fields["result"] == result
    ensures ErrorResponse(message, id1).fields["id"] == JInt(id1) && ResultResponse(result, id2).fields["id"] == JInt(id2)
  {
    assert "result" in ResultResponse(result, id2).fields;
  }

  // ---------------------------------------------------------------------
  // Validation

  const Int32Modulus := 0x1_0000_0000

  /** get<int> of a JSON integer: the value truncated to 32 bits, two's
      complement. */
  function ToInt32(i: int): (r: int)
    ensures -0x8000_0000 <= r < 0x8000_0000
    ensures (r - i) % Int32Modulus == 0
    ensures -0x8000_0000 <= i < 0x8000_0000 ==> r == i
  {
    (i + 0x8000_0000) % Int32Modulus - 0x8000_0000
  }

  /** The request id: an integer "id" member, else -1. */
  function RequestId(request: Json): (id: int)
    ensures !(Has(request, "id") && request.fields["id"].JInt?) ==> id == -1
    ensures Has(request, "id") && request.fields["id"].JInt? && -0x8000_0000 <= request.fields["id"].i < 0x8000_0000 ==>
      id == request.fields["id"].i
  {
    if Has(request, "id") && request.fields["id"].JInt? then ToInt32(request.fields["id"].i) else -1
  }

  /** A validated request: its method name, its params object and its id. */
  datatype Request = Request(name: string, params: Json, id: int)

  /** The methods handleRequestPayload answers, and any other name. */
  datatype ApiMethod =
    | ChangesSinceRequest | ChangesBetweenRequest | ListSnapshotsRequest | GetSnapshotRequest | DiffSnapshotsRequest
    | SummarySinceRequest | ListWatchRulesRequest | UpsertWatchRuleRequest | DeleteWatchRuleRequest
    | WatchSignalsSinceRequest | ExplainChangeBetweenRequest | WhatChangedSinceLastGoodRequest | UnknownRequest

  /** The method a name selects, compared in the handler's order. */
  function MethodNamed(name: string): (m: ApiMethod)
    ensures m == DiffSnapshotsRequest <==> name == "diff_snapshots"
    ensures m == UpsertWatchRuleRequest <==> name == "upsert_watch_rule"
    ensures m == DeleteWatchRuleRequest <==> name == "delete_watch_rule"
  {
    if name == "get_changes_since" then ChangesSinceRequest
    else if name == "get_changes_between" then ChangesBetweenRequest
    else if name == "list_snapshots" then ListSnapshotsRequest
    else if name == "get_snapshot" then GetSnapshotRequest
    else if name == "diff_snapshots" then DiffSnapshotsRequest
    else if name == "summary_since" then SummarySinceRequest
    else if name == "list_watch_rules" then ListWatchRulesRequest
    else if name == "upsert_watch_rule" then UpsertWatchRuleRequest
    else if name == "delete_watch_rule" then DeleteWatchRuleRequest
    else if name == "get_watch_signals_since" then WatchSignalsSinceRequest
    else if name == "explain_change_between" then ExplainChangeBetweenRequest
    else if name == "what_changed_since_last_good" then WhatChangedSinceLastGoodRequest
    else UnknownRequest
  }

  /** The validation steps of handleRequestPayload, in their order. */
  function ParseRequest(payload: Option<Json>): (r: Result<Request, Json>)
    ensures (payload.None? || !payload.value.JObj?) ==> r == Err(ErrorResponse("Invalid JSON payload", -1))
    ensures payload.Some? && payload.value.JObj? && StringAt(payload.value, "method").None? ==>
      r == Err(ErrorResponse("Missing method", RequestId(payload.value)))
    ensures (payload.Some? && payload.value.JObj? && StringAt(payload.value, "method").Some?
             && Has(payload.value, "params") && !payload.value.fields["params"].JObj?) ==>
      r == Err(ErrorResponse("Invalid params", RequestId(payload.value)))
    ensures r.Ok? <==> (payload.Some? && payload.value.JObj? && StringAt(payload.value, "method").Some?
                        && (Has(payload.value, "params") ==> payload.value.fields["params"].JObj?))
    ensures r.Ok? ==> (r.value.params.JObj? && r.value.id == RequestId(payload.value)
                       && Some(r.value.name) == StringAt(payload.value, "method")
                       && (!Has(payload.value, "params") ==> r.value.params == EmptyObject))
  {
    if payload.None? || !payload.value.JObj? then Err(ErrorResponse("Invalid JSON payload", -1))
    else
      var request := payload.value;
      var id := RequestId(request);
      match StringAt(request, "method")
      case None => Err(ErrorResponse("Missing method", id))
      case Some(name) =>
        if !Has(request, "params") then Ok(Request(name, EmptyObject, id))
        else if !request.fields["params"].JObj? then Err(ErrorResponse("Invalid params", id))
        else Ok(Request(name, request.fields["params"], id))
  }

  // ---------------------------------------------------------------------
  // summary_since

  /** extractKernelVersion: the string at "kernelVersion" of an object. */
  function ExtractKernelVersion(state: Json): Option<string>
  {
    StringAt(state, "kernelVersion")
  }

  datatype Summary = Summary(kernelChanged: bool, kernelFrom: string, kernelTo: string,
                             gpuEvents: int, firmwareEvents: int, totalEvents: int)

  const EmptySummary := Summary(false, "", "", 0, 0, 0)

  /** One event folded into the summary, as the loop body does. */
  function SummaryStep(s: Summary, e: KhronicleEvent): Summary
  {
    match e.category
    case Kernel =>
      var from := if s.kernelFrom == "" && ExtractKernelVersion(e.beforeState).Some?
                  then ExtractKernelVersion(e.beforeState).value else s.kernelFrom;
      var to := if ExtractKernelVersion(e.afterState).Some? then ExtractKernelVersion(e.afterState).value else s.kernelTo;
      s.(kernelChanged := true, kernelFrom := from, kernelTo := to, totalEvents := s.totalEvents + 1)
    case GpuDriver => s.(gpuEvents := s.gpuEvents + 1, totalEvents := s.totalEvents + 1)
    case Firmware => s.(firmwareEvents := s.firmwareEvents + 1, totalEvents := s.totalEvents + 1)
    case _ => s.(totalEvents := s.totalEvents + 1)
  }

  /** The summary of a list of events. */
  function SummaryOf(events: seq<KhronicleEvent>): Summary
  {
    if events == [] then EmptySummary
    else SummaryStep(SummaryOf(events[..|events| - 1]), events[|events| - 1])
  }

  /** The number of events of one category. */
  function CountCategory(events: seq<KhronicleEvent>, c: EventCategory): nat
  {
    if events == [] then 0
    else (if events[0].category == c then 1 else 0) + CountCategory(events[1..], c)
  }

  lemma {:induction false} CountCategorySnoc(events: seq<KhronicleEvent>, e: KhronicleEvent, c: EventCategory)
    ensures CountCategory(events + [e], c) == CountCategory(events, c) + (if e.category == c then 1 else 0)
  {
    if events != [] {
      assert (events + [e])[1..] == events[1..] + [e];
      CountCategorySnoc(events[1..], e, c);
    }
  }

  /** An event that sets kernelFrom: a Kernel event whose before state has
      a non-empty kernel version (an empty one leaves kernelFrom empty, so
      a later event may still set it). */
  predicate SetsKernelFrom(e: KhronicleEvent)
  {
    e.category == Kernel && ExtractKernelVersion(e.beforeState).Some? && ExtractKernelVersion(e.beforeState).value != ""
  }

  /** An event that sets kernelTo: a Kernel event whose after state has a
      kernel version. */
  predicate SetsKernelTo(e: KhronicleEvent)
  {
    e.category == Kernel && ExtractKernelVersion(e.afterState).Some?
  }

  /** The counters: all events, GPU-driver events and firmware events, and
      kernelChanged exactly when some event is a Kernel event. */
  lemma {:induction false} SummaryCounts(events: seq<KhronicleEvent>)
    ensures SummaryOf(events).totalEvents == |events|
    ensures SummaryOf(events).gpuEvents == CountCategory(events, GpuDriver)
    ensures SummaryOf(events).firmwareEvents == CountCategory(events, Firmware)
    ensures SummaryOf(events).kernelChanged <==> exists i :: 0 <= i < |events| && events[i].category == Kernel
  {
    if events != [] {
      var init := events[..|events| - 1];
      var e := events[|events| - 1];
      SummaryCounts(init);
      assert events == init + [e];
      CountCategorySnoc(init, e, GpuDriver);
      CountCategorySnoc(init, e, Firmware);
      if exists i :: 0 <= i < |init| && init[i].category == Kernel {
        var i :| 0 <= i < |init| && init[i].category == Kernel;
        assert events[i] == init[i];
      }
      if exists i :: 0 <= i < |events| && events[i].category == Kernel {
        var i :| 0 <= i < |events| && events[i].category == Kernel;
        if i < |init| {
          assert init[i] == events[i];
        }
      }
    }
  }

  /** kernelFrom comes from the first event that sets it... */
  lemma {:induction false} KernelFromOfFirst(events: seq<KhronicleEvent>, i: nat)
    requires i < |events| && SetsKernelFrom(events[i])
    requires forall j :: 0 <= j < i ==> !SetsKernelFrom(events[j])
    ensures SummaryOf(events).kernelFrom == ExtractKernelVersion(events[i].beforeState).value
  {
    var n := |events| - 1;
    var init := events[..n];
    if i < n {
      assert init[i] == events[i];
      forall j | 0 <= j < i ensures !SetsKernelFrom(init[j]) {
        assert init[j] == events[j];
      }
      KernelFromOfFirst(init, i);
    } else {
      forall j | 0 <= j < n ensures !SetsKernelFrom(init[j]) {
        assert init[j] == events[j];
      }
      KernelFromUnset(init);
    }
  }

  /** ...and is empty when no event sets it. */
  lemma {:induction false} KernelFromUnset(events: seq<KhronicleEvent>)
    requires forall i :: 0 <= i < |events| ==> !SetsKernelFrom(events[i])
    ensures SummaryOf(events).kernelFrom == ""
  {
    if events != [] {
      var n := |events| - 1;
      var init := events[..n];
      forall j | 0 <= j < n ensures !SetsKernelFrom(init[j]) {
        assert init[j] == events[j];
      }
      KernelFromUnset(init);
      assert !SetsKernelFrom(events[n]);
    }
  }

  /** kernelTo comes from the last event that sets it... */
  lemma {:induction false} KernelToOfLast(events: seq<KhronicleEvent>, i: nat)
    requires i < |events| && SetsKernelTo(events[i])
    requires forall j :: i < j < |events| ==> !SetsKernelTo(events[j])
    ensures SummaryOf(events).kernelTo == ExtractKernelVersion(events[i].afterState).value
  {
    var n := |events| - 1;
    var init := events[..n];
    if i < n {
      assert !SetsKernelTo(events[n]);
      assert init[i] == events[i];
      forall j | i < j < n ensures !SetsKernelTo(init[j]) {
        assert init[j] == events[j];
      }
      KernelToOfLast(init, i);
    }
  }

  /** ...and is empty when no event sets it. */
  lemma {:induction false} KernelToUnset(events: seq<KhronicleEvent>)
    requires forall i :: 0 <= i < |events| ==> !SetsKernelTo(events[i])
    ensures SummaryOf(events).kernelTo == ""
  {
    if events != [] {
      var n := |events| - 1;
      var init := events[..n];
      forall j | 0 <= j < n ensures !SetsKernelTo(init[j]) {
        assert init[j] == events[j];
      }
      KernelToUnset(init);
      assert !SetsKernelTo(events[n]);
    }
  }

  /** The kernel-change event the daemon writes summarises as a change
      from its old to its new version. */
  lemma KernelChangeSummary(previous: string, current: SystemSnapshot)
    requires previous != ""
    ensures SummaryOf([Daemon.KernelChangeEvent(previous, current)])
      == Summary(true, previous, current.kernelVersion, 0, 0, 1)
  {
    var e := Daemon.KernelChangeEvent(previous, current);
    assert [e][..0] == [];
  }

  /** The summary_since loop. */
  method SummarizeEvents(events: seq<KhronicleEvent>) returns (summary: Summary)
    ensures summary == SummaryOf(events)
  {
    var gpuEvents := 0;
    var firmwareEvents := 0;
    var kernelChanged := false;
    var kernelFrom := "";
    var kernelTo := "";
    var i := 0;
    while i < |events|
      invariant 0 <= i <= |events|
      invariant SummaryOf(events[..i]) == Summary(kernelChanged, kernelFrom, kernelTo, gpuEvents, firmwareEvents, i)
    {
      var event := events[i];
      assert events[..i + 1][..i] == events[..i];
      match event.category {
        case Kernel =>
          kernelChanged := true;
          if kernelFrom == "" {
            var value := ExtractKernelVersion(event.beforeState);
            if value.Some? {
              kernelFrom := value.value;
            }
          }
          var value := ExtractKernelVersion(event.afterState);
          if value.Some? {
            kernelTo := value.value;
          }
        case GpuDriver =>
          gpuEvents := gpuEvents + 1;
        case Firmware =>
          firmwareEvents := firmwareEvents + 1;
        case _ =>
      }
      i := i + 1;
    }
    assert events[..i] == events;
    summary := Summary(kernelChanged, kernelFrom, kernelTo, gpuEvents, firmwareEvents, |events|);
  }

  function SummaryJson(s: Summary): Json
  {
    JObj(map["kernelChanged" := JBool(s.kernelChanged), "kernelFrom" := JStr(s.kernelFrom),
             "kernelTo" := JStr(s.kernelTo), "gpuEvents" := JInt(s.gpuEvents),
             "firmwareEvents" := JInt(s.firmwareEvents), "totalEvents" := JInt(s.totalEvents)])
  }

  // ---------------------------------------------------------------------
  // Snapshots

  /** latestSnapshot: None for an empty list, else the first element with
      the largest timestamp. */
  function LatestSnapshot(snapshots: seq<SystemSnapshot>): (r: Option<SystemSnapshot>)
    ensures r.None? <==> snapshots == []
    ensures r.Some? ==> r.value in snapshots
    ensures r.Some? ==> forall j :: 0 <= j < |snapshots| ==> snapshots[j].timestamp <= r.value.timestamp
  {
    if snapshots == [] then None else Some(snapshots[FirstLatest(snapshots)])
  }

  // ---------------------------------------------------------------------
  // Results

  function EventsJson(cal: Calendar, events: seq<KhronicleEvent>): Json
  {
    JArr(seq(|events|, i requires 0 <= i < |events| => EventToJson(cal, events[i])))
  }

  function SnapshotsJson(cal: Calendar, snapshots: seq<SystemSnapshot>): Json
  {
    JArr(seq(|snapshots|, i requires 0 <= i < |snapshots| => SnapshotToJson(cal, snapshots[i])))
  }

  /** The result object of the two counterfactual methods. */
  function CounterfactualJson(baseline: SystemSnapshot, comparison: SystemSnapshot, diff: KhronicleDiff, summary: string): Json
  {
    JObj(map["baselineSnapshot" := JStr(baseline.id), "comparisonSnapshot" := JStr(comparison.id),
             "summary" := JStr(summary), "diff" := DiffToJson(diff)])
  }

  /** How a method renders the events a query returned. */
  datatype Render = AsEvents | AsSummary | AsCounterfactual(baseline: SystemSnapshot, comparison: SystemSnapshot)

  ghost function Rendered(cal: Calendar, render: Render, events: seq<KhronicleEvent>): Json
  {
    match render
    case AsEvents => JObj(map["events" := EventsJson(cal, events)])
    case AsSummary => SummaryJson(SummaryOf(events))
    case AsCounterfactual(baseline, comparison) =>
      var diff := Counterfactual.SnapshotDiff(baseline, comparison);
      CounterfactualJson(baseline, comparison, diff, Explanation(diff, events))
  }

  /** The answer to a method that queries events in a window: the rendered
      events of the window in time order, or the error of a stored row that
      cannot be read back. */
  ghost predicate WindowAnswer(events: map<string, EventRow>, lo: int, hi: Option<int>, cal: Calendar, render: Render,
                               id: int, response: Json)
  {
    || (exists es :: SortedBy(es, EventTime) && ListsWindow(events, lo, hi, es) && response == ResultResponse(Rendered(cal, render, es), id))
    || (exists k :: k in events && InWindow(events[k], lo, hi) && ReadEvent(events[k]).Err?
                   && response == ErrorResponse(ReadEvent(events[k]).error, id))
  }

  /** A "since" parameter read as a time point: nlohmann's type error, or
      the epoch where the text does not parse. */
  function TimeParam(cal: Calendar, params: Json, key: string): Result<TimePoint, string>
  {
    match ValueString(params, key, "")
    case Err(message) => Err(message)
    case Ok(text) => Ok(FromIso8601Utc(cal, text))
  }

  /** The store's rule operations and snapshot lookups that the source
      declares without a body, the WatchRule/WatchSignal JSON conversions,
      and the clock and UUID read by diffSnapshots' audit entry. */
  datatype ApiEnv = ApiEnv(
    cal: Calendar,
    now: TimePoint,
    auditId: string,
    decodeRule: Json -> Result<WatchRule, string>,
    ruleJson: WatchRule -> Json,
    signalJson: WatchSignal -> Json,
    signalsSince: TimePoint -> seq<WatchSignal>,
    snapshotBefore: TimePoint -> Option<SystemSnapshot>,
    snapshotAfter: TimePoint -> Option<SystemSnapshot>)

  /** The write upsert_watch_rule and delete_watch_rule ask of the store. */
  datatype RuleWrite = UpsertRule(rule: WatchRule) | DeleteRule(ruleId: string)

  const OkResult: Json := JObj(map["ok" := JBool(true)])

  function RulesJson(ruleJson: WatchRule -> Json, rules: seq<WatchRule>): Json
  {
    JArr(seq(|rules|, i requires 0 <= i < |rules| => ruleJson(rules[i])))
  }

  function SignalsJson(signalJson: WatchSignal -> Json, signals: seq<WatchSignal>): Json
  {
    JArr(seq(|signals|, i requires 0 <= i < |signals| => signalJson(signals[i])))
  }

  /** The read-only tables of the store a request sees. */
  datatype Tables = Tables(events: map<string, EventRow>, snapshots: map<string, SnapshotRow>, watchRules: seq<WatchRule>)

  // ---------------------------------------------------------------------
  // What each method answers

  /** get_changes_since and summary_since. */
  ghost predicate SinceAnswer(events: map<string, EventRow>, cal: Calendar, params: Json, id: int, render: Render, response: Json)
  {
    match TimeParam(cal, params, "since")
    case Err(message) => response == ErrorResponse(message, id)
    case Ok(since) =>
      if since == 0 then response == ErrorResponse("Invalid since timestamp", id)
      else WindowAnswer(events, ToEpochSeconds(since), None, cal, render, id, response)
  }

  /** get_changes_between. */
  ghost predicate BetweenAnswer(events: map<string, EventRow>, cal: Calendar, params: Json, id: int, response: Json)
  {
    match (TimeParam(cal, params, "from"), TimeParam(cal, params, "to"))
    case (Err(message), _) => response == ErrorResponse(message, id)
    case (Ok(_), Err(message)) => response == ErrorResponse(message, id)
    case (Ok(from), Ok(to)) =>
      if from == 0 || to == 0 then response == ErrorResponse("Invalid from/to timestamp", id)
      else WindowAnswer(events, ToEpochSeconds(from), Some(ToEpochSeconds(to)), cal, AsEvents, id, response)
  }

  /** ss lists every stored snapshot once, as read back, in time order. */
  ghost predicate ListsSnapshots(snapshots: map<string, SnapshotRow>, ss: seq<SystemSnapshot>)
  {
    && SortedBy(ss, SnapshotTime) && |ss| == |snapshots|
    && (forall s :: s in ss ==> s.id in snapshots && s == ReadSnapshot(snapshots[s.id]))
    && (forall k :: k in snapshots ==> ReadSnapshot(snapshots[k]) in ss)
  }

  /** list_snapshots. */
  ghost predicate SnapshotListAnswer(snapshots: map<string, SnapshotRow>, cal: Calendar, id: int, response: Json)
  {
    exists ss :: ListsSnapshots(snapshots, ss) && response == ResultResponse(JObj(map["snapshots" := SnapshotsJson(cal, ss)]), id)
  }

  /** get_snapshot. */
  ghost predicate SnapshotAnswer(snapshots: map<string, SnapshotRow>, cal: Calendar, params: Json, id: int, response: Json)
  {
    match ValueString(params, "id", "")
    case Err(message) => response == ErrorResponse(message, id)
    case Ok(snapshotId) =>
      if snapshotId == "" then response == ErrorResponse("Missing snapshot id", id)
      else if snapshotId !in snapshots then response == ErrorResponse("Snapshot not found", id)
      else response == ResultResponse(JObj(map["snapshot" := SnapshotToJson(cal, ReadSnapshot(snapshots[snapshotId]))]), id)
  }

  /** diff_snapshots. */
  ghost predicate DiffAnswer(snapshots: map<string, SnapshotRow>, params: Json, id: int, response: Json)
  {
    match (ValueString(params, "a", ""), ValueString(params, "b", ""))
    case (Err(message), _) => response == ErrorResponse(message, id)
    case (Ok(_), Err(message)) => response == ErrorResponse(message, id)
    case (Ok(a), Ok(b)) =>
      if a == "" || b == "" then response == ErrorResponse("Missing snapshot ids", id)
      else response == ResultResponse(JObj(map["diff" := DiffToJson(StoredDiff(snapshots, a, b))]), id)
  }

  /** upsert_watch_rule. */
  ghost predicate UpsertAnswer(env: ApiEnv, params: Json, id: int, response: Json, write: Option<RuleWrite>)
  {
    if !Has(params, "rule") || !params.fields["rule"].JObj? then
      write.None? && response == ErrorResponse("Missing rule object", id)
    else
      match env.decodeRule(params.fields["rule"])
      case Err(message) => write.None? && response == ErrorResponse(message, id)
      case Ok(rule) =>
        if rule.id == "" then write.None? && response == ErrorResponse("Missing rule id", id)
        else write == Some(UpsertRule(rule)) && response == ResultResponse(OkResult, id)
  }

  /** delete_watch_rule. */
  ghost predicate DeleteAnswer(params: Json, id: int, response: Json, write: Option<RuleWrite>)
  {
    match ValueString(params, "id", "")
    case Err(message) => write.None? && response == ErrorResponse(message, id)
    case Ok(ruleId) =>
      if ruleId == "" then write.None? && response == ErrorResponse("Missing rule id", id)
      else write == Some(DeleteRule(ruleId)) && response == ResultResponse(OkResult, id)
  }

  /** get_watch_signals_since. */
  ghost predicate SignalsAnswer(env: ApiEnv, params: Json, id: int, response: Json)
  {
    match TimeParam(env.cal, params, "since")
    case Err(message) => response == ErrorResponse(message, id)
    case Ok(since) =>
      if since == 0 then response == ErrorResponse("Invalid since timestamp", id)
      else response == ResultResponse(JObj(map["signals" := SignalsJson(env.signalJson, env.signalsSince(since))]), id)
  }

  /** explain_change_between. */
  ghost predicate ExplainAnswer(events: map<string, EventRow>, env: ApiEnv, params: Json, id: int, response: Json)
  {
    match (TimeParam(env.cal, params, "from"), TimeParam(env.cal, params, "to"))
    case (Err(message), _) => response == ErrorResponse(message, id)
    case (Ok(_), Err(message)) => response == ErrorResponse(message, id)
    case (Ok(from), Ok(to)) =>
      if from == 0 || to == 0 then response == ErrorResponse("Invalid from/to timestamp", id)
      else if env.snapshotBefore(from).None? || env.snapshotAfter(to).None? then
        response == ErrorResponse("Snapshots not found", id)
      else
        WindowAnswer(events, ToEpochSeconds(from), Some(ToEpochSeconds(to)), env.cal,
                     AsCounterfactual(env.snapshotBefore(from).value, env.snapshotAfter(to).value), id, response)
  }

  /** what_changed_since_last_good: from the reference snapshot to a latest
      stored one. */
  ghost predicate LastGoodAnswer(events: map<string, EventRow>, snapshots: map<string, SnapshotRow>, cal: Calendar,
                                 params: Json, id: int, response: Json)
  {
    match ValueString(params, "referenceSnapshotId", "")
    case Err(message) => response == ErrorResponse(message, id)
    case Ok(referenceId) =>
      if referenceId == "" then response == ErrorResponse("Missing referenceSnapshotId", id)
      else if referenceId !in snapshots then response == ErrorResponse("Snapshots not found", id)
      else
        var baseline := ReadSnapshot(snapshots[referenceId]);
        exists latest :: IsLatestStored(snapshots, latest)
          && WindowAnswer(events, ToEpochSeconds(baseline.timestamp), Some(ToEpochSeconds(latest.timestamp)), cal,
                          AsCounterfactual(baseline, latest), id, response)
  }

  /** What a validated request is answered with, and the rule write it
      asks for. */
  ghost predicate MethodAnswer(t: Tables, env: ApiEnv, request: Request, response: Json, write: Option<RuleWrite>)
  {
    var params := request.params;
    var id := request.id;
    match MethodNamed(request.name)
    case UpsertWatchRuleRequest => UpsertAnswer(env, params, id, response, write)
    case DeleteWatchRuleRequest => DeleteAnswer(params, id, response, write)
    case ChangesSinceRequest => write.None? && SinceAnswer(t.events, env.cal, params, id, AsEvents, response)
    case ChangesBetweenRequest => write.None? && BetweenAnswer(t.events, env.cal, params, id, response)
    case ListSnapshotsRequest => write.None? && SnapshotListAnswer(t.snapshots, env.cal, id, response)
    case GetSnapshotRequest => write.None? && SnapshotAnswer(t.snapshots, env.cal, params, id, response)
    case DiffSnapshotsRequest => write.None? && DiffAnswer(t.snapshots, params, id, response)
    case SummarySinceRequest => write.None? && SinceAnswer(t.events, env.cal, params, id, AsSummary, response)
    case ListWatchRulesRequest =>
      write.None? && response == ResultResponse(JObj(map["rules" := RulesJson(env.ruleJson, t.watchRules)]), id)
    case WatchSignalsSinceRequest => write.None? && SignalsAnswer(env, params, id, response)
    case ExplainChangeBetweenRequest => write.None? && ExplainAnswer(t.events, env, params, id, response)
    case WhatChangedSinceLastGoodRequest =>
      write.None? && LastGoodAnswer(t.events, t.snapshots, env.cal, params, id, response)
    case UnknownRequest => write.None? && response == ErrorResponse("Unknown method", id)
  }

  /** The whole answer to a payload. */
  ghost predicate Answered(t: Tables, env: ApiEnv, payload: Option<Json>, response: Json, write: Option<RuleWrite>)
  {
    match ParseRequest(payload)
    case Err(invalid) => response == invalid && write.None?
    case Ok(request) => MethodAnswer(t, env, request, response, write)
  }

  /** The audit log after a request: only a diff of two stored snapshots
      records an entry. */
  ghost function AuditAfter(auditLog: map<string, AuditLogEntry>, snapshots: map<string, SnapshotRow>,
                            payload: Option<Json>, env: ApiEnv): map<string, AuditLogEntry>
  {
    match ParseRequest(payload)
    case Err(_) => auditLog
    case Ok(request) =>
      if MethodNamed(request.name) != DiffSnapshotsRequest then auditLog
      else DiffAuditAfter(auditLog, snapshots, request.params, env.auditId, env.now)
  }

  /** The audit log after diff_snapshots: one entry when both ids are given
      and name stored snapshots. */
  ghost function DiffAuditAfter(auditLog: map<string, AuditLogEntry>, snapshots: map<string, SnapshotRow>,
                                params: Json, auditId: string, now: TimePoint): map<string, AuditLogEntry>
  {
    match (ValueString(params, "a", ""), ValueString(params, "b", ""))
    case (Ok(a), Ok(b)) =>
      if a != "" && b != "" then DiffAudited(auditLog, snapshots, a, b, auditId, now)
      else auditLog
    case _ => auditLog
  }

  /** The store's diffSnapshots on the audit log. */
  ghost function DiffAudited(auditLog: map<string, AuditLogEntry>, snapshots: map<string, SnapshotRow>,
                             a: string, b: string, auditId: string, now: TimePoint): map<string, AuditLogEntry>
  {
    if a in snapshots && b in snapshots then
      auditLog[auditId := StoredAudit(DiffAudit(a, b, |StoredDiff(snapshots, a, b).changedFields|, auditId, now))]
    else auditLog
  }

  // ---------------------------------------------------------------------
  // Properties of the answers

  /** An envelope: an object with the id and exactly one of an error
      message and a result. */
  predicate IsEnvelope(response: Json, id: int)
  {
    && response.JObj? && "id" in response.fields && response.fields["id"] == JInt(id)
    && (("error" in response.fields) != ("result" in response.fields))
    && ("error" in response.fields ==> response.fields["error"].JStr?)
  }

  /** The id a response carries: the request's integer id, -1 when it has
      none or the payload is not an object. */
  function ResponseId(payload: Option<Json>): int
  {
    if payload.Some? && payload.value.JObj? then RequestId(payload.value) else -1
  }

  lemma WindowEnvelope(events: map<string, EventRow>, lo: int, hi: Option<int>, cal: Calendar, render: Render,
                       id: int, response: Json)
    requires WindowAnswer(events, lo, hi, cal, render, id, response)
    ensures IsEnvelope(response, id)
  {
  }

  lemma SinceEnvelope(events: map<string, EventRow>, cal: Calendar, params: Json, id: int, render: Render, response: Json)
    requires SinceAnswer(events, cal, params, id, render, response)
    ensures IsEnvelope(response, id)
  {
    if TimeParam(cal, params, "since").Ok? && TimeParam(cal, params, "since").value != 0 {
      WindowEnvelope(events, ToEpochSeconds(TimeParam(cal, params, "since").value), None, cal, render, id, response);
    }
  }

  lemma BetweenEnvelope(events: map<string, EventRow>, cal: Calendar, params: Json, id: int, response: Json)
    requires BetweenAnswer(events, cal, params, id, response)
    ensures IsEnvelope(response, id)
  {
    match (TimeParam(cal, params, "from"), TimeParam(cal, params, "to"))
    case (Err(message), _) =>
    case (Ok(_), Err(message)) =>
    case (Ok(from), Ok(to)) =>
      if from != 0 && to != 0 {
        WindowEnvelope(events, ToEpochSeconds(from), Some(ToEpochSeconds(to)), cal, AsEvents, id, response);
      }
  }

  lemma ExplainEnvelope(events: map<string, EventRow>, env: ApiEnv, params: Json, id: int, response: Json)
    requires ExplainAnswer(events, env, params, id, response)
    ensures IsEnvelope(response, id)
  {
    match (TimeParam(env.cal, params, "from"), TimeParam(env.cal, params, "to"))
    case (Err(message), _) =>
    case (Ok(_), Err(message)) =>
    case (Ok(from), Ok(to)) =>
      if from != 0 && to != 0 && env.snapshotBefore(from).Some? && env.snapshotAfter(to).Some? {
        var render := AsCounterfactual(env.snapshotBefore(from).value, env.snapshotAfter(to).value);
        WindowEnvelope(events, ToEpochSeconds(from), Some(ToEpochSeconds(to)), env.cal, render, id, response);
      }
  }

  lemma LastGoodEnvelope(events: map<string, EventRow>, snapshots: map<string, SnapshotRow>, cal: Calendar,
                         params: Json, id: int, response: Json)
    requires LastGoodAnswer(events, snapshots, cal, params, id, response)
    ensures IsEnvelope(response, id)
  {
    forall lo, hi, render | WindowAnswer(events, lo, hi, cal, render, id, response) ensures IsEnvelope(response, id) {
      WindowEnvelope(events, lo, hi, cal, render, id, response);
    }
  }

  lemma MethodEnvelope(t: Tables, env: ApiEnv, request: Request, response: Json, write: Option<RuleWrite>)
    requires MethodAnswer(t, env, request, response, write)
    ensures IsEnvelope(response, request.id)
  {
    var params := request.params;
    var id := request.id;
    match MethodNamed(request.name)
    case ChangesSinceRequest => SinceEnvelope(t.events, env.cal, params, id, AsEvents, response);
    case SummarySinceRequest => SinceEnvelope(t.events, env.cal, params, id, AsSummary, response);
    case ChangesBetweenRequest => BetweenEnvelope(t.events, env.cal, params, id, response);
    case ExplainChangeBetweenRequest => ExplainEnvelope(t.events, env, params, id, response);
    case WhatChangedSinceLastGoodRequest => LastGoodEnvelope(t.events, t.snapshots, env.cal, params, id, response);
    case UpsertWatchRuleRequest => UpsertEnvelope(env, params, id, response, write);
    case DeleteWatchRuleRequest => DeleteEnvelope(params, id, response, write);
    case WatchSignalsSinceRequest => SignalsEnvelope(env, params, id, response);
    case GetSnapshotRequest => SnapshotEnvelope(t.snapshots, env.cal, params, id, response);
    case DiffSnapshotsRequest => DiffEnvelope(t.snapshots, params, id, response);
    case ListSnapshotsRequest =>
      var ss :| ListsSnapshots(t.snapshots, ss) && response == ResultResponse(JObj(map["snapshots" := SnapshotsJson(env.cal, ss)]), id);
    case ListWatchRulesRequest =>
    case UnknownRequest =>
  }

  // The five methods below answer without a window query; their envelopes
  // follow from the answer predicates alone and are split out only so that
  // MethodEnvelope reasons about one method per case.
  lemma UpsertEnvelope(env: ApiEnv, params: Json, id: int, response: Json, write: Option<RuleWrite>)
    requires UpsertAnswer(env, params, id, response, write)
    ensures IsEnvelope(response, id)
  {
  }

  lemma DeleteEnvelope(params: Json, id: int, response: Json, write: Option<RuleWrite>)
    requires DeleteAnswer(params, id, response, write)
    ensures IsEnvelope(response, id)
  {
  }

  lemma SignalsEnvelope(env: ApiEnv, params: Json, id: int, response: Json)
    requires SignalsAnswer(env, params, id, response)
    ensures IsEnvelope(response, id)
  {
  }

  lemma SnapshotEnvelope(snapshots: map<string, SnapshotRow>, cal: Calendar, params: Json, id: int, response: Json)
    requires SnapshotAnswer(snapshots, cal, params, id, response)
    ensures IsEnvelope(response, id)
  {
  }

  lemma DiffEnvelope(snapshots: map<string, SnapshotRow>, params: Json, id: int, response: Json)
    requires DiffAnswer(snapshots, params, id, response)
    ensures IsEnvelope(response, id)
  {
  }

  /** Every answer, error or result, is an envelope carrying the request's
      id. */
  lemma AnswerCarriesId(t: Tables, env: ApiEnv, payload: Option<Json>, response: Json, write: Option<RuleWrite>)
    requires Answered(t, env, payload, response, write)
    ensures IsEnvelope(response, ResponseId(payload))
  {
    if ParseRequest(payload).Ok? {
      MethodEnvelope(t, env, ParseRequest(payload).value, response, write);
    }
  }

  /** Two answers over the same window both fail or both succeed: the
      query fails exactly when some row in the window cannot be read. */
  lemma WindowsAgree(events: map<string, EventRow>, lo: int, hi: Option<int>, cal: Calendar,
                     render1: Render, render2: Render, id: int, r1: Json, r2: Json)
    requires WindowAnswer(events, lo, hi, cal, render1, id, r1)
    requires WindowAnswer(events, lo, hi, cal, render2, id, r2)
    ensures Has(r1, "result") <==> Has(r2, "result")
  {
  }

  /** A successful window answer lists the window. */
  lemma WindowResult(events: map<string, EventRow>, lo: int, hi: Option<int>, cal: Calendar, render: Render, id: int, r: Json)
    requires WindowAnswer(events, lo, hi, cal, render, id, r) && Has(r, "result")
    ensures exists es :: ListsWindow(events, lo, hi, es) && r == ResultResponse(Rendered(cal, render, es), id)
  {
  }

  /** Over one window, the summary fails exactly when the listing does,
      and otherwise counts exactly the events listed. */
  lemma SummaryOfWindow(events: map<string, EventRow>, lo: int, cal: Calendar, id: int, changes: Json, summary: Json)
    requires WindowAnswer(events, lo, None, cal, AsEvents, id, changes)
    requires WindowAnswer(events, lo, None, cal, AsSummary, id, summary)
    ensures Has(changes, "result") <==> Has(summary, "result")
    ensures Has(changes, "result") && Has(summary, "result") ==>
      && Has(changes.fields["result"], "events") && changes.fields["result"].fields["events"].JArr?
      && Has(summary.fields["result"], "totalEvents")
      && summary.fields["result"].fields["totalEvents"] == JInt(|changes.fields["result"].fields["events"].items|)
  {
    WindowsAgree(events, lo, None, cal, AsEvents, AsSummary, id, changes, summary);
    if Has(changes, "result") {
      WindowResult(events, lo, None, cal, AsEvents, id, changes);
      WindowResult(events, lo, None, cal, AsSummary, id, summary);
      var es :| ListsWindow(events, lo, None, es) && changes == ResultResponse(Rendered(cal, AsEvents, es), id);
      var es2 :| ListsWindow(events, lo, None, es2) && summary == ResultResponse(Rendered(cal, AsSummary, es2), id);
      assert |es| == |es2|;
      SummaryCounts(es2);
      EnvelopesDistinct("", Rendered(cal, AsEvents, es), id, id);
      EnvelopesDistinct("", Rendered(cal, AsSummary, es2), id, id);
      assert changes.fields["result"] == JObj(map["events" := EventsJson(cal, es)]);
      assert summary.fields["result"] == SummaryJson(SummaryOf(es2));
    }
  }

  /** For the same "since", summary_since fails exactly when
      get_changes_since does, and otherwise counts exactly the events
      get_changes_since lists. */
  lemma SummaryAgreesWithChanges(events: map<string, EventRow>, cal: Calendar, params: Json, id: int,
                                 changes: Json, summary: Json)
    requires SinceAnswer(events, cal, params, id, AsEvents, changes)
    requires SinceAnswer(events, cal, params, id, AsSummary, summary)
    ensures Has(changes, "result") <==> Has(summary, "result")
    ensures Has(changes, "result") && Has(summary, "result") ==>
      && Has(changes.fields["result"], "events") && changes.fields["result"].fields["events"].JArr?
      && Has(summary.fields["result"], "totalEvents")
      && summary.fields["result"].fields["totalEvents"] == JInt(|changes.fields["result"].fields["events"].items|)
  {
    match TimeParam(cal, params, "since")
    case Err(message) =>
      assert changes == summary == ErrorResponse(message, id);
    case Ok(since) =>
      if since == 0 {
        assert changes == summary == ErrorResponse("Invalid since timestamp", id);
      } else {
        SummaryOfWindow(events, ToEpochSeconds(since), cal, id, changes, summary);
      }
  }

  /** Only the two rule methods write, only after a successful answer, and
      never a rule or a deletion with an empty id. */
  lemma OnlyRuleMethodsWrite(t: Tables, env: ApiEnv, payload: Option<Json>, response: Json, write: Option<RuleWrite>)
    requires Answered(t, env, payload, response, write)
    ensures write.Some? ==> (ParseRequest(payload).Ok?
      && (ParseRequest(payload).value.name == "upsert_watch_rule" || ParseRequest(payload).value.name == "delete_watch_rule")
      && response == ResultResponse(OkResult, ResponseId(payload)))
    ensures write.Some? && write.value.UpsertRule? ==> write.value.rule.id != ""
    ensures write.Some? && write.value.DeleteRule? ==> write.value.ruleId != ""
  {
  }

  // ---------------------------------------------------------------------
  // The handler

  /** The result a method builds from the events its query returned. */
  method RenderEvents(cal: Calendar, render: Render, events: seq<KhronicleEvent>) returns (result: Json)
    ensures result == Rendered(cal, render, events)
  {
    match render {
      case AsEvents =>
        result := JObj(map["events" := EventsJson(cal, events)]);
      case AsSummary =>
        var summary := SummarizeEvents(events);
        result := SummaryJson(summary);
      case AsCounterfactual(baseline, comparison) =>
        var data := Counterfactual.ComputeCounterfactual(baseline, comparison, events);
        result := CounterfactualJson(baseline, comparison, data.diff, data.explanationSummary);
    }
  }

  class KhronicleApiServer {
    const store: KhronicleStore

    constructor (store: KhronicleStore)
      ensures this.store == store
    {
      this.store := store;
    }

    /** Query the events from `from` (to `to`) and render them. */
    method AnswerWindow(from: TimePoint, to: Option<TimePoint>, cal: Calendar, render: Render, id: int) returns (response: Json)
      requires store.Valid()
      ensures WindowAnswer(store.events, ToEpochSeconds(from), if to.None? then None else Some(ToEpochSeconds(to.value)),
                           cal, render, id, response)
    {
      var events: Result<seq<KhronicleEvent>, string>;
      if to.None? {
        events := store.GetEventsSince(from);
      } else {
        events := store.GetEventsBetween(from, to.value);
      }
      match events {
        case Err(message) =>
          response := ErrorResponse(message, id);
        case Ok(es) =>
          var result := RenderEvents(cal, render, es);
          response := ResultResponse(result, id);
      }
    }

    method ChangesSince(cal: Calendar, params: Json, id: int, render: Render) returns (response: Json)
      requires store.Valid()
      ensures SinceAnswer(store.events, cal, params, id, render, response)
    {
      match TimeParam(cal, params, "since") {
        case Err(message) =>
          response := ErrorResponse(message, id);
        case Ok(since) =>
          if since == 0 {
            response := ErrorResponse("Invalid since timestamp", id);
          } else {
            response := AnswerWindow(since, None, cal, render, id);
          }
      }
    }

    method ChangesBetween(cal: Calendar, params: Json, id: int) returns (response: Json)
      requires store.Valid()
      ensures BetweenAnswer(store.events, cal, params, id, response)
    {
      match (TimeParam(cal, params, "from"), TimeParam(cal, params, "to")) {
        case (Err(message), _) =>
          response := ErrorResponse(message, id);
        case (Ok(_), Err(message)) =>
          response := ErrorResponse(message, id);
        case (Ok(from), Ok(to)) =>
          if from == 0 || to == 0 {
            response := ErrorResponse("Invalid from/to timestamp", id);
          } else {
            response := AnswerWindow(from, Some(to), cal, AsEvents, id);
          }
      }
    }

    method ListSnapshots(cal: Calendar, id: int) returns (response: Json)
      requires store.Valid()
      ensures SnapshotListAnswer(store.snapshots, cal, id, response)
    {
      var snapshots := store.ListSnapshots();
      response := ResultResponse(JObj(map["snapshots" := SnapshotsJson(cal, snapshots)]), id);
      assert ListsSnapshots(store.snapshots, snapshots);
    }

    method GetSnapshot(cal: Calendar, params: Json, id: int) returns (response: Json)
      requires store.Valid()
      ensures SnapshotAnswer(store.snapshots, cal, params, id, response)
    {
      match ValueString(params, "id", "") {
        case Err(message) =>
          response := ErrorResponse(message, id);
        case Ok(snapshotId) =>
          if snapshotId == "" {
            response := ErrorResponse("Missing snapshot id", id);
          } else {
            var snapshot := store.GetSnapshot(snapshotId);
            if snapshot.None? {
              response := ErrorResponse("Snapshot not found", id);
            } else {
              response := ResultResponse(JObj(map["snapshot" := SnapshotToJson(cal, snapshot.value)]), id);
            }
          }
      }
    }

    method DiffSnapshots(params: Json, id: int, auditId: string, now: TimePoint) returns (response: Json)
      requires store.Valid()
      modifies store
      ensures store.Valid()
      ensures DiffAnswer(store.snapshots, params, id, response)
      ensures store.auditLog == DiffAuditAfter(old(store.auditLog), store.snapshots, params, auditId, now)
      ensures store.events == old(store.events) && store.snapshots == old(store.snapshots) && store.meta == old(store.meta)
      ensures store.hostIdentity == old(store.hostIdentity) && store.watchRules == old(store.watchRules)
      ensures store.watchSignals == old(store.watchSignals)
    {
      ghost var before := store.auditLog;
      match (ValueString(params, "a", ""), ValueString(params, "b", "")) {
        case (Err(message), _) =>
          response := ErrorResponse(message, id);
          assert DiffAuditAfter(before, store.snapshots, params, auditId, now) == before;
        case (Ok(_), Err(message)) =>
          response := ErrorResponse(message, id);
          assert DiffAuditAfter(before, store.snapshots, params, auditId, now) == before;
        case (Ok(a), Ok(b)) =>
          if a == "" || b == "" {
            response := ErrorResponse("Missing snapshot ids", id);
            assert DiffAuditAfter(before, store.snapshots, params, auditId, now) == before;
          } else {
            var diff := store.DiffSnapshots(a, b, auditId, now);
            response := ResultResponse(JObj(map["diff" := DiffToJson(diff)]), id);
            assert DiffAuditAfter(before, store.snapshots, params, auditId, now) == DiffAudited(before, store.snapshots, a, b, auditId, now);
          }
      }
    }

    method UpsertWatchRule(env: ApiEnv, params: Json, id: int) returns (response: Json, write: Option<RuleWrite>)
      ensures UpsertAnswer(env, params, id, response, write)
    {
      write := None;
      if !Has(params, "rule") || !params.fields["rule"].JObj? {
        response := ErrorResponse("Missing rule object", id);
        return;
      }
      match env.decodeRule(params.fields["rule"]) {
        case Err(message) =>
          response := ErrorResponse(message, id);
        case Ok(rule) =>
          if rule.id == "" {
            response := ErrorResponse("Missing rule id", id);
          } else {
            write := Some(UpsertRule(rule));
            response := ResultResponse(OkResult, id);
          }
      }
    }

    method DeleteWatchRule(params: Json, id: int) returns (response: Json, write: Option<RuleWrite>)
      ensures DeleteAnswer(params, id, response, write)
    {
      write := None;
      match ValueString(params, "id", "") {
        case Err(message) =>
          response := ErrorResponse(message, id);
        case Ok(ruleId) =>
          if ruleId == "" {
            response := ErrorResponse("Missing rule id", id);
          } else {
            write := Some(DeleteRule(ruleId));
            response := ResultResponse(OkResult, id);
          }
      }
    }

    method WatchSignalsSince(env: ApiEnv, params: Json, id: int) returns (response: Json)
      ensures SignalsAnswer(env, params, id, response)
    {
      match TimeParam(env.cal, params, "since") {
        case Err(message) =>
          response := ErrorResponse(message, id);
        case Ok(since) =>
          if since == 0 {
            response := ErrorResponse("Invalid since timestamp", id);
          } else {
            response := ResultResponse(JObj(map["signals" := SignalsJson(env.signalJson, env.signalsSince(since))]), id);
          }
      }
    }

    method ExplainChangeBetween(env: ApiEnv, params: Json, id: int) returns (response: Json)
      requires store.Valid()
      ensures ExplainAnswer(store.events, env, params, id, response)
    {
      match (TimeParam(env.cal, params, "from"), TimeParam(env.cal, params, "to")) {
        case (Err(message), _) =>
          response := ErrorResponse(message, id);
        case (Ok(_), Err(message)) =>
          response := ErrorResponse(message, id);
        case (Ok(from), Ok(to)) =>
          if from == 0 || to == 0 {
            response := ErrorResponse("Invalid from/to timestamp", id);
            return;
          }
          var baseline := env.snapshotBefore(from);
          var comparison := env.snapshotAfter(to);
          if baseline.None? || comparison.None? {
            response := ErrorResponse("Snapshots not found", id);
          } else {
            response := AnswerWindow(from, Some(to), env.cal, AsCounterfactual(baseline.value, comparison.value), id);
          }
      }
    }

    method WhatChangedSinceLastGood(cal: Calendar, params: Json, id: int) returns (response: Json)
      requires store.Valid()
      ensures LastGoodAnswer(store.events, store.snapshots, cal, params, id, response)
    {
      match ValueString(params, "referenceSnapshotId", "") {
        case Err(message) =>
          response := ErrorResponse(message, id);
        case Ok(referenceId) =>
          if referenceId == "" {
            response := ErrorResponse("Missing referenceSnapshotId", id);
            return;
          }
          var baseline := store.GetSnapshot(referenceId);
          var listed := store.ListSnapshots();
          var latest := LatestSnapshot(listed);
          assert baseline.Some? ==> baseline.value in listed;
          if baseline.None? || latest.None? {
            response := ErrorResponse("Snapshots not found", id);
          } else {
            LatestListed(store.snapshots, listed);
            response := AnswerWindow(baseline.value.timestamp, Some(latest.value.timestamp), cal,
                                     AsCounterfactual(baseline.value, latest.value), id);
          }
      }
    }

    /** The methods that only read the store. */
    method AnswerReading(request: Request, env: ApiEnv) returns (response: Json, write: Option<RuleWrite>)
      requires store.Valid() && MethodNamed(request.name) != DiffSnapshotsRequest
      ensures MethodAnswer(Tables(store.events, store.snapshots, store.watchRules), env, request, response, write)
    {
      write := None;
      var params := request.params;
      var id := request.id;
      match MethodNamed(request.name) {
        case ChangesSinceRequest =>
          response := ChangesSince(env.cal, params, id, AsEvents);
        case ChangesBetweenRequest =>
          response := ChangesBetween(env.cal, params, id);
        case ListSnapshotsRequest =>
          response := ListSnapshots(env.cal, id);
        case GetSnapshotRequest =>
          response := GetSnapshot(env.cal, params, id);
        case SummarySinceRequest =>
          response := ChangesSince(env.cal, params, id, AsSummary);
        case ListWatchRulesRequest =>
          var rules := store.ListWatchRules();
          response := ResultResponse(JObj(map["rules" := RulesJson(env.ruleJson, rules)]), id);
        case UpsertWatchRuleRequest =>
          response, write := UpsertWatchRule(env, params, id);
        case DeleteWatchRuleRequest =>
          response, write := DeleteWatchRule(params, id);
        case WatchSignalsSinceRequest =>
          response := WatchSignalsSince(env, params, id);
        case ExplainChangeBetweenRequest =>
          response := ExplainChangeBetween(env, params, id);
        case WhatChangedSinceLastGoodRequest =>
          response := WhatChangedSinceLastGood(env.cal, params, id);
        case UnknownRequest =>
          response := ErrorResponse("Unknown method", id);
      }
    }

    /** handleRequestPayload: validate the payload, then answer its method.
        The response echoes the request id; the rule write, if any, is
        returned to be applied to the store. */
    method HandleRequestPayload(payload: Option<Json>, env: ApiEnv) returns (response: Json, write: Option<RuleWrite>)
      requires store.Valid()
      modifies store
      ensures store.Valid()
      ensures Answered(Tables(store.events, store.snapshots, store.watchRules), env, payload, response, write)
      ensures store.auditLog == AuditAfter(old(store.auditLog), store.snapshots, payload, env)
      ensures store.events == old(store.events) && store.snapshots == old(store.snapshots) && store.meta == old(store.meta)
      ensures store.hostIdentity == old(store.hostIdentity) && store.watchRules == old(store.watchRules)
      ensures store.watchSignals == old(store.watchSignals)
    {
      write := None;
      var parsed := ParseRequest(payload);
      if parsed.Err? {
        response := parsed.error;
        return;
      }
      var request := parsed.value;
      if MethodNamed(request.name) == DiffSnapshotsRequest {
        response := DiffSnapshots(request.params, request.id, env.auditId, env.now);
      } else {
        response, write := AnswerReading(request, env);
      }
    }
  }
}
