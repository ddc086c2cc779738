/** Declarative watch rules evaluated against events and snapshots
    (src/daemon/watch_engine.cpp). Matching rules are recorded as watch
    signals in the store. The clock, the local-time conversion and the UUID
    generator are parameters: `now` is system_clock::now(), `localMinutes`
    is localtime_r's tm_hour * 60 + tm_min for a time point, and `newId(i)`
    is the id generated for the i-th signal of one evaluation. */
module WatchEngine {
  import opened Wrappers
  import opened JsonModel
  import opened Models
  import opened Text
  import opened JsonUtils
  import opened Store

  /** kRulesReloadInterval, in milliseconds. */
  const ReloadIntervalMs := 60000

  // ---------------------------------------------------------------------
  // Risk levels

  /** riskRank: "critical" 2, "important" 1, anything else 0, ignoring case. */
  function RiskRank(risk: string): (rank: int)
    ensures 0 <= rank <= 2
    ensures rank == 2 <==> Lower(risk) == "critical"
    ensures rank == 1 <==> Lower(risk) == "important"
  {
    var lowered := Lower(risk);
    if lowered == "critical" then 2
    else if lowered == "important" then 1
    else 0
  }

  lemma LowerIdempotent(s: string)
    ensures Lower(Lower(s)) == Lower(s)
  {
    assert forall i :: 0 <= i < |s| ==> Lower(Lower(s))[i] == Lower(s)[i];
  }

  /** The rank does not depend on letter case. */
  lemma RiskRankIgnoresCase(risk: string)
    ensures RiskRank(Lower(risk)) == RiskRank(risk)
  {
    LowerIdempotent(risk);
  }

  /** extractRiskLevel: the string at "riskLevel" of an object, else "". */
  function ExtractRiskLevel(state: Json): (risk: string)
    ensures risk != "" ==> Has(state, "riskLevel") && state.fields["riskLevel"] == JStr(risk)
    ensures !Has(state, "riskLevel") ==> risk == ""
  {
    match StringAt(state, "riskLevel")
    case Some(s) => s
    case None => ""
  }

  /** eventRiskLevel: the after state's risk level, else the before state's. */
  function EventRiskLevel(event: KhronicleEvent): (risk: string)
    ensures ExtractRiskLevel(event.afterState) != "" ==> risk == ExtractRiskLevel(event.afterState)
    ensures ExtractRiskLevel(event.afterState) == "" ==> risk == ExtractRiskLevel(event.beforeState)
  {
    var risk := ExtractRiskLevel(event.afterState);
    if risk == "" then ExtractRiskLevel(event.beforeState) else risk
  }

  /** The event's own riskLevel field plays no part. */
  lemma EventRiskLevelIgnoresField(event: KhronicleEvent, level: string)
    ensures EventRiskLevel(event.(riskLevel := level)) == EventRiskLevel(event)
  {
  }

  // ---------------------------------------------------------------------
  // Substring filters

  /** containsCaseInsensitive: an empty needle matches everything. */
  predicate ContainsCaseInsensitive(value: string, needle: string)
  {
    needle == "" || Contains(Lower(value), Lower(needle))
  }

  /** A match is an occurrence of the lower-cased needle in the lower-cased
      value; a value contains any case variant of itself. */
  lemma ContainsCaseInsensitiveIff(value: string, needle: string)
    ensures ContainsCaseInsensitive(value, needle) <==> needle == "" || exists j :: MatchAt(Lower(value), Lower(needle), j)
    ensures Lower(value) == Lower(needle) ==> ContainsCaseInsensitive(value, needle)
  {
    ContainsIff(Lower(value), Lower(needle));
    if Lower(value) == Lower(needle) {
      assert MatchAt(Lower(value), Lower(needle), 0);
    }
  }

  /** listContainsSubstring: some element contains the needle. */
  predicate ListContainsSubstring(values: seq<string>, needle: string)
  {
    needle == "" || (|values| > 0 && (ContainsCaseInsensitive(values[0], needle) || ListContainsSubstring(values[1..], needle)))
  }

  lemma {:induction false} ListContainsSubstringIff(values: seq<string>, needle: string)
    ensures ListContainsSubstring(values, needle) <==>
      needle == "" || exists i :: 0 <= i < |values| && ContainsCaseInsensitive(values[i], needle)
  {
    if needle != "" && |values| > 0 {
      ListContainsSubstringIff(values[1..], needle);
      if ListContainsSubstring(values[1..], needle) {
        var i :| 0 <= i < |values[1..]| && ContainsCaseInsensitive(values[1..][i], needle);
        assert values[i + 1] == values[1..][i];
      }
      if exists i :: 0 <= i < |values| && ContainsCaseInsensitive(values[i], needle) {
        var i :| 0 <= i < |values| && ContainsCaseInsensitive(values[i], needle);
        if i > 0 {
          assert values[1..][i - 1] == values[i];
        }
      }
    }
  }

  /** One object entry matches when its key, or its value if that is a
      string, contains the needle. */
  predicate EntryMatches(key: string, value: Json, needle: string)
  {
    ContainsCaseInsensitive(key, needle) || (value.JStr? && ContainsCaseInsensitive(value.s, needle))
  }

  /** jsonKeysContainSubstring: some entry of an object matches; a
      non-object never matches a non-empty needle. */
  predicate JsonKeysContainSubstring(obj: Json, needle: string)
  {
    needle == "" || (obj.JObj? && exists k :: k in obj.fields && EntryMatches(k, obj.fields[k], needle))
  }

  /** Adding a new entry to an object never turns a match off, and a key
      spelled like the needle always matches. */
  lemma JsonKeysMonotone(m: map<string, Json>, key: string, value: Json, needle: string)
    requires key !in m
    ensures JsonKeysContainSubstring(JObj(m), needle) ==> JsonKeysContainSubstring(JObj(m[key := value]), needle)
    ensures Lower(key) == Lower(needle) ==> JsonKeysContainSubstring(JObj(m[key := value]), needle)
  {
    if needle != "" && JsonKeysContainSubstring(JObj(m), needle) {
      var k :| k in m && EntryMatches(k, m[k], needle);
      assert k in m[key := value] && m[key := value][k] == m[k];
    }
    if Lower(key) == Lower(needle) {
      ContainsCaseInsensitiveIff(key, needle);
      assert EntryMatches(key, m[key := value][key], needle);
    }
  }

  // ---------------------------------------------------------------------
  // Active windows

  /** The "HH:MM" parser of withinActiveWindow: length 5, ':' at index 2,
      both halves read by std::stoi (which skips leading whitespace, takes
      a sign and ignores trailing characters), hours 0..23, minutes 0..59. */
  function ParseClock(value: string): (minutes: Option<int>)
    ensures minutes.Some? ==> 0 <= minutes.value < 24 * 60
    ensures minutes.Some? ==> |value| == 5 && value[2] == ':'
  {
    if |value| != 5 || value[2] != ':' then None
    else
      match (LeadingInteger(value[0..2]), LeadingInteger(value[3..5]))
      case (Some(hours), Some(mins)) =>
        if hours < 0 || hours > 23 || mins < 0 || mins > 59 then None
        else Some(hours * 60 + mins)
      case _ => None
  }

  function Digit(n: int): char
    requires 0 <= n < 10
  {
    ('0' as int + n) as char
  }

  /** A number below 100 as two digits. */
  function TwoDigits(n: int): string
    requires 0 <= n < 100
  {
    [Digit(n / 10), Digit(n % 10)]
  }

  lemma TwoDigitsValue(n: int)
    requires 0 <= n < 100
    ensures LeadingInteger(TwoDigits(n)) == Some(n)
  {
    var s := TwoDigits(n);
    assert LeadingSpaces(s) == 0 by { assert !IsSpace(s[0]); }
    assert s[0..] == s;
    DigitRunAll(s);
    assert s[..2] == s;
    var first := s[..1];
    assert first == [Digit(n / 10)];
    assert first[..0] == [];
    assert DigitsValue(first) == n / 10;
    assert DigitsValue(s) == 10 * DigitsValue(first) + n % 10;
  }

  /** Every "HH:MM" clock time parses to its minutes of the day. */
  lemma ParseClockOfTime(h: int, m: int)
    requires 0 <= h < 24 && 0 <= m < 60
    ensures ParseClock(TwoDigits(h) + ":" + TwoDigits(m)) == Some(h * 60 + m)
  {
    TwoDigitsValue(h);
    TwoDigitsValue(m);
    var value := TwoDigits(h) + ":" + TwoDigits(m);
    assert |value| == 5 && value[2] == ':';
    assert value[0..2] == TwoDigits(h);
    assert value[3..5] == TwoDigits(m);
    assert LeadingInteger(value[0..2]) == Some(h) && LeadingInteger(value[3..5]) == Some(m);
  }

  /** The local time falls inside [start, end), wrapping past midnight when
      start > end. */
  predicate InMaintenance(start: int, end: int, current: int)
  {
    if start <= end then start <= current < end else current >= start || current < end
  }

  /** withinActiveWindow: rules apply outside the maintenance window; with
      either bound empty or unparsable there is no window. */
  predicate WithinActiveWindow(rule: WatchRule, currentMinutes: int)
  {
    if rule.activeFrom == "" || rule.activeTo == "" then true
    else
      match (ParseClock(rule.activeFrom), ParseClock(rule.activeTo))
      case (Some(start), Some(end)) => !InMaintenance(start, end, currentMinutes)
      case _ => true
  }

  /** The cases of the window: no window, an ordinary window, a wrapping
      window, and start == end, which excludes no time at all. */
  lemma WindowCases(rule: WatchRule, current: int)
    ensures ParseClock(rule.activeFrom).None? || ParseClock(rule.activeTo).None? ==> WithinActiveWindow(rule, current)
    ensures ParseClock(rule.activeFrom).Some? && ParseClock(rule.activeTo).Some? ==>
      var start := ParseClock(rule.activeFrom).value;
      var end := ParseClock(rule.activeTo).value;
      && (start <= end ==> (WithinActiveWindow(rule, current) <==> current < start || current >= end))
      && (start > end ==> (WithinActiveWindow(rule, current) <==> end <= current < start))
      && (start == end ==> WithinActiveWindow(rule, current))
  {
    if rule.activeFrom == "" {
      assert ParseClock(rule.activeFrom).None?;
    }
    if rule.activeTo == "" {
      assert ParseClock(rule.activeTo).None?;
    }
  }

  /** A 02:00-04:00 maintenance window silences a rule at 03:00 and not at
      05:00 (tests/test_watch_engine.cpp). */
  lemma MaintenanceWindowExample(rule: WatchRule)
    requires rule.activeFrom == "02:00" && rule.activeTo == "04:00"
    ensures !WithinActiveWindow(rule, 3 * 60)
    ensures WithinActiveWindow(rule, 5 * 60)
  {
    assert "02:00" == TwoDigits(2) + ":" + TwoDigits(0);
    assert "04:00" == TwoDigits(4) + ":" + TwoDigits(0);
    ParseClockOfTime(2, 0);
    ParseClockOfTime(4, 0);
  }

  // ---------------------------------------------------------------------
  // Rule matching

  /** ruleMatchesEvent: every filter the rule sets must hold. */
  predicate RuleMatchesEvent(rule: WatchRule, event: KhronicleEvent, localMinutes: TimePoint -> int)
  {
    && WithinActiveWindow(rule, localMinutes(event.timestamp))
    && (rule.categoryEquals == "" || Lower(rule.categoryEquals) == Lower(ToCategoryString(event.category)))
    && (rule.riskLevelAtLeast == "" || RiskRank(EventRiskLevel(event)) >= RiskRank(rule.riskLevelAtLeast))
    && (rule.packageNameContains == "" || ListContainsSubstring(event.relatedPackages, rule.packageNameContains))
  }

  /** Each filter only narrows: clearing any of them keeps a match, and a
      rule that sets none matches every event. */
  lemma EventFiltersNarrow(rule: WatchRule, event: KhronicleEvent, localMinutes: TimePoint -> int)
    ensures RuleMatchesEvent(rule, event, localMinutes) ==>
      && RuleMatchesEvent(rule.(categoryEquals := ""), event, localMinutes)
      && RuleMatchesEvent(rule.(riskLevelAtLeast := ""), event, localMinutes)
      && RuleMatchesEvent(rule.(packageNameContains := ""), event, localMinutes)
      && RuleMatchesEvent(rule.(activeFrom := ""), event, localMinutes)
    ensures (rule.categoryEquals == "" && rule.riskLevelAtLeast == "" && rule.packageNameContains == ""
             && rule.activeFrom == "") ==> RuleMatchesEvent(rule, event, localMinutes)
  {
  }

  /** A "kernel"/"critical" rule matches a Kernel event whose after state
      says critical (tests/test_watch_engine.cpp). */
  lemma KernelCriticalRuleMatches(rule: WatchRule, event: KhronicleEvent, localMinutes: TimePoint -> int)
    requires rule.categoryEquals == "kernel" && rule.riskLevelAtLeast == "critical"
    requires rule.packageNameContains == "" && rule.activeFrom == ""
    requires event.category == Kernel && Has(event.afterState, "riskLevel")
    requires event.afterState.fields["riskLevel"] == JStr("critical")
    ensures RuleMatchesEvent(rule, event, localMinutes)
  {
    assert EventRiskLevel(event) == "critical";
  }

  /** The snapshot category filter. */
  predicate SnapshotCategoryMatches(expected: string, snapshot: SystemSnapshot)
  {
    if expected == "kernel" then snapshot.kernelVersion != ""
    else if expected == "gpu_driver" || expected == "gpu" then NonEmptyObject(snapshot.gpuDriver)
    else if expected == "firmware" then NonEmptyObject(snapshot.firmwareVersions)
    else if expected == "package" then NonEmptyObject(snapshot.keyPackages)
    else expected == "system"
  }

  /** ruleMatchesSnapshot: window, category, the risk level stored in
      keyPackages, and package keys or values. */
  predicate RuleMatchesSnapshot(rule: WatchRule, snapshot: SystemSnapshot, localMinutes: TimePoint -> int)
  {
    && WithinActiveWindow(rule, localMinutes(snapshot.timestamp))
    && (rule.categoryEquals == "" || SnapshotCategoryMatches(Lower(rule.categoryEquals), snapshot))
    && (rule.riskLevelAtLeast == "" || RiskRank(ExtractRiskLevel(snapshot.keyPackages)) >= RiskRank(rule.riskLevelAtLeast))
    && (rule.packageNameContains == "" || JsonKeysContainSubstring(snapshot.keyPackages, rule.packageNameContains))
  }

  /** Which snapshots each category name selects; names outside the list
      select none. */
  lemma SnapshotCategories(expected: string, snapshot: SystemSnapshot)
    ensures expected == "kernel" ==> (SnapshotCategoryMatches(expected, snapshot) <==> snapshot.kernelVersion != "")
    ensures expected == "gpu" ==> (SnapshotCategoryMatches(expected, snapshot) <==> NonEmptyObject(snapshot.gpuDriver))
    ensures expected == "system" ==> SnapshotCategoryMatches(expected, snapshot)
    ensures expected !in {"kernel", "gpu_driver", "gpu", "firmware", "package", "system"} ==>
      !SnapshotCategoryMatches(expected, snapshot)
    ensures !snapshot.keyPackages.JObj? ==> !SnapshotCategoryMatches("package", snapshot)
  {
  }

  /** A snapshot rule filtering on package names never matches a snapshot
      whose keyPackages is not an object. */
  lemma SnapshotPackageFilter(rule: WatchRule, snapshot: SystemSnapshot, localMinutes: TimePoint -> int)
    requires rule.packageNameContains != "" && !snapshot.keyPackages.JObj?
    ensures !RuleMatchesSnapshot(rule, snapshot, localMinutes)
  {
  }

  // ---------------------------------------------------------------------
  // Signals

  /** The signal message: "Rule '<name>' matched <kind>", plus
      " category '<c>'" when the rule sets a category. */
  function SignalMessage(rule: WatchRule, kind: string): string
  {
    "Rule '" + rule.name + "' matched " + kind
    + (if rule.categoryEquals != "" then " category '" + rule.categoryEquals + "'" else "")
  }

  /** Where a signal comes from: an event or a snapshot. */
  datatype Origin = Origin(kind: string, scope: WatchScope, id: string, timestamp: TimePoint)

  function EventOrigin(event: KhronicleEvent): Origin
  {
    Origin("event", EventScope, event.id, event.timestamp)
  }

  function SnapshotOrigin(snapshot: SystemSnapshot): Origin
  {
    Origin("snapshot", SnapshotScope, snapshot.id, snapshot.timestamp)
  }

  function SignalFor(rule: WatchRule, origin: Origin, id: string): WatchSignal
  {
    WatchSignal(id, origin.timestamp, rule.id, rule.name, rule.severity, origin.kind, origin.id,
                SignalMessage(rule, origin.kind))
  }

  /** A rule fires when it is enabled, has the origin's scope and matches. */
  predicate Fires(rule: WatchRule, origin: Origin, matches: WatchRule -> bool)
  {
    rule.enabled && rule.scope == origin.scope && matches(rule)
  }

  /** The signals one evaluation appends: one per firing rule, in rule
      order, the i-th with id newId(i). */
  function Signals(rules: seq<WatchRule>, origin: Origin, matches: WatchRule -> bool, newId: nat -> string): seq<WatchSignal>
  {
    if rules == [] then []
    else
      var earlier := Signals(rules[..|rules| - 1], origin, matches, newId);
      var rule := rules[|rules| - 1];
      earlier + (if Fires(rule, origin, matches) then [SignalFor(rule, origin, newId(|earlier|))] else [])
  }

  /** The rules that fire for an origin, in order. */
  function FiringRules(rules: seq<WatchRule>, origin: Origin, matches: WatchRule -> bool): (fired: seq<WatchRule>)
    ensures |fired| <= |rules|
  {
    if rules == [] then []
    else
      var rule := rules[|rules| - 1];
      FiringRules(rules[..|rules| - 1], origin, matches) + (if Fires(rule, origin, matches) then [rule] else [])
  }

  /** The firing rules are exactly the rules that are enabled, of the
      origin's scope and matching. */
  lemma {:induction false} FiringRulesMembers(rules: seq<WatchRule>, origin: Origin, matches: WatchRule -> bool)
    ensures forall r :: r in FiringRules(rules, origin, matches) <==> r in rules && Fires(r, origin, matches)
  {
    if rules != [] {
      var init := rules[..|rules| - 1];
      FiringRulesMembers(init, origin, matches);
      assert rules == init + [rules[|rules| - 1]];
    }
  }

  /** The i-th signal is the i-th firing rule's, with id newId(i): one
      signal per firing rule, carrying the rule's id, name and severity and
      the origin's kind, id and timestamp. */
  lemma {:induction false} SignalsOfFiringRules(rules: seq<WatchRule>, origin: Origin, matches: WatchRule -> bool, newId: nat -> string)
    ensures |Signals(rules, origin, matches, newId)| == |FiringRules(rules, origin, matches)|
    ensures forall i :: 0 <= i < |Signals(rules, origin, matches, newId)| ==>
      Signals(rules, origin, matches, newId)[i] == SignalFor(FiringRules(rules, origin, matches)[i], origin, newId(i))
  {
    if rules != [] {
      SignalsOfFiringRules(rules[..|rules| - 1], origin, matches, newId);
    }
  }

  /** Rules that are disabled or of the other scope add nothing. */
  lemma {:induction false} SignalsOnlyFromEnabledScope(rules: seq<WatchRule>, origin: Origin, matches: WatchRule -> bool, newId: nat -> string)
    requires forall i :: 0 <= i < |rules| ==> !rules[i].enabled || rules[i].scope != origin.scope
    ensures Signals(rules, origin, matches, newId) == []
  {
    if rules != [] {
      SignalsOnlyFromEnabledScope(rules[..|rules| - 1], origin, matches, newId);
    }
  }

  /** A rule added at the end fires exactly once when it matches. */
  lemma SignalsSnoc(rules: seq<WatchRule>, rule: WatchRule, origin: Origin, matches: WatchRule -> bool, newId: nat -> string)
    ensures |Signals(rules + [rule], origin, matches, newId)|
      == |Signals(rules, origin, matches, newId)| + (if Fires(rule, origin, matches) then 1 else 0)
  {
    assert (rules + [rule])[..|rules|] == rules;
  }

  /** The rule cache is stale when it is empty or a full interval old. */
  predicate ReloadDue(cache: seq<WatchRule>, lastReload: TimePoint, now: TimePoint)
  {
    cache == [] || now - lastReload >= ReloadIntervalMs
  }

  /** The rule cache maybeReloadRules leaves: the stored rules when a
      reload is due, the old cache otherwise. */
  function CachedRules(cache: seq<WatchRule>, lastReload: TimePoint, stored: seq<WatchRule>, now: TimePoint): seq<WatchRule>
  {
    if ReloadDue(cache, lastReload, now) then stored else cache
  }

  /** The reload time maybeReloadRules leaves. */
  function ReloadTime(cache: seq<WatchRule>, lastReload: TimePoint, now: TimePoint): TimePoint
  {
    if ReloadDue(cache, lastReload, now) then now else lastReload
  }

  /** A second reload check at the same instant changes nothing: a cache
      just read is stale only when the stored rules are empty, and then it
      is read again as the same empty list. */
  lemma ReloadSettles(cache: seq<WatchRule>, lastReload: TimePoint, stored: seq<WatchRule>, now: TimePoint)
    ensures CachedRules(CachedRules(cache, lastReload, stored, now), ReloadTime(cache, lastReload, now), stored, now)
      == CachedRules(cache, lastReload, stored, now)
    ensures ReloadTime(CachedRules(cache, lastReload, stored, now), ReloadTime(cache, lastReload, now), now)
      == ReloadTime(cache, lastReload, now)
  {
  }

  /** The signals evaluateEvent appends for an event, given the cache. */
  function EventSignals(cache: seq<WatchRule>, event: KhronicleEvent, localMinutes: TimePoint -> int, newId: nat -> string): seq<WatchSignal>
  {
    Signals(cache, EventOrigin(event), r => RuleMatchesEvent(r, event, localMinutes), newId)
  }

  /** The signals evaluateSnapshot appends for a snapshot, given the cache. */
  function SnapshotSignals(cache: seq<WatchRule>, snapshot: SystemSnapshot, localMinutes: TimePoint -> int, newId: nat -> string): seq<WatchSignal>
  {
    Signals(cache, SnapshotOrigin(snapshot), r => RuleMatchesSnapshot(r, snapshot, localMinutes), newId)
  }

  class WatchEngine {
    const store: KhronicleStore
    var rulesCache: seq<WatchRule>
    var lastRulesReload: TimePoint

    constructor (store: KhronicleStore)
      ensures this.store == store && rulesCache == [] && lastRulesReload == 0
    {
      this.store := store;
      rulesCache := [];
      lastRulesReload := 0;
    }

    /** maybeReloadRules: read the rules again when the cache is stale. */
    method MaybeReloadRules(now: TimePoint)
      modifies this
      ensures ReloadDue(old(rulesCache), old(lastRulesReload), now) ==>
        rulesCache == store.watchRules && lastRulesReload == now
      ensures !ReloadDue(old(rulesCache), old(lastRulesReload), now) ==>
        rulesCache == old(rulesCache) && lastRulesReload == old(lastRulesReload)
    {
      if rulesCache != [] && now - lastRulesReload < ReloadIntervalMs {
        return;
      }
      rulesCache := store.ListWatchRules();
      lastRulesReload := now;
    }

    /** The loop of evaluateEvent/evaluateSnapshot: one signal appended to
        the store per firing rule of the cache. */
    method EmitSignals(origin: Origin, matches: WatchRule -> bool, newId: nat -> string)
      modifies store
      ensures store.watchSignals == old(store.watchSignals) + Signals(rulesCache, origin, matches, newId)
      ensures store.events == old(store.events) && store.snapshots == old(store.snapshots)
      ensures store.meta == old(store.meta) && store.auditLog == old(store.auditLog)
      ensures store.hostIdentity == old(store.hostIdentity) && store.watchRules == old(store.watchRules)
    {
      var i := 0;
      var count := 0;
      while i < |rulesCache|
        invariant 0 <= i <= |rulesCache|
        invariant count == |Signals(rulesCache[..i], origin, matches, newId)|
        invariant store.watchSignals == old(store.watchSignals) + Signals(rulesCache[..i], origin, matches, newId)
        invariant store.events == old(store.events) && store.snapshots == old(store.snapshots)
        invariant store.meta == old(store.meta) && store.auditLog == old(store.auditLog)
        invariant store.hostIdentity == old(store.hostIdentity) && store.watchRules == old(store.watchRules)
      {
        var rule := rulesCache[i];
        assert rulesCache[..i + 1][..i] == rulesCache[..i];
        if rule.enabled && rule.scope == origin.scope && matches(rule) {
          var signal := WatchSignal(newId(count), origin.timestamp, rule.id, rule.name, rule.severity,
                                    origin.kind, origin.id, SignalMessage(rule, origin.kind));
          store.AddWatchSignal(signal);
          count := count + 1;
        }
        i := i + 1;
      }
      assert rulesCache[..i] == rulesCache;
    }

    /** evaluateEvent: reload the rules if due, then signal every enabled
        event-scope rule that matches the event. */
    method EvaluateEvent(event: KhronicleEvent, now: TimePoint, localMinutes: TimePoint -> int, newId: nat -> string)
      modifies this, store
      ensures rulesCache == CachedRules(old(rulesCache), old(lastRulesReload), old(store.watchRules), now)
      ensures lastRulesReload == ReloadTime(old(rulesCache), old(lastRulesReload), now)
      ensures store.watchSignals == old(store.watchSignals) + EventSignals(rulesCache, event, localMinutes, newId)
      ensures store.events == old(store.events) && store.snapshots == old(store.snapshots)
      ensures store.meta == old(store.meta) && store.auditLog == old(store.auditLog)
      ensures store.hostIdentity == old(store.hostIdentity) && store.watchRules == old(store.watchRules)
    {
      MaybeReloadRules(now);
      EmitSignals(EventOrigin(event), r => RuleMatchesEvent(r, event, localMinutes), newId);
    }

    /** evaluateSnapshot: the same for snapshot-scope rules. */
    method EvaluateSnapshot(snapshot: SystemSnapshot, now: TimePoint, localMinutes: TimePoint -> int, newId: nat -> string)
      modifies this, store
      ensures rulesCache == CachedRules(old(rulesCache), old(lastRulesReload), old(store.watchRules), now)
      ensures lastRulesReload == ReloadTime(old(rulesCache), old(lastRulesReload), now)
      ensures store.watchSignals == old(store.watchSignals) + SnapshotSignals(rulesCache, snapshot, localMinutes, newId)
      ensures store.events == old(store.events) && store.snapshots == old(store.snapshots)
      ensures store.meta == old(store.meta) && store.auditLog == old(store.auditLog)
      ensures store.hostIdentity == old(store.hostIdentity) && store.watchRules == old(store.watchRules)
    {
      MaybeReloadRules(now);
      EmitSignals(SnapshotOrigin(snapshot), r => RuleMatchesSnapshot(r, snapshot, localMinutes), newId);
    }
  }
}
