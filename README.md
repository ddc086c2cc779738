# Khronicle daemon core in Dafny

This project models the core of Khronicle, a system-change chronicle for Arch-based Linux
desktops. A background daemon reads the pacman log and the systemd journal and records
system snapshots. From these it derives change events: package upgrades, kernel, GPU-driver
and firmware changes. It classifies their risk and stores everything in a local store.
A JSON request/response API answers questions about what changed and when, and user-defined
watch rules raise signals when matching events arrive. The model covers:

| Dafny file | module | what it models |
|---|---|---|
| `wrappers.dfy` | `Wrappers` | `Option` and `Result` |
| `text.dfy` | `Text` | the string helpers the core relies on: substring search, ASCII lower-casing and trimming, decimal rendering and parsing, lexicographic order |
| `json.dfy` | `JsonModel` | a JSON value type standing for `nlohmann::json`, with typed member access and its type errors |
| `models.dfy` | `Models` | events, snapshots, diffs, risk levels, watch rules and signals, and millisecond time points |
| `json_utils.dfy` | `JsonUtils` | the JSON encodings of the core types and their decoders |
| `risk_classifier.dfy` | `RiskClassifier` | risk level and reasons of an event from its category and its summary text |
| `pacman_parser.dfy` | `PacmanParser` | parsing of `/var/log/pacman.log` lines into events, with resumable cursors |
| `journal_parser.dfy` | `JournalParser` | parsing of `journalctl` output lines into firmware and GPU-driver events |
| `watch_engine.dfy` | `WatchEngine` | watch-rule matching, time windows, rule reloading and signal emission |
| `change_explainer.dfy` | `ChangeExplainer` | the plain-language explanation of a snapshot diff |
| `counterfactual.dfy` | `Counterfactual` | the comparison of two snapshots into one list of changed fields: `kernelVersion`, `gpuDriver`, `firmwareVersions`, and one `keyPackages.<key>` entry per key whose values differ |
| `store.dfy` | `Store` | the store's tables as maps keyed by id, with insertion, de-duplication, windowed queries, snapshot diffs and the audit log |
| `daemon.dfy` | `Daemon` | the daemon's state (pacman cursor, journal watermark, last snapshot) and its ingestion cycle |
| `api_server.dfy` | `ApiServer` | request validation, method dispatch and the response envelopes of the API server |

Parsers, the classifier, the explainer and the counterfactual are pure functions over
strings and values, proved against independent specifications. The store, the watch
engine, the daemon and the API server update state in place, so each is a class whose
methods declare what they modify. Each method's postcondition states every field and table
it changes as a function of the old state, and states that the others are unchanged. Lemmas
prove what the source promises about those functions.
Time is an integer number of milliseconds since the epoch. The store keeps whole seconds,
truncated toward zero as `std::chrono::duration_cast` does.

## Model

| member | source | states |
|---|---|---|
| Models.FromIso8601Utc | src/common/json_utils.hpp:29-46 | the epoch when the text does not scan or the calendar gives -1, otherwise the scanned second in milliseconds |
| Models.IsoRoundTrip | src/common/json_utils.hpp:15-46 | a time point written as ISO-8601 and read back is the same time truncated to its whole second |
| Models.ToEpochSeconds | src/daemon/khronicle_store.cpp:89-93 | milliseconds to seconds truncated toward zero, bounds stated for both signs |
| JsonModel.ValueString | src/common/json_utils.hpp:175-176 | `j.value(key, default)`: the default for an absent key, the string for a string member, a type error for any other member or a non-object |
| JsonModel.StringList | src/common/json_utils.hpp:199-200 | the strings of an array when every element is a string, otherwise a witness element that is not |
| JsonModel.StringListOfStrings | src/common/json_utils.hpp:161 | an array written from strings reads back as the same strings |
| JsonModel.ObjectOrEmpty | src/daemon/counterfactual.cpp:48-53 | an object's members, and no members for any other value |
| JsonUtils.ParseCategoryString | src/common/json_utils.hpp:82-100 | each of "kernel", "gpu_driver", "firmware", "package" maps to its category and back (if and only if); every other string gives System |
| JsonUtils.ToCategoryString | src/common/json_utils.hpp:48-63 | parsing the name of a category gives that category back |
| JsonUtils.ParseSourceString | src/common/json_utils.hpp:102-120 | each of "pacman", "journal", "uname", "fwupd" maps to its source and back; every other string gives Other |
| JsonUtils.ToSourceString | src/common/json_utils.hpp:65-80 | parsing the name of a source gives that source back |
| JsonUtils.CategoryFromJson | src/common/json_utils.hpp:127-134 | a non-string JSON value decodes to System, a string as parseCategoryString does |
| JsonUtils.SourceFromJson | src/common/json_utils.hpp:141-148 | a non-string JSON value decodes to Other, a string as parseSourceString does |
| JsonUtils.StringsFromArray | src/common/json_utils.hpp:199-200 | the array reads as strings exactly when every element is a string, with those strings |
| JsonUtils.EventToJson | src/common/json_utils.hpp:150-171 | an event is written as an object whose riskLevel is "info" when the event's is empty |
| JsonUtils.EventFromJson | src/common/json_utils.hpp:173-218 | an event read from an object with missing fields gets System, Other, empty before/after objects, no related packages, "info" and the legacy provenance |
| JsonUtils.EmptyEventDefaults | src/common/json_utils.hpp:173-218 | the empty object reads as the all-default event |
| JsonUtils.ProvenanceRoundTrip | src/common/json_utils.hpp:206-211 | a provenance object as to_json writes it reads back as the same provenance |
| JsonUtils.EventRoundTrip | src/common/json_utils.hpp:150-218 | an event written and read back is the same event, its time cut to whole seconds, an empty risk level read as "info" and no host id |
| JsonUtils.SnapshotFromJson | src/common/json_utils.hpp:235-258 | snapshotId defaults to the id, gpuDriver, firmwareVersions and keyPackages to `{}` |
| JsonUtils.SnapshotRoundTrip | src/common/json_utils.hpp:220-258 | a snapshot written and read back is the same snapshot, its time cut to whole seconds and without host identity |
| JsonUtils.ChangedFieldFromJson | src/common/json_utils.hpp:291-304 | a missing before or after reads as `{}` |
| JsonUtils.ChangedFieldsToJson | src/common/json_utils.hpp:311 | the changed fields are written one array element each, in order |
| JsonUtils.ChangedFieldsFromJson | src/common/json_utils.hpp:319-320 | a successful read gives one changed field per element, each read as from_json reads it |
| JsonUtils.DiffFromJson | src/common/json_utils.hpp:315-324 | a missing or non-array changedFields reads as no changed fields |
| JsonUtils.ChangedFieldsRoundTrip | src/common/json_utils.hpp:286-304 | a list of changed fields written and read back is the same list |
| JsonUtils.DiffRoundTrip | src/common/json_utils.hpp:306-324 | a diff written and read back is the same diff, ids and changed fields included |
| JsonUtils.AuditFromJson | src/common/json_utils.hpp:272-284 | missing inputRefs read as an empty list |
| JsonUtils.AuditRoundTrip | src/common/json_utils.hpp:260-284 | an audit entry written and read back is the same entry with its time cut to whole seconds |
| JsonModel.StringAt | src/daemon/khronicle_api_server.cpp:43-53 | `find(key)` then `is_string()`: a string exactly when the object holds a string under the key, and it is that string |
| Text.ContainsIff | src/daemon/risk_classifier.cpp:68 | `find(sub) != npos` holds exactly when the text occurs at some position |
| Text.FindSpec | src/daemon/pacman_parser.cpp:99 | std::string::find(sub, from) returns the first position at or after from where sub occurs, and npos exactly when it occurs nowhere from there on |
| Text.FindCharSpec | src/daemon/pacman_parser.cpp:94 | std::string::find(c, from) returns the first position at or after from holding c, and npos exactly when none does |
| Text.Substr | src/daemon/pacman_parser.cpp:136-139 | std::string::substr(pos, count) is the characters from pos, as many as count and the text allow |
| Text.NatToString | src/daemon/khronicle_store.cpp:778 | std::to_string of a non-negative number is a non-empty run of decimal digits |
| Text.NatToStringRoundTrip | src/daemon/pacman_parser.cpp:345 | the digits std::to_string writes denote the number written |
| Text.LeadingIntegerOfDigits | src/daemon/pacman_parser.cpp:30 | std::stoll reads back exactly the number std::to_string wrote |
| WatchEngine.TwoDigitsValue | src/daemon/watch_engine.cpp:354-355 | std::stoi of a two-digit field reads its value |
| Text.StringLessIrreflexive | src/daemon/counterfactual.cpp:55-63 | std::string's operator< orders no string before itself |
| Text.StringLessAsymmetric | src/daemon/counterfactual.cpp:55-63 | operator< never orders two strings both ways |
| Text.StringLessTransitive | src/daemon/counterfactual.cpp:55-63 | operator< is transitive |
| Text.StringLessTotal | src/daemon/counterfactual.cpp:55-63 | operator< orders any two different strings one way or the other, so std::set iterates keys in one definite order |
| ChangeExplainer.ScanFields | src/daemon/change_explainer.cpp:30-40 | the three flags say whether the diff has the kernelVersion, gpuDriver and firmwareVersions paths, and the counter counts the keyPackages paths |
| ChangeExplainer.ScanEvents | src/daemon/change_explainer.cpp:46-60 | the three flags say whether some event is a Kernel, GpuDriver or Firmware event |
| ChangeExplainer.StreamClauses | src/daemon/change_explainer.cpp:90-97 | the stream holds the clauses joined with ", " and " and " before the last |
| ChangeExplainer.StreamedIsClauseList | src/daemon/change_explainer.cpp:90-97 | the text streamed after every clause is the clause list |
| ChangeExplainer.ExplainChange | src/daemon/change_explainer.cpp:11-108 | the returned sentence is the explanation of the diff and events |
| ChangeExplainer.PackagePathCountPositive | src/daemon/change_explainer.cpp:72-74 | the package clause's counter is positive exactly when some path starts with "keyPackages." |
| ChangeExplainer.ClausesIff | src/daemon/change_explainer.cpp:62-74 | each clause appears exactly when its path is in the diff or an event of its category is present; the package clause exactly when a keyPackages path is present |
| ChangeExplainer.ClauseOrder | src/daemon/change_explainer.cpp:62-74 | the clauses appear in the order kernel, GPU, firmware, packages |
| ChangeExplainer.ExplanationFrame | src/daemon/change_explainer.cpp:76-98 | no clauses gives exactly the fixed no-change sentence; otherwise the sentence starts with the opening and ends with the closing |
| ChangeExplainer.OtherEventsIgnored | src/daemon/change_explainer.cpp:46-60 | adding a Package or System event does not change the explanation |
| ChangeExplainer.KernelOnlyDiff | src/daemon/change_explainer.cpp:63-98 | a diff whose only change is the kernel, with no events, gives the opening, "kernel was upgraded" and the closing |
| ChangeExplainer.ScalarPathsAreNotPackagePaths | src/daemon/change_explainer.cpp:31-37 | the three scalar paths are not keyPackages paths |
| Counterfactual.CollectKeys | src/daemon/counterfactual.cpp:55-61 | the set filled by the two loops is the union of the two key sets |
| Counterfactual.SortedKeysSpec | src/daemon/counterfactual.cpp:63 | iterating the std::set visits exactly its keys in strictly increasing order |
| Counterfactual.AppendKeyChanges | src/daemon/counterfactual.cpp:63-77 | the loop appends, key by key in sorted order, one entry per key whose two values differ |
| Counterfactual.CompareScalars | src/daemon/counterfactual.cpp:24-46 | the three whole-value comparisons append the scalar changes |
| Counterfactual.ComputeDiff | src/daemon/counterfactual.cpp:20-77 | the diff built is the snapshot diff of the two snapshots |
| Counterfactual.ComputeCounterfactual | src/daemon/counterfactual.cpp:9-82 | the result carries both snapshot ids, in the result and in its diff, the snapshot diff, and the explanation of that diff and the intervening events |
| Counterfactual.KeyChangesSpec | src/daemon/counterfactual.cpp:63-77 | every key entry names a listed key whose two values differ, with null for a missing side, and every such key has its entry |
| Counterfactual.ScalarPaths | src/daemon/counterfactual.cpp:24-46 | each scalar path is present exactly when that field differs |
| Counterfactual.DiffScalars | src/daemon/counterfactual.cpp:20-46 | the diff ids are the two snapshot ids; each scalar path is present exactly when the field differs; a kernel change is the first entry with (before, after) |
| Counterfactual.DiffKeyPackages | src/daemon/counterfactual.cpp:48-77 | the entry for a key is in the diff exactly when the key is in either object and its two values differ |
| Counterfactual.KeyChangesOrdered | src/daemon/counterfactual.cpp:63-77 | key entries follow the keys' sorted order |
| Counterfactual.DiffOfSelf | src/daemon/counterfactual.cpp:24-77 | a snapshot compared with itself has no changed fields |
| Counterfactual.KeyChangesSame | src/daemon/counterfactual.cpp:63-77 | equal objects give no key entries |
| Counterfactual.KeyChangesSwapped | src/daemon/counterfactual.cpp:63-77 | swapping the two objects swaps before and after in every key entry |
| Counterfactual.ScalarsSwapped | src/daemon/counterfactual.cpp:24-46 | swapping the snapshots swaps before and after in every scalar entry |
| Counterfactual.DiffSwapped | src/daemon/counterfactual.cpp:24-77 | swapping the snapshots gives the same paths with before and after swapped |
| Counterfactual.NonObjectKeyPackages | src/daemon/counterfactual.cpp:48-53 | a keyPackages value that is not an object diffs as `{}` |
| Counterfactual.PackagePathsDiffer | src/daemon/counterfactual.cpp:72 | a "keyPackages." path is never one of the scalar paths |
| Counterfactual.KernelOnlyCounterfactual | src/daemon/counterfactual.cpp:79-80 | when only the kernel differs and no events intervene, the explanation still names the kernel |
| Store.CategoryFromInt | src/daemon/khronicle_store.cpp:200-216 | the integers 0..4 decode to the categories in declaration order, inverse to the stored code; any other integer decodes to System |
| Store.SourceFromInt | src/daemon/khronicle_store.cpp:218-234 | the integers 0..4 decode to the sources in declaration order, inverse to the stored code; any other integer decodes to Other |
| Store.EnumColumnsRoundTrip | src/daemon/khronicle_store.cpp:200-234 | every category and every source written as its integer column reads back as itself |
| Store.JsonColumnRoundTrip | src/daemon/khronicle_store.cpp:146-198 | a JSON value bound to a column reads back unchanged, except null, which is stored as SQL NULL and reads back as an empty object; a read column is never null |
| Store.ReadProvenance | src/daemon/khronicle_store.cpp:507-527 | a NULL or empty provenance column gives sourceType "unknown" and parserVersion "legacy"; text that is not an object is an error |
| Store.ReadEvent | src/daemon/khronicle_store.cpp:482-528 | a read event keeps the row's id, decodes its time, category and source, never has an empty risk level (an empty one becomes "info"), reads JSON columns with the {} default, falls back to the legacy provenance, and carries no host id |
| Store.StoredEventRoundTrip | src/daemon/khronicle_store.cpp:366-528 | an event added and read back is the same event except for whole-second time, null states read as {}, an empty risk level read as "info" and the host id dropped |
| Store.AddedEvents | src/daemon/khronicle_store.cpp:352-412 | addEvent leaves the table unchanged when a row with the same second, category and summary exists; otherwise it inserts or replaces the row under the event's id and leaves every other id untouched |
| Store.AddedEventsNoDuplicates | src/daemon/khronicle_store.cpp:352-364 | the de-duplication check keeps the table free of two rows with the same second, category and summary |
| Store.AddEventIdempotent | src/daemon/khronicle_store.cpp:352-412 | adding the same event twice leaves the table as adding it once |
| Store.DuplicateSuppressed | src/daemon/khronicle_store.cpp:352-364 | a second event with the same second, category and summary as one just added changes nothing, whatever its id |
| Store.ReadSnapshot | src/daemon/khronicle_store.cpp:624-648 | a read snapshot keeps its id, decodes its time, carries no host identity, and reads a NULL key-packages column as {} |
| Store.StoredSnapshotRoundTrip | src/daemon/khronicle_store.cpp:415-462 | a snapshot added and read back is the same snapshot except for whole-second time, JSON columns read with the {} default and the host identity dropped |
| Store.StoredDiffShape | src/daemon/khronicle_store.cpp:704-770 | the diff names both requested ids; it is empty when either snapshot is missing; when both exist it reports kernelVersion exactly when the kernel versions differ |
| Store.StoredDiffOfSelf | src/daemon/khronicle_store.cpp:704-770 | diffing a snapshot against itself reports no changed field |
| Store.RiskAudit | src/daemon/khronicle_store.cpp:879-896 | an audit entry is recorded exactly for important and critical events, refers to the event's id, and summarises with the risk reason or, when that is empty, the event summary |
| Store.InsertSortedMembers | src/daemon/khronicle_store.cpp:477 | placing one event into an ordered result adds that event and keeps every earlier one |
| Store.InsertSortedSpec | src/daemon/khronicle_store.cpp:477 | placing one event into a time-ordered result keeps it in ascending time order |
| Store.FirstLatest | src/daemon/khronicle_api_server.cpp:55-72 | the position of the first snapshot with the greatest timestamp in a list |
| Store.LatestListed | src/daemon/khronicle_api_server.cpp:55-72 | the latest listed snapshot is a stored snapshot that no stored snapshot is later than |
| Store.CollectedAll | src/daemon/khronicle_store.cpp:465-531 | once every row has been visited, the collected events are in ascending time order and list each row in the window exactly once |
| Store.KhronicleStore.constructor | src/daemon/khronicle_store.cpp:247-340 | a store over the given tables, each keyed by its rows' ids |
| Store.KhronicleStore.AddEvent | src/daemon/khronicle_store.cpp:350-413 | the events table becomes the de-duplicated insert of the event; no other table changes |
| Store.KhronicleStore.AddSnapshot | src/daemon/khronicle_store.cpp:415-463 | the snapshot's row is inserted or replaced under its id; no other table changes |
| Store.KhronicleStore.GetHostIdentity | src/daemon/khronicle_store.hpp:23 | the stored host identity |
| Store.KhronicleStore.ListWatchRules | src/daemon/khronicle_store.hpp:26 | the stored watch rules |
| Store.KhronicleStore.AddWatchSignal | src/daemon/khronicle_store.hpp:30 | the signal is appended to the stored signals; no other table changes |
| Store.KhronicleStore.QueryEvents | src/daemon/khronicle_store.cpp:465-604 | a successful query lists every row from lo (and up to hi, when given) exactly once, read back and in ascending time order; a failure is the read error of some row in that window |
| Store.KhronicleStore.GetEventsSince | src/daemon/khronicle_store.cpp:465-532 | the events with timestamp at or after since, each once, in ascending time order, or the read error of one of them |
| Store.KhronicleStore.GetEventsBetween | src/daemon/khronicle_store.cpp:534-604 | the events with timestamp from from to to inclusive, each once, in ascending time order, or the read error of one of them |
| Store.KhronicleStore.ListSnapshots | src/daemon/khronicle_store.cpp:606-652 | every stored snapshot, read back, exactly once each, in ascending time order |
| Store.KhronicleStore.GetSnapshot | src/daemon/khronicle_store.cpp:654-702 | the snapshot stored under the id, read back, and nothing exactly when no row has that id |
| Store.KhronicleStore.DiffSnapshots | src/daemon/khronicle_store.cpp:704-785 | returns the diff of the two stored snapshots and records a "snapshot_diff" audit entry counting its changed fields only when both snapshots exist; no other table changes |
| Store.KhronicleStore.GetMeta | src/daemon/khronicle_store.cpp:787-798 | the value stored under the key, and nothing exactly when the key is absent |
| Store.KhronicleStore.SetMeta | src/daemon/khronicle_store.cpp:800-810 | the key is bound to the value (insert or replace); no other table changes |
| Store.KhronicleStore.AddAuditLog | src/daemon/khronicle_store.cpp:862-877 | the entry, at whole-second time, is inserted or replaced under its id; no other table changes |
| Store.KhronicleStore.AddRiskAuditIfNeeded | src/daemon/khronicle_store.cpp:879-896 | records the risk-classification entry exactly when the event is important or critical; no other table changes |
| Store.MetaSetGet | src/daemon/khronicle_store.cpp:787-810 | after setMeta the key reads back the last value written, and every other key reads as before |
| WatchEngine.RiskRank | src/daemon/watch_engine.cpp:50-60 | a rank from 0 to 2: 2 exactly for "critical" and 1 exactly for "important", in any letter case; 0 for anything else |
| WatchEngine.LowerIdempotent | src/daemon/watch_engine.cpp:42-48 | lower-casing twice is lower-casing once |
| WatchEngine.RiskRankIgnoresCase | src/daemon/watch_engine.cpp:50-60 | the rank of a risk level does not depend on its letter case |
| WatchEngine.ExtractRiskLevel | src/daemon/watch_engine.cpp:62-72 | a non-empty result is the string stored under "riskLevel" of the object; no such key gives "" |
| WatchEngine.EventRiskLevel | src/daemon/watch_engine.cpp:74-81 | the risk level found in the after state, or, when there is none, the one in the before state |
| WatchEngine.EventRiskLevelIgnoresField | src/daemon/watch_engine.cpp:74-81 | the risk level a rule compares against comes from the states only, never from the event's riskLevel field |
| WatchEngine.ContainsCaseInsensitiveIff | src/daemon/watch_engine.cpp:83-91 | a value contains a needle exactly when the needle is empty or occurs in the lower-cased value lower-cased; a value equal to the needle up to case contains it |
| WatchEngine.ListContainsSubstringIff | src/daemon/watch_engine.cpp:93-105 | a list matches exactly when the needle is empty or some element contains it, ignoring case |
| WatchEngine.JsonKeysMonotone | src/daemon/watch_engine.cpp:107-126 | adding a key to an object never loses a key match, and a key equal to the needle up to case matches |
| WatchEngine.ParseClock | src/daemon/watch_engine.cpp:347-364 | an accepted time of day has the form HH:MM with ':' at index 2 and gives a minute of the day from 0 to 1439 |
| WatchEngine.ParseClockOfTime | src/daemon/watch_engine.cpp:347-364 | every time of day written as two-digit hours, ':' and two-digit minutes parses to hours * 60 + minutes |
| WatchEngine.WindowCases | src/daemon/watch_engine.cpp:338-392 | a rule without a parseable window always applies; with a window start <= end it applies exactly outside [start, end), with a window that wraps midnight exactly from end up to start, and with start == end always |
| WatchEngine.MaintenanceWindowExample | src/daemon/watch_engine.cpp:338-392 | a rule with a 02:00-04:00 maintenance window is silent at 03:00 and applies at 05:00 |
| WatchEngine.EventFiltersNarrow | src/daemon/watch_engine.cpp:258-288 | each filter of an event rule only narrows what it matches: clearing any filter keeps a match, and a rule with no filters matches every event |
| WatchEngine.KernelCriticalRuleMatches | src/daemon/watch_engine.cpp:258-288 | a rule for category "kernel" at risk "critical" matches a kernel event whose after state records risk "critical" |
| WatchEngine.SnapshotCategories | src/daemon/watch_engine.cpp:299-318 | a snapshot matches "kernel" exactly when it has a kernel version, "gpu" exactly when its GPU driver is a non-empty object, always "system", never an unknown category, and never "package" when its key packages are not an object |
| WatchEngine.SnapshotPackageFilter | src/daemon/watch_engine.cpp:328-333 | a package-name filter never matches a snapshot whose key packages are not an object |
| WatchEngine.FiringRulesMembers | src/daemon/watch_engine.cpp:151-157 | the rules that fire are exactly the cached rules that are enabled, have the origin's scope and match |
| WatchEngine.SignalsOfFiringRules | src/daemon/watch_engine.cpp:151-184 | one signal per firing rule, in rule order, each built from its rule, the origin and a fresh id |
| WatchEngine.SignalsOnlyFromEnabledScope | src/daemon/watch_engine.cpp:151-154 | when no cached rule is both enabled and of the origin's scope, no signal is emitted |
| WatchEngine.SignalsSnoc | src/daemon/watch_engine.cpp:151-184 | one more rule adds one signal exactly when that rule fires |
| WatchEngine.WatchEngine.constructor | src/daemon/watch_engine.cpp:130-134 | an engine over the store with an empty rule cache |
| WatchEngine.WatchEngine.MaybeReloadRules | src/daemon/watch_engine.cpp:237-256 | the cache is reloaded from the store and the reload time set to now when the cache is empty or 60 seconds have passed; otherwise nothing changes |
| WatchEngine.WatchEngine.EmitSignals | src/daemon/watch_engine.cpp:151-184 | the store's signals grow by exactly the signals of the firing cached rules, in order; no other table changes |
| WatchEngine.WatchEngine.EvaluateEvent | src/daemon/watch_engine.cpp:136-185 | the cache and reload time become those of a reload when one is due and stay otherwise; the store's signals grow by exactly the signals of the enabled event rules of that cache that match the event, in rule order; no other table changes |
| WatchEngine.WatchEngine.EvaluateSnapshot | src/daemon/watch_engine.cpp:187-235 | the cache and reload time become those of a reload when one is due and stay otherwise; the store's signals grow by exactly the signals of the enabled snapshot rules of that cache that match the snapshot, in rule order; no other table changes |
| WatchEngine.ReloadSettles | src/daemon/watch_engine.cpp:237-247 | a second reload check at the same time point changes neither the cache nor the reload time |
| WatchEngine.FiringRules | src/daemon/watch_engine.cpp:151-157 | the rules that fire, in cache order, never more than the cached rules |
| RiskClassifier.SeverityRank | src/daemon/risk_classifier.cpp:9-18 | a rank from 0 to 2: 2 exactly for "critical", 1 exactly for "important" (case-sensitive), 0 for anything else |
| RiskClassifier.AppendReason | src/daemon/risk_classifier.cpp:29-37 | an empty reason leaves the text unchanged; otherwise the reason is appended after a space (when the text was non-empty) and the result always ends in '.', added only when the reason lacks one |
| RiskClassifier.UpdateRisk | src/daemon/risk_classifier.cpp:20-39 | a lower level leaves the event unchanged; a higher level replaces the level and restarts the reason with this one; an equal level appends the reason; the rank never decreases |
| RiskClassifier.MaxRank | src/daemon/risk_classifier.cpp:43-71 | the highest severity rank among the rules that fire for an event, at least the rank of each of them |
| RiskClassifier.VerdictStep | src/daemon/risk_classifier.cpp:20-39 | applying one more firing rule to the running verdict is exactly one updateRisk call: ignored when lower, restarting the reason when higher, appending when equal |
| RiskClassifier.Classify | src/daemon/risk_classifier.cpp:43-71 | the event leaves with the level and reason of the rules that fire for its category and summary (the highest level, the reasons at that level joined in rule order), everything else unchanged |
| RiskClassifier.LevelIsKnown | src/daemon/risk_classifier.cpp:43-71 | the classified level is always one of "info", "important" and "critical" |
| RiskClassifier.KernelIsCritical | src/daemon/risk_classifier.cpp:48-51 | a kernel event is critical with reason "Kernel version changed.", whatever its summary says |
| RiskClassifier.VerdictOfOne | src/daemon/risk_classifier.cpp:20-39 | one important rule gives level important and its reason followed by '.' |
| RiskClassifier.VerdictOfTwo | src/daemon/risk_classifier.cpp:20-39 | two important rules give level important and both reasons, each ending in '.', separated by a space |
| RiskClassifier.GpuAndFirmwareAreImportant | src/daemon/risk_classifier.cpp:53-70 | GPU driver and firmware events are important, with their own reason, followed by "Package downgraded." when the summary mentions a downgrade in any letter case |
| RiskClassifier.DowngradeRaisesLevel | src/daemon/risk_classifier.cpp:63-70 | a summary mentioning "downgraded" in any letter case makes an event at least important; package and system events without it stay info with an empty reason |
| Text.LowerChar | src/daemon/risk_classifier.cpp:65-67 | std::tolower in the C locale: 'A'..'Z' move to 'a'..'z', every other character is kept |
| Text.Lower | src/daemon/watch_engine.cpp:42-48 | the lower-cased string has the same length and each character lower-cased in place |
| Text.LowerInPlace | src/daemon/risk_classifier.cpp:64-67 | the character-by-character loop produces the lower-cased summary |
| PacmanParser.ParseCursor | src/daemon/pacman_parser.cpp:23-38 | an offset is read exactly when a cursor is present and its leading integer is in the range of long long and not negative; the offset is that integer |
| PacmanParser.ParseCursorRoundTrip | src/daemon/pacman_parser.cpp:23-38 | a cursor written with std::to_string reads back as the same offset |
| PacmanParser.Trim | src/daemon/pacman_parser.cpp:62-75 | the two index loops return the text without its leading and trailing whitespace |
| Text.TrimmedIsTrimmed | src/daemon/pacman_parser.cpp:62-75 | a trimmed text neither starts nor ends with whitespace |
| Text.TrimmedSpec | src/daemon/pacman_parser.cpp:62-75 | trimming keeps exactly the piece between whitespace-only ends when that piece has no whitespace at either end |
| Text.TrimmedOfTrimmed | src/daemon/pacman_parser.cpp:62-75 | trimming a text that is already trimmed changes nothing |
| Text.PaddedTrimmed | src/daemon/pacman_parser.cpp:62-75 | trimming a text padded with whitespace on both sides gives the text back |
| PacmanParser.ParseLineShape | src/daemon/pacman_parser.cpp:84-141 | an accepted line starts with '[' and the timestamp up to the first ']', contains " [ALPM] ", one of installed/upgraded/downgraded, the space-free package name and a space, and a non-empty version text inside parentheses |
| PacmanParser.ParseFieldsShape | src/daemon/pacman_parser.cpp:90-141 | the fields read before the operation check already have the layout of an accepted line |
| PacmanParser.ParseLineRoundTrip | src/daemon/pacman_parser.cpp:84-141 | a line written from a timestamp without ']', a known operation, a space-free package name and a non-empty version text without ')' parses back to exactly those fields, whatever follows it |
| PacmanParser.ParseFieldsRoundTrip | src/daemon/pacman_parser.cpp:90-141 | the field split reads back the fields a line is written from, for any space-free operation |
| PacmanParser.SplitVersionsRoundTrip | src/daemon/pacman_parser.cpp:158-173 | an upgrade or downgrade written as "old -> new" splits back into old and new |
| PacmanParser.ArrowRoundTrip | src/daemon/pacman_parser.cpp:164-172 | a version text "old -> new" splits at its first arrow into old and new |
| PacmanParser.InstalledRoundTrip | src/daemon/pacman_parser.cpp:160-162 | an install has no old version and its trimmed version text as the new one |
| PacmanParser.SplitVersionsTrimmed | src/daemon/pacman_parser.cpp:158-173 | both halves come back trimmed, and an old version is only reported for an upgrade or downgrade whose text contains "->" |
| PacmanParser.SplitArrowTrimmed | src/daemon/pacman_parser.cpp:164-172 | both sides of the arrow split come back trimmed, and a non-empty left side needs an arrow in the text |
| PacmanParser.BuildSummary | src/daemon/pacman_parser.cpp:143-156 | the summary starts with the operation and the package name, and an upgrade or downgrade with both versions reads "<op> <pkg> <old> -> <new>" |
| PacmanParser.InterestingIsCategorised | src/daemon/pacman_parser.cpp:175-240 | a package is interesting exactly when categoryForPackage puts it in the kernel, GPU-driver or firmware table, each category exactly for its own table, and never System |
| PacmanParser.LineEndSpec | src/daemon/pacman_parser.cpp:280 | std::getline stops at the first line break after the start, or at the end of the data |
| PacmanParser.NextLine | src/daemon/pacman_parser.cpp:280-282 | each line read moves the position forward until the end of the data |
| PacmanParser.LineStep | src/daemon/pacman_parser.cpp:284-327 | a line contributes its event only when it is emitted, and the run stops only once the byte cap of 5 MiB is reached |
| PacmanParser.StartPosition | src/daemon/pacman_parser.cpp:260-272 | reading starts at the stored cursor, at 0 when there is none, and at 0 when the cursor lies beyond a non-empty file; it never lies beyond a non-empty file |
| PacmanParser.ReadToBreak | src/daemon/pacman_parser.cpp:280 | the scanning loop stops where the line ends |
| PacmanParser.ScanLines | src/daemon/pacman_parser.cpp:276-328 | the reading loop returns the events and final offset of the line-by-line run with its byte cap |
| PacmanParser.ParsePacmanLog | src/daemon/pacman_parser.cpp:244-349 | the events and new cursor are those of the run from the start position; an unreadable log gives no events, an error flag and the previous cursor or "0" |
| PacmanParser.EmittedIsPacmanEvent | src/daemon/pacman_parser.cpp:292-321 | an emitted event has id "pacman-<ts>-<pkg>-<op>", source Pacman, a non-Package category, risk "info", the package as its only related package, and version members exactly for the non-empty split versions |
| PacmanParser.ScanCursor | src/daemon/pacman_parser.cpp:276-346 | the new cursor never moves backwards or past the end of the data, and short of the end it sits just after a line break |
| PacmanParser.PacmanEventsWellFormed | src/daemon/pacman_parser.cpp:244-349 | every event of a run is a well-formed pacman event |
| PacmanParser.CursorBounds | src/daemon/pacman_parser.cpp:260-346 | the new cursor is the decimal offset where the run stopped, within the file, not before the start position, and just after a line break when short of the end |
| PacmanParser.ReparseAtEnd | src/daemon/pacman_parser.cpp:244-349 | a run whose cursor is already at the end of the log emits nothing and keeps the cursor |
| PacmanParser.UnreadableLog | src/daemon/pacman_parser.cpp:249-255 | an unreadable log gives no events, the error flag, and keeps the previous cursor, or "0" when there was none |
| PacmanParser.CursorPastEndRestarts | src/daemon/pacman_parser.cpp:265-272 | a cursor beyond the end of a non-empty log (rotation or truncation) rereads the log from the start |
| JournalParser.AfterHostOfLine | src/daemon/journal_parser.cpp:44-58 | in a line "<ts> <host> <process>: <message>" the part after the host is "<process>: <message>" |
| JournalParser.ExtractRoundTrip | src/daemon/journal_parser.cpp:44-86 | extractProcess and extractMessage give back the process name and message a well-formed journal line is written from |
| JournalParser.NoColonMessage | src/daemon/journal_parser.cpp:60-64 | when the part after the host has no ": ", the process is empty and the message is that whole part |
| JournalParser.SkipSpacesSpec | src/daemon/journal_parser.cpp:97-99 | the first loop of extractVersionToken stops at the first non-space character after "version" |
| JournalParser.VersionRunEndSpec | src/daemon/journal_parser.cpp:101-109 | the second loop stops at the first character that is not a digit, '.', '-' or '_' |
| JournalParser.VersionKeyword | src/daemon/journal_parser.cpp:90-96 | the first "version" of the lower-cased message, when there is one, fits inside the message |
| JournalParser.TokenAtSpec | src/daemon/journal_parser.cpp:96-111 | the token is the run of digits, '.', '-' and '_' that follows the spaces after the keyword, ending at the first other character |
| JournalParser.ExtractVersionToken | src/daemon/journal_parser.cpp:88-112 | the loops return the version token after the first "version", or "" when the message has none |
| JournalParser.ReadToken | src/daemon/journal_parser.cpp:96-111 | the two index loops return the version token read from the given position |
| JournalParser.NvidiaModesetRedundant | src/daemon/journal_parser.cpp:185-187 | the NVIDIA test holds exactly when the message contains "nvidia" or "nvrm"; the "nvidia-modeset" test adds nothing |
| JournalParser.ReadJournalLine | src/daemon/journal_parser.cpp:165-247 | the body of the loop turns one line into the event the journal line calls for, or none |
| JournalParser.ParseJournalOutputLines | src/daemon/journal_parser.cpp:158-256 | the loop returns the events of the kept lines in order and the resume point of the run |
| JournalParser.RunEvents | src/daemon/journal_parser.cpp:164-253 | the events of a run are those already found followed by the events of the remaining lines, in line order |
| JournalParser.EmittedFromLines | src/daemon/journal_parser.cpp:164-253 | every emitted event records one of the input lines as its details and is the event that line yields |
| JournalParser.ReaderKeepsLine | src/daemon/journal_parser.cpp:198 | the event of a line records that line as its details |
| JournalParser.JournalEventsFromLines | src/daemon/journal_parser.cpp:158-256 | every event of a run comes from one of its lines and is exactly what that line yields |
| JournalParser.StepWatermarked | src/daemon/journal_parser.cpp:247-252 | one kept line keeps the resume point sound: not before since, not before any event, and equal to since or to some event's time |
| JournalParser.RunWatermarked | src/daemon/journal_parser.cpp:164-253 | the loop keeps the resume point sound |
| JournalParser.JournalWatermark | src/daemon/journal_parser.cpp:158-256 | the resume point is since when nothing was kept, otherwise the latest of since and the kept events' times, never before any kept event |
| JournalParser.LineEventFilters | src/daemon/journal_parser.cpp:165-191 | a line without a space or with an unparsable timestamp yields nothing; a kept line carries its timestamp and is a fwupd line or a GPU-signal line mentioning amdgpu or NVIDIA |
| JournalParser.LineEventShape | src/daemon/journal_parser.cpp:193-245 | a kept line yields a journal event with an empty before state, in category Firmware exactly for fwupd lines (related package "fwupd"), otherwise GpuDriver related to "amdgpu" or "nvidia" |
| JournalParser.GpuEventVersion | src/daemon/journal_parser.cpp:238-244 | a GPU event's after state has a version member exactly when a version token was found, and it holds that token |
| JournalParser.FirmwareNameTrimmed | src/daemon/journal_parser.cpp:218-224 | the firmware name taken after the message's first ':' is trimmed |
| Daemon.FirstPresent | src/daemon/khronicle_daemon.cpp:51-55 | the position of the first name in the list that is a key of the object, or none when no name is |
| Daemon.KernelPackageChoice | src/daemon/khronicle_daemon.cpp:42-57 | the detected kernel package is always a kernel package: linux-cachyos when present, otherwise linux when present, otherwise a present kernel package, falling back to "linux" |
| Daemon.DetectKernelPackage | src/daemon/khronicle_daemon.cpp:42-57 | the loop over the kernel package names returns the first one present in the key packages, or "linux" |
| Daemon.Stamped | src/daemon/khronicle_daemon.cpp:101-104 | each parsed event, in order, with the store's host id set and nothing else changed |
| Daemon.AddedAllKeys | src/daemon/khronicle_daemon.cpp:102-108 | ingesting a batch never removes a stored event, and only adds ids of the batch |
| Daemon.AddedAllNoDuplicates | src/daemon/khronicle_daemon.cpp:102-108 | ingesting a batch keeps the table free of two rows with the same second, category and summary |
| Daemon.AddedAllFresh | src/daemon/khronicle_daemon.cpp:102-108 | an id neither stored nor in the batch stays absent |
| Daemon.AddedEventsRepresents | src/daemon/khronicle_daemon.cpp:104 | after adding a new event the table holds a row equal to it on second, category and summary, and every event already represented stays represented |
| Daemon.IngestedRepresented | src/daemon/khronicle_daemon.cpp:102-108 | after ingesting a batch of new, distinct ids, every event of the batch is represented in the table, by itself or by an earlier duplicate |
| Daemon.StampNotStored | src/daemon/khronicle_daemon.cpp:101-104 | the host id stamped on events does not reach the stored rows: stamping changes nothing in the table |
| Daemon.PersistLoadRoundTrip | src/daemon/khronicle_daemon.cpp:182-202 | what persistStateToMeta writes is what loadStateFromMeta reads back: the cursor when there is one, and the watermark to the second |
| Daemon.MaxElement | src/daemon/khronicle_daemon.cpp:211-215 | std::max_element by timestamp: the position of the first snapshot with the greatest timestamp |
| Daemon.KhronicleDaemon.constructor | src/daemon/khronicle_daemon.cpp:61-69 | a daemon with a fresh watch engine whose cache is empty, the cursor and watermark loaded from meta over the 30-minute default start, and the latest stored snapshot, if any |
| Daemon.KhronicleDaemon.LoadStateFromMeta | src/daemon/khronicle_daemon.cpp:182-192 | the cursor and watermark become the stored values when present (an unparsable watermark becomes the default start) and stay as they were otherwise |
| Daemon.KhronicleDaemon.PersistStateToMeta | src/daemon/khronicle_daemon.cpp:194-202 | meta gains the cursor when there is one and always the watermark as ISO-8601 text; no other table changes |
| Daemon.KhronicleDaemon.LoadLastSnapshotFromStore | src/daemon/khronicle_daemon.cpp:204-220 | the last snapshot becomes a stored snapshot with the greatest timestamp, and is left unchanged when the store has none |
| Daemon.KhronicleDaemon.IngestEvents | src/daemon/khronicle_daemon.cpp:101-108 | the events table becomes the de-duplicated insert of every event, stamped with the host id, in order; the signals grow by the signals of each event in turn, all against the rule cache the first evaluation leaves; the engine is reloaded as by one evaluation when the batch is not empty and untouched otherwise; no other table changes |
| Daemon.KhronicleDaemon.RunPacmanIngestion | src/daemon/khronicle_daemon.cpp:96-113 | the parsed pacman events are ingested with the host id, with their signals appended in order, and the cursor advances to the parser's new cursor unless that is empty |
| Daemon.KhronicleDaemon.RunJournalIngestion | src/daemon/khronicle_daemon.cpp:115-131 | the journal events since the watermark are ingested with the host id, with their signals appended in order, and the watermark moves forward to the parser's resume point, never backwards |
| Daemon.KhronicleDaemon.RunSnapshotCheck | src/daemon/khronicle_daemon.cpp:133-180 | the first snapshot is always stored and evaluated; later ones are stored only when the kernel version changed, together with a kernel-change event naming both versions, and the signals grow by the snapshot's signals and then the event's; an unchanged kernel changes nothing, the watch engine included |
| Daemon.KhronicleDaemon.RecordEvent | src/daemon/khronicle_daemon.cpp:102-108 | one event is added and evaluated: the events table gains it unless it duplicates a row, and the signals grow by its signals |
| Daemon.KhronicleDaemon.RecordSnapshot | src/daemon/khronicle_daemon.cpp:139-142 | one snapshot is stored under its id and evaluated: the signals grow by its signals |
| Daemon.KhronicleDaemon.RecordKernelChange | src/daemon/khronicle_daemon.cpp:156-178 | the kernel-change event built from the two versions is added and evaluated |
| Daemon.KhronicleDaemon.RunIngestionCycle | src/daemon/khronicle_daemon.cpp:88-94 | the cycle's new cursor, watermark, last snapshot, events, snapshots and meta are those of the pacman step, the journal step, the snapshot check and the persist step in that order; the signals grow by the pacman, journal and snapshot-check signals in that order, all against one rule cache; the engine is reloaded once when any step evaluated |
| Daemon.CycleKeepsRows | src/daemon/khronicle_daemon.cpp:88-94 | one cycle keeps every stored event and snapshot id |
| Daemon.BatchSignalsFromBatch | src/daemon/khronicle_daemon.cpp:101-108 | every signal raised by a batch comes from an event of the batch: its origin type is event, and its origin id and timestamp are that event's |
| Daemon.EngineAfterChain | src/daemon/khronicle_daemon.cpp:88-92 | two steps that each reload as due leave the engine as one step would |
| Daemon.EngineAfterSettles | src/daemon/khronicle_daemon.cpp:88-92 | after a step of the cycle, the next step reads the same rule cache as the first |
| ApiServer.ErrorResponse | src/daemon/khronicle_api_server.cpp:595-601 | the error envelope is an object with the id and a string "error" and no "result" |
| ApiServer.ResultResponse | src/daemon/khronicle_api_server.cpp:603-610 | the result envelope is an object with the id and a "result" and no "error" |
| ApiServer.EnvelopesDistinct | src/daemon/khronicle_api_server.cpp:595-610 | no error envelope equals a result envelope, and a client reads back the message, the result and the id that were sent |
| ApiServer.ToInt32 | src/daemon/khronicle_api_server.cpp:177-180 | get<int> wraps a JSON integer to a 32-bit value congruent to it, and keeps every value already in range |
| ApiServer.RequestId | src/daemon/khronicle_api_server.cpp:177-180 | the id is the request's integer "id" member, and -1 when there is none or it is not an integer |
| ApiServer.MethodNamed | src/daemon/khronicle_api_server.cpp:228-581 | a method name selects diff_snapshots, upsert_watch_rule and delete_watch_rule exactly when it is that name, any unlisted name selecting the unknown method |
| ApiServer.ParseRequest | src/daemon/khronicle_api_server.cpp:164-201 | a payload that is not a JSON object gives "Invalid JSON payload" with id -1; a missing or non-string method gives "Missing method"; a params member that is not an object gives "Invalid params"; otherwise the request has the method, the params (an empty object when absent) and the id |
| ApiServer.CountCategorySnoc | src/daemon/khronicle_api_server.cpp:360-383 | one more event adds one to the count of its own category only |
| ApiServer.SummaryCounts | src/daemon/khronicle_api_server.cpp:345-405 | the summary counts every event in totalEvents, the GPU-driver events in gpuEvents, the firmware events in firmwareEvents, and sets kernelChanged exactly when some event is a kernel event |
| ApiServer.KernelFromOfFirst | src/daemon/khronicle_api_server.cpp:362-368 | kernelFrom is the before-state kernel version of the first kernel event that has one |
| ApiServer.KernelFromUnset | src/daemon/khronicle_api_server.cpp:357-368 | kernelFrom stays empty when no kernel event has a before-state kernel version |
| ApiServer.KernelToOfLast | src/daemon/khronicle_api_server.cpp:369-371 | kernelTo is the after-state kernel version of the last kernel event that has one |
| ApiServer.KernelToUnset | src/daemon/khronicle_api_server.cpp:358-371 | kernelTo stays empty when no kernel event has an after-state kernel version |
| ApiServer.KernelChangeSummary | src/daemon/khronicle_api_server.cpp:345-405 | the summary of the daemon's kernel-change event reports the change from the previous to the current kernel version, no GPU or firmware events and one event in total |
| ApiServer.SummarizeEvents | src/daemon/khronicle_api_server.cpp:354-383 | the counting loop returns the summary of the events |
| ApiServer.LatestSnapshot | src/daemon/khronicle_api_server.cpp:55-72 | nothing exactly for an empty list, otherwise a listed snapshot that no listed snapshot is later than |
| ApiServer.WindowEnvelope | src/daemon/khronicle_api_server.cpp:235-249 | the answer to an event query is an envelope carrying the request id |
| ApiServer.SinceEnvelope | src/daemon/khronicle_api_server.cpp:228-250 | every answer to get_changes_since or summary_since is an envelope carrying the request id |
| ApiServer.BetweenEnvelope | src/daemon/khronicle_api_server.cpp:252-277 | every answer to get_changes_between is an envelope carrying the request id |
| ApiServer.ExplainEnvelope | src/daemon/khronicle_api_server.cpp:495-534 | every answer to explain_change_between is an envelope carrying the request id |
| ApiServer.LastGoodEnvelope | src/daemon/khronicle_api_server.cpp:536-571 | every answer to what_changed_since_last_good is an envelope carrying the request id |
| ApiServer.UpsertEnvelope | src/daemon/khronicle_api_server.cpp:425-448 | every answer to upsert_watch_rule is an envelope carrying the request id |
| ApiServer.DeleteEnvelope | src/daemon/khronicle_api_server.cpp:450-470 | every answer to delete_watch_rule is an envelope carrying the request id |
| ApiServer.SignalsEnvelope | src/daemon/khronicle_api_server.cpp:472-493 | every answer to get_watch_signals_since is an envelope carrying the request id |
| ApiServer.SnapshotEnvelope | src/daemon/khronicle_api_server.cpp:297-320 | every answer to get_snapshot is an envelope carrying the request id |
| ApiServer.DiffEnvelope | src/daemon/khronicle_api_server.cpp:322-343 | every answer to diff_snapshots is an envelope carrying the request id |
| ApiServer.MethodEnvelope | src/daemon/khronicle_api_server.cpp:227-581 | whatever method a valid request names, the answer is an envelope carrying the request id |
| ApiServer.AnswerCarriesId | src/daemon/khronicle_api_server.cpp:159-593 | every response to every payload is an envelope with exactly one of error and result, carrying the request's id, or -1 when it has none |
| ApiServer.WindowsAgree | src/daemon/khronicle_api_server.cpp:235-249 | two methods querying the same window both succeed or both fail, whatever they render |
| ApiServer.WindowResult | src/daemon/khronicle_api_server.cpp:235-249 | a successful event query renders exactly the events of its window, each once |
| ApiServer.SummaryOfWindow | src/daemon/khronicle_api_server.cpp:345-405 | the summary of a window and the events of the same window both succeed or both fail, and totalEvents is the number of events listed |
| ApiServer.SummaryAgreesWithChanges | src/daemon/khronicle_api_server.cpp:228-405 | for the same since parameter, summary_since succeeds exactly when get_changes_since does, and its totalEvents is the number of events get_changes_since lists |
| ApiServer.OnlyRuleMethodsWrite | src/daemon/khronicle_api_server.cpp:425-470 | a request asks the store for a rule write only when it is upsert_watch_rule or delete_watch_rule with a non-empty rule id, and then answers {"ok": true} |
| ApiServer.RenderEvents | src/daemon/khronicle_api_server.cpp:235-237 | the match renders the events of the window as the result the method returns: the events themselves as here, or the summary of lines 354-391, or the counterfactual of lines 513-520 |
| ApiServer.KhronicleApiServer.constructor | src/daemon/khronicle_api_server.cpp:76-80 | a server over the store |
| ApiServer.KhronicleApiServer.AnswerWindow | src/daemon/khronicle_api_server.cpp:235-249 | queries the store for the window and answers with the rendered events or the read error |
| ApiServer.KhronicleApiServer.ChangesSince | src/daemon/khronicle_api_server.cpp:228-250 | a "since" that is not a string gives its type error, one that does not parse gives "Invalid since timestamp", otherwise the events from that second on, in time order |
| ApiServer.KhronicleApiServer.ChangesBetween | src/daemon/khronicle_api_server.cpp:252-277 | "Invalid from/to timestamp" when either bound does not parse, otherwise the events between the two seconds inclusive, in time order |
| ApiServer.KhronicleApiServer.ListSnapshots | src/daemon/khronicle_api_server.cpp:279-295 | every stored snapshot exactly once, in time order |
| ApiServer.KhronicleApiServer.GetSnapshot | src/daemon/khronicle_api_server.cpp:297-320 | "Missing snapshot id" for an empty id, "Snapshot not found" for an unknown one, otherwise the stored snapshot |
| ApiServer.KhronicleApiServer.DiffSnapshots | src/daemon/khronicle_api_server.cpp:322-343 | "Missing snapshot ids" when either id is empty, otherwise the store's diff of the two, with the audit entry recorded only when both snapshots exist; no other table changes |
| ApiServer.KhronicleApiServer.UpsertWatchRule | src/daemon/khronicle_api_server.cpp:425-448 | "Missing rule object" without a rule object, "Missing rule id" for a rule without id, otherwise asks the store to upsert the rule and answers {"ok": true} |
| ApiServer.KhronicleApiServer.DeleteWatchRule | src/daemon/khronicle_api_server.cpp:450-470 | "Missing rule id" for an empty id, otherwise asks the store to delete the rule and answers {"ok": true} |
| ApiServer.KhronicleApiServer.WatchSignalsSince | src/daemon/khronicle_api_server.cpp:472-493 | "Invalid since timestamp" when since does not parse, otherwise the store's signals since that time |
| ApiServer.KhronicleApiServer.ExplainChangeBetween | src/daemon/khronicle_api_server.cpp:495-534 | "Invalid from/to timestamp", then "Snapshots not found" when no snapshot lies before from or after to, otherwise the counterfactual of those snapshots over the events between from and to |
| ApiServer.KhronicleApiServer.WhatChangedSinceLastGood | src/daemon/khronicle_api_server.cpp:536-571 | "Missing referenceSnapshotId", then "Snapshots not found" for an unknown reference, otherwise the counterfactual from the reference to a latest stored snapshot over the events between them |
| ApiServer.KhronicleApiServer.AnswerReading | src/daemon/khronicle_api_server.cpp:227-581 | dispatches a valid request other than diff_snapshots to its method in the handler's order, an unknown name answering "Unknown method" |
| ApiServer.KhronicleApiServer.HandleRequestPayload | src/daemon/khronicle_api_server.cpp:159-593 | answers every payload as its validation and method prescribe; only a diff of two stored snapshots writes an audit entry, and no other table changes |

Where the system's design description and its code differ, the model follows the code:

- The daemon never runs the risk classifier on ingested events. Events keep the risk level
  the parsers give them, and an empty level is stored and read back as "info".
- The API server does not dispatch `get_daemon_status`, so that name answers "Unknown method".
- The events table stores neither the host id the daemon stamps on events nor their own
  `hostId` field (`Daemon.StampNotStored`).
- The kernel-change event written by `runSnapshotCheck` carries an empty risk level.
- The query method is spelled `get_watch_signals_since`.

## Left out

- SQLite itself: statements, bindings, transactions, the schema text (`schemaSql`), the
  `ALTER TABLE` migrations and `integrityCheck` are a foreign library. The tables are maps
  keyed by id. Every optional column (`has*Column`) is taken as present.
- `getEventProvenance` and `getAuditLogSince` are not part of this model; no operation of the core calls them.
- Store rows that SQLite orders by timestamp with ties keep no particular order among the
  ties. The query contracts state sortedness and exact membership, not a tie order.
- Store.KhronicleStore.QueryEvents: when several rows fail to decode, which row's error is reported is not specified.
- The watch-rule and watch-signal tables (`upsertWatchRule`, `deleteWatchRule`,
  `getWatchSignalsSince`) and `getSnapshotBefore`/`getSnapshotAfter` have no implementation in
  `khronicle_store.cpp`. Lookups are parameters of the API model, and a rule write is returned
  as a value rather than applied.
- The JSON conversions of `WatchRule` and `WatchSignal` are not part of this model.
- The storage of the host identity (`getHostIdentity` has no implementation in the store source)
  is a field set when the store is built.
- A failure to write the diff audit entry is swallowed by the source. The model's audit write
  cannot fail, so only the successful path is modelled.
- UUID generation, the wall clock (`now`) and `localtime_r` are passed in as parameters:
  fresh ids, a time point and a local minutes-of-day function.
- ISO-8601 formatting and parsing (`gmtime`, `std::get_time`, `timegm`) are a `Calendar`
  parameter whose two halves are assumed inverse where a lemma needs it. The pacman and
  journal timestamp parsers (`std::get_time`, `mktime`, `QDateTime`) are also parameters.
- `std::hash` in journal event ids is a parameter of the journal model.
- JSON text (`nlohmann::json::parse` and `dump`) is not modelled: values are a JSON datatype,
  and a payload that fails to parse is `None`. Floating-point JSON
  numbers are left out.
- Lower-casing, whitespace and digit tests are the ASCII ("C" locale) ones; Unicode case
  folding of `QString` is not modelled.
- `parseJournalSince` runs `journalctl` as a process, and the snapshot builder and
  `process_utils` run commands. They are left out; the model starts from the lines or the
  snapshot they would produce.
- The pacman log is read as a character sequence, or none when it cannot be opened. A
  `tellg` that returns -1 is not modelled.
- Sockets, the Qt event loop, `KhronicleApiServer::start`, the connection handlers and
  `KhronicleDaemon::start` with its `QTimer` are I/O. The daemon model runs one cycle at a time.
- Logging, scenario capture and the `durationMs` measurements have no effect on state and are left out.
- The millisecond clock is read once per cycle and the same time point is passed to every
  step. So a rule reload in the middle of a cycle, which a slow cycle could reach in the
  source, is not modelled: every evaluation of a cycle reads the same rule cache.
- Counters and ids that the source holds in `int` (request ids aside, which are wrapped to
  32 bits by `ApiServer.ToInt32`) are unbounded integers. Their overflow is not modelled.
- Epoch seconds read from SQLite `int64` columns are assumed to be in range.
- Daemon.PersistLoadRoundTrip: it excludes watermarks in epoch second 0 or -1. Those read
  back as the default start: second 0 is the epoch that marks a failed parse, and `timegm`
  returning -1 is also taken as a failure.
