/** explainChange (src/daemon/change_explainer.cpp): a one-sentence,
    interpretive summary of a snapshot diff and the events recorded in the
    same interval. */
module ChangeExplainer {
  import opened JsonModel
  import opened Models
  import opened Text

  const KernelClause := "kernel was upgraded"
  const GpuClause := "GPU driver updated"
  const FirmwareClause := "firmware updated"
  const PackagesClause := "key packages changed"

  const NoChangesSentence := "No significant kernel, GPU, or firmware changes were detected during this interval."
  const Opening := "During this interval, the "
  const Closing := ". These changes may explain differences in system behavior."

  /* ---------------- Specification ---------------- */

  /** Some changed field has exactly this path. */
  predicate HasPath(fields: seq<ChangedField>, path: string)
  {
    exists k :: 0 <= k < |fields| && fields[k].path == path
  }

  lemma HasPathConcat(xs: seq<ChangedField>, ys: seq<ChangedField>, path: string)
    ensures HasPath(xs + ys, path) <==> HasPath(xs, path) || HasPath(ys, path)
  {
    if HasPath(xs + ys, path) {
      var k :| 0 <= k < |xs + ys| && (xs + ys)[k].path == path;
      if k >= |xs| {
        assert ys[k - |xs|] == (xs + ys)[k];
      } else {
        assert xs[k] == (xs + ys)[k];
      }
    }
    if HasPath(xs, path) {
      var k :| 0 <= k < |xs| && xs[k].path == path;
      assert (xs + ys)[k] == xs[k];
    }
    if HasPath(ys, path) {
      var k :| 0 <= k < |ys| && ys[k].path == path;
      assert (xs + ys)[|xs| + k] == ys[k];
    }
  }

  predicate IsPackagePath(path: string)
  {
    StartsWith(path, "keyPackages.")
  }

  /** The number of changed fields under keyPackages. */
  function PackagePathCount(fields: seq<ChangedField>): nat
  {
    if fields == [] then 0
    else PackagePathCount(fields[..|fields| - 1]) + (if IsPackagePath(fields[|fields| - 1].path) then 1 else 0)
  }

  /** Some event has this category. */
  predicate HasCategory(events: seq<KhronicleEvent>, c: EventCategory)
  {
    exists k :: 0 <= k < |events| && events[k].category == c
  }

  /** The clauses of the sentence, in their fixed order. */
  function Highlights(diff: KhronicleDiff, events: seq<KhronicleEvent>): seq<string>
  {
    var fields := diff.changedFields;
    (if HasPath(fields, "kernelVersion") || HasCategory(events, Kernel) then [KernelClause] else [])
    + (if HasPath(fields, "gpuDriver") || HasCategory(events, GpuDriver) then [GpuClause] else [])
    + (if HasPath(fields, "firmwareVersions") || HasCategory(events, Firmware) then [FirmwareClause] else [])
    + (if PackagePathCount(fields) > 0 then [PackagesClause] else [])
  }

  /** Clauses joined with ", ", the last one with " and ". */
  function ClauseList(clauses: seq<string>): string
  {
    if |clauses| <= 1 then Join(clauses, ", ")
    else Join(clauses[..|clauses| - 1], ", ") + " and " + clauses[|clauses| - 1]
  }

  /** The sentence explainChange returns. */
  function Explanation(diff: KhronicleDiff, events: seq<KhronicleEvent>): string
  {
    var clauses := Highlights(diff, events);
    if clauses == [] then NoChangesSentence else Opening + ClauseList(clauses) + Closing
  }

  /* ---------------- The method ---------------- */

  /** What the output stream holds after the first i clauses. */
  function Separator(i: nat, n: nat): string
  {
    if i > 0 && i + 1 == n then " and " else if i > 0 then ", " else ""
  }

  function Streamed(clauses: seq<string>, i: nat): string
    requires i <= |clauses|
  {
    if i == 0 then "" else Streamed(clauses, i - 1) + Separator(i - 1, |clauses|) + clauses[i - 1]
  }

  lemma {:induction false} StreamedPrefix(clauses: seq<string>, i: nat)
    requires i < |clauses|
    ensures Streamed(clauses, i) == Join(clauses[..i], ", ")
  {
    if i > 0 {
      StreamedPrefix(clauses, i - 1);
      JoinSnoc(clauses[..i - 1], clauses[i - 1], ", ");
      assert clauses[..i - 1] + [clauses[i - 1]] == clauses[..i];
    }
  }

  /** Streaming the clauses with the loop's separators writes the clause
      list. */
  lemma StreamedIsClauseList(clauses: seq<string>)
    requires |clauses| >= 1
    ensures Streamed(clauses, |clauses|) == ClauseList(clauses)
  {
    var n := |clauses|;
    StreamedPrefix(clauses, n - 1);
    if n == 1 {
      assert clauses[..0] == [];
    }
  }

  /** The scalar paths are not keyPackages paths, so the else-if chain of
      the first loop counts every keyPackages path. */
  lemma ScalarPathsAreNotPackagePaths()
    ensures !IsPackagePath("kernelVersion") && !IsPackagePath("gpuDriver") && !IsPackagePath("firmwareVersions")
  {
    assert "kernelVersion"[2] != "keyPackages."[2];
  }

  /** The first loop: flags for the scalar paths and the number of
      keyPackages paths. */
  method ScanFields(fields: seq<ChangedField>) returns (kernelChange: bool, gpuChange: bool, firmwareChange: bool, packageChanges: nat)
    ensures kernelChange == HasPath(fields, "kernelVersion")
    ensures gpuChange == HasPath(fields, "gpuDriver")
    ensures firmwareChange == HasPath(fields, "firmwareVersions")
    ensures packageChanges == PackagePathCount(fields)
  {
    kernelChange, gpuChange, firmwareChange := false, false, false;
    packageChanges := 0;
    ScalarPathsAreNotPackagePaths();
    var i := 0;
    while i < |fields|
      invariant i <= |fields|
      invariant kernelChange == HasPath(fields[..i], "kernelVersion")
      invariant gpuChange == HasPath(fields[..i], "gpuDriver")
      invariant firmwareChange == HasPath(fields[..i], "firmwareVersions")
      invariant packageChanges == PackagePathCount(fields[..i])
    {
      var path := fields[i].path;
      if path == "kernelVersion" {
        kernelChange := true;
      } else if path == "gpuDriver" {
        gpuChange := true;
      } else if path == "firmwareVersions" {
        firmwareChange := true;
      } else if StartsWith(path, "keyPackages.") {
        packageChanges := packageChanges + 1;
      }
      assert fields[..i + 1][..i] == fields[..i];
      i := i + 1;
    }
    assert fields[..i] == fields;
  }

  /** The second loop: which of the three categories some event has. */
  method ScanEvents(events: seq<KhronicleEvent>) returns (sawKernelEvent: bool, sawGpuEvent: bool, sawFirmwareEvent: bool)
    ensures sawKernelEvent == HasCategory(events, Kernel)
    ensures sawGpuEvent == HasCategory(events, GpuDriver)
    ensures sawFirmwareEvent == HasCategory(events, Firmware)
  {
    sawKernelEvent, sawGpuEvent, sawFirmwareEvent := false, false, false;
    var j := 0;
    while j < |events|
      invariant j <= |events|
      invariant sawKernelEvent == HasCategory(events[..j], Kernel)
      invariant sawGpuEvent == HasCategory(events[..j], GpuDriver)
      invariant sawFirmwareEvent == HasCategory(events[..j], Firmware)
    {
      match events[j].category {
        case Kernel => sawKernelEvent := true;
        case GpuDriver => sawGpuEvent := true;
        case Firmware => sawFirmwareEvent := true;
        case _ =>
      }
      assert events[..j + 1][..j] == events[..j];
      j := j + 1;
    }
    assert events[..j] == events;
  }

  /** The output loop: the clauses written with their separators. */
  method StreamClauses(highlights: seq<string>) returns (text: string)
    requires |highlights| >= 1
    ensures text == ClauseList(highlights)
  {
    text := "";
    var k := 0;
    while k < |highlights|
      invariant k <= |highlights|
      invariant text == Streamed(highlights, k)
    {
      if k > 0 && k + 1 == |highlights| {
        text := text + " and ";
      } else if k > 0 {
        text := text + ", ";
      }
      text := text + highlights[k];
      k := k + 1;
    }
    StreamedIsClauseList(highlights);
  }

  method ExplainChange(diff: KhronicleDiff, events: seq<KhronicleEvent>) returns (summary: string)
    ensures summary == Explanation(diff, events)
  {
    var kernelChange, gpuChange, firmwareChange, packageChanges := ScanFields(diff.changedFields);
    var sawKernelEvent, sawGpuEvent, sawFirmwareEvent := ScanEvents(events);

    var highlights: seq<string> := [];
    if kernelChange || sawKernelEvent {
      highlights := highlights + [KernelClause];
    }
    if gpuChange || sawGpuEvent {
      highlights := highlights + [GpuClause];
    }
    if firmwareChange || sawFirmwareEvent {
      highlights := highlights + [FirmwareClause];
    }
    if packageChanges > 0 {
      highlights := highlights + [PackagesClause];
    }
    assert highlights == Highlights(diff, events);

    if highlights == [] {
      return NoChangesSentence;
    }
    var clauses := StreamClauses(highlights);
    summary := Opening + clauses + Closing;
  }

  /* ---------------- Properties ---------------- */

  lemma {:induction false} PackagePathCountPositive(fields: seq<ChangedField>)
    ensures PackagePathCount(fields) > 0 <==> exists k :: 0 <= k < |fields| && IsPackagePath(fields[k].path)
  {
    if fields != [] {
      var init := fields[..|fields| - 1];
      PackagePathCountPositive(init);
      if exists k :: 0 <= k < |init| && IsPackagePath(init[k].path) {
        var k :| 0 <= k < |init| && IsPackagePath(init[k].path);
        assert fields[k] == init[k];
      }
      if exists k :: 0 <= k < |fields| && IsPackagePath(fields[k].path) {
        var k :| 0 <= k < |fields| && IsPackagePath(fields[k].path);
        if k < |init| {
          assert fields[k] == init[k];
        }
      }
    }
  }

  /** Each clause is present exactly when its field changed or, for the
      kernel, GPU and firmware clauses, an event of its category was
      recorded; events never cause the key-package clause. */
  lemma ClausesIff(diff: KhronicleDiff, events: seq<KhronicleEvent>)
    ensures var clauses := Highlights(diff, events);
      var fields := diff.changedFields;
      && (KernelClause in clauses <==> HasPath(fields, "kernelVersion") || HasCategory(events, Kernel))
      && (GpuClause in clauses <==> HasPath(fields, "gpuDriver") || HasCategory(events, GpuDriver))
      && (FirmwareClause in clauses <==> HasPath(fields, "firmwareVersions") || HasCategory(events, Firmware))
      && (PackagesClause in clauses <==> exists k :: 0 <= k < |fields| && IsPackagePath(fields[k].path))
  {
    PackagePathCountPositive(diff.changedFields);
  }

  /** The position of a clause in the fixed order. */
  function ClauseRank(clause: string): nat
  {
    if clause == KernelClause then 0
    else if clause == GpuClause then 1
    else if clause == FirmwareClause then 2
    else 3
  }

  /** Clauses always appear in the order kernel, GPU, firmware, packages,
      each at most once. */
  lemma ClauseOrder(diff: KhronicleDiff, events: seq<KhronicleEvent>)
    ensures var clauses := Highlights(diff, events);
      forall i, j :: 0 <= i < j < |clauses| ==> ClauseRank(clauses[i]) < ClauseRank(clauses[j])
  {
  }

  /** With no clause the result is the fixed no-change sentence; otherwise
      it opens with "During this interval, the " and closes with the
      sentence about system behaviour. */
  lemma ExplanationFrame(diff: KhronicleDiff, events: seq<KhronicleEvent>)
    ensures Highlights(diff, events) == [] <==> Explanation(diff, events) == NoChangesSentence
    ensures Highlights(diff, events) != [] ==>
      var r := Explanation(diff, events);
      && StartsWith(r, Opening)
      && |Closing| <= |r| && r[|r| - |Closing|..] == Closing
  {
    var r := Explanation(diff, events);
    if Highlights(diff, events) != [] {
      var middle := ClauseList(Highlights(diff, events));
      assert r == Opening + middle + Closing;
      assert r[..|Opening|] == Opening;
      assert r[|r| - |Closing|..] == Closing;
      assert |NoChangesSentence| < |Opening| + |Closing| <= |r|;
    }
  }

  /** Package and System events never change the explanation. */
  lemma OtherEventsIgnored(diff: KhronicleDiff, events: seq<KhronicleEvent>, e: KhronicleEvent)
    requires e.category == Package || e.category == System
    ensures Explanation(diff, events + [e]) == Explanation(diff, events)
  {
    var extended := events + [e];
    forall c | c != Package && c != System
      ensures HasCategory(extended, c) == HasCategory(events, c)
    {
      if HasCategory(extended, c) {
        var k :| 0 <= k < |extended| && extended[k].category == c;
        assert k < |events| && events[k] == extended[k];
      }
      if HasCategory(events, c) {
        var k :| 0 <= k < |events| && events[k].category == c;
        assert extended[k] == events[k];
      }
    }
    assert Highlights(diff, extended) == Highlights(diff, events);
  }

  /** A diff whose only change is the kernel version mentions the kernel
      even when no events were recorded. */
  lemma KernelOnlyDiff(a: string, b: string, before: string, after: string)
    ensures var diff := KhronicleDiff(a, b, [ChangedField("kernelVersion", JStr(before), JStr(after))]);
      Explanation(diff, []) == Opening + KernelClause + Closing
  {
    var diff := KhronicleDiff(a, b, [ChangedField("kernelVersion", JStr(before), JStr(after))]);
    var fields := diff.changedFields;
    assert HasPath(fields, "kernelVersion") by {
      assert fields[0].path == "kernelVersion";
    }
    assert !HasPath(fields, "gpuDriver");
    assert !HasPath(fields, "firmwareVersions");
    ScalarPathsAreNotPackagePaths();
    assert fields[..0] == [];
    assert PackagePathCount(fields) == 0;
    assert Highlights(diff, []) == [KernelClause];
  }
}
