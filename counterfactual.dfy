/** computeCounterfactual (src/daemon/counterfactual.cpp): the field-by-field
    diff of two snapshots, and its explanation. The same diff is computed
    by KhronicleStore::diffSnapshots, which calls ComputeDiff here. */
module Counterfactual {
  import opened JsonModel
  import opened Models
  import opened Text
  import opened ChangeExplainer

  datatype CounterfactualResult = CounterfactualResult(
    baselineSnapshotId: string,
    comparisonSnapshotId: string,
    diff: KhronicleDiff,
    explanationSummary: string)

  /* ---------------- std::set<std::string> iteration ---------------- */

  /** m precedes every other element of s. */
  predicate IsLeast(m: string, s: set<string>)
  {
    m in s && forall k :: k in s && k != m ==> StringLess(m, k)
  }

  lemma {:induction false} LeastExists(s: set<string>)
    requires s != {}
    ensures exists m :: IsLeast(m, s)
    decreases s
  {
    var x :| x in s;
    if s != {x} {
      LeastExists(s - {x});
      var m :| IsLeast(m, s - {x});
      if StringLess(x, m) {
        forall k | k in s && k != x ensures StringLess(x, k) {
          if k != m {
            StringLessTransitive(x, m, k);
          }
        }
        assert IsLeast(x, s);
      } else {
        StringLessTotal(x, m);
        assert IsLeast(m, s);
      }
    } else {
      assert IsLeast(x, s);
    }
  }

  lemma LeastUnique(m1: string, m2: string, s: set<string>)
    requires IsLeast(m1, s) && IsLeast(m2, s)
    ensures m1 == m2
  {
    if m1 != m2 {
      StringLessAsymmetric(m1, m2);
    }
  }

  /** The first element of a non-empty set in ascending order. */
  ghost function Least(s: set<string>): (m: string)
    requires s != {}
    ensures IsLeast(m, s)
  {
    LeastExists(s);
    var m :| IsLeast(m, s);
    m
  }

  /** The elements of s in ascending order, as a range-for over a
      std::set visits them. */
  ghost function SortedKeys(s: set<string>): seq<string>
    decreases s
  {
    if s == {} then [] else [Least(s)] + SortedKeys(s - {Least(s)})
  }

  lemma SortedKeysStep(s: set<string>, m: string)
    requires IsLeast(m, s)
    ensures SortedKeys(s) == [m] + SortedKeys(s - {m})
  {
    LeastUnique(m, Least(s), s);
  }

  /** SortedKeys lists exactly the elements of s, in strictly ascending
      order. */
  lemma {:induction false} SortedKeysSpec(s: set<string>)
    ensures forall k :: k in SortedKeys(s) <==> k in s
    ensures forall i, j :: 0 <= i < j < |SortedKeys(s)| ==> StringLess(SortedKeys(s)[i], SortedKeys(s)[j])
    decreases s
  {
    if s != {} {
      var m := Least(s);
      SortedKeysSpec(s - {m});
      var r := SortedKeys(s);
      forall i, j | 0 <= i < j < |r| ensures StringLess(r[i], r[j]) {
        if i == 0 {
          assert r[j] in SortedKeys(s - {m});
        } else {
          assert r[i] == SortedKeys(s - {m})[i - 1] && r[j] == SortedKeys(s - {m})[j - 1];
        }
      }
    }
  }

  /* ---------------- Specification ---------------- */

  /** The entries for the scalar fields, in the order they are compared. */
  function ScalarChanges(baseline: SystemSnapshot, comparison: SystemSnapshot): seq<ChangedField>
  {
    (if baseline.kernelVersion != comparison.kernelVersion
     then [ChangedField("kernelVersion", JStr(baseline.kernelVersion), JStr(comparison.kernelVersion))] else [])
    + (if baseline.gpuDriver != comparison.gpuDriver
       then [ChangedField("gpuDriver", baseline.gpuDriver, comparison.gpuDriver)] else [])
    + (if baseline.firmwareVersions != comparison.firmwareVersions
       then [ChangedField("firmwareVersions", baseline.firmwareVersions, comparison.firmwareVersions)] else [])
  }

  /** The value at key, or null where the key is missing. */
  function ValueOrNull(m: map<string, Json>, key: string): Json
  {
    if key in m then m[key] else JNull
  }

  /** The entry for one key of keyPackages, when its two values differ. */
  function KeyChange(a: map<string, Json>, b: map<string, Json>, key: string): seq<ChangedField>
  {
    var before := ValueOrNull(a, key);
    var after := ValueOrNull(b, key);
    if before != after then [ChangedField("keyPackages." + key, before, after)] else []
  }

  /** The entries for the given keys, in their order. */
  function KeyChanges(a: map<string, Json>, b: map<string, Json>, keys: seq<string>): seq<ChangedField>
  {
    if keys == [] then []
    else KeyChanges(a, b, keys[..|keys| - 1]) + KeyChange(a, b, keys[|keys| - 1])
  }

  /** The diff of two snapshots. */
  ghost function SnapshotDiff(baseline: SystemSnapshot, comparison: SystemSnapshot): KhronicleDiff
  {
    var a := ObjectOrEmpty(baseline.keyPackages);
    var b := ObjectOrEmpty(comparison.keyPackages);
    KhronicleDiff(baseline.id, comparison.id,
      ScalarChanges(baseline, comparison) + KeyChanges(a, b, SortedKeys(a.Keys + b.Keys)))
  }

  /* ---------------- The methods ---------------- */

  /** The two insertion loops: the union of the keys. */
  method CollectKeys(a: map<string, Json>, b: map<string, Json>) returns (keys: set<string>)
    ensures keys == a.Keys + b.Keys
  {
    keys := {};
    var rest := a.Keys;
    while rest != {}
      invariant rest <= a.Keys
      invariant keys == a.Keys - rest
      decreases rest
    {
      var k :| k in rest;
      keys := keys + {k};
      rest := rest - {k};
    }
    rest := b.Keys;
    while rest != {}
      invariant rest <= b.Keys
      invariant keys == a.Keys + (b.Keys - rest)
      decreases rest
    {
      var k :| k in rest;
      keys := keys + {k};
      rest := rest - {k};
    }
  }

  /** The loop over the sorted keys, appending an entry per changed key. */
  method AppendKeyChanges(a: map<string, Json>, b: map<string, Json>, keys: set<string>, fields: seq<ChangedField>)
    returns (result: seq<ChangedField>)
    ensures result == fields + KeyChanges(a, b, SortedKeys(keys))
  {
    result := fields;
    var remaining := keys;
    var done: seq<string> := [];
    while remaining != {}
      invariant SortedKeys(keys) == done + SortedKeys(remaining)
      invariant result == fields + KeyChanges(a, b, done)
      decreases remaining
    {
      LeastExists(remaining);
      var key :| IsLeast(key, remaining);
      SortedKeysStep(remaining, key);
      var before := if key in a then a[key] else JNull;
      var after := if key in b then b[key] else JNull;
      var entry := if before != after then [ChangedField("keyPackages." + key, before, after)] else [];
      assert entry == KeyChange(a, b, key);
      KeyChangesSnoc(a, b, done, key);
      assert result + entry == fields + (KeyChanges(a, b, done) + entry);
      result := result + entry;
      assert done + ([key] + SortedKeys(remaining - {key})) == (done + [key]) + SortedKeys(remaining - {key});
      done := done + [key];
      remaining := remaining - {key};
    }
    assert SortedKeys(remaining) == [];
    assert done == SortedKeys(keys);
  }

  lemma KeyChangesSnoc(a: map<string, Json>, b: map<string, Json>, keys: seq<string>, key: string)
    ensures KeyChanges(a, b, keys + [key]) == KeyChanges(a, b, keys) + KeyChange(a, b, key)
  {
    assert (keys + [key])[..|keys|] == keys;
  }

  /** The three whole-value comparisons. */
  method CompareScalars(baseline: SystemSnapshot, comparison: SystemSnapshot) returns (fields: seq<ChangedField>)
    ensures fields == ScalarChanges(baseline, comparison)
  {
    fields := [];
    if baseline.kernelVersion != comparison.kernelVersion {
      fields := fields + [ChangedField("kernelVersion", JStr(baseline.kernelVersion), JStr(comparison.kernelVersion))];
    }
    if baseline.gpuDriver != comparison.gpuDriver {
      fields := fields + [ChangedField("gpuDriver", baseline.gpuDriver, comparison.gpuDriver)];
    }
    if baseline.firmwareVersions != comparison.firmwareVersions {
      fields := fields + [ChangedField("firmwareVersions", baseline.firmwareVersions, comparison.firmwareVersions)];
    }
  }

  /** The diff as computeCounterfactual and diffSnapshots build it. */
  method ComputeDiff(baseline: SystemSnapshot, comparison: SystemSnapshot) returns (diff: KhronicleDiff)
    ensures diff == SnapshotDiff(baseline, comparison)
  {
    var fields := CompareScalars(baseline, comparison);
    var a := if baseline.keyPackages.JObj? then baseline.keyPackages.fields else map[];
    var b := if comparison.keyPackages.JObj? then comparison.keyPackages.fields else map[];
    var keys := CollectKeys(a, b);
    fields := AppendKeyChanges(a, b, keys, fields);
    diff := KhronicleDiff(baseline.id, comparison.id, fields);
  }

  /** The counterfactual result: the diff of the two snapshots and the
      explanation of that diff together with the intervening events. */
  method ComputeCounterfactual(baseline: SystemSnapshot, comparison: SystemSnapshot, interveningEvents: seq<KhronicleEvent>)
    returns (result: CounterfactualResult)
    ensures result.baselineSnapshotId == result.diff.snapshotAId == baseline.id
    ensures result.comparisonSnapshotId == result.diff.snapshotBId == comparison.id
    ensures result.diff == SnapshotDiff(baseline, comparison)
    ensures result.explanationSummary == Explanation(result.diff, interveningEvents)
  {
    var diff := ComputeDiff(baseline, comparison);
    var summary := ExplainChange(diff, interveningEvents);
    result := CounterfactualResult(baseline.id, comparison.id, diff, summary);
  }

  /* ---------------- Properties ---------------- */

  lemma PackagePathsDiffer(key: string)
    ensures "keyPackages." + key != "kernelVersion"
    ensures "keyPackages." + key != "gpuDriver"
    ensures "keyPackages." + key != "firmwareVersions"
  {
    assert ("keyPackages." + key)[2] == 'y';
    assert "kernelVersion"[2] == 'r';
  }

  /** Every entry of KeyChanges is a keyPackages entry for one of the keys
      whose values differ, and every such key has one. */
  lemma {:induction false} KeyChangesSpec(a: map<string, Json>, b: map<string, Json>, keys: seq<string>)
    ensures forall f :: f in KeyChanges(a, b, keys) ==>
      exists key :: (key in keys && f == ChangedField("keyPackages." + key, ValueOrNull(a, key), ValueOrNull(b, key))
        && ValueOrNull(a, key) != ValueOrNull(b, key))
    ensures forall key :: key in keys && ValueOrNull(a, key) != ValueOrNull(b, key) ==>
      ChangedField("keyPackages." + key, ValueOrNull(a, key), ValueOrNull(b, key)) in KeyChanges(a, b, keys)
  {
    if keys != [] {
      var init := keys[..|keys| - 1];
      KeyChangesSpec(a, b, init);
      assert keys == init + [keys[|keys| - 1]];
      forall f | f in KeyChanges(a, b, keys)
        ensures exists key :: (key in keys && f == ChangedField("keyPackages." + key, ValueOrNull(a, key), ValueOrNull(b, key))
          && ValueOrNull(a, key) != ValueOrNull(b, key))
      {
        if f in KeyChanges(a, b, init) {
          var key :| key in init && f == ChangedField("keyPackages." + key, ValueOrNull(a, key), ValueOrNull(b, key))
            && ValueOrNull(a, key) != ValueOrNull(b, key);
          assert key in keys;
        } else {
          assert f in KeyChange(a, b, keys[|keys| - 1]);
        }
      }
    }
  }

  /** Which paths the scalar comparisons record. */
  lemma ScalarPaths(baseline: SystemSnapshot, comparison: SystemSnapshot)
    ensures var scalars := ScalarChanges(baseline, comparison);
      && (HasPath(scalars, "kernelVersion") <==> baseline.kernelVersion != comparison.kernelVersion)
      && (HasPath(scalars, "gpuDriver") <==> baseline.gpuDriver != comparison.gpuDriver)
      && (HasPath(scalars, "firmwareVersions") <==> baseline.firmwareVersions != comparison.firmwareVersions)
  {
    var k := if baseline.kernelVersion != comparison.kernelVersion
      then [ChangedField("kernelVersion", JStr(baseline.kernelVersion), JStr(comparison.kernelVersion))] else [];
    var g := if baseline.gpuDriver != comparison.gpuDriver
      then [ChangedField("gpuDriver", baseline.gpuDriver, comparison.gpuDriver)] else [];
    var f := if baseline.firmwareVersions != comparison.firmwareVersions
      then [ChangedField("firmwareVersions", baseline.firmwareVersions, comparison.firmwareVersions)] else [];
    HasPathConcat(k, g, "kernelVersion");
    HasPathConcat(k + g, f, "kernelVersion");
    HasPathConcat(k, g, "gpuDriver");
    HasPathConcat(k + g, f, "gpuDriver");
    HasPathConcat(k, g, "firmwareVersions");
    HasPathConcat(k + g, f, "firmwareVersions");
    assert ScalarChanges(baseline, comparison) == k + g + f;
    if k != [] {
      assert k[0].path == "kernelVersion";
    }
    if g != [] {
      assert g[0].path == "gpuDriver";
    }
    if f != [] {
      assert f[0].path == "firmwareVersions";
    }
  }

  /** The diff ids are the snapshot ids; a scalar entry exists exactly
      when that field differs, and the kernel entry carries the two
      versions. */
  lemma DiffScalars(baseline: SystemSnapshot, comparison: SystemSnapshot)
    ensures var d := SnapshotDiff(baseline, comparison);
      && d.snapshotAId == baseline.id && d.snapshotBId == comparison.id
      && (HasPath(d.changedFields, "kernelVersion") <==> baseline.kernelVersion != comparison.kernelVersion)
      && (HasPath(d.changedFields, "gpuDriver") <==> baseline.gpuDriver != comparison.gpuDriver)
      && (HasPath(d.changedFields, "firmwareVersions") <==> baseline.firmwareVersions != comparison.firmwareVersions)
      && (baseline.kernelVersion != comparison.kernelVersion ==>
            d.changedFields[0] == ChangedField("kernelVersion", JStr(baseline.kernelVersion), JStr(comparison.kernelVersion)))
  {
    var a := ObjectOrEmpty(baseline.keyPackages);
    var b := ObjectOrEmpty(comparison.keyPackages);
    var scalars := ScalarChanges(baseline, comparison);
    var keyed := KeyChanges(a, b, SortedKeys(a.Keys + b.Keys));
    KeyChangesSpec(a, b, SortedKeys(a.Keys + b.Keys));
    ScalarPaths(baseline, comparison);
    forall p | p == "kernelVersion" || p == "gpuDriver" || p == "firmwareVersions"
      ensures !HasPath(keyed, p)
    {
      if HasPath(keyed, p) {
        var k :| 0 <= k < |keyed| && keyed[k].path == p;
        assert keyed[k] in keyed;
        var key :| key in SortedKeys(a.Keys + b.Keys) && keyed[k] == ChangedField("keyPackages." + key, ValueOrNull(a, key), ValueOrNull(b, key))
          && ValueOrNull(a, key) != ValueOrNull(b, key);
        PackagePathsDiffer(key);
      }
    }
    HasPathConcat(scalars, keyed, "kernelVersion");
    HasPathConcat(scalars, keyed, "gpuDriver");
    HasPathConcat(scalars, keyed, "firmwareVersions");
    assert SnapshotDiff(baseline, comparison).changedFields == scalars + keyed;
  }

  /** A keyPackages entry exists for a key exactly when the key is on
      either side and its two values (null where missing) differ. */
  lemma DiffKeyPackages(baseline: SystemSnapshot, comparison: SystemSnapshot, key: string)
    ensures var a := ObjectOrEmpty(baseline.keyPackages);
      var b := ObjectOrEmpty(comparison.keyPackages);
      var entry := ChangedField("keyPackages." + key, ValueOrNull(a, key), ValueOrNull(b, key));
      entry in SnapshotDiff(baseline, comparison).changedFields <==> (key in a || key in b) && ValueOrNull(a, key) != ValueOrNull(b, key)
  {
    var a := ObjectOrEmpty(baseline.keyPackages);
    var b := ObjectOrEmpty(comparison.keyPackages);
    var entry := ChangedField("keyPackages." + key, ValueOrNull(a, key), ValueOrNull(b, key));
    var keys := SortedKeys(a.Keys + b.Keys);
    SortedKeysSpec(a.Keys + b.Keys);
    KeyChangesSpec(a, b, keys);
    var scalars := ScalarChanges(baseline, comparison);
    PackagePathsDiffer(key);
    assert entry !in scalars;
    if entry in KeyChanges(a, b, keys) {
      var k :| k in keys && entry == ChangedField("keyPackages." + k, ValueOrNull(a, k), ValueOrNull(b, k))
        && ValueOrNull(a, k) != ValueOrNull(b, k);
      assert ("keyPackages." + k)[12..] == k && ("keyPackages." + key)[12..] == key;
    }
  }

  /** The keyPackages entries follow the scalar entries, in strictly
      ascending key order. */
  lemma {:induction false} KeyChangesOrdered(a: map<string, Json>, b: map<string, Json>, keys: seq<string>)
    requires forall i, j :: 0 <= i < j < |keys| ==> StringLess(keys[i], keys[j])
    ensures forall i :: 0 <= i < |KeyChanges(a, b, keys)| ==>
      |KeyChanges(a, b, keys)[i].path| >= 12 && KeyChanges(a, b, keys)[i].path[12..] in keys
    ensures forall i, j :: 0 <= i < j < |KeyChanges(a, b, keys)| ==>
      StringLess(KeyChanges(a, b, keys)[i].path[12..], KeyChanges(a, b, keys)[j].path[12..])
  {
    if keys != [] {
      var init := keys[..|keys| - 1];
      var last := keys[|keys| - 1];
      KeyChangesOrdered(a, b, init);
      var r := KeyChanges(a, b, keys);
      var prev := KeyChanges(a, b, init);
      assert r == prev + KeyChange(a, b, last);
      assert ("keyPackages." + last)[12..] == last;
      forall i | 0 <= i < |r| ensures |r[i].path| >= 12 && r[i].path[12..] in keys {
        if i < |prev| {
          assert r[i] == prev[i];
          assert prev[i].path[12..] in init;
        }
      }
      forall i, j | 0 <= i < j < |r| ensures StringLess(r[i].path[12..], r[j].path[12..]) {
        if j < |prev| {
          assert r[i] == prev[i] && r[j] == prev[j];
        } else {
          assert r[i] == prev[i];
          var x := prev[i].path[12..];
          var n :| 0 <= n < |init| && init[n] == x;
          assert keys[n] == x;
        }
      }
    }
  }

  /** Identical snapshots produce no changed fields. */
  lemma {:induction false} KeyChangesSame(a: map<string, Json>, keys: seq<string>)
    ensures KeyChanges(a, a, keys) == []
  {
    if keys != [] {
      KeyChangesSame(a, keys[..|keys| - 1]);
    }
  }

  lemma DiffOfSelf(s: SystemSnapshot)
    ensures SnapshotDiff(s, s).changedFields == []
  {
    var a := ObjectOrEmpty(s.keyPackages);
    KeyChangesSame(a, SortedKeys(a.Keys + a.Keys));
  }

  /** The entries with before and after exchanged. */
  function Swapped(fields: seq<ChangedField>): seq<ChangedField>
  {
    seq(|fields|, k requires 0 <= k < |fields| => ChangedField(fields[k].path, fields[k].after, fields[k].before))
  }

  lemma {:induction false} KeyChangesSwapped(a: map<string, Json>, b: map<string, Json>, keys: seq<string>)
    ensures KeyChanges(b, a, keys) == Swapped(KeyChanges(a, b, keys))
  {
    if keys != [] {
      KeyChangesSwapped(a, b, keys[..|keys| - 1]);
    }
  }

  lemma SwappedConcat(xs: seq<ChangedField>, ys: seq<ChangedField>)
    ensures Swapped(xs + ys) == Swapped(xs) + Swapped(ys)
  {
  }

  lemma ScalarsSwapped(baseline: SystemSnapshot, comparison: SystemSnapshot)
    ensures ScalarChanges(comparison, baseline) == Swapped(ScalarChanges(baseline, comparison))
  {
    var k := if baseline.kernelVersion != comparison.kernelVersion
      then [ChangedField("kernelVersion", JStr(baseline.kernelVersion), JStr(comparison.kernelVersion))] else [];
    var g := if baseline.gpuDriver != comparison.gpuDriver
      then [ChangedField("gpuDriver", baseline.gpuDriver, comparison.gpuDriver)] else [];
    var f := if baseline.firmwareVersions != comparison.firmwareVersions
      then [ChangedField("firmwareVersions", baseline.firmwareVersions, comparison.firmwareVersions)] else [];
    SwappedConcat(k, g);
    SwappedConcat(k + g, f);
  }

  /** Swapping the snapshots gives the same paths with before and after
      exchanged. */
  lemma DiffSwapped(baseline: SystemSnapshot, comparison: SystemSnapshot)
    ensures SnapshotDiff(comparison, baseline).changedFields == Swapped(SnapshotDiff(baseline, comparison).changedFields)
  {
    var a := ObjectOrEmpty(baseline.keyPackages);
    var b := ObjectOrEmpty(comparison.keyPackages);
    assert b.Keys + a.Keys == a.Keys + b.Keys;
    var keys := SortedKeys(a.Keys + b.Keys);
    KeyChangesSwapped(a, b, keys);
    ScalarsSwapped(baseline, comparison);
    SwappedConcat(ScalarChanges(baseline, comparison), KeyChanges(a, b, keys));
  }

  /** A keyPackages value that is not an object counts as an empty one. */
  lemma NonObjectKeyPackages(baseline: SystemSnapshot, comparison: SystemSnapshot)
    requires !baseline.keyPackages.JObj?
    ensures SnapshotDiff(baseline, comparison) == SnapshotDiff(baseline.(keyPackages := EmptyObject), comparison)
  {
  }

  /** Snapshots that differ only in the kernel version give an
      explanation that names the kernel even with no events. */
  lemma KernelOnlyCounterfactual(baseline: SystemSnapshot, comparison: SystemSnapshot)
    requires baseline.kernelVersion != comparison.kernelVersion
    requires baseline.gpuDriver == comparison.gpuDriver
    requires baseline.firmwareVersions == comparison.firmwareVersions
    requires baseline.keyPackages == comparison.keyPackages
    ensures Explanation(SnapshotDiff(baseline, comparison), []) == Opening + KernelClause + Closing
  {
    var a := ObjectOrEmpty(baseline.keyPackages);
    KeyChangesSame(a, SortedKeys(a.Keys + a.Keys));
    assert SnapshotDiff(baseline, comparison)
      == KhronicleDiff(baseline.id, comparison.id,
           [ChangedField("kernelVersion", JStr(baseline.kernelVersion), JStr(comparison.kernelVersion))]);
    KernelOnlyDiff(baseline.id, comparison.id, baseline.kernelVersion, comparison.kernelVersion);
  }
}
