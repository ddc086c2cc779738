/** The risk classifier (src/daemon/risk_classifier.cpp): stamps an event
    with a level info < important < critical and a reason. Each rule that
    fires proposes a level and a reason; the highest level wins and the
    reasons proposed at that level are joined, each ending in '.'. */
module RiskClassifier {
  import opened Text
  import opened Models

  /** severityRank: exact, case-sensitive names. */
  function SeverityRank(level: string): (r: int)
    ensures 0 <= r <= 2
    ensures r == 2 <==> level == "critical"
    ensures r == 1 <==> level == "important"
  {
    if level == "critical" then 2 else if level == "important" then 1 else 0
  }

  /** The reason text after `reason` is added at the current level: a space
      before it when there is already text, and a '.' after it unless the
      text already ends in one. An empty reason adds nothing. */
  function AppendReason(prev: string, reason: string): (r: string)
    ensures reason == "" ==> r == prev
    ensures reason != "" ==> |r| > 0 && r[|r| - 1] == '.'
    ensures reason != "" && reason[|reason| - 1] != '.' ==>
      r == (if prev == "" then "" else prev + " ") + reason + "."
  {
    if reason == "" then prev
    else
      var joined := (if prev == "" then "" else prev + " ") + reason;
      if joined[|joined| - 1] != '.' then joined + "." else joined
  }

  /** updateRisk: a proposal of a higher level replaces the level and
      clears the reasons before the new one is added; a proposal at the
      current level only adds its reason; a lower one changes nothing. */
  method UpdateRisk(event: KhronicleEvent, level: string, reason: string) returns (r: KhronicleEvent)
    ensures SeverityRank(level) < SeverityRank(event.riskLevel) ==> r == event
    ensures SeverityRank(level) > SeverityRank(event.riskLevel) ==>
      r == event.(riskLevel := level, riskReason := AppendReason("", reason))
    ensures SeverityRank(level) == SeverityRank(event.riskLevel) ==>
      r == event.(riskReason := AppendReason(event.riskReason, reason))
    ensures SeverityRank(r.riskLevel) >= SeverityRank(event.riskLevel)
  {
    r := event;
    if SeverityRank(level) > SeverityRank(r.riskLevel) {
      r := r.(riskLevel := level, riskReason := "");
    }
    if SeverityRank(level) == SeverityRank(r.riskLevel) {
      if reason != "" {
        var text := r.riskReason;
        if text != "" {
          text := text + " ";
        }
        text := text + reason;
        if text != "" && text[|text| - 1] != '.' {
          text := text + ".";
        }
        r := r.(riskReason := text);
      }
    }
  }

  /** One rule's proposal. */
  datatype Hit = Hit(level: string, reason: string)

  /** A proposal as the classifier's rules make them: a level above info
      and a non-empty reason without a final '.'. */
  predicate WellFormed(h: Hit)
  {
    SeverityRank(h.level) > 0 && h.reason != "" && h.reason[|h.reason| - 1] != '.'
  }

  /** The rules that fire for an event, in the order the classifier tries
      them. */
  function Hits(category: EventCategory, summary: string): (hs: seq<Hit>)
    ensures forall k :: 0 <= k < |hs| ==> WellFormed(hs[k])
  {
    CategoryHits(category)
    + (if Contains(Lower(summary), "downgraded") then [Hit("important", "Package downgraded")] else [])
  }

  /** The rules on the event's category; at most one of them fires. */
  function CategoryHits(category: EventCategory): (hs: seq<Hit>)
    ensures forall k :: 0 <= k < |hs| ==> WellFormed(hs[k])
  {
    (if category == Kernel then [Hit("critical", "Kernel version changed")] else [])
    + (if category == GpuDriver then [Hit("important", "GPU driver updated")] else [])
    + (if category == Firmware then [Hit("important", "Firmware or microcode updated")] else [])
  }

  /** The classifier's state after the proposals so far: the event with
      the verdict on them. */
  ghost predicate Tracks(event: KhronicleEvent, r: KhronicleEvent, fired: seq<Hit>)
  {
    && (forall k :: 0 <= k < |fired| ==> WellFormed(fired[k]))
    && r == event.(riskLevel := Verdict(fired).0, riskReason := Verdict(fired).1)
  }

  function MaxRank(hs: seq<Hit>): (m: int)
    ensures 0 <= m <= 2
    ensures forall k :: 0 <= k < |hs| ==> SeverityRank(hs[k].level) <= m
  {
    if hs == [] then 0
    else
      var m := MaxRank(hs[..|hs| - 1]);
      var last := SeverityRank(hs[|hs| - 1].level);
      if last > m then last else m
  }

  /** The reasons proposed at the given rank, each with its final '.'. */
  function ReasonsAt(hs: seq<Hit>, rank: int): seq<string>
  {
    if hs == [] then []
    else
      ReasonsAt(hs[..|hs| - 1], rank)
      + (if SeverityRank(hs[|hs| - 1].level) == rank then [hs[|hs| - 1].reason + "."] else [])
  }

  function LevelName(rank: int): string
  {
    if rank == 2 then "critical" else if rank == 1 then "important" else "info"
  }

  /** The level and reason the rules' proposals call for: the highest
      level proposed (info when none) and the reasons proposed at it. */
  function Verdict(hs: seq<Hit>): (string, string)
  {
    (LevelName(MaxRank(hs)), Join(ReasonsAt(hs, MaxRank(hs)), " "))
  }

  function ExpectedLevel(category: EventCategory, summary: string): string
  {
    Verdict(Hits(category, summary)).0
  }

  function ExpectedReason(category: EventCategory, summary: string): string
  {
    Verdict(Hits(category, summary)).1
  }

  lemma ReasonsAtNone(hs: seq<Hit>, rank: int)
    requires forall k :: 0 <= k < |hs| ==> SeverityRank(hs[k].level) < rank
    ensures ReasonsAt(hs, rank) == []
  {
    if hs != [] {
      ReasonsAtNone(hs[..|hs| - 1], rank);
    }
  }

  lemma SnocUnfolds(hs: seq<Hit>, h: Hit, rank: int)
    ensures MaxRank(hs + [h]) == if SeverityRank(h.level) > MaxRank(hs) then SeverityRank(h.level) else MaxRank(hs)
    ensures ReasonsAt(hs + [h], rank)
      == ReasonsAt(hs, rank) + (if SeverityRank(h.level) == rank then [h.reason + "."] else [])
  {
    assert (hs + [h])[..|hs|] == hs;
  }

  lemma JoinNonEmpty(xs: seq<string>, sep: string)
    requires xs != [] && xs[0] != ""
    ensures Join(xs, sep) != ""
  {
  }

  lemma LevelNameRank(m: int)
    requires 0 <= m <= 2
    ensures SeverityRank(LevelName(m)) == m
  {
  }

  /** Applying one more well-formed proposal through updateRisk's rule
      keeps the state equal to the verdict on all proposals so far. */
  lemma {:induction false} VerdictStep(hs: seq<Hit>, h: Hit, level: string, reason: string)
    requires forall k :: 0 <= k < |hs| ==> WellFormed(hs[k])
    requires WellFormed(h)
    requires (level, reason) == Verdict(hs)
    ensures SeverityRank(h.level) < SeverityRank(level) ==> Verdict(hs + [h]) == (level, reason)
    ensures SeverityRank(h.level) > SeverityRank(level) ==> Verdict(hs + [h]) == (h.level, AppendReason("", h.reason))
    ensures SeverityRank(h.level) == SeverityRank(level) ==> Verdict(hs + [h]) == (level, AppendReason(reason, h.reason))
  {
    var all := hs + [h];
    var m := MaxRank(hs);
    var r := SeverityRank(h.level);
    LevelNameRank(m);
    assert SeverityRank(level) == m;
    if r < m {
      SnocUnfolds(hs, h, m);
      assert MaxRank(all) == m;
      assert ReasonsAt(all, m) == ReasonsAt(hs, m);
    } else if r > m {
      SnocUnfolds(hs, h, r);
      ReasonsAtNone(hs, r);
      assert MaxRank(all) == r;
      assert ReasonsAt(all, r) == [h.reason + "."];
      assert Join([h.reason + "."], " ") == h.reason + ".";
      assert h.level == LevelName(r);
      assert AppendReason("", h.reason) == h.reason + ".";
    } else {
      SnocUnfolds(hs, h, m);
      var xs := ReasonsAt(hs, m);
      assert MaxRank(all) == m;
      assert ReasonsAt(all, m) == xs + [h.reason + "."];
      JoinSnoc(xs, h.reason + ".", " ");
      if xs != [] {
        ReasonsEndInDot(hs, m);
        JoinNonEmpty(xs, " ");
        assert reason != "";
        assert AppendReason(reason, h.reason) == reason + " " + h.reason + ".";
        assert reason + " " + h.reason + "." == reason + " " + (h.reason + ".");
      } else {
        assert reason == "";
        assert AppendReason("", h.reason) == h.reason + ".";
      }
    }
  }

  lemma ReasonsEndInDot(hs: seq<Hit>, rank: int)
    ensures forall k :: 0 <= k < |ReasonsAt(hs, rank)| ==> ReasonsAt(hs, rank)[k] != ""
  {
    if hs != [] {
      ReasonsEndInDot(hs[..|hs| - 1], rank);
    }
  }

  /** classify: resets the event to ("info", "") and runs the rules for
      Kernel, GpuDriver, Firmware and a case-insensitive "downgraded" in
      the summary. The result is the verdict on the rules that fired. */
  method Classify(event: KhronicleEvent) returns (r: KhronicleEvent)
    ensures r == event.(riskLevel := ExpectedLevel(event.category, event.summary),
                        riskReason := ExpectedReason(event.category, event.summary))
  {
    r := event.(riskLevel := "info", riskReason := "");
    ghost var fired: seq<Hit> := [];
    assert Verdict(fired) == ("info", "");

    if event.category == Kernel {
      VerdictStep(fired, Hit("critical", "Kernel version changed"), r.riskLevel, r.riskReason);
      r := UpdateRisk(r, "critical", "Kernel version changed");
      fired := fired + [Hit("critical", "Kernel version changed")];
    }
    if event.category == GpuDriver {
      VerdictStep(fired, Hit("important", "GPU driver updated"), r.riskLevel, r.riskReason);
      r := UpdateRisk(r, "important", "GPU driver updated");
      fired := fired + [Hit("important", "GPU driver updated")];
    }
    if event.category == Firmware {
      VerdictStep(fired, Hit("important", "Firmware or microcode updated"), r.riskLevel, r.riskReason);
      r := UpdateRisk(r, "important", "Firmware or microcode updated");
      fired := fired + [Hit("important", "Firmware or microcode updated")];
    }
    assert fired == CategoryHits(event.category);
    assert Tracks(event, r, fired);
    var lowered := LowerInPlace(event.summary);
    if Find(lowered, "downgraded", 0).Some? {
      VerdictStep(fired, Hit("important", "Package downgraded"), r.riskLevel, r.riskReason);
      r := UpdateRisk(r, "important", "Package downgraded");
      fired := fired + [Hit("important", "Package downgraded")];
    }
    assert fired == Hits(event.category, event.summary);
  }

  /** The level is always one of the three names. */
  lemma LevelIsKnown(category: EventCategory, summary: string)
    ensures ExpectedLevel(category, summary) in {"info", "important", "critical"}
  {
  }

  /** A Kernel event is critical for its kernel change alone, whatever its
      summary says: a downgrade's lower proposal adds nothing. */
  lemma KernelIsCritical(summary: string)
    ensures ExpectedLevel(Kernel, summary) == "critical"
    ensures ExpectedReason(Kernel, summary) == "Kernel version changed."
  {
    var k := Hit("critical", "Kernel version changed");
    SnocUnfolds([], k, 2);
    if Contains(Lower(summary), "downgraded") {
      assert Hits(Kernel, summary) == [k] + [Hit("important", "Package downgraded")];
      SnocUnfolds([k], Hit("important", "Package downgraded"), 2);
    } else {
      assert Hits(Kernel, summary) == [] + [k];
    }
  }

  lemma VerdictOfOne(first: Hit)
    requires first.level == "important"
    ensures Verdict([first]) == ("important", first.reason + ".")
  {
    SnocUnfolds([], first, 1);
    assert [] + [first] == [first];
  }

  lemma VerdictOfTwo(first: Hit, second: Hit)
    requires first.level == "important" && second.level == "important"
    ensures Verdict([first, second]) == ("important", first.reason + "." + " " + second.reason + ".")
  {
    var a, b := first.reason + ".", second.reason + ".";
    ReasonsOfTwo(first, second);
    assert [a, b][1..] == [b];
    assert Join([a, b], " ") == a + " " + b;
    assert a + " " + b == first.reason + "." + " " + second.reason + ".";
  }

  lemma ReasonsOfTwo(first: Hit, second: Hit)
    requires first.level == "important" && second.level == "important"
    ensures MaxRank([first, second]) == 1
    ensures ReasonsAt([first, second], 1) == [first.reason + ".", second.reason + "."]
  {
    assert [first, second][..1] == [first];
    assert [first][..0] == [];
    assert SeverityRank(first.level) == 1 && SeverityRank(second.level) == 1;
    assert MaxRank([first]) == 1;
    assert ReasonsAt([first], 1) == [first.reason + "."];
  }

  /** GPU driver and firmware events are important; a downgrade in the
      summary adds its reason at the same level. */
  lemma GpuAndFirmwareAreImportant(category: EventCategory, summary: string)
    requires category == GpuDriver || category == Firmware
    ensures ExpectedLevel(category, summary) == "important"
    ensures !Contains(Lower(summary), "downgraded") ==>
      ExpectedReason(category, summary)
        == (if category == GpuDriver then "GPU driver updated." else "Firmware or microcode updated.")
    ensures Contains(Lower(summary), "downgraded") ==>
      ExpectedReason(category, summary)
        == (if category == GpuDriver then "GPU driver updated" else "Firmware or microcode updated")
           + "." + " " + "Package downgraded" + "."
  {
    var first := Hit("important", if category == GpuDriver then "GPU driver updated" else "Firmware or microcode updated");
    var d := Hit("important", "Package downgraded");
    assert CategoryHits(category) == [first];
    if Contains(Lower(summary), "downgraded") {
      assert Hits(category, summary) == [first] + [d] == [first, d];
      VerdictOfTwo(first, d);
    } else {
      assert Hits(category, summary) == [first] + [] == [first];
      VerdictOfOne(first);
    }
  }

  /** "downgraded" in any letter case raises the level to at least
      important; a Package or System event without it stays info with no
      reason. */
  lemma DowngradeRaisesLevel(category: EventCategory, summary: string)
    ensures Contains(Lower(summary), "downgraded") ==> SeverityRank(ExpectedLevel(category, summary)) >= 1
    ensures (category == Package || category == System) && !Contains(Lower(summary), "downgraded") ==>
      ExpectedLevel(category, summary) == "info" && ExpectedReason(category, summary) == ""
  {
    var hs := Hits(category, summary);
    if Contains(Lower(summary), "downgraded") {
      assert hs[|hs| - 1] == Hit("important", "Package downgraded");
    }
  }
}
