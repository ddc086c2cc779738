/** The package-log parser (src/daemon/pacman_parser.cpp): reads
    /var/log/pacman.log from a byte-offset cursor, keeps the install,
    upgrade and downgrade lines of kernel, GPU-driver and firmware packages,
    and returns them as events with the cursor to resume from. */
module PacmanParser {
  import opened Wrappers
  import opened Text
  import opened JsonModel
  import opened Models

  /** kMaxBytesPerRun: a run stops after the line that brings the bytes
      consumed to 5 MiB. */
  const MaxBytesPerRun: nat := 5 * 1024 * 1024

  const LongLongMax: int := 0x7FFF_FFFF_FFFF_FFFF
  const LongLongMin: int := -0x8000_0000_0000_0000

  /** parseCursor: std::stoll on the stored cursor; a negative value, no
      digits at all, or a value outside long long (out_of_range) means no
      cursor. */
  function ParseCursor(cursor: Option<string>): (r: Option<nat>)
    ensures r.Some? ==> cursor.Some? && LeadingInteger(cursor.value) == Some(r.value as int)
    ensures r.Some? ==> r.value <= LongLongMax
    ensures cursor.Some? && LeadingInteger(cursor.value).Some? && 0 <= LeadingInteger(cursor.value).value <= LongLongMax
            ==> r.Some?
  {
    match cursor
    case None => None
    case Some(text) =>
      match LeadingInteger(text)
      case None => None
      case Some(v) =>
        if v < LongLongMin || v > LongLongMax then None
        else if v < 0 then None
        else Some(v)
  }

  /** A cursor written by std::to_string reads back as the same offset. */
  lemma ParseCursorRoundTrip(n: nat)
    requires n <= LongLongMax
    ensures ParseCursor(Some(NatToString(n))) == Some(n)
  {
    LeadingIntegerOfDigits(n);
  }

  /** trim: two index loops strip C-locale whitespace from both ends. */
  method Trim(value: string) returns (t: string)
    ensures t == Trimmed(value)
  {
    var start := 0;
    while start < |value| && IsSpace(value[start])
      invariant 0 <= start <= |value|
      invariant forall k :: 0 <= k < start ==> IsSpace(value[k])
    {
      start := start + 1;
    }
    var end := |value|;
    while end > start && IsSpace(value[end - 1])
      invariant start <= end <= |value|
      invariant forall k :: end <= k < |value| ==> IsSpace(value[k])
    {
      end := end - 1;
    }
    TrimmedSpec(value, start, end);
    t := value[start..end];
  }


  /** One "[ts] [ALPM] <operation> <package> (<versions>)" line, split. */
  datatype ParsedLine = ParsedLine(timestamp: string, operation: string, packageName: string, versionInfo: string)

  const AlpmTag := " [ALPM] "

  predicate IsOperation(op: string)
  {
    op == "installed" || op == "upgraded" || op == "downgraded"
  }

  /** The line a well-formed entry is read from. */
  function FormatLine(p: ParsedLine): string
  {
    "[" + p.timestamp + "]" + AlpmTag + p.operation + " " + p.packageName + " (" + p.versionInfo + ")"
  }

  /** parseLine: the line must start with '[', carry " [ALPM] " after the
      first ']', name one of the three operations followed by a space, a
      package followed by a space, and a non-empty "( … )" after it. The
      source rejects a wrong operation before it looks for the package; as
      every failed check gives None, checking the operation last gives the
      same result. */
  function ParseLine(line: string): Option<ParsedLine>
  {
    match ParseFields(line)
    case None => None
    case Some(p) => if IsOperation(p.operation) then Some(p) else None
  }

  /** The timestamp between '[' and the first ']', then the " [ALPM] " tag
      somewhere after it. */
  function ParseFields(line: string): Option<ParsedLine>
  {
    if |line| == 0 || line[0] != '[' then None
    else
      match FindChar(line, ']', 0)
      case None => None
      case Some(tsEnd) =>
        match Find(line, AlpmTag, tsEnd)
        case None => None
        case Some(alpmPos) => ParseOperation(line, Substr(line, 1, tsEnd - 1), alpmPos + |AlpmTag|)
  }

  /** After the tag: the operation up to the next space. */
  function ParseOperation(line: string, timestamp: string, opStart: nat): Option<ParsedLine>
  {
    match FindChar(line, ' ', opStart)
    case None => None
    case Some(opEnd) => ParsePackage(line, timestamp, Substr(line, opStart, opEnd - opStart), opEnd + 1)
  }

  /** After the operation: the package name up to the next space, then the
      text between the next '(' and the ')' after it. */
  function ParsePackage(line: string, timestamp: string, operation: string, pkgStart: nat): Option<ParsedLine>
  {
    match FindChar(line, ' ', pkgStart)
    case None => None
    case Some(pkgEnd) =>
      var openParen := FindChar(line, '(', pkgEnd);
      var closeParen := if openParen.None? then None else FindChar(line, ')', openParen.value);
      if openParen.None? || closeParen.None? || closeParen.value <= openParen.value + 1 then None
      else
        Some(ParsedLine(
          timestamp,
          operation,
          Substr(line, pkgStart, pkgEnd - pkgStart),
          Substr(line, openParen.value + 1, closeParen.value - openParen.value - 1)))
  }

  /** A piece between '(' and ')' found in the line. */
  lemma ParenthesisedContains(line: string, o: nat, info: string)
    requires o + |info| + 1 < |line| && line[o] == '(' && line[o + |info| + 1] == ')'
    requires MatchAt(line, info, o + 1)
    ensures Contains(line, "(" + info + ")")
  {
    assert line[o..o + |info| + 2] == [line[o]] + line[o + 1..o + 1 + |info|] + [line[o + |info| + 1]];
    MatchContains(line, "(" + info + ")", o);
  }

  /** The package step keeps the timestamp and operation it is given, and
      reads a space-free name followed by a space, and a non-empty version
      text in parentheses that holds no ')'. */
  lemma ParsePackageShape(line: string, timestamp: string, operation: string, pkgStart: nat, p: ParsedLine)
    requires ParsePackage(line, timestamp, operation, pkgStart) == Some(p)
    ensures p.timestamp == timestamp && p.operation == operation
    ensures MatchAt(line, p.packageName, pkgStart) && MatchAt(line, " ", pkgStart + |p.packageName|)
    ensures forall k :: 0 <= k < |p.packageName| ==> p.packageName[k] != ' '
    ensures p.versionInfo != [] && Contains(line, "(" + p.versionInfo + ")")
    ensures forall k :: 0 <= k < |p.versionInfo| ==> p.versionInfo[k] != ')'
  {
    var pkgEnd := FindChar(line, ' ', pkgStart).value;
    FindCharSpec(line, ' ', pkgStart);
    var o := FindChar(line, '(', pkgEnd).value;
    FindCharSpec(line, '(', pkgEnd);
    var c := FindChar(line, ')', o).value;
    FindCharSpec(line, ')', o);
    MatchAtChar(line, ' ', pkgEnd);
    ParenthesisedContains(line, o, p.versionInfo);
  }

  /** The operation step reads the operation and a space, and hands on
      the timestamp it was given. */
  lemma ParseOperationShape(line: string, timestamp: string, opStart: nat, p: ParsedLine)
    requires ParseOperation(line, timestamp, opStart) == Some(p)
    ensures p.timestamp == timestamp
    ensures MatchAt(line, p.operation, opStart) && MatchAt(line, " ", opStart + |p.operation|)
    ensures MatchAt(line, p.packageName, opStart + |p.operation| + 1)
    ensures MatchAt(line, " ", opStart + |p.operation| + 1 + |p.packageName|)
    ensures forall k :: 0 <= k < |p.packageName| ==> p.packageName[k] != ' '
    ensures p.versionInfo != [] && Contains(line, "(" + p.versionInfo + ")")
    ensures forall k :: 0 <= k < |p.versionInfo| ==> p.versionInfo[k] != ')'
  {
    var opEnd := FindChar(line, ' ', opStart).value;
    FindCharSpec(line, ' ', opStart);
    ParsePackageShape(line, timestamp, Substr(line, opStart, opEnd - opStart), opEnd + 1, p);
    MatchAtChar(line, ' ', opEnd);
  }

  /** The tag, operation, package name and the spaces after them, found
      back to back, are found as one piece. */
  lemma TaggedContains(line: string, tsEnd: nat, alpmPos: nat, timestamp: string, p: ParsedLine)
    requires Find(line, AlpmTag, tsEnd) == Some(alpmPos)
    requires ParseOperation(line, timestamp, alpmPos + |AlpmTag|) == Some(p)
    ensures p.timestamp == timestamp
    ensures Contains(line, AlpmTag + p.operation + " " + p.packageName + " ")
    ensures forall k :: 0 <= k < |p.packageName| ==> p.packageName[k] != ' '
    ensures p.versionInfo != [] && Contains(line, "(" + p.versionInfo + ")")
    ensures forall k :: 0 <= k < |p.versionInfo| ==> p.versionInfo[k] != ')'
  {
    ParseOperationShape(line, timestamp, alpmPos + |AlpmTag|, p);
    FindMatch(line, AlpmTag, tsEnd);
    MatchConcat(line, alpmPos, AlpmTag, p.operation);
    MatchConcat(line, alpmPos, AlpmTag + p.operation, " ");
    MatchConcat(line, alpmPos, AlpmTag + p.operation + " ", p.packageName);
    MatchConcat(line, alpmPos, AlpmTag + p.operation + " " + p.packageName, " ");
    MatchContains(line, AlpmTag + p.operation + " " + p.packageName + " ", alpmPos);
  }

  /** A '[', a piece and a ']' found back to back. */
  lemma BracketedMatch(line: string, timestamp: string)
    requires |timestamp| + 1 < |line| && line[0] == '[' && line[|timestamp| + 1] == ']'
    requires forall i :: 0 <= i < |timestamp| ==> timestamp[i] == line[1 + i]
    ensures MatchAt(line, "[" + timestamp + "]", 0)
  {
    var b := "[" + timestamp + "]";
    forall k | 0 <= k < |b| ensures line[0 + k] == b[k] {
      if 0 < k <= |timestamp| {
        assert b[k] == timestamp[k - 1];
      }
    }
  }

  /** The fields step reads '[', the timestamp up to the first ']', and
      " [ALPM] <operation> <package> " somewhere after it. */
  lemma ParseFieldsShape(line: string, p: ParsedLine)
    requires ParseFields(line) == Some(p)
    ensures |line| > 0 && line[0] == '['
    ensures MatchAt(line, "[" + p.timestamp + "]", 0)
    ensures forall k :: 0 <= k < |p.timestamp| ==> p.timestamp[k] != ']'
    ensures Contains(line, AlpmTag + p.operation + " " + p.packageName + " ")
    ensures forall k :: 0 <= k < |p.packageName| ==> p.packageName[k] != ' '
    ensures p.versionInfo != [] && Contains(line, "(" + p.versionInfo + ")")
    ensures forall k :: 0 <= k < |p.versionInfo| ==> p.versionInfo[k] != ')'
  {
    FindCharSpec(line, ']', 0);
    var tsEnd := FindChar(line, ']', 0).value;
    var alpmPos := Find(line, AlpmTag, tsEnd).value;
    var timestamp := Substr(line, 1, tsEnd - 1);
    assert ParseOperation(line, timestamp, alpmPos + |AlpmTag|) == Some(p);
    TaggedContains(line, tsEnd, alpmPos, timestamp, p);
    BracketedMatch(line, p.timestamp);
  }

  /** What a line parseLine accepts looks like: '[' then the timestamp up
      to the first ']', " [ALPM] <operation> <package> " somewhere after,
      one of the three operations, and a non-empty parenthesised version
      text. */
  lemma ParseLineShape(line: string, p: ParsedLine)
    requires ParseLine(line) == Some(p)
    ensures |line| > 0 && line[0] == '['
    ensures MatchAt(line, "[" + p.timestamp + "]", 0)
    ensures forall k :: 0 <= k < |p.timestamp| ==> p.timestamp[k] != ']'
    ensures IsOperation(p.operation)
    ensures Contains(line, AlpmTag + p.operation + " " + p.packageName + " ")
    ensures forall k :: 0 <= k < |p.packageName| ==> p.packageName[k] != ' '
    ensures p.versionInfo != [] && Contains(line, "(" + p.versionInfo + ")")
    ensures forall k :: 0 <= k < |p.versionInfo| ==> p.versionInfo[k] != ')'
  {
    ParseFieldsShape(line, p);
  }

  /** Where the pieces of a written line sit. */
  lemma FormatLinePieces(p: ParsedLine, rest: string)
    ensures var line := FormatLine(p) + rest;
      var opStart := |p.timestamp| + 2 + |AlpmTag|;
      var pkgStart := opStart + |p.operation| + 1;
      var o := pkgStart + |p.packageName| + 1;
      |line| == o + |p.versionInfo| + 2 + |rest|
      && line[0] == '[' && MatchAt(line, p.timestamp, 1) && line[|p.timestamp| + 1] == ']'
      && MatchAt(line, AlpmTag, |p.timestamp| + 2)
      && MatchAt(line, p.operation, opStart) && MatchAt(line, " ", pkgStart - 1)
      && MatchAt(line, p.packageName, pkgStart) && line[o - 1] == ' '
      && line[o] == '(' && MatchAt(line, p.versionInfo, o + 1)
      && line[o + 1 + |p.versionInfo|] == ')'
  {
  }

  /** A space-free word followed by a space is what find(' ') and substr
      read from where it starts. */
  lemma WordAt(line: string, start: nat, word: string)
    requires forall k :: 0 <= k < |word| ==> word[k] != ' '
    requires MatchAt(line, word, start) && start + |word| < |line| && line[start + |word|] == ' '
    ensures FindChar(line, ' ', start) == Some(start + |word|)
    ensures Substr(line, start, |word|) == word
  {
    forall j | start <= j < start + |word| ensures line[j] != ' ' {
      assert line[start + (j - start)] == word[j - start];
    }
    FindCharFirst(line, ' ', start, start + |word|);
    SubstrMatch(line, start, word);
  }

  /** The package step reads back a name and a version text laid out as
      a line writes them. */
  lemma ParsePackageReads(line: string, timestamp: string, operation: string, pkgStart: nat, packageName: string, info: string)
    requires forall k :: 0 <= k < |packageName| ==> packageName[k] != ' '
    requires info != [] && forall k :: 0 <= k < |info| ==> info[k] != ')'
    requires pkgStart + |packageName| + |info| + 2 < |line|
    requires MatchAt(line, packageName, pkgStart) && line[pkgStart + |packageName|] == ' '
    requires line[pkgStart + |packageName| + 1] == '('
    requires MatchAt(line, info, pkgStart + |packageName| + 2)
    requires line[pkgStart + |packageName| + 2 + |info|] == ')'
    ensures ParsePackage(line, timestamp, operation, pkgStart) == Some(ParsedLine(timestamp, operation, packageName, info))
  {
    var pkgEnd := pkgStart + |packageName|;
    var o := pkgEnd + 1;
    var c := o + 1 + |info|;
    WordAt(line, pkgStart, packageName);
    FindCharFirst(line, '(', pkgEnd, o);
    forall j | o <= j < c ensures line[j] != ')' {
      if j > o { assert line[(o + 1) + (j - o - 1)] == info[j - o - 1]; }
    }
    FindCharFirst(line, ')', o, c);
    SubstrMatch(line, o + 1, info);
  }

  /** The operation step reads back an operation laid out as a line
      writes it. */
  lemma ParseOperationReads(line: string, timestamp: string, opStart: nat, p: ParsedLine)
    requires p.timestamp == timestamp
    requires forall k :: 0 <= k < |p.operation| ==> p.operation[k] != ' '
    requires forall k :: 0 <= k < |p.packageName| ==> p.packageName[k] != ' '
    requires p.versionInfo != [] && forall k :: 0 <= k < |p.versionInfo| ==> p.versionInfo[k] != ')'
    requires var pkgStart := opStart + |p.operation| + 1;
      var o := pkgStart + |p.packageName| + 1;
      o + |p.versionInfo| + 1 < |line|
      && MatchAt(line, p.operation, opStart) && MatchAt(line, " ", pkgStart - 1)
      && MatchAt(line, p.packageName, pkgStart) && line[o - 1] == ' '
      && line[o] == '(' && MatchAt(line, p.versionInfo, o + 1)
      && line[o + 1 + |p.versionInfo|] == ')'
    ensures ParseOperation(line, timestamp, opStart) == Some(p)
  {
    var opEnd := opStart + |p.operation|;
    assert line[opEnd + 0] == " "[0];
    WordAt(line, opStart, p.operation);
    ParsePackageReads(line, timestamp, p.operation, opEnd + 1, p.packageName, p.versionInfo);
  }

  /** Each of the three operations is a single word. */
  lemma OperationHasNoSpace(op: string)
    requires IsOperation(op)
    ensures forall k :: 0 <= k < |op| ==> op[k] != ' '
  {
  }

  /** The fields step reads back the fields a line is written from. */
  lemma ParseFieldsRoundTrip(p: ParsedLine, rest: string)
    requires forall k :: 0 <= k < |p.timestamp| ==> p.timestamp[k] != ']'
    requires forall k :: 0 <= k < |p.operation| ==> p.operation[k] != ' '
    requires forall k :: 0 <= k < |p.packageName| ==> p.packageName[k] != ' '
    requires p.versionInfo != []
    requires forall k :: 0 <= k < |p.versionInfo| ==> p.versionInfo[k] != ')'
    ensures ParseFields(FormatLine(p) + rest) == Some(p)
  {
    var line := FormatLine(p) + rest;
    var tsEnd := |p.timestamp| + 1;
    var alpmPos := tsEnd + 1;
    FormatLinePieces(p, rest);
    forall j | 0 <= j < tsEnd ensures line[j] != ']' {
      if j > 0 { assert line[1 + (j - 1)] == p.timestamp[j - 1]; }
    }
    FindCharFirst(line, ']', 0, tsEnd);
    assert !MatchAt(line, AlpmTag, tsEnd) by { assert line[tsEnd + 0] != AlpmTag[0]; }
    assert Find(line, AlpmTag, alpmPos) == Some(alpmPos);
    assert Find(line, AlpmTag, tsEnd) == Some(alpmPos);
    SubstrMatch(line, 1, p.timestamp);
    ParseOperationReads(line, p.timestamp, alpmPos + |AlpmTag|, p);
  }

  /** The fields a line is written from are the fields parseLine reads
      back, whatever follows the closing parenthesis. */
  lemma ParseLineRoundTrip(p: ParsedLine, rest: string)
    requires forall k :: 0 <= k < |p.timestamp| ==> p.timestamp[k] != ']'
    requires IsOperation(p.operation)
    requires forall k :: 0 <= k < |p.packageName| ==> p.packageName[k] != ' '
    requires p.versionInfo != []
    requires forall k :: 0 <= k < |p.versionInfo| ==> p.versionInfo[k] != ')'
    ensures ParseLine(FormatLine(p) + rest) == Some(p)
  {
    OperationHasNoSpace(p.operation);
    ParseFieldsRoundTrip(p, rest);
  }

  /** splitVersions: (old, new). "installed" and a text without "->" give
      no old version; otherwise the text splits at the first "->" and both
      sides are trimmed. */
  function SplitVersions(p: ParsedLine): (string, string)
  {
    if p.operation == "installed" then ("", Trimmed(p.versionInfo))
    else SplitArrow(p.versionInfo)
  }

  /** The split of a version text at its first "->". */
  function SplitArrow(info: string): (string, string)
  {
    match Find(info, "->", 0)
    case None => ("", Trimmed(info))
    case Some(pos) => (Trimmed(Substr(info, 0, pos)), Trimmed(SubstrFrom(info, pos + 2)))
  }

  /** A version text does not start or end with whitespace. */
  predicate IsVersion(v: string)
  {
    v != [] && IsTrimmed(v)
  }

  /** In "old -> new", with no "->" inside old, the first "->" is the
      one pacman wrote. */
  lemma FirstArrow(before: string, after: string)
    requires !Contains(before, "->")
    ensures Find(before + " -> " + after, "->", 0) == Some(|before| + 1)
  {
    var info := before + " -> " + after;
    var pos := |before| + 1;
    assert MatchAt(info, "->", pos) by {
      assert info[pos] == '-' && info[pos + 1] == '>';
    }
    ContainsIff(before, "->");
    forall j | 0 <= j < pos ensures !MatchAt(info, "->", j) {
      if j < |before| - 1 {
        assert !MatchAt(before, "->", j);
        assert info[j + 0] == before[j + 0] && info[j + 1] == before[j + 1];
      } else if j == |before| - 1 {
        assert info[j + 1] != "->"[1];
      } else {
        assert info[j + 0] != "->"[0];
      }
    }
    FindFirst(info, "->", 0, pos);
  }

  /** The two sides of the arrow in "old -> new". */
  lemma ArrowSides(before: string, after: string)
    ensures Substr(before + " -> " + after, 0, |before| + 1) == "" + before + " "
    ensures SubstrFrom(before + " -> " + after, |before| + 3) == " " + after + ""
  {
    var info := before + " -> " + after;
    assert Substr(info, 0, |before| + 1) == "" + before + " ";
    assert SubstrFrom(info, |before| + 3) == " " + after + "";
  }

  /** pacman writes "(old -> new)" for upgrades and downgrades and
      "(new)" for installs; splitVersions recovers both versions. */
  lemma SplitVersionsRoundTrip(p: ParsedLine, before: string, after: string)
    requires IsVersion(before) && IsVersion(after) && !Contains(before, "->")
    requires p.operation != "installed" && p.versionInfo == before + " -> " + after
    ensures SplitVersions(p) == (before, after)
  {
    ArrowRoundTrip(before, after);
  }

  lemma ArrowRoundTrip(before: string, after: string)
    requires IsVersion(before) && IsVersion(after) && !Contains(before, "->")
    ensures SplitArrow(before + " -> " + after) == (before, after)
  {
    FirstArrow(before, after);
    ArrowSides(before, after);
    PaddedTrimmed("", before, " ");
    PaddedTrimmed(" ", after, "");
  }

  lemma InstalledRoundTrip(p: ParsedLine, after: string)
    requires IsVersion(after)
    requires p.operation == "installed" && p.versionInfo == after
    ensures SplitVersions(p) == ("", after)
  {
    PaddedTrimmed("", after, "");
    assert "" + after + "" == after;
  }

  /** Both halves come back trimmed, and only a split at "->" yields an
      old version. */
  lemma SplitVersionsTrimmed(p: ParsedLine)
    ensures IsTrimmed(SplitVersions(p).0) && IsTrimmed(SplitVersions(p).1)
    ensures SplitVersions(p).0 != "" ==> p.operation != "installed" && Contains(p.versionInfo, "->")
  {
    if p.operation == "installed" {
      TrimmedIsTrimmed(p.versionInfo);
    } else {
      SplitArrowTrimmed(p.versionInfo);
    }
  }

  lemma SplitArrowTrimmed(info: string)
    ensures IsTrimmed(SplitArrow(info).0) && IsTrimmed(SplitArrow(info).1)
    ensures SplitArrow(info).0 != "" ==> Contains(info, "->")
  {
    match Find(info, "->", 0)
    case None =>
      TrimmedIsTrimmed(info);
    case Some(pos) =>
      TrimmedIsTrimmed(Substr(info, 0, pos));
      TrimmedIsTrimmed(SubstrFrom(info, pos + 2));
  }



  /** buildSummary: "installed <pkg> <new>", "<op> <pkg> <old> -> <new>"
      when both versions are known, else "<op> <pkg>". */
  function BuildSummary(p: ParsedLine, oldVersion: string, newVersion: string): (s: string)
    ensures StartsWith(s, p.operation + " " + p.packageName)
    ensures p.operation != "installed" && oldVersion != "" && newVersion != "" ==>
      s == p.operation + " " + p.packageName + " " + oldVersion + " -> " + newVersion
  {
    var head := p.operation + " " + p.packageName;
    if p.operation == "installed" then head + " " + newVersion
    else if oldVersion != "" && newVersion != "" then head + " " + oldVersion + " -> " + newVersion
    else head
  }

  /** The kernel table of categoryForPackage. */
  predicate IsKernelPackage(name: string)
  {
    name == "linux" || name == "linux-cachyos" || name == "linux-zen" || name == "linux-lts"
  }

  /** The GPU-driver table of categoryForPackage. */
  predicate IsGpuDriverPackage(name: string)
  {
    name == "mesa" || name == "mesa-git" || name == "nvidia" || name == "nvidia-dkms"
    || name == "nvidia-utils" || name == "vulkan-radeon" || name == "vulkan-intel"
    || name == "vulkan-nouveau" || name == "xf86-video-amdgpu" || name == "xf86-video-intel"
  }

  /** The firmware table of categoryForPackage. */
  predicate IsFirmwarePackage(name: string)
  {
    name == "linux-firmware" || name == "amd-ucode" || name == "intel-ucode"
  }

  /** categoryForPackage: the kernel table first, then GPU drivers, then
      firmware; anything else is a plain package. */
  function CategoryForPackage(name: string): EventCategory
  {
    if IsKernelPackage(name) then Kernel
    else if IsGpuDriverPackage(name) then GpuDriver
    else if IsFirmwarePackage(name) then Firmware
    else Package
  }

  /** isInterestingPackage, with its own list. */
  predicate IsInterestingPackage(name: string)
  {
    name == "linux" || name == "linux-cachyos" || name == "linux-zen" || name == "linux-lts"
    || name == "mesa" || name == "mesa-git" || name == "nvidia" || name == "nvidia-dkms"
    || name == "nvidia-utils" || name == "vulkan-radeon" || name == "vulkan-intel"
    || name == "vulkan-nouveau" || name == "xf86-video-amdgpu" || name == "xf86-video-intel"
    || name == "linux-firmware" || name == "amd-ucode" || name == "intel-ucode"
  }

  /** The interesting list is exactly the three category tables, so every
      package the parser keeps gets a category other than Package, and
      each table's packages get that table's category. */
  lemma InterestingIsCategorised(name: string)
    ensures IsInterestingPackage(name) <==> CategoryForPackage(name) != Package
    ensures CategoryForPackage(name) == Kernel <==> IsKernelPackage(name)
    ensures CategoryForPackage(name) == GpuDriver <==> IsGpuDriverPackage(name)
    ensures CategoryForPackage(name) == Firmware <==> IsFirmwarePackage(name)
    ensures CategoryForPackage(name) != System
  {
  }

  /** The event one kept line becomes (pacman_parser.cpp:303-321). */
  function MakeEvent(p: ParsedLine, line: string, time: TimePoint): (e: KhronicleEvent)
  {
    var (oldVersion, newVersion) := SplitVersions(p);
    KhronicleEvent(
      "pacman-" + p.timestamp + "-" + p.packageName + "-" + p.operation,
      time,
      CategoryForPackage(p.packageName),
      Pacman,
      BuildSummary(p, oldVersion, newVersion),
      line,
      JObj(if oldVersion != "" then map["version" := JStr(oldVersion)] else map[]),
      JObj(if newVersion != "" then map["version" := JStr(newVersion)] else map[]),
      [p.packageName],
      "info",
      "",
      EmptyProvenance,
      "")
  }

  /** What becomes of one line: unparsable lines count toward the cap
      check, lines of other packages and lines whose timestamp does not
      parse are skipped without it. */
  datatype LineOutcome = Unparsable | Skipped | Emitted(event: KhronicleEvent)

  function ClassifyLine(line: string, localTime: string -> Option<TimePoint>): LineOutcome
  {
    match ParseLine(line)
    case None => Unparsable
    case Some(p) =>
      if !IsInterestingPackage(p.packageName) then Skipped
      else
        match localTime(p.timestamp)
        case None => Skipped
        case Some(t) => Emitted(MakeEvent(p, line, t))
  }

  /** std::getline: the line starting at pos ends at the next '\n' or at
      the end of the data. */
  function LineEnd(data: string, pos: nat): (e: nat)
    requires pos <= |data|
    ensures pos <= e <= |data|
    decreases |data| - pos
  {
    if pos == |data| || data[pos] == '\n' then pos else LineEnd(data, pos + 1)
  }

  /** The line ends at its first '\n', or at the end of the data. */
  lemma {:induction false} LineEndSpec(data: string, pos: nat)
    requires pos <= |data|
    ensures LineEnd(data, pos) < |data| ==> data[LineEnd(data, pos)] == '\n'
    ensures forall k :: pos <= k < LineEnd(data, pos) ==> data[k] != '\n'
    decreases |data| - pos
  {
    if pos < |data| && data[pos] != '\n' {
      LineEndSpec(data, pos + 1);
    }
  }

  /** The position after the line starting at pos. */
  function NextLine(data: string, pos: nat): (n: nat)
    requires pos <= |data|
    ensures pos < n <= |data| || (pos == |data| && n == |data|)
  {
    var e := LineEnd(data, pos);
    if e < |data| then e + 1 else |data|
  }

  /** What the loop does with one line once `total` bytes are counted:
      the events it emits, and whether it stops. Only unparsable lines and
      emitted events check the cap; skipped lines never stop the run. */
  function LineStep(outcome: LineOutcome, total: nat): (r: (seq<KhronicleEvent>, bool))
    ensures r.1 ==> total >= MaxBytesPerRun
    ensures r.0 == if outcome.Emitted? then [outcome.event] else []
  {
    match outcome
    case Unparsable => ([], total >= MaxBytesPerRun)
    case Skipped => ([], false)
    case Emitted(e) => ([e], total >= MaxBytesPerRun)
  }

  /** The run from pos on, with `consumed` bytes already counted and the
      events `emitted` so far: all the events of the run and the cursor it
      ends at, which is the position after the line that hit the cap, or
      the end of the data. `classify` says what becomes of each line; the
      parser uses ClassifyLine. */
  function Scan(data: string, pos: nat, consumed: nat, classify: string -> LineOutcome,
                emitted: seq<KhronicleEvent>): (r: (seq<KhronicleEvent>, nat))
    decreases |data| - pos
  {
    if pos >= |data| then (emitted, |data|)
    else
      var line := data[pos..LineEnd(data, pos)];
      var next := NextLine(data, pos);
      var total := consumed + |line| + 1;
      var step := LineStep(classify(line), total);
      if step.1 then (emitted + step.0, next)
      else Scan(data, next, total, classify, emitted + step.0)
  }

  function Classifier(localTime: string -> Option<TimePoint>): string -> LineOutcome
  {
    line => ClassifyLine(line, localTime)
  }

  datatype PacmanParseResult = PacmanParseResult(events: seq<KhronicleEvent>, newCursor: string, hadError: bool)

  /** The offset reading starts at: the cursor, or 0 when there is none or
      when it lies beyond a non-empty file (rotation or truncation). */
  function StartPosition(fileSize: nat, previousCursor: Option<string>): (p: nat)
    ensures fileSize > 0 ==> p <= fileSize
    ensures ParseCursor(previousCursor).None? ==> p == 0
    ensures ParseCursor(previousCursor).Some? && ParseCursor(previousCursor).value <= fileSize ==>
      p == ParseCursor(previousCursor).value
  {
    var p := ParseCursor(previousCursor).GetOr(0);
    if fileSize > 0 && p > 0 && p > fileSize then 0 else p
  }

  /** A run over a log that is either unreadable (None) or holds the
      given bytes, with `classify` saying what becomes of each line. */
  function RunLog(file: Option<string>, previousCursor: Option<string>,
                  classify: string -> LineOutcome): PacmanParseResult
  {
    match file
    case None => PacmanParseResult([], previousCursor.GetOr("0"), true)
    case Some(data) =>
      var r := Scan(data, StartPosition(|data|, previousCursor), 0, classify, []);
      PacmanParseResult(r.0, NatToString(r.1), false)
  }

  /** parsePacmanLog. `localTime` is parseTimestamp (get_time and mktime
      in the local time zone). */
  function PacmanLog(file: Option<string>, previousCursor: Option<string>,
                     localTime: string -> Option<TimePoint>): PacmanParseResult
  {
    RunLog(file, previousCursor, Classifier(localTime))
  }

  /** std::getline's search for the end of a line. */
  method ReadToBreak(data: string, pos: nat) returns (lineEnd: nat)
    requires pos <= |data|
    ensures lineEnd == LineEnd(data, pos)
  {
    lineEnd := pos;
    while lineEnd < |data| && data[lineEnd] != '\n'
      invariant pos <= lineEnd <= |data|
      invariant forall k :: pos <= k < lineEnd ==> data[k] != '\n'
    {
      lineEnd := lineEnd + 1;
    }
    LineEndSpec(data, pos);
  }

  /** The getline loop from `start`: count the bytes of each line and its
      break, keep what `classify` emits, and stop at the cap after an
      unparsable or an emitted line. */
  method ScanLines(data: string, start: nat, classify: string -> LineOutcome) returns (events: seq<KhronicleEvent>, cursor: nat)
    ensures (events, cursor) == Scan(data, start, 0, classify, [])
  {
    ghost var whole := Scan(data, start, 0, classify, []);
    var pos := start;
    var consumed: nat := 0;
    events := [];
    cursor := |data|;
    var stopped := false;
    while !stopped && pos < |data|
      invariant !stopped ==> cursor == |data| && whole == Scan(data, pos, consumed, classify, events)
      invariant stopped ==> whole == (events, cursor)
      decreases |data| - pos, if stopped then 0 else 1
    {
      var lineEnd := ReadToBreak(data, pos);
      var line := data[pos..lineEnd];
      var next := if lineEnd < |data| then lineEnd + 1 else |data|;
      consumed := consumed + |line| + 1;
      var step := LineStep(classify(line), consumed);
      events := events + step.0;
      if step.1 {
        stopped := true;
        cursor := next;
      }
      pos := next;
    }
  }

  /** parsePacmanLog: an unreadable log reports the error; otherwise the
      run starts at the cursor and returns the offset it ended at. */
  method ParsePacmanLog(file: Option<string>, previousCursor: Option<string>,
                        localTime: string -> Option<TimePoint>) returns (result: PacmanParseResult)
    ensures result == PacmanLog(file, previousCursor, localTime)
  {
    if file.None? {
      return PacmanParseResult([], previousCursor.GetOr("0"), true);
    }
    var data := file.value;
    var start := StartPosition(|data|, previousCursor);
    var events, cursor := ScanLines(data, start, Classifier(localTime));
    result := PacmanParseResult(events, NatToString(cursor), false);
  }

  /** Every event the parser emits comes from a well-formed line of an
      interesting package, with the id, package list, source and version
      fields that line calls for. */
  predicate IsPacmanEvent(e: KhronicleEvent)
  {
    ParseLine(e.details).Some?
    && var p := ParseLine(e.details).value;
    IsInterestingPackage(p.packageName)
    && e.id == "pacman-" + p.timestamp + "-" + p.packageName + "-" + p.operation
    && e.relatedPackages == [p.packageName]
    && e.source == Pacman
    && e.category != Package
    && e.riskLevel == "info"
    && e.beforeState.JObj? && e.afterState.JObj?
    && ("version" in e.beforeState.fields <==> SplitVersions(p).0 != "")
    && ("version" in e.afterState.fields <==> SplitVersions(p).1 != "")
    && ("version" in e.beforeState.fields ==> e.beforeState.fields["version"] == JStr(SplitVersions(p).0))
    && ("version" in e.afterState.fields ==> e.afterState.fields["version"] == JStr(SplitVersions(p).1))
    && StartsWith(e.summary, p.operation + " " + p.packageName)
  }

  lemma EmittedIsPacmanEvent(line: string, localTime: string -> Option<TimePoint>)
    requires ClassifyLine(line, localTime).Emitted?
    ensures IsPacmanEvent(ClassifyLine(line, localTime).event)
  {
    var p := ParseLine(line).value;
    InterestingIsCategorised(p.packageName);
  }

  /** The cursor never moves backwards or past the end of the data, and
      short of the end it sits just after a line break: where the cap
      stopped the run. */
  lemma {:induction false} ScanCursor(data: string, pos: nat, consumed: nat, classify: string -> LineOutcome,
                                      emitted: seq<KhronicleEvent>)
    requires pos <= |data|
    ensures pos <= Scan(data, pos, consumed, classify, emitted).1 <= |data|
    ensures Scan(data, pos, consumed, classify, emitted).1 < |data| ==>
      Scan(data, pos, consumed, classify, emitted).1 > pos && data[Scan(data, pos, consumed, classify, emitted).1 - 1] == '\n'
    decreases |data| - pos
  {
    if pos < |data| {
      var line := data[pos..LineEnd(data, pos)];
      var next := NextLine(data, pos);
      var total := consumed + |line| + 1;
      LineEndSpec(data, pos);
      ScanCursor(data, next, total, classify, emitted + LineStep(classify(line), total).0);
    }
  }

  /** Every event of a run is one emitted before it or one that `classify`
      emitted for some line. */
  lemma {:induction false} ScanEvents(data: string, pos: nat, consumed: nat, classify: string -> LineOutcome,
                                      emitted: seq<KhronicleEvent>, ok: KhronicleEvent -> bool)
    requires pos <= |data|
    requires forall line :: classify(line).Emitted? ==> ok(classify(line).event)
    requires forall k :: 0 <= k < |emitted| ==> ok(emitted[k])
    ensures forall k :: 0 <= k < |Scan(data, pos, consumed, classify, emitted).0| ==> ok(Scan(data, pos, consumed, classify, emitted).0[k])
    decreases |data| - pos
  {
    if pos < |data| {
      var line := data[pos..LineEnd(data, pos)];
      var next := NextLine(data, pos);
      var total := consumed + |line| + 1;
      var more := emitted + LineStep(classify(line), total).0;
      assert forall k :: 0 <= k < |more| ==> ok(more[k]);
      ScanEvents(data, next, total, classify, more, ok);
    }
  }

  /** Every event parsePacmanLog returns is a well-formed package event of
      a kernel, GPU-driver or firmware package. */
  lemma PacmanEventsWellFormed(file: Option<string>, previousCursor: Option<string>, localTime: string -> Option<TimePoint>)
    ensures forall k :: 0 <= k < |PacmanLog(file, previousCursor, localTime).events| ==>
      IsPacmanEvent(PacmanLog(file, previousCursor, localTime).events[k])
  {
    if file.Some? {
      var classify := Classifier(localTime);
      forall line | classify(line).Emitted? ensures IsPacmanEvent(classify(line).event) {
        EmittedIsPacmanEvent(line, localTime);
      }
      var start := StartPosition(|file.value|, previousCursor);
      if start <= |file.value| {
        ScanEvents(file.value, start, 0, classify, [], IsPacmanEvent);
      }
    }
  }

  /** The returned cursor is a decimal offset within the file, at or
      after where the run started; short of the end of the file it sits
      just after a line break. */
  lemma CursorBounds(data: string, previousCursor: Option<string>, classify: string -> LineOutcome)
    ensures var c := Scan(data, StartPosition(|data|, previousCursor), 0, classify, []).1;
      RunLog(Some(data), previousCursor, classify).newCursor == NatToString(c)
      && c <= |data|
      && (|data| > 0 ==> StartPosition(|data|, previousCursor) <= c)
      && (c < |data| ==> c > 0 && data[c - 1] == '\n')
  {
    var start := StartPosition(|data|, previousCursor);
    if start <= |data| {
      ScanCursor(data, start, 0, classify, []);
    }
  }

  /** A run from the end of an unchanged file finds nothing and leaves the
      cursor where it was; with CursorBounds, a run that read to the
      end is followed by a run that reads nothing. */
  lemma ReparseAtEnd(data: string, classify: string -> LineOutcome)
    requires |data| <= LongLongMax
    ensures RunLog(Some(data), Some(NatToString(|data|)), classify)
      == PacmanParseResult([], NatToString(|data|), false)
  {
    ParseCursorRoundTrip(|data|);
    assert StartPosition(|data|, Some(NatToString(|data|))) == |data|;
  }

  /** An unreadable log yields no events, the previous cursor (or "0") and
      the error flag. */
  lemma UnreadableLog(previousCursor: Option<string>, classify: string -> LineOutcome)
    ensures RunLog(None, previousCursor, classify).events == []
    ensures RunLog(None, previousCursor, classify).hadError
    ensures RunLog(None, previousCursor, classify).newCursor
      == if previousCursor.Some? then previousCursor.value else "0"
  {
  }

  /** A cursor beyond a non-empty file starts the run over from the top. */
  lemma CursorPastEndRestarts(data: string, n: nat, classify: string -> LineOutcome)
    requires 0 < |data| < n <= LongLongMax
    ensures RunLog(Some(data), Some(NatToString(n)), classify) == RunLog(Some(data), None, classify)
  {
    ParseCursorRoundTrip(n);
  }
}
