/** The journal-line parser (src/daemon/journal_parser.cpp): lines of
    `journalctl --output=short-iso` become firmware and GPU-driver events,
    and the run reports a watermark for the next query. Running journalctl
    is not part of this model; the lines are an input. */
module JournalParser {
  import opened Wrappers
  import opened JsonModel
  import opened Models
  import opened Text

  /** What one line needs from outside the parser: QDateTime's ISO-8601
      parse of the timestamp token, the ISO text of a time point in UTC, and
      std::hash of the raw line. */
  datatype JournalEnv = JournalEnv(
    parseIso: string -> Option<TimePoint>,
    formatIso: TimePoint -> string,
    hash: string -> nat)

  datatype JournalParseResult = JournalParseResult(events: seq<KhronicleEvent>, lastTimestamp: TimePoint)

  /* ---------------- Splitting a line ---------------- */

  /** The part of "<timestamp> <host> <rest>" after the host: the text
      after the first space is trimmed, and the text after its first space
      is trimmed again. None when either space is missing. extractMessage
      and extractProcess both start this way. */
  function AfterHost(line: string): Option<string>
  {
    match FindChar(line, ' ', 0)
    case None => None
    case Some(firstSpace) =>
      var remainder := Trimmed(SubstrFrom(line, firstSpace + 1));
      match FindChar(remainder, ' ', 0)
      case None => None
      case Some(secondSpace) => Some(Trimmed(SubstrFrom(remainder, secondSpace + 1)))
  }

  /** extractMessage: the trimmed text after the first ": " of the part
      after the host, or that whole part when it has no ": "; empty when
      the line has fewer than two spaces. */
  function ExtractMessage(line: string): string
  {
    match AfterHost(line)
    case None => ""
    case Some(afterHost) =>
      match Find(afterHost, ": ", 0)
      case Some(colon) => Trimmed(SubstrFrom(afterHost, colon + 2))
      case None => afterHost
  }

  /** extractProcess: the trimmed text before that ": ", or empty. */
  function ExtractProcess(line: string): string
  {
    match AfterHost(line)
    case None => ""
    case Some(afterHost) =>
      match Find(afterHost, ": ", 0)
      case Some(colon) => Trimmed(Substr(afterHost, 0, colon))
      case None => ""
  }

  /** A line as journalctl writes it. */
  function FormatJournalLine(timestamp: string, host: string, process: string, message: string): string
  {
    timestamp + " " + host + " " + process + ": " + message
  }

  predicate NoSpace(s: string)
  {
    forall k :: 0 <= k < |s| ==> !IsSpace(s[k])
  }

  /** The tokens of a well-formed line: a timestamp and a host without
      blanks, a trimmed process name without ": ", a trimmed non-empty
      message. */
  predicate WellFormedParts(timestamp: string, host: string, process: string, message: string)
  {
    NoSpace(timestamp) && host != [] && NoSpace(host)
    && IsTrimmed(process) && !Contains(process, ": ")
    && message != [] && IsTrimmed(message)
  }

  /** The text after the host of a well-formed line is "process: message". */
  lemma AfterHostOfLine(timestamp: string, host: string, process: string, message: string)
    requires WellFormedParts(timestamp, host, process, message)
    ensures AfterHost(FormatJournalLine(timestamp, host, process, message)) == Some(process + ": " + message)
  {
    var tail := process + ": " + message;
    var remainder := host + " " + tail;
    var line := FormatJournalLine(timestamp, host, process, message);
    assert line == timestamp + " " + remainder;
    FindCharFirst(line, ' ', 0, |timestamp|);
    assert SubstrFrom(line, |timestamp| + 1) == remainder;
    assert remainder[|remainder| - 1] == message[|message| - 1];
    TrimmedOfTrimmed(remainder);
    FindCharFirst(remainder, ' ', 0, |host|);
    assert SubstrFrom(remainder, |host| + 1) == tail;
    assert tail[|tail| - 1] == message[|message| - 1];
    assert process == [] ==> tail[0] == ':';
    assert process != [] ==> tail[0] == process[0];
    TrimmedOfTrimmed(tail);
  }

  /** extractProcess and extractMessage take a well-formed line apart into
      the process name and the message it was written from. */
  lemma {:induction false} ExtractRoundTrip(timestamp: string, host: string, process: string, message: string)
    requires WellFormedParts(timestamp, host, process, message)
    ensures ExtractProcess(FormatJournalLine(timestamp, host, process, message)) == process
    ensures ExtractMessage(FormatJournalLine(timestamp, host, process, message)) == message
  {
    AfterHostOfLine(timestamp, host, process, message);
    var tail := process + ": " + message;
    FindJunction(process, ": ", message);
    assert Substr(tail, 0, |process|) == process;
    assert SubstrFrom(tail, |process| + 2) == message;
    TrimmedOfTrimmed(process);
    TrimmedOfTrimmed(message);
  }

  /** A line without ": " after the host has no process name, and its
      message is the whole text after the host. */
  lemma NoColonMessage(line: string)
    requires AfterHost(line).Some? && !Contains(AfterHost(line).value, ": ")
    ensures ExtractProcess(line) == ""
    ensures ExtractMessage(line) == AfterHost(line).value
  {
  }

  /* ---------------- The version token ---------------- */

  /** The characters of a version token: digits, '.', '-' and '_'. */
  predicate IsVersionChar(c: char)
  {
    IsDigit(c) || c == '.' || c == '-' || c == '_'
  }

  /** The first position at or after i that is not whitespace. */
  function SkipSpaces(s: string, i: nat): (j: nat)
    requires i <= |s|
    ensures i <= j <= |s|
    decreases |s| - i
  {
    if i < |s| && IsSpace(s[i]) then SkipSpaces(s, i + 1) else i
  }

  /** The end of the run of version characters starting at i. */
  function VersionRunEnd(s: string, i: nat): (j: nat)
    requires i <= |s|
    ensures i <= j <= |s|
    decreases |s| - i
  {
    if i < |s| && IsVersionChar(s[i]) then VersionRunEnd(s, i + 1) else i
  }

  lemma {:induction false} SkipSpacesSpec(s: string, i: nat)
    requires i <= |s|
    ensures forall k :: i <= k < SkipSpaces(s, i) ==> IsSpace(s[k])
    ensures SkipSpaces(s, i) < |s| ==> !IsSpace(s[SkipSpaces(s, i)])
    decreases |s| - i
  {
    if i < |s| && IsSpace(s[i]) {
      SkipSpacesSpec(s, i + 1);
    }
  }

  lemma {:induction false} VersionRunEndSpec(s: string, i: nat)
    requires i <= |s|
    ensures forall k :: i <= k < VersionRunEnd(s, i) ==> IsVersionChar(s[k])
    ensures VersionRunEnd(s, i) < |s| ==> !IsVersionChar(s[VersionRunEnd(s, i)])
    decreases |s| - i
  {
    if i < |s| && IsVersionChar(s[i]) {
      VersionRunEndSpec(s, i + 1);
    }
  }

  /** Where "version" first occurs, ignoring case. */
  function VersionKeyword(message: string): (r: Option<nat>)
    ensures r.Some? ==> r.value + 7 <= |message|
  {
    var found := Find(Lower(message), "version", 0);
    if found.Some? then FindMatch(Lower(message), "version", 0); found else found
  }

  /** The run of version characters that starts at the first non-blank
      at or after `from`, trimmed. */
  function TokenAt(message: string, from: nat): string
    requires from <= |message|
  {
    var start := SkipSpaces(message, from);
    Trimmed(Substr(message, start, VersionRunEnd(message, start) - start))
  }

  /** extractVersionToken, as a value: the token after the first
      "version", or empty. */
  function VersionToken(message: string): string
  {
    match VersionKeyword(message)
    case None => ""
    case Some(index) => TokenAt(message, index + 7)
  }

  /** The token after `from` is the longest run of version characters
      that starts at the first non-blank there. */
  lemma TokenAtSpec(message: string, from: nat)
    requires from <= |message|
    ensures var start := SkipSpaces(message, from);
      var token := TokenAt(message, from);
      (forall k :: from <= k < start ==> IsSpace(message[k]))
      && (start < |message| ==> !IsSpace(message[start]))
      && MatchAt(message, token, start)
      && (forall k :: 0 <= k < |token| ==> IsVersionChar(token[k]))
      && (start + |token| < |message| ==> !IsVersionChar(message[start + |token|]))
  {
    var start := SkipSpaces(message, from);
    var end := VersionRunEnd(message, start);
    SkipSpacesSpec(message, from);
    VersionRunEndSpec(message, start);
    var run := Substr(message, start, end - start);
    assert forall k :: 0 <= k < |run| ==> IsVersionChar(run[k]);
    if run != [] {
      assert !IsSpace(run[0]) && !IsSpace(run[|run| - 1]);
    }
    TrimmedOfTrimmed(run);
    assert MatchAt(message, run, start);
  }

  /** extractVersionToken: find "version" in the lower-cased message,
      skip the whitespace after it, then take digits, '.', '-' and '_'. */
  method ExtractVersionToken(message: string) returns (token: string)
    ensures token == VersionToken(message)
  {
    var index := VersionKeyword(message);
    if index.None? {
      return "";
    }
    token := ReadToken(message, index.value + 7);
  }

  /** The two index loops of extractVersionToken, from just after
      "version". */
  method ReadToken(message: string, from: nat) returns (token: string)
    requires from <= |message|
    ensures token == TokenAt(message, from)
  {
    var start := from;
    while start < |message| && IsSpace(message[start])
      invariant from <= start <= |message|
      invariant SkipSpaces(message, from) == SkipSpaces(message, start)
    {
      start := start + 1;
    }
    var end := start;
    while end < |message| && IsVersionChar(message[end])
      invariant start <= end <= |message|
      invariant VersionRunEnd(message, start) == VersionRunEnd(message, end)
    {
      end := end + 1;
    }
    token := Trimmed(Substr(message, start, end - start));
  }

  /* ---------------- Keyword filters ---------------- */

  /** A firmware update reported by fwupd: the process is fwupd, or the
      message says an update or firmware was installed. */
  predicate IsFwupd(processName: string, lowerMessage: string)
  {
    Contains(processName, "fwupd")
    || Contains(lowerMessage, "firmware update installed")
    || Contains(lowerMessage, "successfully installed firmware")
  }

  predicate IsAmd(lowerMessage: string)
  {
    Contains(lowerMessage, "amdgpu")
  }

  predicate IsNvidia(lowerMessage: string)
  {
    Contains(lowerMessage, "nvidia") || Contains(lowerMessage, "nvidia-modeset") || Contains(lowerMessage, "nvrm")
  }

  /** The "nvidia-modeset" test adds nothing: every message it accepts
      already contains "nvidia". */
  lemma NvidiaModesetRedundant(lowerMessage: string)
    ensures IsNvidia(lowerMessage) <==> Contains(lowerMessage, "nvidia") || Contains(lowerMessage, "nvrm")
  {
    if Contains(lowerMessage, "nvidia-modeset") {
      assert "nvidia-modeset" == "nvidia" + "-modeset";
      ContainsPrefix(lowerMessage, "nvidia", "-modeset");
    }
  }

  /** messageHasGpuSignal: the lower-cased message mentions firmware, a
      version, or loading the NVIDIA driver. */
  predicate MessageHasGpuSignal(message: string)
  {
    var lower := Lower(message);
    Contains(lower, "firmware") || Contains(lower, "version") || Contains(lower, "loading nvidia driver")
  }

  /* ---------------- Events ---------------- */

  /** The text after the first ':' of the message, trimmed, when there is
      text after it. */
  function FirmwareName(message: string): string
  {
    match FindChar(message, ':', 0)
    case None => ""
    case Some(colon) => if colon + 1 < |message| then Trimmed(SubstrFrom(message, colon + 1)) else ""
  }

  /** The event of a fwupd line. */
  function FwupdEvent(env: JournalEnv, line: string, t: TimePoint, message: string, lowerMessage: string): KhronicleEvent
  {
    var firmware := FirmwareName(message);
    KhronicleEvent(
      "journal-" + env.formatIso(t) + "-fwupd-" + NatToString(env.hash(line)),
      t, Firmware, Journal,
      if Contains(lowerMessage, "firmware update installed") then message else "Firmware updated via fwupd",
      line,
      EmptyObject,
      JObj(if firmware != "" then map["firmware" := JStr(firmware)] else map[]),
      ["fwupd"],
      "", "", EmptyProvenance, "")
  }

  /** The event of a GPU-driver line; amdgpu wins over NVIDIA. */
  function GpuEvent(env: JournalEnv, line: string, t: TimePoint, version: string, isAmd: bool): KhronicleEvent
  {
    KhronicleEvent(
      "journal-" + env.formatIso(t) + (if isAmd then "-amdgpu-" else "-nvidia-") + NatToString(env.hash(line)),
      t, GpuDriver, Journal,
      if !isAmd then "NVIDIA driver version loaded"
      else if version != "" then "amdgpu firmware version loaded"
      else "amdgpu firmware/version event",
      line,
      EmptyObject,
      JObj(if version != "" then map["version" := JStr(version)] else map[]),
      [if isAmd then "amdgpu" else "nvidia"],
      "", "", EmptyProvenance, "")
  }

  /** The timestamp of a line: its first token, trimmed, read as ISO-8601;
      None when the line has no space or the token does not parse. */
  function LineTimestamp(env: JournalEnv, line: string): Option<TimePoint>
  {
    match FindChar(line, ' ', 0)
    case None => None
    case Some(space) => env.parseIso(Trimmed(Substr(line, 0, space)))
  }

  /** What one line becomes: a fwupd event, a GPU-driver event, or
      nothing. */
  function LineEvent(env: JournalEnv, line: string): Option<KhronicleEvent>
  {
    match LineTimestamp(env, line)
    case None => None
    case Some(t) =>
      var processName := Lower(ExtractProcess(line));
      var message := ExtractMessage(line);
      var lowerMessage := Lower(message);
      if IsFwupd(processName, lowerMessage) then Some(FwupdEvent(env, line, t, message, lowerMessage))
      else if MessageHasGpuSignal(message) && (IsAmd(lowerMessage) || IsNvidia(lowerMessage)) then
        Some(GpuEvent(env, line, t, VersionToken(message), IsAmd(lowerMessage)))
      else None
  }

  /** The body of the loop for one line. */
  method ReadJournalLine(env: JournalEnv, line: string) returns (event: Option<KhronicleEvent>)
    ensures event == LineEvent(env, line)
  {
    var space := FindChar(line, ' ', 0);
    if space.None? {
      return None;
    }
    var timestamp := env.parseIso(Trimmed(Substr(line, 0, space.value)));
    if timestamp.None? {
      return None;
    }
    var processName := Lower(ExtractProcess(line));
    var message := ExtractMessage(line);
    var lowerMessage := Lower(message);
    var isFwupd := IsFwupd(processName, lowerMessage);
    var isAmd := IsAmd(lowerMessage);
    var isNvidia := IsNvidia(lowerMessage);
    if !isFwupd && !(MessageHasGpuSignal(message) && (isAmd || isNvidia)) {
      return None;
    }
    if isFwupd {
      return Some(FwupdEvent(env, line, timestamp.value, message, lowerMessage));
    }
    var version := ExtractVersionToken(message);
    return Some(GpuEvent(env, line, timestamp.value, version, isAmd));
  }

  /* ---------------- The run ---------------- */

  /** What the loop body makes of each line, as a function the run is
      parameterised by. */
  type LineReader = string -> Option<KhronicleEvent>

  function Reader(env: JournalEnv): LineReader
  {
    line => LineEvent(env, line)
  }

  /** One line folded into the result: an emitted event is appended and
      raises the watermark when it is later. */
  function Step(read: LineReader, line: string, acc: JournalParseResult): JournalParseResult
  {
    match read(line)
    case None => acc
    case Some(e) =>
      JournalParseResult(acc.events + [e], if e.timestamp > acc.lastTimestamp then e.timestamp else acc.lastTimestamp)
  }

  /** The lines from i on, folded into acc. */
  function Run(read: LineReader, lines: seq<string>, i: nat, acc: JournalParseResult): JournalParseResult
    requires i <= |lines|
    decreases |lines| - i
  {
    if i == |lines| then acc else Run(read, lines, i + 1, Step(read, lines[i], acc))
  }

  /** parseJournalOutputLines, as a value. */
  function JournalLines(env: JournalEnv, lines: seq<string>, since: TimePoint): JournalParseResult
  {
    Run(Reader(env), lines, 0, JournalParseResult([], since))
  }

  /** parseJournalOutputLines: the loop over the lines. */
  method ParseJournalOutputLines(env: JournalEnv, lines: seq<string>, since: TimePoint) returns (result: JournalParseResult)
    ensures result == JournalLines(env, lines, since)
  {
    result := JournalParseResult([], since);
    var i := 0;
    while i < |lines|
      invariant i <= |lines|
      invariant Run(Reader(env), lines, i, result) == JournalLines(env, lines, since)
    {
      var event := ReadJournalLine(env, lines[i]);
      assert event == Reader(env)(lines[i]);
      if event.Some? {
        var e := event.value;
        var last := if e.timestamp > result.lastTimestamp then e.timestamp else result.lastTimestamp;
        result := JournalParseResult(result.events + [e], last);
      }
      i := i + 1;
    }
  }

  /* ---------------- Properties ---------------- */

  /** The events a run emits from line i on, in order. */
  function Emitted(read: LineReader, lines: seq<string>, i: nat): seq<KhronicleEvent>
    requires i <= |lines|
    decreases |lines| - i
  {
    if i == |lines| then []
    else match read(lines[i])
      case None => Emitted(read, lines, i + 1)
      case Some(e) => [e] + Emitted(read, lines, i + 1)
  }

  /** Run appends exactly the emitted events to what it was given. */
  lemma {:induction false} RunEvents(read: LineReader, lines: seq<string>, i: nat, acc: JournalParseResult)
    requires i <= |lines|
    ensures Run(read, lines, i, acc).events == acc.events + Emitted(read, lines, i)
    decreases |lines| - i
  {
    if i < |lines| {
      RunEvents(read, lines, i + 1, Step(read, lines[i], acc));
    }
  }

  /** A reader that records each line as the details of its event. */
  ghost predicate KeepsLine(read: LineReader)
  {
    forall line :: read(line).Some? ==> read(line).value.details == line
  }

  /** Every emitted event is the event of one of the lines, and is what
      that line (its details) yields. */
  lemma {:induction false} EmittedFromLines(read: LineReader, lines: seq<string>, i: nat)
    requires i <= |lines|
    requires KeepsLine(read)
    ensures forall k :: 0 <= k < |Emitted(read, lines, i)| ==>
      Emitted(read, lines, i)[k].details in lines[i..]
      && read(Emitted(read, lines, i)[k].details) == Some(Emitted(read, lines, i)[k])
    decreases |lines| - i
  {
    if i < |lines| {
      EmittedFromLines(read, lines, i + 1);
      assert lines[i..] == [lines[i]] + lines[i + 1..];
    }
  }

  /** The event of a line records that line as its details. */
  lemma ReaderKeepsLine(env: JournalEnv)
    ensures KeepsLine(Reader(env))
  {
  }

  /** The result's events are the emitted events of all lines, each the
      event its own line yields. */
  lemma JournalEventsFromLines(env: JournalEnv, lines: seq<string>, since: TimePoint)
    ensures JournalLines(env, lines, since).events == Emitted(Reader(env), lines, 0)
    ensures forall e :: e in JournalLines(env, lines, since).events ==>
      e.details in lines && LineEvent(env, e.details) == Some(e)
  {
    RunEvents(Reader(env), lines, 0, JournalParseResult([], since));
    ReaderKeepsLine(env);
    EmittedFromLines(Reader(env), lines, 0);
    assert lines[0..] == lines;
    forall e | e in JournalLines(env, lines, since).events
      ensures e.details in lines && LineEvent(env, e.details) == Some(e)
    {
      var k :| 0 <= k < |Emitted(Reader(env), lines, 0)| && Emitted(Reader(env), lines, 0)[k] == e;
      assert Reader(env)(e.details) == LineEvent(env, e.details);
    }
  }

  /** The resume point a result reports: never before since, since itself
      when nothing was emitted, no earlier than any event, and either since
      or the timestamp of one of the events. */
  predicate Watermarked(r: JournalParseResult, since: TimePoint)
  {
    && r.lastTimestamp >= since
    && (r.events == [] ==> r.lastTimestamp == since)
    && (forall k :: 0 <= k < |r.events| ==> r.events[k].timestamp <= r.lastTimestamp)
    && (r.lastTimestamp == since || exists k :: 0 <= k < |r.events| && r.events[k].timestamp == r.lastTimestamp)
  }

  /** One step keeps the resume point sound. */
  lemma StepWatermarked(read: LineReader, line: string, acc: JournalParseResult, since: TimePoint)
    requires Watermarked(acc, since)
    ensures Watermarked(Step(read, line, acc), since)
  {
    var next := Step(read, line, acc);
    if read(line).Some? {
      var e := read(line).value;
      assert next.events == acc.events + [e];
      assert next.events[|acc.events|] == e;
      if next.lastTimestamp != since && next.lastTimestamp != e.timestamp {
        var k :| 0 <= k < |acc.events| && acc.events[k].timestamp == acc.lastTimestamp;
        assert next.events[k] == acc.events[k];
      }
    }
  }

  lemma {:induction false} RunWatermarked(read: LineReader, lines: seq<string>, i: nat, acc: JournalParseResult, since: TimePoint)
    requires i <= |lines|
    requires Watermarked(acc, since)
    ensures Watermarked(Run(read, lines, i, acc), since)
    decreases |lines| - i
  {
    if i < |lines| {
      StepWatermarked(read, lines[i], acc, since);
      RunWatermarked(read, lines, i + 1, Step(read, lines[i], acc), since);
    }
  }

  /** lastTimestamp is a sound resume point for the next query. */
  lemma JournalWatermark(env: JournalEnv, lines: seq<string>, since: TimePoint)
    ensures Watermarked(JournalLines(env, lines, since), since)
  {
    RunWatermarked(Reader(env), lines, 0, JournalParseResult([], since), since);
  }

  /** A line without a space, or whose leading token is not a timestamp,
      yields nothing; a line that yields an event passed the fwupd or the
      GPU-driver filter and carries the line's timestamp. */
  lemma LineEventFilters(env: JournalEnv, line: string)
    ensures FindChar(line, ' ', 0).None? ==> LineEvent(env, line).None?
    ensures LineTimestamp(env, line).None? ==> LineEvent(env, line).None?
    ensures LineEvent(env, line).Some? ==>
      var message := ExtractMessage(line);
      var lowerMessage := Lower(message);
      && LineTimestamp(env, line) == Some(LineEvent(env, line).value.timestamp)
      && (IsFwupd(Lower(ExtractProcess(line)), lowerMessage)
          || (MessageHasGpuSignal(message) && (IsAmd(lowerMessage) || IsNvidia(lowerMessage))))
  {
  }

  /** The shape of an emitted event: fwupd lines become firmware events on
      the fwupd package; the rest become GPU-driver events on amdgpu when
      the message names it, else on nvidia; all come from the journal with
      empty before-state. */
  lemma LineEventShape(env: JournalEnv, line: string)
    requires LineEvent(env, line).Some?
    ensures var e := LineEvent(env, line).value;
      var lowerMessage := Lower(ExtractMessage(line));
      && e.source == Journal
      && e.beforeState == EmptyObject
      && (e.category == Firmware <==> IsFwupd(Lower(ExtractProcess(line)), lowerMessage))
      && (e.category == Firmware ==> e.relatedPackages == ["fwupd"])
      && (e.category != Firmware ==>
            e.category == GpuDriver && e.relatedPackages == [if IsAmd(lowerMessage) then "amdgpu" else "nvidia"])
  {
  }

  /** A GPU-driver event records a version exactly when the message has a
      version token, and records that token. */
  lemma GpuEventVersion(env: JournalEnv, line: string, t: TimePoint, version: string, isAmd: bool)
    ensures var e := GpuEvent(env, line, t, version, isAmd);
      && (version != "" <==> e.afterState.JObj? && "version" in e.afterState.fields)
      && (version != "" ==> e.afterState.fields["version"] == JStr(version))
  {
  }

  /** A recorded firmware name is never empty and carries no surrounding
      white space. */
  lemma FirmwareNameTrimmed(message: string)
    ensures IsTrimmed(FirmwareName(message))
  {
    match FindChar(message, ':', 0)
    case None =>
    case Some(colon) =>
      if colon + 1 < |message| {
        TrimmedIsTrimmed(SubstrFrom(message, colon + 1));
      }
  }
}
