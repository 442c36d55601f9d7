/** The stream of the parser's own basic test: a version line, a plan,
    four results, and a YAML block after the second and the fourth. The
    parse is proved for every stream of that shape, then for the test's
    own lines. */
module BasicFile {
  import opened Wrappers
  import opened Text
  import opened Records
  import opened Grammar
  import opened GrammarLemmas
  import opened Session
  import opened SessionLemmas
  import opened LineEffects

  /** What varies between streams of the test's shape: the version, the
      plan's last index, the four descriptions, the directive of the
      fourth result, the block delimiters and the lines of both blocks. */
  datatype Sample = Sample(
    version: nat,
    last: nat,
    first: string,
    second: string,
    third: string,
    fourth: string,
    directive: string,
    open: string,
    firstBlock: seq<string>,
    secondBlock: seq<string>,
    close: string)

  /** The first four lines: version, plan `1..last`, two results. */
  function Opening(s: Sample): seq<string> {
    [FormatVersion(s.version), FormatPlan(1, s.last),
     FormatResult(Ok, 1, s.first, None), FormatResult(NotOk, 2, s.second, None)]
  }

  /** The whole stream, in the order the test writes it. */
  function Stream(s: Sample): seq<string> {
    Opening(s) + [s.open] + s.firstBlock + [s.close]
      + [FormatResult(Ok, 3, s.third, None)] + [FormatResult(NotOk, 4, s.fourth, Some(s.directive))]
      + [s.open] + s.secondBlock + [s.close]
  }

  /** Texts a test line can carry without looking like another kind of
      line: trimmed words of letters other than a capital `A`. */
  predicate PlainResult(description: string, directive: Option<string>) {
    && Trimmed(description) && Words(description)
    && (directive.Some? ==> Trimmed(directive.value) && Words(directive.value))
  }

  predicate Words(s: string) {
    forall k :: 0 <= k < |s| ==> s[k] == ' ' || 'a' <= s[k] <= 'z' || 'B' <= s[k] <= 'Z'
  }

  /** Every line reads as the kind its place in the stream calls for, and
      the plan counts no more tests than the stream reports. */
  predicate WellShaped(s: Sample) {
    && s.version <= 13 && s.last <= 4
    && PlainResult(s.first, None) && PlainResult(s.second, None) && PlainResult(s.third, None)
    && PlainResult(s.fourth, Some(s.directive))
    && IsYamlStart(s.open) && IsYamlEnd(s.close)
    && (forall j :: 0 <= j < |s.firstBlock| ==> !IsYamlEnd(s.firstBlock[j]))
    && (forall j :: 0 <= j < |s.secondBlock| ==> !IsYamlEnd(s.secondBlock[j]))
  }

  function PlanOf(s: Sample): TestPlan {
    TestPlan(Some(""), 1, s.last, false, false)
  }

  /** The result a formatted test line reads as. */
  function Expected(status: Status, index: nat, description: string, directive: Option<string>): TestLine {
    var d := ParseDirective(directive.GetOr(""));
    TestLine(status, index, description, d.text, EmptyText, d.todo, d.skipped, [])
  }

  function R1(s: Sample): TestLine { Expected(Ok, 1, s.first, None) }
  function R2(s: Sample): TestLine { Expected(NotOk, 2, s.second, None) }
  function R3(s: Sample): TestLine { Expected(Ok, 3, s.third, None) }
  function R4(s: Sample): TestLine { Expected(NotOk, 4, s.fourth, Some(s.directive)) }

  /** The state after the first four lines. */
  function Opened(s: Sample): State {
    Start.(
      version := s.version,
      plan := PlanOf(s),
      results := [R1(s), R2(s)],
      events := [VersionSeen(s.version), PlanSeen(PlanOf(s)), TestResultSeen(R1(s)), TestResultSeen(R2(s))])
  }

  /** The state after the first block has closed with document `y`. */
  function AfterFirstBlock(s: Sample, y: Yaml): State {
    Opened(s).(
      yamlContent := Collect("", s.firstBlock),
      results := [R1(s), R2(s).(yaml := Attached(y))],
      events := Opened(s).events + [YamlSeen(2, y)])
  }

  /** The state after the fourth result. */
  function AfterResults(s: Sample, y: Yaml): State {
    var st := AfterFirstBlock(s, y);
    st.(results := st.results + [R3(s), R4(s)],
        events := st.events + [TestResultSeen(R3(s)), TestResultSeen(R4(s))])
  }

  /** When the decoder accepts both blocks, a stream of the test's shape
      parses to its version, the plan `1..last` and the four results in
      order, each block's document on the result before it; the events
      are the results, the plan, the version and the two documents in
      stream order, and no result is padded. */
  lemma ParsesSample(s: Sample, decode: Decoder)
    requires WellShaped(s)
    requires decode(Collect("", s.firstBlock)).Some? && decode(Collect("", s.secondBlock)).Some?
    ensures
      var y1 := decode(Collect("", s.firstBlock)).value;
      var y2 := decode(Collect("", s.secondBlock)).value;
      ParseSpec(Stream(s), decode) ==
        Completed(
          TestSession(s.version, PlanOf(s),
            [R1(s), R2(s).(yaml := Attached(y1)), R3(s), R4(s).(yaml := Attached(y2))], [], false, ""),
          [VersionSeen(s.version), PlanSeen(PlanOf(s)), TestResultSeen(R1(s)), TestResultSeen(R2(s)),
           YamlSeen(2, y1), TestResultSeen(R3(s)), TestResultSeen(R4(s)), YamlSeen(4, y2)])
  {
    RunSecondBlock(s, decode);
    FinishSample(s, decode(Collect("", s.firstBlock)).value, decode(Collect("", s.secondBlock)).value);
  }

  // The stream in four stretches.

  lemma RunOpening(s: Sample, decode: Decoder)
    requires WellShaped(s)
    ensures Run(Opening(s), decode) == Running(Opened(s))
  {
    var v := FormatVersion(s.version);
    var p := FormatPlan(1, s.last);
    var a := FormatResult(Ok, 1, s.first, None);
    RunPlanned(s, decode);
    var s2 := Planned(s);
    ResultAfter([v, p], s2, Ok, 1, s.first, None, decode);
    var s3 := s2.(results := s2.results + [R1(s)], events := s2.events + [TestResultSeen(R1(s))]);
    ResultAfter([v, p] + [a], s3, NotOk, 2, s.second, None, decode);
    OpeningParts(s);
  }

  /** The state after the plan line. */
  function Planned(s: Sample): State {
    Start.(version := s.version, plan := PlanOf(s), events := [VersionSeen(s.version), PlanSeen(PlanOf(s))])
  }

  lemma OpeningParts(s: Sample)
    ensures Opening(s) == [FormatVersion(s.version), FormatPlan(1, s.last)]
      + [FormatResult(Ok, 1, s.first, None)] + [FormatResult(NotOk, 2, s.second, None)]
    ensures
      var s3 := Planned(s).(results := Planned(s).results + [R1(s)], events := Planned(s).events + [TestResultSeen(R1(s))]);
      Opened(s) == s3.(results := s3.results + [R2(s)], events := s3.events + [TestResultSeen(R2(s))])
  {
  }

  /** The version line and the plan line. */
  lemma RunPlanned(s: Sample, decode: Decoder)
    requires WellShaped(s)
    ensures Run([FormatVersion(s.version), FormatPlan(1, s.last)], decode) == Running(Planned(s))
  {
    var v := FormatVersion(s.version);
    assert [v] == [] + [v];
    assert [v, FormatPlan(1, s.last)] == [v] + [FormatPlan(1, s.last)];
    VersionAfter([], Start, s.version, decode);
    PlanAfter([v], Start.(version := s.version, events := Start.events + [VersionSeen(s.version)]), s.last, decode);
    PlannedParts(s);
  }

  lemma PlannedParts(s: Sample)
    ensures
      var st := Start.(version := s.version, events := Start.events + [VersionSeen(s.version)]);
      Planned(s) == st.(plan := PlanOf(s), events := st.events + [PlanSeen(PlanOf(s))])
  {
  }

  /** A version line after lines that left the state `st`. */
  lemma VersionAfter(lines: seq<string>, st: State, version: nat, decode: Decoder)
    requires Run(lines, decode) == Running(st) && !st.yamlMode && version <= 13
    ensures Run(lines + [FormatVersion(version)], decode) ==
      Running(st.(version := version, events := st.events + [VersionSeen(version)]))
  {
    RunThen(lines, FormatVersion(version), decode);
    VersionStep(st, version, decode);
  }

  /** A plan line after lines that left the state `st`. */
  lemma PlanAfter(lines: seq<string>, st: State, last: nat, decode: Decoder)
    requires Run(lines, decode) == Running(st) && !st.yamlMode && last <= 4
    ensures
      var tp := TestPlan(Some(""), 1, last, false, false);
      Run(lines + [FormatPlan(1, last)], decode) == Running(st.(plan := tp, events := st.events + [PlanSeen(tp)]))
  {
    RunThen(lines, FormatPlan(1, last), decode);
    PlanStep(st, last, decode);
  }

  /** A test line after lines that left the state `st`. */
  lemma ResultAfter(lines: seq<string>, st: State, status: Status, index: nat, description: string,
                    directive: Option<string>, decode: Decoder)
    requires Run(lines, decode) == Running(st)
    requires !st.yamlMode && index <= 4 && PlainResult(description, directive)
    ensures
      var t := Expected(status, index, description, directive);
      Run(lines + [FormatResult(status, index, description, directive)], decode) ==
        Running(st.(results := st.results + [t], events := st.events + [TestResultSeen(t)]))
  {
    RunThen(lines, FormatResult(status, index, description, directive), decode);
    ResultStep(st, status, index, description, directive, decode);
  }

  /** A block between `open` and `close` after lines that left the state
      `st`: the decoded document goes to the last result. */
  lemma BlockAfter(lines: seq<string>, st: State, open: string, block: seq<string>, close: string, decode: Decoder)
    requires Run(lines, decode) == Running(st) && !st.yamlMode && st.results != []
    requires IsYamlStart(open) && IsYamlEnd(close)
    requires forall j :: 0 <= j < |block| ==> !IsYamlEnd(block[j])
    requires decode(Collect("", block)).Some?
    ensures
      var y := decode(Collect("", block)).value;
      Run(lines + [open] + block + [close], decode) == Running(st.(
        yamlContent := Collect("", block),
        results := AttachYaml(st.results, y),
        events := st.events + [YamlSeen(|st.results|, y)]))
  {
    RunThen(lines, open, decode);
    YamlStartStep(st, open, decode);
    OpenBlockCollects(lines + [open], block, decode);
    RunThen(lines + [open] + block, close, decode);
    YamlEndStep(st.(yamlMode := true, yamlContent := Collect("", block)), close, decode);
  }

  lemma RunFirstBlock(s: Sample, decode: Decoder)
    requires WellShaped(s) && decode(Collect("", s.firstBlock)).Some?
    ensures Run(Opening(s) + [s.open] + s.firstBlock + [s.close], decode) ==
      Running(AfterFirstBlock(s, decode(Collect("", s.firstBlock)).value))
  {
    RunOpening(s, decode);
    BlockAfter(Opening(s), Opened(s), s.open, s.firstBlock, s.close, decode);
    FirstBlockParts(s, decode(Collect("", s.firstBlock)).value);
  }

  lemma FirstBlockParts(s: Sample, y: Yaml)
    ensures AfterFirstBlock(s, y) == Opened(s).(
      yamlContent := Collect("", s.firstBlock),
      results := AttachYaml(Opened(s).results, y),
      events := Opened(s).events + [YamlSeen(|Opened(s).results|, y)])
  {
  }

  lemma RunMiddle(s: Sample, decode: Decoder)
    requires WellShaped(s) && decode(Collect("", s.firstBlock)).Some?
    ensures Run(Opening(s) + [s.open] + s.firstBlock + [s.close]
        + [FormatResult(Ok, 3, s.third, None)] + [FormatResult(NotOk, 4, s.fourth, Some(s.directive))], decode) ==
      Running(AfterResults(s, decode(Collect("", s.firstBlock)).value))
  {
    var y := decode(Collect("", s.firstBlock)).value;
    var head := Opening(s) + [s.open] + s.firstBlock + [s.close];
    var st := AfterFirstBlock(s, y);
    RunFirstBlock(s, decode);
    ResultAfter(head, st, Ok, 3, s.third, None, decode);
    var st3 := st.(results := st.results + [R3(s)], events := st.events + [TestResultSeen(R3(s))]);
    ResultAfter(head + [FormatResult(Ok, 3, s.third, None)], st3, NotOk, 4, s.fourth, Some(s.directive), decode);
    ResultsParts(s, y);
  }

  lemma ResultsParts(s: Sample, y: Yaml)
    ensures
      var st := AfterFirstBlock(s, y);
      var st3 := st.(results := st.results + [R3(s)], events := st.events + [TestResultSeen(R3(s))]);
      AfterResults(s, y) == st3.(results := st3.results + [R4(s)], events := st3.events + [TestResultSeen(R4(s))])
  {
    var st := AfterFirstBlock(s, y);
    assert st.results + [R3(s)] + [R4(s)] == st.results + [R3(s), R4(s)];
    assert st.events + [TestResultSeen(R3(s))] + [TestResultSeen(R4(s))] ==
      st.events + [TestResultSeen(R3(s)), TestResultSeen(R4(s))];
  }

  lemma RunSecondBlock(s: Sample, decode: Decoder)
    requires WellShaped(s)
    requires decode(Collect("", s.firstBlock)).Some? && decode(Collect("", s.secondBlock)).Some?
    ensures
      var st := AfterResults(s, decode(Collect("", s.firstBlock)).value);
      var y2 := decode(Collect("", s.secondBlock)).value;
      Run(Stream(s), decode) == Running(st.(
        yamlContent := Collect("", s.secondBlock),
        results := AttachYaml(st.results, y2),
        events := st.events + [YamlSeen(|st.results|, y2)]))
  {
    var head := Opening(s) + [s.open] + s.firstBlock + [s.close]
      + [FormatResult(Ok, 3, s.third, None)] + [FormatResult(NotOk, 4, s.fourth, Some(s.directive))];
    var st := AfterResults(s, decode(Collect("", s.firstBlock)).value);
    RunMiddle(s, decode);
    BlockAfter(head, st, s.open, s.secondBlock, s.close, decode);
  }

  /** No result is padded: the plan counts the four results there are. */
  lemma FinishSample(s: Sample, y1: Yaml, y2: Yaml)
    requires s.last <= 4
    ensures
      var st := AfterResults(s, y1);
      Finalize(st.(yamlContent := Collect("", s.secondBlock), results := AttachYaml(st.results, y2),
        events := st.events + [YamlSeen(|st.results|, y2)])) ==
        Completed(
          TestSession(s.version, PlanOf(s),
            [R1(s), R2(s).(yaml := Attached(y1)), R3(s), R4(s).(yaml := Attached(y2))], [], false, ""),
          [VersionSeen(s.version), PlanSeen(PlanOf(s)), TestResultSeen(R1(s)), TestResultSeen(R2(s)),
           YamlSeen(2, y1), TestResultSeen(R3(s)), TestResultSeen(R4(s)), YamlSeen(4, y2)])
  {
    var st := AfterResults(s, y1);
    assert AttachYaml(st.results, y2) == [R1(s), R2(s).(yaml := Attached(y1)), R3(s), R4(s).(yaml := Attached(y2))];
    assert TestCount(PlanOf(s)) == s.last;
    var done := st.(yamlContent := Collect("", s.secondBlock), results := AttachYaml(st.results, y2),
      events := st.events + [YamlSeen(4, y2)]);
    assert PadFrom(done.results, done.events, 5, s.last) == (done.results, done.events);
  }

  /** One more line is one more step. */
  lemma RunThen(lines: seq<string>, line: string, decode: Decoder)
    requires Run(lines, decode).Running?
    ensures Run(lines + [line], decode) == Step(Run(lines, decode).state, line, decode)
  {
    assert (lines + [line])[..|lines|] == lines;
  }

  // Each kind of line of the stream, stepped from any state.

  lemma VersionStep(st: State, version: nat, decode: Decoder)
    requires !st.yamlMode && version <= 13
    ensures Step(st, FormatVersion(version), decode) ==
      Running(st.(version := version, events := st.events + [VersionSeen(version)]))
  {
    VersionLineKind(version);
    VersionRoundTrip(version);
    VersionLineEffect(st, FormatVersion(version), decode);
  }

  lemma PlanStep(st: State, last: nat, decode: Decoder)
    requires !st.yamlMode && last <= 4
    ensures
      var tp := TestPlan(Some(""), 1, last, false, false);
      Step(st, FormatPlan(1, last), decode) == Running(st.(plan := tp, events := st.events + [PlanSeen(tp)]))
  {
    var L := FormatPlan(1, last);
    PlanLineKind(1, last);
    PlanRoundTrip(1, last);
    ReadPlanLine(L, false, |st.results| + 1);
    PlanLineReplaces(st, L, decode, TestPlan(Some(""), 1, last, false, false));
  }

  /** A formatted test line appends the result it reads as. */
  lemma ResultStep(st: State, status: Status, index: nat, description: string, directive: Option<string>, decode: Decoder)
    requires !st.yamlMode && index <= 4 && PlainResult(description, directive)
    ensures
      var t := Expected(status, index, description, directive);
      Step(st, FormatResult(status, index, description, directive), decode) ==
        Running(st.(results := st.results + [t], events := st.events + [TestResultSeen(t)]))
  {
    var L := FormatResult(status, index, description, directive);
    WordsArePlain(description);
    if directive.Some? {
      WordsArePlain(directive.value);
    }
    ResultLineKind(status, index, description, directive);
    ResultRoundTrip(status, index, description, directive, |st.results| + 1);
    StepReads(st, L, decode, ResultItem(ParseTestResult(L, |st.results| + 1)));
  }

  /** Such words hold no `#`, dot, dash or capital `A`. */
  lemma WordsArePlain(s: string)
    requires Words(s)
    ensures '#' !in s && '.' !in s && '-' !in s && 'A' !in s
  {
    forall k | 0 <= k < |s| ensures s[k] != '#' && s[k] != '.' && s[k] != '-' && s[k] != 'A' { }
  }

  lemma YamlStartStep(st: State, line: string, decode: Decoder)
    requires !st.yamlMode && IsYamlStart(line)
    ensures Step(st, line, decode) == Running(st.(yamlMode := true, yamlContent := ""))
  {
    YamlStartOpens(st, line, decode);
  }

  lemma YamlEndStep(st: State, line: string, decode: Decoder)
    requires st.yamlMode && IsYamlEnd(line) && st.results != [] && decode(st.yamlContent).Some?
    ensures Step(st, line, decode) == Running(st.(
      yamlMode := false,
      results := AttachYaml(st.results, decode(st.yamlContent).value),
      events := st.events + [YamlSeen(|st.results|, decode(st.yamlContent).value)]))
  {
    StepReads(st, line, decode, YamlEndItem);
  }

  // The test's own stream.

  /** `TAP version 13`, `1..4`, `ok 1 - Input file opened`, `not ok 2 -
      First line of the input valid`, the first block, `ok 3 - Read the
      rest of the file`, `not ok 4 - Summarized correctly # TODO Not written
      yet` and the second block, each block between `  ---` and `  ...`. */
  const Basic: Sample := Sample(
    13, 4,
    "Input file opened",
    "First line of the input valid",
    "Read the rest of the file",
    "Summarized correctly",
    "TODO Not written yet",
    "  ---",
    ["  message: 'First line invalid'",
     "  severity: fail",
     "  data:",
     "    got: 'Flirble'",
     "    expect: 'Fnible'"],
    ["  message: \"Can't make summary yet\"",
     "  severity: todo"],
    "  ...")

  /** The buffer of each block: its lines, each followed by a line feed. */
  const FirstBlock: string := Collect("", Basic.firstBlock)
  const SecondBlock: string := Collect("", Basic.secondBlock)

  const Plan: TestPlan := TestPlan(Some(""), 1, 4, false, false)

  const First: TestLine := TestLine(Ok, 1, "Input file opened", "", EmptyText, false, false, [])
  const Second: TestLine := TestLine(NotOk, 2, "First line of the input valid", "", EmptyText, false, false, [])
  const Third: TestLine := TestLine(Ok, 3, "Read the rest of the file", "", EmptyText, false, false, [])
  const Fourth: TestLine := TestLine(NotOk, 4, "Summarized correctly", "Not written yet", EmptyText, true, false, [])

  /** When the decoder accepts both blocks, the test's stream parses to
      version 13, the plan 1..4 and four results in order, the first
      described "Input file opened", the YAML of each block on the result
      before it and the todo directive on the fourth. */
  lemma ParsesBasicFile(decode: Decoder)
    requires decode(FirstBlock).Some? && decode(SecondBlock).Some?
    ensures
      var y1 := decode(FirstBlock).value;
      var y2 := decode(SecondBlock).value;
      var tests := [First, Second.(yaml := Attached(y1)), Third, Fourth.(yaml := Attached(y2))];
      ParseSpec(Stream(Basic), decode) ==
        Completed(
          TestSession(13, Plan, tests, [], false, ""),
          [VersionSeen(13), PlanSeen(Plan), TestResultSeen(First), TestResultSeen(Second),
           YamlSeen(2, y1), TestResultSeen(Third), TestResultSeen(Fourth), YamlSeen(4, y2)])
    ensures |ParseSpec(Stream(Basic), decode).session.tests| == 4
    ensures ParseSpec(Stream(Basic), decode).session.tests[0].description == "Input file opened"
  {
    BasicIsWellShaped();
    ParsesSample(Basic, decode);
    BasicResults();
  }

  /** The lines `ReadLine` returns on the test's content: the sample's
      formatted lines are exactly those. */
  lemma TestLines()
    ensures Stream(Basic) == TestContent
  {
    HeadLines();
    FirstResultLine();
    SecondResultLine();
    ThirdResultLine();
    FourthResultLine();
  }

  /** The test's content, split at its line breaks. */
  const TestContent: seq<string> := [
      "TAP version 13",
      "1..4",
      "ok 1 - Input file opened",
      "not ok 2 - First line of the input valid",
      "  ---",
      "  message: 'First line invalid'",
      "  severity: fail",
      "  data:",
      "    got: 'Flirble'",
      "    expect: 'Fnible'",
      "  ...",
      "ok 3 - Read the rest of the file",
      "not ok 4 - Summarized correctly # TODO Not written yet",
      "  ---",
      "  message: \"Can't make summary yet\"",
      "  severity: todo",
      "  ..."]

  /** When the decoder accepts both blocks, the test's content parses to
      four results, the first described "Input file opened", without
      an exception. */
  lemma ParsesTestContent(decode: Decoder)
    requires decode(FirstBlock).Some? && decode(SecondBlock).Some?
    ensures ParseSpec(TestContent, decode).Completed?
    ensures |ParseSpec(TestContent, decode).session.tests| == 4
    ensures ParseSpec(TestContent, decode).session.tests[0].description == "Input file opened"
  {
    TestLines();
    ParsesBasicFile(decode);
  }

  lemma DigitsOfSample()
    ensures DecimalString(1) == "1" && DecimalString(2) == "2" && DecimalString(3) == "3"
    ensures DecimalString(4) == "4" && DecimalString(13) == "13"
  {
    assert DecimalString(13) == DecimalString(1) + [DigitChar(3)];
  }

  lemma HeadLines()
    ensures FormatVersion(13) == "TAP version 13" && FormatPlan(1, 4) == "1..4"
  {
    DigitsOfSample();
  }

  lemma FirstResultLine() ensures FormatResult(Ok, 1, "Input file opened", None) == "ok 1 - Input file opened" {
    DigitsOfSample();
    JoinFirst();
  }
  lemma JoinFirst() ensures "ok" + " " + "1" + " - " + "Input file opened" == "ok 1 - Input file opened" {
    assert "ok" + " " + "1" + " - " == "ok 1 - ";
  }
  lemma SecondResultLine() ensures FormatResult(NotOk, 2, "First line of the input valid", None) == "not ok 2 - First line of the input valid" {
    DigitsOfSample();
    JoinSecond();
  }
  lemma JoinSecond() ensures "not ok" + " " + "2" + " - " + "First line of the input valid" == "not ok 2 - First line of the input valid" {
    assert "not ok" + " " + "2" + " - " == "not ok 2 - ";
  }
  lemma ThirdResultLine() ensures FormatResult(Ok, 3, "Read the rest of the file", None) == "ok 3 - Read the rest of the file" {
    DigitsOfSample();
    JoinThird();
  }
  lemma JoinThird() ensures "ok" + " " + "3" + " - " + "Read the rest of the file" == "ok 3 - Read the rest of the file" {
    assert "ok" + " " + "3" + " - " == "ok 3 - ";
  }
  lemma FourthResultLine() ensures FormatResult(NotOk, 4, "Summarized correctly", Some("TODO Not written yet")) == "not ok 4 - Summarized correctly # TODO Not written yet" {
    DigitsOfSample();
    JoinFourth();
  }
  lemma JoinFourth() ensures "not ok" + " " + "4" + " - " + "Summarized correctly" + (" # " + "TODO Not written yet") == "not ok 4 - Summarized correctly # TODO Not written yet" {
    JoinFourthHead();
    JoinFourthTail();
  }
  lemma JoinFourthHead() ensures "not ok" + " " + "4" + " - " + "Summarized correctly" == "not ok 4 - Summarized correctly" {
    assert "not ok" + " " + "4" + " - " == "not ok 4 - ";
  }
  lemma JoinFourthTail() ensures "not ok 4 - Summarized correctly" + (" # " + "TODO Not written yet") == "not ok 4 - Summarized correctly # TODO Not written yet" {
    assert " # " + "TODO Not written yet" == " # TODO Not written yet";
  }

  lemma BasicResults()
    ensures R1(Basic) == First && R2(Basic) == Second && R3(Basic) == Third && R4(Basic) == Fourth
  {
    assert ParseDirective("") == Directive("", false, false);
    FourthDirective();
  }

  lemma FourthDirective()
    ensures ParseDirective("TODO Not written yet") == Directive("Not written yet", true, false)
  {
    assert "TODO " + "Not written yet" == "TODO Not written yet";
    MarkerNeedsFirst("Not written yet", "skip");
    TodoDirective("Not written yet");
  }

  lemma BasicIsWellShaped()
    ensures WellShaped(Basic)
  {
    BasicTexts();
    BasicDelimiters();
    BasicBlocks();
  }

  lemma BasicTexts()
    ensures PlainResult(Basic.first, None) && PlainResult(Basic.second, None)
    ensures PlainResult(Basic.third, None) && PlainResult(Basic.fourth, Some(Basic.directive))
  {
    FirstText();
    SecondText();
    ThirdText();
    FourthText();
  }

  lemma FirstText() ensures PlainResult("Input file opened", None) { }
  lemma SecondText() ensures PlainResult("First line of the input valid", None) { }
  lemma ThirdText() ensures PlainResult("Read the rest of the file", None) { }
  lemma FourthText() ensures PlainResult("Summarized correctly", Some("TODO Not written yet")) { }

  lemma BasicDelimiters()
    ensures IsYamlStart("  ---") && IsYamlEnd("  ...")
  {
    assert MatchesAt("  ---", Literal("---"), 2);
    OccursIff("  ---", Literal("---"));
    assert MatchesAt("  ...", Literal("..."), 2);
    OccursIff("  ...", Literal("..."));
  }

  /** No line of either block holds a dot. */
  lemma BasicBlocks()
    ensures forall j :: 0 <= j < |Basic.firstBlock| ==> !IsYamlEnd(Basic.firstBlock[j])
    ensures forall j :: 0 <= j < |Basic.secondBlock| ==> !IsYamlEnd(Basic.secondBlock[j])
  {
    var b1 := Basic.firstBlock;
    var b2 := Basic.secondBlock;
    forall j | 0 <= j < |b1| ensures !IsYamlEnd(b1[j]) {
      assert j == 0 || j == 1 || j == 2 || j == 3 || j == 4;
      NoDot(b1[j]);
    }
    forall j | 0 <= j < |b2| ensures !IsYamlEnd(b2[j]) {
      NoDot(b2[j]);
    }
  }
}
