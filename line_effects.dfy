/** What one line of each kind does to the state of `Parse`, and what a
    YAML block left open or a stream without a plan line end with. */
module LineEffects {
  import opened Wrappers
  import opened Text
  import opened Records
  import opened Grammar
  import opened Session
  import opened SessionLemmas

  /** A test line appends exactly one result, read from the line with the
      next position as the fallback index, notifies it, and changes
      nothing else. */
  lemma TestLineAppends(st: State, line: string, decode: Decoder)
    requires ParseLine(line, st.yamlMode) == TestResultLine
    ensures !st.yamlMode && IsTestResult(line)
    ensures Step(st, line, decode).Running?
    ensures
      var next := Step(st, line, decode).state;
      var t := ParseTestResult(line, |st.results| + 1);
      && |next.results| == |st.results| + 1
      && next.results[..|st.results|] == st.results
      && next.results[|st.results|] == t
      && next.events == st.events + [TestResultSeen(t)]
      && next == st.(results := next.results, events := next.events)
  {
    var t := ParseTestResult(line, |st.results| + 1);
    assert (st.results + [t])[..|st.results|] == st.results;
  }

  /** A line no pattern matches is reported once, unless it is empty, and
      changes nothing else. */
  lemma UnrecognisedLine(st: State, line: string, decode: Decoder)
    requires ParseLine(line, st.yamlMode) == ErrorLine
    ensures !st.yamlMode
    ensures Step(st, line, decode).Running?
    ensures
      var next := Step(st, line, decode).state;
      && next == st.(events := next.events)
      && next.events == st.events + (if line == "" then [] else [SyntaxErrorSeen(line)])
  {
    if line == "" {
      assert st.events + [] == st.events;
    }
  }

  /** A version line either records its version, replacing any earlier
      one, or aborts the parse without notifying it. */
  lemma VersionLineEffect(st: State, line: string, decode: Decoder)
    requires ParseLine(line, st.yamlMode) == VersionLine
    ensures !st.yamlMode && IsVersion(line)
    ensures
      match ParseTAPVersion(line)
      case Success(v) =>
        v <= 13 && Step(st, line, decode) == Running(st.(version := v, events := st.events + [VersionSeen(v)]))
      case Failure(e) =>
        e.UnsupportedVersion? && e.version > 13 && Step(st, line, decode) == Stopped(e, st.events)
  {
  }

  /** A YAML start line opens a block with an empty buffer. */
  lemma YamlStartOpens(st: State, line: string, decode: Decoder)
    requires ParseLine(line, st.yamlMode) == YamlStartLine
    ensures !st.yamlMode && IsYamlStart(line)
    ensures Step(st, line, decode) == Running(st.(yamlMode := true, yamlContent := ""))
  {
  }

  /** A YAML end line closes the open block: the decoded document goes to
      the last result only; without a result, or when the buffer does not
      decode, the parse aborts. */
  lemma YamlEndAttaches(st: State, line: string, decode: Decoder)
    requires ParseLine(line, st.yamlMode) == YamlEndLine
    ensures st.yamlMode && IsYamlEnd(line)
    ensures Step(st, line, decode).Running? <==> decode(st.yamlContent).Some? && st.results != []
    ensures decode(st.yamlContent).None? ==>
      Step(st, line, decode) == Stopped(YamlDecodeFailed(st.yamlContent), st.events)
    ensures decode(st.yamlContent).Some? && st.results == [] ==>
      Step(st, line, decode) == Stopped(YamlWithoutResult, st.events)
    ensures Step(st, line, decode).Running? ==>
      var next := Step(st, line, decode).state;
      var y := decode(st.yamlContent).value;
      var n := |st.results|;
      && |next.results| == n
      && next.results[..n - 1] == st.results[..n - 1]
      && next.results[n - 1] == st.results[n - 1].(yaml := Attached(y))
      && next.events == st.events + [YamlSeen(n, y)]
      && next == st.(yamlMode := false, results := next.results, events := next.events)
  {
  }

  /** A plan line replaces the plan, whatever came before: it reads as the
      plan `ParseTestPlan` extracts, and a step on a plan replaces the
      plan and notifies it. */
  lemma PlanLineReplaces(st: State, line: string, decode: Decoder, tp: TestPlan)
    requires Read(line, st.yamlMode, |st.results| + 1) == PlanItem(tp)
    ensures Step(st, line, decode) == Running(st.(plan := tp, events := st.events + [PlanSeen(tp)]))
  {
    StepReads(st, line, decode, PlanItem(tp));
  }

  lemma ReadPlanLine(line: string, yaml: bool, next: nat)
    requires ParseLine(line, yaml) == PlanLine
    ensures !yaml && IsPlan(line)
    ensures Read(line, yaml, next) == PlanItem(ParseTestPlan(line))
  {
  }

  /** A step applies the item its line reads as. */
  lemma StepReads(st: State, line: string, decode: Decoder, item: Item)
    requires Read(line, st.yamlMode, |st.results| + 1) == item
    ensures Step(st, line, decode) == Apply(st, item, decode)
  {
  }

  /** A diagnostic before any result belongs to the session; after one, it
      belongs to the last result and the session list no longer grows. */
  lemma DiagnosticLineEffect(st: State, line: string, decode: Decoder)
    requires ParseLine(line, st.yamlMode) == DiagnosticLine
    ensures !st.yamlMode && IsDiagnostic(line)
    ensures Step(st, line, decode).Running?
    ensures st.results == [] ==>
      var d := DiagnosticText(line);
      Step(st, line, decode).state ==
        st.(diagnostics := st.diagnostics + [d], events := st.events + [DiagnosticSeen(d)])
    ensures st.results != [] ==>
      var next := Step(st, line, decode).state;
      var d := DiagnosticText(line);
      var n := |st.results|;
      var last := st.results[n - 1];
      && |next.results| == n
      && next.results[..n - 1] == st.results[..n - 1]
      && next.results[n - 1] == last.(diagnostics := last.diagnostics + [d])
      && next.events == st.events + [TestDiagnosticSeen(n, d)]
      && next == st.(results := next.results, events := next.events)
  {
  }

  /** A bail out line records the message and sets the flag, and the parse
      goes on. */
  lemma BailOutContinues(st: State, line: string, decode: Decoder)
    requires ParseLine(line, st.yamlMode) == BailOutLine
    ensures !st.yamlMode && IsBailOut(line)
    ensures Step(st, line, decode) == Running(st.(
      bailedOut := true,
      bailOutMessage := BailOutMessage(line),
      events := st.events + [BailOutSeen(BailOutMessage(line))]))
  {
  }

  /** The buffer of a YAML block after `block` is collected into
      `content`: each line followed by a line feed. */
  function Collect(content: string, block: seq<string>): (text: string)
    ensures |text| >= |content| + |block|
  {
    if block == [] then content else Collect(content, block[..|block| - 1]) + block[|block| - 1] + "\n"
  }

  /** Lines inside an open block only extend its buffer: a block still open
      at the end of the input attaches nothing and notifies nothing. */
  lemma {:induction false} OpenBlockCollects(lines: seq<string>, block: seq<string>, decode: Decoder)
    requires Run(lines, decode).Running? && Run(lines, decode).state.yamlMode
    requires forall j :: 0 <= j < |block| ==> !IsYamlEnd(block[j])
    ensures
      var st := Run(lines, decode).state;
      Run(lines + block, decode) == Running(st.(yamlContent := Collect(st.yamlContent, block)))
    decreases |block|
  {
    if block == [] {
      assert lines + block == lines;
    } else {
      var st := Run(lines, decode).state;
      var init := block[..|block| - 1];
      assert (lines + block)[..|lines + block| - 1] == lines + init;
      OpenBlockCollects(lines, init, decode);
      StepInYamlBlock(st.(yamlContent := Collect(st.yamlContent, init)), block[|block| - 1], decode);
    }
  }

  /** Only a plan line changes the plan. */
  lemma StepKeepsPlan(st: State, line: string, decode: Decoder)
    requires Step(st, line, decode).Running? && ParseLine(line, st.yamlMode) != PlanLine
    ensures Step(st, line, decode).state.plan == st.plan
  {
    ApplyKeepsPlan(st, Read(line, st.yamlMode, |st.results| + 1), decode);
  }

  lemma ApplyKeepsPlan(st: State, item: Item, decode: Decoder)
    requires Apply(st, item, decode).Running? && !item.PlanItem?
    ensures Apply(st, item, decode).state.plan == st.plan
  {
  }

  /** No line of the stream is read as a plan line: a line with `..` may
      still be a YAML terminator, YAML content or a diagnostic. */
  predicate NoPlanLine(lines: seq<string>, decode: Decoder) {
    forall j :: 0 <= j < |lines| && Run(lines[..j], decode).Running? ==>
      ParseLine(lines[j], Run(lines[..j], decode).state.yamlMode) != PlanLine
  }

  /** Without a plan line the loop ends with the default plan. */
  lemma {:induction false} RunKeepsDefaultPlan(lines: seq<string>, decode: Decoder)
    requires NoPlanLine(lines, decode)
    requires Run(lines, decode).Running?
    ensures Run(lines, decode).state.plan == DefaultPlan
    decreases |lines|
  {
    if lines != [] {
      var n := |lines| - 1;
      var init := lines[..n];
      assert Run(init, decode).Running?;
      assert NoPlanLine(init, decode) by {
        forall j | 0 <= j < |init| ensures init[..j] == lines[..j] && init[j] == lines[j] { }
      }
      RunKeepsDefaultPlan(init, decode);
      StepKeepsPlan(Run(init, decode).state, lines[n], decode);
    }
  }

  /** A stream without a plan line that parses completely reports at least
      one test: the default plan `0..0` counts one. */
  lemma WithoutPlanAtLeastOne(lines: seq<string>, decode: Decoder)
    requires NoPlanLine(lines, decode)
    requires ParseSpec(lines, decode).Completed?
    ensures ParseSpec(lines, decode).session.plan == DefaultPlan
    ensures |ParseSpec(lines, decode).session.tests| >= 1
  {
    RunKeepsDefaultPlan(lines, decode);
    DefaultPlanCountsOne();
    FinalizeTests(Run(lines, decode).state);
  }
}
