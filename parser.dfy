/** `TAPParser.Parse`: the loop over the lines of the stream, with the
    variables it updates, and the reconciliation with the plan after it. */
module Parser {
  import opened Wrappers
  import opened Text
  import opened Records
  import opened Grammar
  import opened Session
  import opened SessionLemmas

  /** Reads `lines` as `Parse` reads its stream, sending the listener
      notifications in order, and returns the session, or the error that
      escapes together with the notifications sent before it. */
  method Parse(lines: seq<string>, decode: Decoder) returns (outcome: Outcome)
    ensures outcome == ParseSpec(lines, decode)
  {
    var st := Start;
    var n := 0;
    while n < |lines|
      invariant n <= |lines|
      invariant Run(lines[..n], decode) == Running(st)
    {
      var line := lines[n];
      RunSnoc(lines, n, decode);
      var progress := HandleLine(st, ParseLine(line, st.yamlMode), line, decode);
      if progress.Stopped? {
        StopAt(lines, n, decode);
        return Aborted(progress.error, progress.events);
      }
      st := progress.state;
      n := n + 1;
    }
    assert lines[..n] == lines;

    var testCount := TestCount(st.plan);
    var results, events := PadResults(st.results, st.events, testCount);
    return Completed(TestSession(st.version, st.plan, results, st.diagnostics, st.bailedOut, st.bailOutMessage), events);
  }

  /** The body of the loop: the `switch` on the kind of the line. The
      variables of `Parse` come in as `st`; their new values go out, or the
      error that escapes. */
  method HandleLine(st: State, kind: LineKind, line: string, decode: Decoder) returns (progress: Progress)
    requires Readable(kind, line)
    ensures progress == Apply(st, Extract(kind, line, |st.results| + 1), decode)
  {
    var yamlContent, parsingYaml, testPlan, results := st.yamlContent, st.yamlMode, st.plan, st.results;
    var tapVersion, sessionDiagnostics := st.version, st.diagnostics;
    var bailOutMessage, bailedOut, events := st.bailOutMessage, st.bailedOut, st.events;
    match kind {
      case TestResultLine =>
        var result := ParseTestResult(line, |results| + 1);
        results := results + [result];
        events := events + [TestResultSeen(result)];
      case ErrorLine =>
        if line != "" {
          events := events + [SyntaxErrorSeen(line)];
        }
      case VersionLine =>
        var v := ParseTAPVersion(line);
        if v.Failure? {
          return Stopped(v.error, events);
        }
        events := events + [VersionSeen(v.value)];
        tapVersion := v.value;
      case YamlStartLine =>
        parsingYaml := true;
        yamlContent := "";
      case YamlEndLine =>
        var yaml := decode(yamlContent);
        if yaml.None? {
          return Stopped(YamlDecodeFailed(yamlContent), events);
        }
        if results == [] {
          return Stopped(YamlWithoutResult, events);
        }
        parsingYaml := false;
        results := AttachYaml(results, yaml.value);
        events := events + [YamlSeen(|results|, yaml.value)];
      case YamlContentLine =>
        yamlContent := yamlContent + line + "\n";
      case PlanLine =>
        var tp := ParseTestPlan(line);
        events := events + [PlanSeen(tp)];
        testPlan := tp;
      case DiagnosticLine =>
        var diagnostic := DiagnosticText(line);
        if results != [] {
          results := AddDiagnostic(results, diagnostic);
          events := events + [TestDiagnosticSeen(|results|, diagnostic)];
        } else {
          sessionDiagnostics := sessionDiagnostics + [diagnostic];
          events := events + [DiagnosticSeen(diagnostic)];
        }
      case BailOutLine =>
        var message := BailOutMessage(line);
        bailedOut := true;
        events := events + [BailOutSeen(message)];
        bailOutMessage := message;
    }
    return Running(State(parsingYaml, yamlContent, testPlan, results, tapVersion, sessionDiagnostics,
      bailOutMessage, bailedOut, events));
  }

  /** The reconciliation loop: a not-ok result for every index from
      `|found| + 1` up to `testCount`, each notified. */
  method PadResults(found: seq<TestLine>, sent: seq<Event>, testCount: int)
    returns (results: seq<TestLine>, events: seq<Event>)
    ensures (results, events) == PadFrom(found, sent, |found| + 1, testCount)
  {
    results, events := found, sent;
    if |results| < testCount {
      var i := |results| + 1;
      while i <= testCount
        invariant i >= 1
        invariant PadFrom(results, events, i, testCount) == PadFrom(found, sent, |found| + 1, testCount)
      {
        var testLine := Synthetic(i);
        results := results + [testLine];
        events := events + [TestResultSeen(testLine)];
        i := i + 1;
      }
    }
  }
}
