/** What `Parse` computes, written as functions over the lines it reads:
    one `Step` per line from the state of its local variables, the fold
    `Run` over all lines, and `Finalize`, which reconciles the results with
    the plan and builds the `TestSession`. */
module Session {
  import opened Wrappers
  import opened Text
  import opened Records
  import opened Grammar

  /** `m_deserializer.Deserialize`: None when it throws. */
  type Decoder = string -> Option<Yaml>

  /** The local variables of `Parse` between two lines, and the listener
      notifications sent so far. */
  datatype State = State(
    yamlMode: bool,
    yamlContent: string,
    plan: TestPlan,
    results: seq<TestLine>,
    version: nat,
    diagnostics: seq<string>,
    bailOutMessage: string,
    bailedOut: bool,
    events: seq<Event>)

  /** The variables as `Parse` initialises them. */
  const Start: State := State(false, "", DefaultPlan, [], 0, [], "", false, [])

  /** Either the loop goes on with a new state, or an exception escapes
      `Parse`, after the notifications already sent. */
  datatype Progress = Running(state: State) | Stopped(error: ParseError, events: seq<Event>)

  /** What `Parse` ends with. */
  datatype Outcome = Completed(session: TestSession, events: seq<Event>) | Aborted(error: ParseError, events: seq<Event>)

  /** The last result with its YAML document attached. */
  function AttachYaml(results: seq<TestLine>, y: Yaml): seq<TestLine>
    requires results != []
  {
    results[|results| - 1 := results[|results| - 1].(yaml := Attached(y))]
  }

  /** The last result with one more diagnostic message. */
  function AddDiagnostic(results: seq<TestLine>, d: string): seq<TestLine>
    requires results != []
  {
    var last := results[|results| - 1];
    results[|results| - 1 := last.(diagnostics := last.diagnostics + [d])]
  }

  /** What the `switch` of `Parse` takes from a line: its kind and the
      fields the kind's extractor reads from it. */
  datatype Item =
    | ResultItem(result: TestLine)
    | ErrorItem(text: string)
    | VersionItem(version: Result<nat, ParseError>)
    | YamlStartItem
    | YamlEndItem
    | YamlContentItem(text: string)
    | PlanItem(plan: TestPlan)
    | DiagnosticItem(message: string)
    | BailOutItem(message: string)

  /** The line has the shape its kind's extractor reads. */
  predicate Readable(kind: LineKind, line: string) {
    match kind
    case TestResultLine => IsTestResult(line)
    case VersionLine => IsVersion(line)
    case PlanLine => IsPlan(line)
    case DiagnosticLine => IsDiagnostic(line)
    case BailOutLine => IsBailOut(line)
    case _ => true
  }

  /** Classify the line, then run the extractor of its kind; `next` is the
      index a test line without a number gets. */
  function Read(line: string, yaml: bool, next: nat): Item {
    Extract(ParseLine(line, yaml), line, next)
  }

  /** The extractor of each kind of line. */
  function Extract(kind: LineKind, line: string, next: nat): Item
    requires Readable(kind, line)
  {
    match kind
    case TestResultLine => ResultItem(ParseTestResult(line, next))
    case ErrorLine => ErrorItem(line)
    case VersionLine => VersionItem(ParseTAPVersion(line))
    case YamlStartLine => YamlStartItem
    case YamlEndLine => YamlEndItem
    case YamlContentLine => YamlContentItem(line)
    case PlanLine => PlanItem(ParseTestPlan(line))
    case DiagnosticLine => DiagnosticItem(DiagnosticText(line))
    case BailOutLine => BailOutItem(BailOutMessage(line))
  }

  /** One turn of the `while` loop of `Parse`: read the line, then do what
      the `switch` does for its kind. */
  function Step(st: State, line: string, decode: Decoder): Progress {
    Apply(st, Read(line, st.yamlMode, |st.results| + 1), decode)
  }

  /** The effect of one case of the `switch` on the variables, or the
      exception that escapes. */
  function Apply(st: State, item: Item, decode: Decoder): Progress {
    match item
    case ResultItem(r) =>
      Running(st.(results := st.results + [r], events := st.events + [TestResultSeen(r)]))
    case ErrorItem(line) =>
      if line == "" then Running(st)
      else Running(st.(events := st.events + [SyntaxErrorSeen(line)]))
    case VersionItem(v) =>
      (match v
       case Failure(e) => Stopped(e, st.events)
       case Success(n) => Running(st.(version := n, events := st.events + [VersionSeen(n)])))
    case YamlStartItem =>
      Running(st.(yamlMode := true, yamlContent := ""))
    case YamlEndItem =>
      (match decode(st.yamlContent)
       case None => Stopped(YamlDecodeFailed(st.yamlContent), st.events)
       case Some(y) =>
         if st.results == [] then Stopped(YamlWithoutResult, st.events)
         else Running(st.(
           yamlMode := false,
           results := AttachYaml(st.results, y),
           events := st.events + [YamlSeen(|st.results|, y)])))
    case YamlContentItem(line) =>
      Running(st.(yamlContent := st.yamlContent + line + "\n"))
    case PlanItem(tp) =>
      Running(st.(plan := tp, events := st.events + [PlanSeen(tp)]))
    case DiagnosticItem(d) =>
      if st.results == [] then
        Running(st.(diagnostics := st.diagnostics + [d], events := st.events + [DiagnosticSeen(d)]))
      else
        Running(st.(
          results := AddDiagnostic(st.results, d),
          events := st.events + [TestDiagnosticSeen(|st.results|, d)]))
    case BailOutItem(m) =>
      Running(st.(bailedOut := true, bailOutMessage := m, events := st.events + [BailOutSeen(m)]))
  }

  /** The loop over every line, one `Step` at a time; a stop is final. */
  function Run(lines: seq<string>, decode: Decoder): Progress
    decreases |lines|
  {
    if lines == [] then Running(Start)
    else
      match Run(lines[..|lines| - 1], decode)
      case Stopped(e, events) => Stopped(e, events)
      case Running(st) => Step(st, lines[|lines| - 1], decode)
  }

  /** `(int)testPlan.LastTestIndex - (int)testPlan.FirstTestIndex + 1` in
      unchecked 32-bit arithmetic: each cast reinterprets the unsigned
      index, the sum wraps. */
  function TestCount(plan: TestPlan): int {
    Wrap32(Wrap32(plan.last) - Wrap32(plan.first) + 1)
  }

  /** The results the reconciliation adds, as a reference: not ok, at
      the positions `from + 1` up to `count`. */
  function Padding(from: nat, count: int): (pad: seq<TestLine>)
    ensures |pad| == if from < count then count - from else 0
    decreases count - from
  {
    if from < count then Padding(from, count - 1) + [Synthetic(count)] else []
  }

  /** The `OnTestResult` notifications for a list of results. */
  function ResultEvents(tests: seq<TestLine>): (events: seq<Event>)
    ensures |events| == |tests|
  {
    if tests == [] then []
    else ResultEvents(tests[..|tests| - 1]) + [TestResultSeen(tests[|tests| - 1])]
  }

  /** The reconciliation loop from index `i` on: while `i` is within the
      plan's count, add a not-ok result numbered `i` and notify it. */
  function PadFrom(results: seq<TestLine>, events: seq<Event>, i: nat, testCount: int): (seq<TestLine>, seq<Event>)
    decreases testCount - i
  {
    if i <= testCount then
      PadFrom(results + [Synthetic(i)], events + [TestResultSeen(Synthetic(i))], i + 1, testCount)
    else (results, events)
  }

  /** After the loop: pad the results up to the plan's count and return
      the session. */
  function Finalize(st: State): Outcome {
    var padded := PadFrom(st.results, st.events, |st.results| + 1, TestCount(st.plan));
    Completed(
      TestSession(st.version, st.plan, padded.0, st.diagnostics, st.bailedOut, st.bailOutMessage),
      padded.1)
  }

  /** `Parse` on a stream whose lines are `lines`. */
  function ParseSpec(lines: seq<string>, decode: Decoder): Outcome {
    match Run(lines, decode)
    case Stopped(e, events) => Aborted(e, events)
    case Running(st) => Finalize(st)
  }
}
