/** The values the parser produces: test lines, the plan, the session, the
    notifications it sends and the conditions that abort it. */
module Records {
  import opened Wrappers

  datatype Status = NotOk | Ok

  /** A decoded YAML document. The parser never looks inside it. */
  datatype Yaml =
    | YamlNull
    | YamlScalar(text: string)
    | YamlSequence(items: seq<Yaml>)
    | YamlMapping(entries: seq<(Yaml, Yaml)>)

  /** The `dynamic YAML` property of a test line: null on a synthesized line,
      the empty string on a parsed one until a block is attached. */
  datatype YamlSlot = NoYaml | EmptyText | Attached(value: Yaml)

  datatype TestLine = TestLine(
    status: Status,
    index: nat,
    description: string,
    directive: string,
    yaml: YamlSlot,
    todo: bool,
    skipped: bool,
    diagnostics: seq<string>)

  /** `directive` is None for the plan the parser starts with, whose
      `Directive` property is null. */
  datatype TestPlan = TestPlan(
    directive: Option<string>,
    first: nat,
    last: nat,
    todo: bool,
    skipped: bool)

  /** `new TestPlan()`: first and last index 0. */
  const DefaultPlan: TestPlan := TestPlan(None, 0, 0, false, false)

  datatype TestSession = TestSession(
    version: nat,
    plan: TestPlan,
    tests: seq<TestLine>,
    diagnostics: seq<string>,
    bailedOut: bool,
    bailOutMessage: string)

  /** The conditions that make `Parse` throw instead of returning a session. */
  datatype ParseError =
    | UnsupportedVersion(version: nat)  // a version line above 13
    | YamlDecodeFailed(content: string) // the YAML deserializer threw
    | YamlWithoutResult                 // `results.Last()` on an empty list

  /** One invocation of a listener event (`OnTestResult`, `OnError`, ...). */
  datatype Event =
    | TestResultSeen(line: TestLine)
    | SyntaxErrorSeen(text: string)
    | VersionSeen(version: nat)
    | YamlSeen(position: nat, yaml: Yaml)
    | PlanSeen(plan: TestPlan)
    | TestDiagnosticSeen(position: nat, message: string)
    | DiagnosticSeen(message: string)
    | BailOutSeen(message: string)

  /** A test line the reconciliation step adds for a planned test that never
      reported: not ok, at the 1-based position `index`. */
  function Synthetic(index: nat): TestLine {
    TestLine(NotOk, index, "", "", NoYaml, false, false, [])
  }
}
