/** The line grammar of `TAPParser`: the classifier `ParseLine`, the
    directive parser and the field extractors for test lines, plans and
    version lines, each written out from the regular expression it uses. */
module Grammar {
  import opened Wrappers
  import opened Text
  import opened Records

  /** `ParseResult`: what kind of line the classifier found. */
  datatype LineKind =
    | TestResultLine
    | ErrorLine
    | VersionLine
    | YamlStartLine
    | YamlEndLine
    | YamlContentLine
    | PlanLine
    | DiagnosticLine
    | BailOutLine

  // The seven patterns, as `IsMatch` sees them.

  /** `(^\s)?---` */
  predicate IsYamlStart(line: string) { Occurs(line, Literal("---")) }

  /** `(^\s)?\.\.\.` */
  predicate IsYamlEnd(line: string) { Occurs(line, Literal("...")) }

  /** `TAP\s+version\s+(\d*)` */
  predicate IsVersion(line: string) { Occurs(line, VersionTag) }

  /** `^\s*#`: the first non-whitespace character is `#`. */
  predicate IsDiagnostic(line: string) {
    var h := RunEnd(line, 0, Space);
    h < |line| && line[h] == '#'
  }

  /** `(\d*)\.\.(\d*)...`: only the two dots are required. */
  predicate IsPlan(line: string) { Occurs(line, Literal("..")) }

  /** `^(not )?ok\b`: where the status word ends, if the line starts with one. */
  function StatusEnd(line: string): (r: Option<nat>)
    ensures r.Some? ==> r.value <= |line|
  {
    if LiteralAt(line, "not ok", 0) && IsBoundary(line, 6) then Some(6)
    else if LiteralAt(line, "ok", 0) && IsBoundary(line, 2) then Some(2)
    else None
  }

  predicate IsTestResult(line: string) { StatusEnd(line).Some? }

  /** The status word is `ok` exactly when the line starts with `ok`. */
  lemma StatusWord(line: string)
    requires IsTestResult(line)
    ensures StatusEnd(line).value == 2 <==> LiteralAt(line, "ok", 0)
  {
    if LiteralAt(line, "not ok", 0) {
      assert line[0] == line[0..6][0] == 'n';
    }
    if LiteralAt(line, "ok", 0) {
      assert line[0] == line[0..2][0] == 'o';
    }
  }

  /** `(?i)Bail Out!` */
  predicate IsBailOut(line: string) { Occurs(line, Folded("bail out!")) }

  /** The classifier. Inside a YAML block only the block terminator is
      recognised; outside, the patterns are tried in a fixed order. */
  function ParseLine(line: string, yaml: bool): (k: LineKind)
    ensures yaml ==> k == YamlEndLine || k == YamlContentLine
    ensures k == YamlEndLine <==> yaml && IsYamlEnd(line)
    ensures k == TestResultLine ==> IsTestResult(line)
    ensures k == VersionLine ==> IsVersion(line)
    ensures k == PlanLine ==> IsPlan(line)
    ensures k == DiagnosticLine ==> IsDiagnostic(line)
    ensures k == BailOutLine ==> IsBailOut(line)
  {
    if yaml then (if IsYamlEnd(line) then YamlEndLine else YamlContentLine)
    else if IsYamlStart(line) then YamlStartLine
    else if IsVersion(line) then VersionLine
    else if IsDiagnostic(line) then DiagnosticLine
    else if IsPlan(line) then PlanLine
    else if IsTestResult(line) then TestResultLine
    else if IsBailOut(line) then BailOutLine
    else ErrorLine
  }

  /** The pattern each kind of line is recognised by. */
  predicate Matches(kind: LineKind, line: string) {
    match kind
    case YamlStartLine => IsYamlStart(line)
    case VersionLine => IsVersion(line)
    case DiagnosticLine => IsDiagnostic(line)
    case PlanLine => IsPlan(line)
    case TestResultLine => IsTestResult(line)
    case BailOutLine => IsBailOut(line)
    case _ => false
  }

  /** The order the classifier tries the patterns in outside a YAML block. */
  const Priority: seq<LineKind> :=
    [YamlStartLine, VersionLine, DiagnosticLine, PlanLine, TestResultLine, BailOutLine]

  /** A reference classifier: the first kind in `kinds` whose pattern
      matches, or ErrorLine when none does. */
  function FirstMatch(kinds: seq<LineKind>, line: string): LineKind {
    if kinds == [] then ErrorLine
    else if Matches(kinds[0], line) then kinds[0]
    else FirstMatch(kinds[1..], line)
  }

  /** `FirstMatch` returns ErrorLine exactly when no pattern matches, and
      otherwise a kind whose pattern matches and that no matching kind
      precedes. */
  lemma {:induction false} FirstMatchSpec(kinds: seq<LineKind>, line: string)
    requires ErrorLine !in kinds
    ensures FirstMatch(kinds, line) == ErrorLine <==> forall j :: 0 <= j < |kinds| ==> !Matches(kinds[j], line)
    ensures FirstMatch(kinds, line) != ErrorLine ==>
      exists j :: 0 <= j < |kinds| && kinds[j] == FirstMatch(kinds, line) && Matches(kinds[j], line) &&
        (forall i :: 0 <= i < j ==> !Matches(kinds[i], line))
  {
    if kinds != [] && !Matches(kinds[0], line) {
      var rest := kinds[1..];
      FirstMatchSpec(rest, line);
      assert forall j :: 1 <= j < |kinds| ==> kinds[j] == rest[j - 1];
      if FirstMatch(rest, line) != ErrorLine {
        var j :| 0 <= j < |rest| && rest[j] == FirstMatch(rest, line) && Matches(rest[j], line) &&
          (forall i :: 0 <= i < j ==> !Matches(rest[i], line));
        assert kinds[j + 1] == rest[j];
      }
    }
  }

  /** Outside a YAML block the classifier is first-match-wins over `Priority`. */
  lemma ParseLineIsFirstMatch(line: string)
    ensures ParseLine(line, false) == FirstMatch(Priority, line)
  {
    var p1 := [VersionLine, DiagnosticLine, PlanLine, TestResultLine, BailOutLine];
    var p2 := [DiagnosticLine, PlanLine, TestResultLine, BailOutLine];
    var p3 := [PlanLine, TestResultLine, BailOutLine];
    var p4 := [TestResultLine, BailOutLine];
    var p5 := [BailOutLine];
    assert Priority[1..] == p1 && p1[1..] == p2 && p2[1..] == p3;
    assert p3[1..] == p4 && p4[1..] == p5 && p5[1..] == [];
    assert FirstMatch(p5, line) == if IsBailOut(line) then BailOutLine else ErrorLine;
    assert FirstMatch(p4, line) == if IsTestResult(line) then TestResultLine else FirstMatch(p5, line);
    assert FirstMatch(p3, line) == if IsPlan(line) then PlanLine else FirstMatch(p4, line);
    assert FirstMatch(p2, line) == if IsDiagnostic(line) then DiagnosticLine else FirstMatch(p3, line);
    assert FirstMatch(p1, line) == if IsVersion(line) then VersionLine else FirstMatch(p2, line);
  }

  // Directives.

  /** `ParsedDirective`. */
  datatype Directive = Directive(text: string, todo: bool, skipped: bool)

  /** Where the text after a `(?i)word\S*\s+` match at `k` begins. */
  function ReasonStart(s: string, k: nat, w: string): (r: nat)
    requires k + |w| <= |s|
    ensures r <= |s|
  {
    RunEnd(s, RunEnd(s, k + |w|, NonSpace), Space)
  }

  /** `ParseDirective`: the skip and todo flags are computed independently;
      the text is the reason after the skip token, else after the todo
      token, else the whole input, trimmed. */
  function ParseDirective(input: string): (d: Directive)
    ensures |d.text| <= |input|
  {
    var skip := FindFrom(input, Marker("skip"), 0);
    var todo := FindFrom(input, Marker("todo"), 0);
    var text :=
      if skip.Some? then input[ReasonStart(input, skip.value, "skip")..]
      else if todo.Some? then input[ReasonStart(input, todo.value, "todo")..]
      else input;
    Directive(Trim(text), todo.Some?, skip.Some?)
  }

  /** Each flag is set exactly when its marker occurs anywhere in the
      input; the text is a trimmed suffix of the input, and the whole input
      trimmed when neither marker occurs. */
  lemma DirectiveSpec(input: string)
    ensures ParseDirective(input).skipped <==> Occurs(input, Marker("skip"))
    ensures ParseDirective(input).todo <==> Occurs(input, Marker("todo"))
    ensures Trimmed(ParseDirective(input).text)
    ensures exists r :: 0 <= r <= |input| && ParseDirective(input).text == Trim(input[r..])
    ensures !Occurs(input, Marker("skip")) && !Occurs(input, Marker("todo")) ==>
      ParseDirective(input).text == Trim(input)
  {
    var skip := FindFrom(input, Marker("skip"), 0);
    var todo := FindFrom(input, Marker("todo"), 0);
    var r :=
      if skip.Some? then ReasonStart(input, skip.value, "skip")
      else if todo.Some? then ReasonStart(input, todo.value, "todo")
      else 0;
    assert input[0..] == input;
    assert ParseDirective(input).text == Trim(input[r..]);
    TrimSpec(input[r..]);
  }

  /** `\s*#?\s*` starting at `p`: where the directive text begins. */
  function DirectiveStart(s: string, p: nat): (r: nat)
    requires p <= |s|
    ensures p <= r <= |s|
  {
    var a := RunEnd(s, p, Space);
    var b := if a < |s| && s[a] == '#' then a + 1 else a;
    RunEnd(s, b, Space)
  }

  // Field extractors.

  /** Where the groups of the test-result pattern lie: the status word ends
      at `status`; `index`, `description` and `directive` are
      `line[indexStart..indexEnd]`, `line[descStart..descEnd]` and
      `line[directiveStart..]`. */
  datatype ResultSpans = ResultSpans(
    status: nat, indexStart: nat, indexEnd: nat, descStart: nat, descEnd: nat, directiveStart: nat)

  /** The groups of `^(not )?ok\b\s*([0-9]*)\s*-?\s*([^#]*)\s*#?\s*(.*)`,
      each greedy in turn. */
  function MatchResult(line: string): (g: ResultSpans)
    requires IsTestResult(line)
    ensures g.status <= g.indexStart <= g.indexEnd <= g.descStart <= g.descEnd <= g.directiveStart <= |line|
  {
    var p := StatusEnd(line).value;
    var a := RunEnd(line, p, Space);
    var b := RunEnd(line, a, Digit);
    var c := RunEnd(line, b, Space);
    var d := if c < |line| && line[c] == '-' then c + 1 else c;
    var e := RunEnd(line, d, Space);
    var f := RunEnd(line, e, NotHash);
    ResultSpans(p, a, b, e, f, DirectiveStart(line, f))
  }

  /** `ParseTestResult`. */
  function ParseTestResult(line: string, currentIndex: nat): (t: TestLine)
    requires IsTestResult(line)
    ensures t.yaml == EmptyText && t.diagnostics == []
    ensures t.index <= UINT32_MAX || t.index == currentIndex
  {
    var g := MatchResult(line);
    var directive := ParseDirective(line[g.directiveStart..]);
    var index := match ParseUInt(line[g.indexStart..g.indexEnd]) case Some(n) => n case None => currentIndex;
    TestLine(
      if g.status == 2 then Ok else NotOk,
      index,
      Trim(line[g.descStart..g.descEnd]),
      directive.text,
      EmptyText,
      directive.todo,
      directive.skipped,
      [])
  }

  /** A `[^#]*` group, trimmed, is trimmed and holds no `#`. */
  lemma HashFreeTrim(s: string, e: nat)
    requires e <= |s|
    ensures Trimmed(Trim(s[e..RunEnd(s, e, NotHash)]))
    ensures '#' !in Trim(s[e..RunEnd(s, e, NotHash)])
  {
    RunEndSpec(s, e, NotHash);
    TrimSpec(s[e..RunEnd(s, e, NotHash)]);
  }

  /** The status is `Ok` exactly when the line starts with `ok`. */
  lemma ResultStatus(line: string, currentIndex: nat)
    requires IsTestResult(line)
    ensures ParseTestResult(line, currentIndex).status == Ok <==> LiteralAt(line, "ok", 0)
  {
    StatusWord(line);
  }

  /** The description is trimmed and stops before the first `#`. */
  lemma ResultDescription(line: string, currentIndex: nat)
    requires IsTestResult(line)
    ensures Trimmed(ParseTestResult(line, currentIndex).description)
    ensures '#' !in ParseTestResult(line, currentIndex).description
  {
    HashFreeTrim(line, MatchResult(line).descStart);
  }

  /** `ParseTestPlan`: the digits on either side of the first `..`, each 0
      when they do not parse, and the directive up to the last word boundary. */
  function ParseTestPlan(line: string): (p: TestPlan)
    requires IsPlan(line)
    ensures p.first <= UINT32_MAX && p.last <= UINT32_MAX && p.directive.Some?
  {
    var dots := FindFrom(line, Literal(".."), 0).value;
    var firstStart := RunStart(line, dots, Digit);
    var lastEnd := RunEnd(line, dots + 2, Digit);
    var start := DirectiveStart(line, lastEnd);
    var text := match LastBoundary(line, start, |line|)
      case Some(b) => line[start..b]
      case None => "";
    var directive := ParseDirective(text);
    TestPlan(
      Some(directive.text),
      UIntOrZero(line[firstStart..dots]),
      UIntOrZero(line[dots + 2..lastEnd]),
      directive.todo,
      directive.skipped)
  }

  /** `ParseTAPVersion`: the digits after the first version tag, 0 when they
      do not parse; a version above 13 is refused. */
  function ParseTAPVersion(line: string): (r: Result<nat, ParseError>)
    requires IsVersion(line)
    ensures r.Success? ==> r.value <= 13
    ensures r.Failure? ==> r.error.UnsupportedVersion? && 13 < r.error.version <= UINT32_MAX
  {
    var a := VersionStart(line);
    var v := UIntOrZero(line[a..RunEnd(line, a, Digit)]);
    if v > 13 then Failure(UnsupportedVersion(v)) else Success(v)
  }

  /** Where the `version` group of the first `TAP\s+version\s+` match starts. */
  function VersionStart(line: string): (a: nat)
    requires IsVersion(line)
    ensures a <= |line|
  {
    var k := FindFrom(line, VersionTag, 0).value;
    var j := RunEnd(line, k + 3, Space);
    RunEnd(line, j + 7, Space)
  }

  /** The trimmed text after the `#` of a diagnostic line. */
  function DiagnosticText(line: string): (r: string)
    requires IsDiagnostic(line)
    ensures |r| < |line|
  {
    Trim(line[RunEnd(line, 0, Space) + 1..])
  }

  /** The trimmed text after the first `Bail Out!`. */
  function BailOutMessage(line: string): (r: string)
    requires IsBailOut(line)
    ensures |r| <= |line| - 9
  {
    var k := FindFrom(line, Folded("bail out!"), 0).value;
    Trim(line[RunEnd(line, k + 9, Space)..])
  }
}
