/** Properties of the loop of `Parse` and of the reconciliation after it. */
module SessionLemmas {
  import opened Wrappers
  import opened Text
  import opened Records
  import opened Grammar
  import opened Session

  /** How many `OnTestResult` notifications a trace holds. */
  function CountResults(events: seq<Event>): nat {
    if events == [] then 0
    else CountResults(events[..|events| - 1]) + (if events[|events| - 1].TestResultSeen? then 1 else 0)
  }

  lemma {:induction false} CountResultsAppend(a: seq<Event>, b: seq<Event>)
    ensures CountResults(a + b) == CountResults(a) + CountResults(b)
    decreases |b|
  {
    if b == [] {
      assert a + b == a;
    } else {
      assert (a + b)[..|a + b| - 1] == a + b[..|b| - 1];
      CountResultsAppend(a, b[..|b| - 1]);
    }
  }

  lemma {:induction false} CountResultEvents(tests: seq<TestLine>)
    ensures CountResults(ResultEvents(tests)) == |tests|
    decreases |tests|
  {
    if tests != [] {
      var init := tests[..|tests| - 1];
      assert ResultEvents(tests)[..|tests| - 1] == ResultEvents(init);
      CountResultEvents(init);
    }
  }

  /** The fields a test line gets from its own line, which later lines do
      not change. */
  predicate SameHeader(a: TestLine, b: TestLine) {
    && a.status == b.status && a.index == b.index && a.description == b.description
    && a.directive == b.directive && a.todo == b.todo && a.skipped == b.skipped
  }

  /** The test lines the `OnTestResult` notifications of a trace carry, in
      the order they were sent. */
  function Notified(events: seq<Event>): (tests: seq<TestLine>)
    ensures |tests| == CountResults(events)
  {
    if events == [] then []
    else
      var last := events[|events| - 1];
      Notified(events[..|events| - 1]) + (if last.TestResultSeen? then [last.line] else [])
  }

  /** The `OnTestResult` notifications report the results one by one, in
      order: notification `i` carries result `i` as it was read from its
      line. YAML documents and diagnostics attached later may differ, since
      a notification is a snapshot. */
  predicate Reports(events: seq<Event>, results: seq<TestLine>) {
    && |Notified(events)| == |results|
    && forall i :: 0 <= i < |results| ==> SameHeader(Notified(events)[i], results[i])
  }

  /** One more notification adds its test line exactly when it reports a
      result. */
  lemma NotifiedOne(events: seq<Event>, e: Event)
    ensures Notified(events + [e]) == Notified(events) + (if e.TestResultSeen? then [e.line] else [])
  {
    assert (events + [e])[..|events|] == events;
  }

  lemma {:induction false} NotifiedAppend(a: seq<Event>, b: seq<Event>)
    ensures Notified(a + b) == Notified(a) + Notified(b)
    decreases |b|
  {
    if b == [] {
      assert a + b == a;
      assert Notified(a) + [] == Notified(a);
    } else {
      var init := b[..|b| - 1];
      var e := b[|b| - 1];
      assert a + b == (a + init) + [e];
      assert b == init + [e];
      NotifiedOne(a + init, e);
      NotifiedOne(init, e);
      NotifiedAppend(a, init);
    }
  }

  /** The notifications of a list of results carry exactly those results. */
  lemma {:induction false} NotifiedResultEvents(tests: seq<TestLine>)
    ensures Notified(ResultEvents(tests)) == tests
    decreases |tests|
  {
    if tests != [] {
      var init := tests[..|tests| - 1];
      NotifiedOne(ResultEvents(init), TestResultSeen(tests[|tests| - 1]));
      NotifiedResultEvents(init);
    }
  }

  /** `later` is a state the loop can reach from `st`: the notifications
      only grow, results are only appended and keep their parsed fields,
      session diagnostics are only appended and stop once a result exists,
      and a bail out is never undone. */
  predicate Extends(st: State, later: State) {
    && st.events <= later.events
    && |st.results| <= |later.results|
    && (forall i :: 0 <= i < |st.results| ==> SameHeader(later.results[i], st.results[i]))
    && st.diagnostics <= later.diagnostics
    && (st.results != [] ==> later.diagnostics == st.diagnostics)
    && (st.bailedOut ==> later.bailedOut)
  }

  lemma ExtendsTransitive(a: State, b: State, c: State)
    requires Extends(a, b) && Extends(b, c)
    ensures Extends(a, c)
  {
    forall i | 0 <= i < |a.results| ensures SameHeader(c.results[i], a.results[i]) {
      assert SameHeader(c.results[i], b.results[i]);
    }
  }

  /** Every line that does not stop the loop moves the state forward. */
  lemma StepExtends(st: State, line: string, decode: Decoder)
    requires Step(st, line, decode).Running?
    ensures Extends(st, Step(st, line, decode).state)
  {
    ApplyExtends(st, Read(line, st.yamlMode, |st.results| + 1), decode);
  }

  lemma ApplyExtends(st: State, item: Item, decode: Decoder)
    requires Apply(st, item, decode).Running?
    ensures Extends(st, Apply(st, item, decode).state)
  {
    var next := Apply(st, item, decode).state;
    if item.YamlEndItem? || item.DiagnosticItem? {
      assert forall i :: 0 <= i < |st.results| ==> SameHeader(next.results[i], st.results[i]);
    }
  }

  /** The item of a line is a test result exactly when the line is a test
      line. */
  lemma ReadResult(line: string, yaml: bool, next: nat)
    ensures Read(line, yaml, next).ResultItem? <==> ParseLine(line, yaml) == TestResultLine
  {
  }

  /** One more result exactly for a test line, and one `OnTestResult`
      notification with it. */
  lemma StepCountsResults(st: State, line: string, decode: Decoder)
    requires Step(st, line, decode).Running?
    ensures
      var next := Step(st, line, decode).state;
      |next.results| == |st.results| + (if ParseLine(line, st.yamlMode) == TestResultLine then 1 else 0)
    ensures
      var next := Step(st, line, decode).state;
      CountResults(next.events) - CountResults(st.events) == |next.results| - |st.results|
  {
    ReadResult(line, st.yamlMode, |st.results| + 1);
    ApplyCountsResults(st, Read(line, st.yamlMode, |st.results| + 1), decode);
  }

  lemma ApplyCountsResults(st: State, item: Item, decode: Decoder)
    requires Apply(st, item, decode).Running?
    ensures
      var next := Apply(st, item, decode).state;
      |next.results| == |st.results| + (if item.ResultItem? then 1 else 0)
    ensures
      var next := Apply(st, item, decode).state;
      CountResults(next.events) - CountResults(st.events) == |next.results| - |st.results|
  {
    match item
    case ResultItem(r) => CountOne(st.events, TestResultSeen(r));
    case ErrorItem(line) => if line != "" { CountOne(st.events, SyntaxErrorSeen(line)); }
    case VersionItem(v) => if v.Success? { CountOne(st.events, VersionSeen(v.value)); }
    case YamlStartItem =>
    case YamlEndItem => CountOne(st.events, YamlSeen(|st.results|, decode(st.yamlContent).value));
    case YamlContentItem(_) =>
    case PlanItem(tp) => CountOne(st.events, PlanSeen(tp));
    case DiagnosticItem(d) =>
      CountOne(st.events, DiagnosticSeen(d));
      CountOne(st.events, TestDiagnosticSeen(|st.results|, d));
    case BailOutItem(m) => CountOne(st.events, BailOutSeen(m));
  }

  /** Each line keeps the notifications reporting the results one by one. */
  lemma StepReports(st: State, line: string, decode: Decoder)
    requires Step(st, line, decode).Running? && Reports(st.events, st.results)
    ensures Reports(Step(st, line, decode).state.events, Step(st, line, decode).state.results)
  {
    ApplyReports(st, Read(line, st.yamlMode, |st.results| + 1), decode);
  }

  lemma ApplyReports(st: State, item: Item, decode: Decoder)
    requires Apply(st, item, decode).Running? && Reports(st.events, st.results)
    ensures Reports(Apply(st, item, decode).state.events, Apply(st, item, decode).state.results)
  {
    var next := Apply(st, item, decode).state;
    match item
    case ResultItem(r) => ReportsAppend(st.events, st.results, [r]);
    case ErrorItem(line) => if line != "" { ReportsOther(st.events, st.results, SyntaxErrorSeen(line), st.results); }
    case VersionItem(v) => ReportsOther(st.events, st.results, VersionSeen(v.value), st.results);
    case YamlStartItem =>
    case YamlEndItem =>
      ApplyExtends(st, item, decode);
      ReportsOther(st.events, st.results, YamlSeen(|st.results|, decode(st.yamlContent).value), next.results);
    case YamlContentItem(_) =>
    case PlanItem(tp) => ReportsOther(st.events, st.results, PlanSeen(tp), st.results);
    case DiagnosticItem(d) =>
      ApplyExtends(st, item, decode);
      if st.results == [] {
        ReportsOther(st.events, st.results, DiagnosticSeen(d), next.results);
      } else {
        ReportsOther(st.events, st.results, TestDiagnosticSeen(|st.results|, d), next.results);
      }
    case BailOutItem(m) => ReportsOther(st.events, st.results, BailOutSeen(m), st.results);
  }

  /** A notification that reports no result keeps the reports, while the
      results keep their headers. */
  lemma ReportsOther(events: seq<Event>, results: seq<TestLine>, e: Event, later: seq<TestLine>)
    requires Reports(events, results) && !e.TestResultSeen?
    requires |later| == |results| && forall i :: 0 <= i < |results| ==> SameHeader(later[i], results[i])
    ensures Reports(events + [e], later)
  {
    NotifiedOne(events, e);
    assert Notified(events + [e]) == Notified(events);
  }

  /** Appending results with one notification each keeps the reports. */
  lemma ReportsAppend(events: seq<Event>, results: seq<TestLine>, tests: seq<TestLine>)
    requires Reports(events, results)
    ensures Reports(events + ResultEvents(tests), results + tests)
  {
    NotifiedAppend(events, ResultEvents(tests));
    NotifiedResultEvents(tests);
    var n := Notified(events + ResultEvents(tests));
    assert n == Notified(events) + tests;
    forall i | 0 <= i < |results| + |tests| ensures SameHeader(n[i], (results + tests)[i]) {
      if i < |results| {
        assert n[i] == Notified(events)[i];
      } else {
        assert n[i] == tests[i - |results|];
      }
    }
  }

  /** One more notification counts when it reports a result. */
  lemma CountOne(events: seq<Event>, e: Event)
    ensures CountResults(events + [e]) == CountResults(events) + (if e.TestResultSeen? then 1 else 0)
  {
    assert (events + [e])[..|events|] == events;
  }

  /** The loop stops on a version above 13, and on a YAML end line whose
      block does not decode or has no test line to attach to; it keeps the
      notifications already sent. */
  lemma StepStops(st: State, line: string, decode: Decoder)
    ensures Step(st, line, decode).Stopped? <==>
      || (ParseLine(line, st.yamlMode) == VersionLine && ParseTAPVersion(line).Failure?)
      || (ParseLine(line, st.yamlMode) == YamlEndLine && (decode(st.yamlContent).None? || st.results == []))
    ensures Step(st, line, decode).Stopped? ==> Step(st, line, decode).events == st.events
  {
    ApplyStops(st, Read(line, st.yamlMode, |st.results| + 1), decode);
  }

  lemma ApplyStops(st: State, item: Item, decode: Decoder)
    ensures Apply(st, item, decode).Stopped? <==>
      || (item.VersionItem? && item.version.Failure?)
      || (item.YamlEndItem? && (decode(st.yamlContent).None? || st.results == []))
    ensures Apply(st, item, decode).Stopped? ==> Apply(st, item, decode).events == st.events
  {
  }

  /** Inside a YAML block every line but the end marker is collected and
      nothing else changes. */
  lemma StepInYamlBlock(st: State, line: string, decode: Decoder)
    requires st.yamlMode && !IsYamlEnd(line)
    ensures Step(st, line, decode) == Running(st.(yamlContent := st.yamlContent + line + "\n"))
  {
  }

  /** Once the loop has stopped, further lines change nothing. */
  lemma {:induction false} RunStopIsFinal(lines: seq<string>, more: seq<string>, decode: Decoder)
    requires Run(lines, decode).Stopped?
    ensures Run(lines + more, decode) == Run(lines, decode)
    decreases |more|
  {
    if more == [] {
      assert lines + more == lines;
    } else {
      var init := more[..|more| - 1];
      assert (lines + more)[..|lines + more| - 1] == lines + init;
      RunStopIsFinal(lines, init, decode);
    }
  }

  /** Every prefix of a run that completes also completes, and its state
      is extended by the final one. */
  lemma {:induction false} RunExtends(lines: seq<string>, i: nat, decode: Decoder)
    requires i <= |lines| && Run(lines, decode).Running?
    ensures Run(lines[..i], decode).Running?
    ensures Extends(Run(lines[..i], decode).state, Run(lines, decode).state)
    decreases |lines|
  {
    if i == |lines| {
      assert lines[..i] == lines;
    } else {
      var init := lines[..|lines| - 1];
      assert init[..i] == lines[..i];
      assert Run(init, decode).Running?;
      RunExtends(init, i, decode);
      StepExtends(Run(init, decode).state, lines[|lines| - 1], decode);
      ExtendsTransitive(Run(lines[..i], decode).state, Run(init, decode).state, Run(lines, decode).state);
    }
  }

  /** During the loop the `OnTestResult` notifications report the results
      one by one, in order, and there is at most one result per line. */
  lemma {:induction false} RunCountsResults(lines: seq<string>, decode: Decoder)
    requires Run(lines, decode).Running?
    ensures CountResults(Run(lines, decode).state.events) == |Run(lines, decode).state.results|
    ensures |Run(lines, decode).state.results| <= |lines|
    ensures Reports(Run(lines, decode).state.events, Run(lines, decode).state.results)
    decreases |lines|
  {
    if lines != [] {
      var init := lines[..|lines| - 1];
      RunCountsResults(init, decode);
      StepCountsResults(Run(init, decode).state, lines[|lines| - 1], decode);
      StepReports(Run(init, decode).state, lines[|lines| - 1], decode);
    }
  }

  /** Padding entry `i` is the synthetic result numbered `from + 1 + i`. */
  lemma {:induction false} PaddingSpec(from: nat, count: int)
    ensures forall i :: 0 <= i < |Padding(from, count)| ==> Padding(from, count)[i] == Synthetic(from + 1 + i)
    decreases count - from
  {
    if from < count {
      PaddingSpec(from, count - 1);
    }
  }

  /** Notification `i` reports result `i`. */
  lemma {:induction false} ResultEventsSpec(tests: seq<TestLine>)
    ensures forall i :: 0 <= i < |tests| ==> ResultEvents(tests)[i] == TestResultSeen(tests[i])
    decreases |tests|
  {
    if tests != [] {
      ResultEventsSpec(tests[..|tests| - 1]);
    }
  }

  /** One more line is one more `Step`. */
  lemma RunSnoc(lines: seq<string>, n: nat, decode: Decoder)
    requires n < |lines| && Run(lines[..n], decode).Running?
    ensures Run(lines[..n + 1], decode) == Step(Run(lines[..n], decode).state, lines[n], decode)
  {
    assert lines[..n + 1][..n] == lines[..n];
  }

  /** A stop after `n + 1` lines is what the whole parse ends with. */
  lemma StopAt(lines: seq<string>, n: nat, decode: Decoder)
    requires n < |lines| && Run(lines[..n + 1], decode).Stopped?
    ensures ParseSpec(lines, decode) ==
      Aborted(Run(lines[..n + 1], decode).error, Run(lines[..n + 1], decode).events)
  {
    RunStopIsFinal(lines[..n + 1], lines[n + 1..], decode);
    assert lines[..n + 1] + lines[n + 1..] == lines;
  }

  /** The padding from `from` starts with the result numbered `from + 1`. */
  lemma {:induction false} PaddingCons(from: nat, count: int)
    requires from < count
    ensures Padding(from, count) == [Synthetic(from + 1)] + Padding(from + 1, count)
    decreases count - from
  {
    if from + 1 < count {
      PaddingCons(from, count - 1);
    }
  }

  /** The reconciliation loop appends `Padding` to the results and its
      notifications to the trace. */
  lemma {:induction false} PadFromIs(results: seq<TestLine>, events: seq<Event>, i: nat, count: int)
    requires i >= 1
    ensures PadFrom(results, events, i, count) ==
      (results + Padding(i - 1, count), events + ResultEvents(Padding(i - 1, count)))
    decreases count - i
  {
    if i <= count {
      var t := Synthetic(i);
      PadFromIs(results + [t], events + [TestResultSeen(t)], i + 1, count);
      var rest := Padding(i, count);
      PaddingCons(i - 1, count);
      assert results + [t] + rest == results + ([t] + rest);
      ResultEventsCons(t, rest);
      assert events + [TestResultSeen(t)] + ResultEvents(rest) == events + ([TestResultSeen(t)] + ResultEvents(rest));
    } else {
      assert results + [] == results && events + [] == events;
    }
  }

  lemma {:induction false} ResultEventsCons(t: TestLine, tests: seq<TestLine>)
    ensures ResultEvents([t] + tests) == [TestResultSeen(t)] + ResultEvents(tests)
    decreases |tests|
  {
    if tests != [] {
      var init := tests[..|tests| - 1];
      assert ([t] + tests)[..|tests|] == [t] + init;
      ResultEventsCons(t, init);
    }
  }

  /** The reconciliation keeps every result, pads up to the plan's count
      with not-ok results numbered by position, and notifies each one. */
  lemma FinalizeTests(st: State)
    ensures
      var s := Finalize(st).session;
      var count := TestCount(st.plan);
      && |s.tests| == (if |st.results| < count then count else |st.results|)
      && s.tests[..|st.results|] == st.results
      && (forall i :: |st.results| <= i < |s.tests| ==> s.tests[i] == Synthetic(i + 1))
    ensures CountResults(Finalize(st).events) ==
      CountResults(st.events) + |Finalize(st).session.tests| - |st.results|
  {
    var pad := Padding(|st.results|, TestCount(st.plan));
    PadFromIs(st.results, st.events, |st.results| + 1, TestCount(st.plan));
    PaddingSpec(|st.results|, TestCount(st.plan));
    assert (st.results + pad)[..|st.results|] == st.results;
    CountResultsAppend(st.events, ResultEvents(pad));
    CountResultEvents(pad);
  }

  /** The reconciliation notifies each padded result after the ones
      already reported, so the notifications still report every test in
      order. */
  lemma FinalizeReports(st: State)
    requires Reports(st.events, st.results)
    ensures Reports(Finalize(st).events, Finalize(st).session.tests)
  {
    PadFromIs(st.results, st.events, |st.results| + 1, TestCount(st.plan));
    ReportsAppend(st.events, st.results, Padding(|st.results|, TestCount(st.plan)));
  }

  /** The plan's count, when no cast or sum wraps. */
  lemma TestCountInRange(plan: TestPlan)
    requires plan.first <= INT32_MAX && plan.last <= INT32_MAX
    requires plan.last - plan.first + 1 <= INT32_MAX
    ensures TestCount(plan) == plan.last - plan.first + 1
  {
  }

  /** A last index of 2^32 - 1 casts to -1, so the plan counts `-first`
      tests: none when `first` is 0, a negative number otherwise, and in
      both cases no result is padded. */
  lemma TestCountWraps(first: nat)
    requires first <= INT32_MAX
    ensures TestCount(TestPlan(Some(""), first, UINT32_MAX, false, false)) == -(first as int)
  {
  }

  /** Two indices that both exceed the signed range shift by the same
      2^32 under the casts, so their difference, and the count, is kept. */
  lemma TestCountBothHigh(first: nat, last: nat)
    requires INT32_MAX < first <= last <= UINT32_MAX
    requires last - first + 1 <= INT32_MAX
    ensures TestCount(TestPlan(Some(""), first, last, false, false)) == last - first + 1
  {
    assert Wrap32(first) == first - 0x1_0000_0000;
    assert Wrap32(last) == last - 0x1_0000_0000;
  }

  /** Without a plan line the default plan `0..0` counts one test. */
  lemma DefaultPlanCountsOne()
    ensures TestCount(DefaultPlan) == 1
  {
  }

  /** An empty stream yields one synthetic not-ok result, notified once. */
  lemma EmptyInput(decode: Decoder)
    ensures ParseSpec([], decode) ==
      Completed(TestSession(0, DefaultPlan, [Synthetic(1)], [], false, ""), [TestResultSeen(Synthetic(1))])
  {
    DefaultPlanCountsOne();
    var t := Synthetic(1);
    assert PadFrom([t], [TestResultSeen(t)], 2, 1) == ([t], [TestResultSeen(t)]);
    assert PadFrom([], [], 1, 1) == PadFrom([] + [t], [] + [TestResultSeen(t)], 2, 1);
  }

  /** A completed parse reports at least as many tests as the plan counts,
      sends one `OnTestResult` notification per test, in the order of the
      tests and carrying each one's status, index, description and
      directive, and keeps the results of the lines in order. */
  lemma ParseCompleted(lines: seq<string>, decode: Decoder)
    requires ParseSpec(lines, decode).Completed?
    ensures
      var s := ParseSpec(lines, decode).session;
      && |s.tests| >= TestCount(s.plan)
      && CountResults(ParseSpec(lines, decode).events) == |s.tests|
      && Reports(ParseSpec(lines, decode).events, s.tests)
      && s.tests[..|Run(lines, decode).state.results|] == Run(lines, decode).state.results
  {
    var st := Run(lines, decode).state;
    RunCountsResults(lines, decode);
    FinalizeTests(st);
    FinalizeReports(st);
  }
}
