# NetTAP `TAPParser` in Dafny

A model of the TAP 13 (Test Anything Protocol) parser of NetTAP, the class
`TAPParser` in `src/NetTAP/Parser.cs`, with proofs of what it does to a
stream of lines.

The parser reads a TAP stream line by line:

- It classifies each line with a first-match-wins list of regular
  expressions (`ParseLine`). Inside a YAML block only the block terminator
  is recognised.
- It updates a small state: the YAML flag and buffer, the list of test
  results, the plan, the version, the session diagnostics and the bail-out
  flag and message.
- It notifies listeners of each event.
- At the end of the stream it pads the results with not-ok entries up to
  the number of tests the plan declares, and returns a `TestSession`.

Three conditions make `Parse` throw instead of returning:

- a version above 13;
- a YAML end line whose block the YAML library cannot decode;
- a YAML end line before any test result, where `results.Last()` throws.

The modules follow the structure of the source:

- `Wrappers` holds `Option` and `Result`.
- `Text` holds the string primitives the regular expressions rely on:
  - runs of a character class, such as `\s*`, `\d*` and `[^#]*`;
  - the leftmost unanchored match of a pattern (`Regex.Match` and
    `Regex.IsMatch`);
  - `String.Trim`;
  - `uint.TryParse` on a `\d*` group;
  - the unchecked 32-bit `int` casts.
- `Records` holds the records `TestLine`, `TestPlan` and `TestSession`,
  plus the listener notifications (`Event`) and the conditions that abort
  a parse (`ParseError`).
- `Grammar` holds the classifier `ParseLine` and the extractors
  `ParseDirective`, `ParseTestResult`, `ParseTestPlan` and
  `ParseTAPVersion`. It also holds the diagnostic and bail-out message
  extraction. Each is written out from the regular expression it uses.
- `GrammarLemmas` holds the classifier's priorities, the directive parser's
  flags, and round trips that format a TAP line and read its fields back.
- `Session` is the specification of `Parse` as functions:
  - `Step` is one turn of the loop. It reads the line, then applies the
    case of the `switch`.
  - `Run` is the fold over all lines. A stop is final.
  - `Finalize` is the reconciliation after the loop.
  - `ParseSpec` is the whole parse.
- `SessionLemmas` holds what the loop preserves (`Extends`), when it stops,
  result counting, and the reconciliation.
- `LineEffects` holds the effect of each kind of line, a YAML block left
  open, and a stream without a plan line.
- `BasicFile` holds the parse of the stream in NetTAP's own basic test,
  first for every stream of that shape, then for the test's lines.
- `Parser` holds the imperative model:
  - `Parse` is a `while` loop over the lines.
  - `HandleLine` is the `switch`, over local copies of the variables.
  - `PadResults` is the `for` loop of the reconciliation.

  Each method is proved equal to its specification function.

The input stream is a `seq<string>` of lines, as `ReadLine` returns them.
The YAML library is a parameter `decode: string -> Option<Yaml>`, where
`None` stands for `Deserialize` throwing. The outcome is either
`Completed(session, events)` or `Aborted(error, events)`. `events` is the
sequence of listener notifications sent, in order.

### Where the code departs from TAP 13

The TAP 13 specification (testanything.org) describes the lines a producer
writes. The model follows the code, which accepts and reads them
differently in these places:

- **Directives.** TAP 13 has one directive per line: the keyword `SKIP`
  or `TODO` right after the `#`, then an optional explanation. The code
  searches the whole fragment for each token independently, so one line
  can be both skipped and todo (`GrammarLemmas.SkipAndTodo`). A token may
  also come after other words (`GrammarLemmas.TodoAfterWords`).
- **A directive without an explanation.** TAP 13 allows `# SKIP` with
  nothing after it. The code needs whitespace after the token, so a bare
  `SKIP` sets no flag and stays the directive text
  (`GrammarLemmas.BareSkip`, `GrammarLemmas.PlanSkipNeedsReason`).
- **Line positions.** In TAP 13, test lines, the plan and `Bail out!` start
  their line, the version line is the first line, and YAML blocks are
  indented under their test line. The code's patterns for `---`, `...`,
  `..`, the version tag and `Bail Out!` are not anchored. So
  `ok 1 - wait..` is a plan line (`GrammarLemmas.OkWithDotsIsPlan`), and
  `# TAP version 14` is a version line
  (`GrammarLemmas.CommentedVersionIsVersion`).

### Consequences of the code

- **Empty input.** Without a plan line, the default plan `0..0` counts
  one test. So empty input yields one synthetic result
  (`SessionLemmas.EmptyInput`), not an empty session.
- **Conditions that abort.** A version above 13 is not the only one. A
  YAML end line before any result also aborts, and so does a YAML block
  the decoder rejects.
- **YAML decode errors.** A test line never carries a YAML decode error:
  `YAMLError` is never assigned.

## Model

| member | source | states |
|---|---|---|
| Parser.Parse | src/NetTAP/Parser.cs:101-280 | The loop over the lines, the reconciliation and the returned session, or the exception that escapes, equal `ParseSpec` for every input and decoder |
| Parser.HandleLine | src/NetTAP/Parser.cs:119-238 | The `switch` on the line's kind, over mutable copies of the loop variables: it reaches the state, or the stop, that `Apply` gives for the item of that kind |
| Parser.PadResults | src/NetTAP/Parser.cs:243-269 | The padding `for` loop ends with the results and notifications of `PadFrom` from position `Count + 1` |
| Text.FindFromSpec | src/NetTAP/Parser.cs:305-308 | `Regex.Match` finds the leftmost match: no match starts before the one found, and none at all when it fails |
| Text.OccursIff | src/NetTAP/Parser.cs:384-414 | `Regex.IsMatch` holds exactly when the pattern matches at some position |
| Text.TrimSpec | src/NetTAP/Parser.cs:324 | `Trim` leaves no whitespace at either end, is empty exactly on blank input and keeps only characters of its input |
| Text.TrimPadded | src/NetTAP/Parser.cs:377 | `Trim` removes exactly the whitespace around a trimmed text |
| Text.ParseUIntDecimal | src/NetTAP/Parser.cs:366-368 | `uint.TryParse` on a decimal numeral succeeds with its value exactly when the value fits in 32 bits |
| Text.Wrap32 | src/NetTAP/Parser.cs:243 | The unchecked `int` cast is in the signed 32-bit range, congruent to its argument modulo 2^32, and the identity on that range |
| Grammar.ParseLine | src/NetTAP/Parser.cs:384-414 | Inside a YAML block a line is only a YAML end (exactly when it contains `...`) or YAML content; every other kind is returned only for a line its pattern matches |
| Grammar.ParseLineIsFirstMatch | src/NetTAP/Parser.cs:390-413 | Outside a block the classifier equals first-match-wins over yaml-start, version, diagnostic, plan, test-result, bail-out, with error when nothing matches |
| Grammar.FirstMatchSpec | src/NetTAP/Parser.cs:390-413 | First-match-wins returns error exactly when no pattern matches, and otherwise a kind whose pattern matches with no matching kind before it |
| Grammar.StatusWord | src/NetTAP/Parser.cs:76 | The status group ends after `ok` exactly when the line starts with `ok` rather than `not ok` |
| Grammar.DirectiveSpec | src/NetTAP/Parser.cs:305-325 | Skipped holds exactly when a `skip\S*\s+` token occurs, and Todo exactly when a `todo\S*\s+` token occurs, independently. The text is trimmed, and is the trimmed rest of the input from some position. With neither token it is the whole input, trimmed |
| Grammar.MatchResult | src/NetTAP/Parser.cs:74-76 | The groups of the test-line pattern lie in order: status, index, description, directive |
| Grammar.ParseTestResult | src/NetTAP/Parser.cs:359-381 | A parsed test line has YAML `""` and no diagnostics, and its index either fits in 32 bits or is the fallback position |
| Grammar.HashFreeTrim | src/NetTAP/Parser.cs:76 | The description group stops at the first `#`, so the trimmed description holds no `#` |
| Grammar.ResultStatus | src/NetTAP/Parser.cs:362-364 | The status is Ok exactly when the line starts with `ok` |
| Grammar.ResultDescription | src/NetTAP/Parser.cs:377 | The description is trimmed and holds no `#` |
| Grammar.ParseTestPlan | src/NetTAP/Parser.cs:328-345 | Both plan indices fit in 32 bits and the plan's directive is a string |
| Grammar.ParseTAPVersion | src/NetTAP/Parser.cs:347-357 | A version is returned only up to 13; above it the parse fails with a version above 13 that fits in 32 bits |
| GrammarLemmas.SkipDirective | src/NetTAP/Parser.cs:311-313 | `SKIP reason` sets Skipped and not Todo, and the directive is the reason |
| GrammarLemmas.TodoDirective | src/NetTAP/Parser.cs:315-317 | `TODO reason` sets Todo and not Skipped, and the directive is the reason |
| GrammarLemmas.ReasonAfterToken | src/NetTAP/Parser.cs:305-325 | After a skip token, or a todo token with no skip token anywhere, that starts the fragment or follows whitespace, the directive text is the reason after the whitespace and the token's flag is set |
| GrammarLemmas.TodoAfterWords | src/NetTAP/Parser.cs:315-317 | `see below TODO x` sets Todo and not Skipped, with text `x`: the token need not start the fragment |
| GrammarLemmas.BareSkip | src/NetTAP/Parser.cs:85-86 | A bare `SKIP` with no whitespace after it sets neither flag and stays the directive text |
| GrammarLemmas.SkipAndTodo | src/NetTAP/Parser.cs:305-325 | `skip it todo later` sets both flags, and the reason after the skip token wins |
| GrammarLemmas.DirectiveCaseInsensitive | src/NetTAP/Parser.cs:85-86 | Directive parsing is case-insensitive: lower-casing the fragment keeps both flags and lower-cases the text |
| GrammarLemmas.CommentedVersionIsVersion | src/NetTAP/Parser.cs:394-400 | `# TAP version 14` matches the diagnostic pattern but is classified as a version line |
| GrammarLemmas.OkWithDotsIsPlan | src/NetTAP/Parser.cs:402-408 | `ok 1 - wait..` matches the test-line pattern but is classified as a plan line |
| GrammarLemmas.ResultLineKind | src/NetTAP/Parser.cs:390-408 | A formatted test line whose texts hold no dot, dash or capital `A` matches no earlier pattern and is classified as a test line |
| GrammarLemmas.VersionLineKind | src/NetTAP/Parser.cs:390-396 | `TAP version n` is classified as a version line |
| GrammarLemmas.PlanLineKind | src/NetTAP/Parser.cs:390-404 | `first..last` is classified as a plan line |
| GrammarLemmas.FormattedGroups | src/NetTAP/Parser.cs:74-76 | On `status index - description # directive` the groups hold the status word, the index numeral, the description and the directive |
| GrammarLemmas.ResultRoundTrip | src/NetTAP/Parser.cs:359-381 | Reading a formatted test line gives back its status and description, and the directive through the directive parser. The index comes back when it fits in 32 bits; otherwise `uint.TryParse` fails and the line gets the running position |
| GrammarLemmas.IndexFallback | src/NetTAP/Parser.cs:366-368 | A test line without index digits gets the fallback position as its index |
| GrammarLemmas.PlanRoundTrip | src/NetTAP/Parser.cs:328-345 | Reading `first..last` gives back each index that fits in 32 bits, and 0 for one that does not, with an empty directive and neither flag |
| GrammarLemmas.PlanDirectiveRoundTrip | src/NetTAP/Parser.cs:328-345 | On `first..last # d` followed by text without word characters, the plan's directive text and flags are those the directive parser gives for `d` |
| GrammarLemmas.PlanWithoutFirst | src/NetTAP/Parser.cs:333 | `..n` is a plan line whose first index is 0 |
| GrammarLemmas.PlanSkipNeedsReason | src/NetTAP/Parser.cs:83-86 | `1..0 # SKIP ` is not skipped and keeps `SKIP` as its directive; `1..0 # SKIP no tests` is skipped with the reason `no tests` |
| GrammarLemmas.VersionRoundTrip | src/NetTAP/Parser.cs:347-357 | `TAP version n` reads as n up to 13. It aborts for n above 13 that fits in 32 bits. It reads as 0 when n does not fit |
| GrammarLemmas.VersionWithoutDigits | src/NetTAP/Parser.cs:349-351 | A version tag with no digits after it reads as version 0 |
| GrammarLemmas.DiagnosticRoundTrip | src/NetTAP/Parser.cs:193 | An indented `# message` matches the diagnostic pattern, and the extracted text is the message |
| GrammarLemmas.BailOutRoundTrip | src/NetTAP/Parser.cs:223 | `Bail out! reason`, in any letter case, matches the bail-out pattern, and the extracted text is the reason |
| SessionLemmas.StepExtends | src/NetTAP/Parser.cs:114-241 | Each line that does not stop the loop only appends notifications and results, keeps the parsed fields of earlier results, only appends session diagnostics and only before the first result, and never clears the bail-out flag |
| SessionLemmas.ExtendsTransitive | src/NetTAP/Parser.cs:114-241 | Those guarantees compose over several lines |
| SessionLemmas.StepCountsResults | src/NetTAP/Parser.cs:121-133 | A line adds a result exactly when it is a test line, and one `OnTestResult` notification with it |
| SessionLemmas.StepStops | src/NetTAP/Parser.cs:141-175 | The loop stops exactly on a version above 13, or on a YAML end whose block does not decode or has no result to attach to, keeping the notifications already sent |
| SessionLemmas.StepInYamlBlock | src/NetTAP/Parser.cs:176-178 | Inside a block every line but a terminator is appended to the buffer with a line feed, and nothing else changes |
| SessionLemmas.RunStopIsFinal | src/NetTAP/Parser.cs:114-241 | Once an exception escapes, later lines change nothing |
| SessionLemmas.RunExtends | src/NetTAP/Parser.cs:114-241 | Every prefix of a completed loop completes, and the final state extends it |
| SessionLemmas.RunCountsResults | src/NetTAP/Parser.cs:121-133 | During the loop the `OnTestResult` notifications carry the results one by one, in order: notification i has the status, index, description and directive of result i. There is at most one result per line |
| SessionLemmas.StepReports | src/NetTAP/Parser.cs:119-238 | A line keeps the `OnTestResult` notifications reporting the results one by one: a test line appends its result and the notification carrying it, and other lines keep every result's status, index, description and directive |
| SessionLemmas.PaddingSpec | src/NetTAP/Parser.cs:247-256 | Padding entry i is the not-ok line with empty description and directive at position `Count + 1 + i` |
| SessionLemmas.PadFromIs | src/NetTAP/Parser.cs:247-268 | The padding loop appends exactly the padding to the results and one notification per padded entry |
| SessionLemmas.FinalizeTests | src/NetTAP/Parser.cs:243-269 | The session reports max(observed, plan count) tests, keeps every observed result, pads with not-ok lines numbered by position and notifies each padded one |
| SessionLemmas.FinalizeReports | src/NetTAP/Parser.cs:245-268 | Each padded result is notified after the ones already reported, so the notifications still carry every test in order |
| SessionLemmas.TestCountInRange | src/NetTAP/Parser.cs:243 | Without overflow the plan counts `last - first + 1` tests |
| SessionLemmas.TestCountWraps | src/NetTAP/Parser.cs:243 | A last index of 2^32-1 casts to -1, so the plan counts `-first` tests: none when `first` is 0, a negative number otherwise, and nothing is padded |
| SessionLemmas.TestCountBothHigh | src/NetTAP/Parser.cs:243 | When both indices exceed the signed range, both casts shift by 2^32, so the plan still counts `last - first + 1` tests |
| SessionLemmas.DefaultPlanCountsOne | src/NetTAP/Parser.cs:107 | The default plan `0..0` counts one test |
| SessionLemmas.EmptyInput | src/NetTAP/Parser.cs:101-280 | An empty stream gives version 0, the default plan, one synthetic not-ok result and one notification |
| SessionLemmas.ParseCompleted | src/NetTAP/Parser.cs:243-279 | A completed parse reports at least the plan's count of tests. It sends one `OnTestResult` notification per test, in the order of the tests, each carrying its test's status, index, description and directive. It keeps the results of the lines in order |
| LineEffects.TestLineAppends | src/NetTAP/Parser.cs:121-133 | A test line appends exactly one result read from it, with the next position as fallback index, notifies it and changes nothing else |
| LineEffects.UnrecognisedLine | src/NetTAP/Parser.cs:134-140 | An unrecognised line reports one syntax error unless it is empty and changes nothing else |
| LineEffects.VersionLineEffect | src/NetTAP/Parser.cs:141-153 | A version line up to 13 replaces the version and notifies it; above 13 the parse aborts without storing or notifying it |
| LineEffects.YamlStartOpens | src/NetTAP/Parser.cs:154-157 | A YAML start line sets the flag and empties the buffer |
| LineEffects.YamlEndAttaches | src/NetTAP/Parser.cs:158-175 | A YAML end line clears the flag and attaches the decoded document to the last result only; it aborts when the buffer does not decode or no result exists |
| LineEffects.ReadPlanLine | src/NetTAP/Parser.cs:179-180 | A plan line reads as the plan `ParseTestPlan` extracts from it |
| LineEffects.PlanLineReplaces | src/NetTAP/Parser.cs:179-191 | A plan replaces the earlier plan and is notified |
| LineEffects.DiagnosticLineEffect | src/NetTAP/Parser.cs:192-221 | A diagnostic goes to the session list exactly when no result exists, otherwise only to the last result's list; nothing else changes |
| LineEffects.BailOutContinues | src/NetTAP/Parser.cs:222-235 | A bail-out line sets the flag, keeps its trimmed message, notifies it and does not stop the loop |
| LineEffects.OpenBlockCollects | src/NetTAP/Parser.cs:176-178 | Lines of a block still open only extend its buffer, so a block open at the end of the input attaches and notifies nothing |
| LineEffects.StepKeepsPlan | src/NetTAP/Parser.cs:179-191 | A line not classified as a plan line, in the mode it is read in, leaves the plan unchanged |
| LineEffects.RunKeepsDefaultPlan | src/NetTAP/Parser.cs:107 | When no line is classified as a plan line in the mode it is read in, the loop ends with the default plan |
| LineEffects.WithoutPlanAtLeastOne | src/NetTAP/Parser.cs:243-269 | When no line is classified as a plan line, a completed parse keeps the default plan and reports at least one test |
| BasicFile.ParsesSample | src/NetTAP/Parser.cs:101-280 | Every stream of the basic test's shape parses, when the decoder accepts both blocks, to its version, the plan `1..last` and four results in order, each block's document on the result before it. The notifications come in stream order, and nothing is padded |
| BasicFile.TestLines | test/NetTAP.Tests/Tests.cs:24-40 | The sample's formatted lines are exactly the lines of the test's content |
| BasicFile.ParsesBasicFile | test/NetTAP.Tests/Tests.cs:24-48 | The test's stream parses to version 13, the plan `1..4` and four results, the fourth a todo with directive `Not written yet`, each block's document on the result before it |
| BasicFile.ParsesTestContent | test/NetTAP.Tests/Tests.cs:42-48 | The test's content parses without an exception to four results, the first described `Input file opened` |

## Left out

- Reading the stream is not modelled. The input is the sequence of lines `ReadLine` returns. UTF-8 decoding and line splitting are not modelled.
- `ParseAsync` is left out. It only runs `Parse` on a task.
- The YamlDotNet `Deserializer` is an abstract parameter. The decoded document is an opaque `Yaml` value.
- Listener exceptions and `SendError` are left out. The notifications form a trace, and listeners are taken not to throw.
- `OnError` for an unrecognised line is a `SyntaxErrorSeen` entry of the trace.
- `Grammar.ParseLine`, `Grammar.ParseDirective`, `Grammar.ParseTestResult`, `Grammar.ParseTestPlan`, `Grammar.ParseTAPVersion`, `Grammar.BailOutMessage`: `\w`, `\d`, `\b` and `(?i)` are ASCII. .NET uses Unicode letter, digit and case tables for them. `\s` is the .NET whitespace set. The results differ only on input with non-ASCII letters or digits. Three examples:
  - On `1..4 # skip café` the plan's directive group ends at the last word boundary. The model puts that boundary before `é` and reads the text `caf`, where .NET reads `café`.
  - On `1..٤ # x`, .NET's `\d*` takes the Arabic-Indic `٤` into the last index, which `uint.TryParse` then rejects, and the directive is `x`. The model's last index is empty and its directive starts at `٤`.
  - On `TAP version 1٣`, .NET's version group is `1٣`, which `uint.TryParse` rejects, so the version is 0. The model's group is `1`.
- `Text.ParseUInt` accepts only digit strings. `uint.TryParse` also accepts surrounding whitespace and a sign, but every group it is applied to is `\d*`.
- `Parser.PadResults`: the C# loop counter `int i` would wrap when the plan counts `int.MaxValue` tests. The model appends that many entries and stops.
- Updating `results.Last()` in place is modelled as replacing the last element of the sequence. Aliasing is not modelled: each notification carries the test line as it was when notified, while the C# listener holds a reference that sees later YAML and diagnostics.
- The unreachable `default` branch of the `switch` is left out. The datatype of line kinds has no other case.
- `BasicFile.ParsesTestContent`: the test calls a `TestAnythingProtocolParser` class that `Parser.cs` does not define. The lemma is about `TAPParser.Parse`. Its requires says that the YAML library accepts both blocks, since the library is not part of this model.
