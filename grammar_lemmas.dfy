/** Properties of the line grammar: the priority examples of the
    classifier, the directive parser's flags and case-insensitivity, and
    round trips that format a TAP line and read its fields back. */
module GrammarLemmas {
  import opened Wrappers
  import opened Text
  import opened Records
  import opened Grammar

  // Scanning a string that has a known prefix.

  lemma RunEndShift(a: string, b: string, i: nat, cls: CharClass)
    requires i <= |b|
    ensures RunEnd(a + b, |a| + i, cls) == |a| + RunEnd(b, i, cls)
  {
    var s := a + b;
    RunEndSpec(b, i, cls);
    var r := RunEnd(b, i, cls);
    assert forall k :: 0 <= k < |b| ==> s[|a| + k] == b[k];
    RunEndIs(s, |a| + i, |a| + r, cls);
  }

  lemma SliceShift(a: string, b: string, i: nat, j: nat)
    requires i <= j <= |b|
    ensures (a + b)[|a| + i..|a| + j] == b[i..j]
  {
  }

  lemma MarkerShift(a: string, b: string, w: string, k: nat)
    requires k <= |b|
    ensures MatchesAt(a + b, Marker(w), |a| + k) <==> MatchesAt(b, Marker(w), k)
  {
    if k + |w| <= |b| {
      SliceShift(a, b, k, k + |w|);
      RunEndShift(a, b, k + |w|, NonSpace);
    }
  }

  // The directive parser.

  /** With only a skip token in front of a reason, the directive is the
      reason and only Skipped is set. */
  lemma SkipDirective(reason: string)
    requires Trimmed(reason) && !Occurs(reason, Marker("todo"))
    ensures ParseDirective("SKIP " + reason) == Directive(reason, false, true)
  {
    MarkedDirective("SKIP ", reason, "skip", "todo");
  }

  /** With only a todo token in front of a reason, the directive is the
      reason and only Todo is set. */
  lemma TodoDirective(reason: string)
    requires Trimmed(reason) && !Occurs(reason, Marker("skip"))
    ensures ParseDirective("TODO " + reason) == Directive(reason, true, false)
  {
    MarkedDirective("TODO ", reason, "todo", "skip");
  }

  lemma TokenAtStart(token: string, reason: string, word: string)
    requires (token == "SKIP " && word == "skip") || (token == "TODO " && word == "todo")
    requires Trimmed(reason)
    ensures FindFrom(token + reason, Marker(word), 0) == Some(0)
    ensures ReasonStart(token + reason, 0, word) == 5
  {
    var s := token + reason;
    assert s[0..4] == token[0..4];
    assert FoldedEqual(token[0..4], word) by {
      if token == "SKIP " {
        assert token[0..4] == "SKIP";
        assert FoldedEqual("SKIP", "skip");
      } else {
        assert token[0..4] == "TODO";
        assert FoldedEqual("TODO", "todo");
      }
    }
    assert s[4] == ' ';
    RunEndIs(s, 4, 4, NonSpace);
    assert MatchesAt(s, Marker(word), 0);
    RunEndShift(token, reason, 0, Space);
    RunEndIs(reason, 0, 0, Space);
  }

  lemma TokenAbsent(token: string, reason: string, other: string)
    requires (token == "SKIP " && other == "todo") || (token == "TODO " && other == "skip")
    requires !Occurs(reason, Marker(other))
    ensures FindFrom(token + reason, Marker(other), 0) == None
  {
    var s := token + reason;
    OccursIff(reason, Marker(other));
    forall k: nat | k <= |s| ensures !MatchesAt(s, Marker(other), k) {
      if k < 5 {
        if k + 4 <= |s| {
          assert s[k..k + 4][0] == s[k] == token[k];
        }
      } else {
        MarkerShift(token, reason, other, k - 5);
      }
    }
    FindFromNone(s, Marker(other), 0);
  }

  lemma MarkedDirective(token: string, reason: string, word: string, other: string)
    requires (token == "SKIP " && word == "skip" && other == "todo") ||
             (token == "TODO " && word == "todo" && other == "skip")
    requires Trimmed(reason) && !Occurs(reason, Marker(other))
    ensures ParseDirective(token + reason) ==
      Directive(reason, word == "todo", word == "skip")
  {
    var s := token + reason;
    TokenAtStart(token, reason, word);
    TokenAbsent(token, reason, other);
    assert s[5..] == reason;
    TrimPadded([], reason, []);
    assert [] + reason + [] == reason;
  }

  /** The reason after the first marker, wherever it stands: in
      `prefix + token + gap + reason`, where `token` is the marker word in
      any case followed by more non-space characters (`Skipped:`), `gap` is
      whitespace and no marker occurs in `prefix`, the directive text is
      the reason. A todo reason is taken only when no skip marker occurs
      anywhere. */
  lemma ReasonAfterToken(prefix: string, token: string, gap: string, reason: string, word: string)
    requires word == "skip" || word == "todo"
    requires prefix == [] || IsSpace(prefix[|prefix| - 1])
    requires !Occurs(prefix, Marker(word))
    requires |word| <= |token| && FoldedEqual(token[..|word|], word)
    requires forall k :: |word| <= k < |token| ==> !IsSpace(token[k])
    requires gap != [] && AllSpace(gap) && Trimmed(reason)
    requires word == "todo" ==> !Occurs(prefix + (token + (gap + reason)), Marker("skip"))
    ensures
      var d := ParseDirective(prefix + (token + (gap + reason)));
      && d.text == reason
      && (word == "skip" ==> d.skipped)
      && (word == "todo" ==> d.todo)
  {
    var rest := token + (gap + reason);
    var s := prefix + rest;
    TokenMatch(prefix, token, gap, reason, word);
    NoEarlierMarker(prefix, rest, word);
    FindFromIs(s, Marker(word), 0, |prefix|);
    DirectiveAtMarker(s, word, |prefix|, |prefix| + |token| + |gap|, reason);
  }

  /** The directive whose first marker of `word` is at `k`, with the reason
      starting at `r`. */
  lemma DirectiveAtMarker(s: string, word: string, k: nat, r: nat, reason: string)
    requires word == "skip" || word == "todo"
    requires FindFrom(s, Marker(word), 0) == Some(k) && k + |word| <= |s|
    requires ReasonStart(s, k, word) == r && s[r..] == reason && Trimmed(reason)
    requires word == "todo" ==> FindFrom(s, Marker("skip"), 0) == None
    ensures ParseDirective(s).text == reason
    ensures word == "skip" ==> ParseDirective(s).skipped
    ensures word == "todo" ==> ParseDirective(s).todo
  {
    TrimPadded([], reason, []);
    assert [] + reason + [] == reason;
  }

  /** The marker matches at the token, and its reason starts after the gap. */
  lemma TokenMatch(prefix: string, token: string, gap: string, reason: string, word: string)
    requires |word| <= |token| && FoldedEqual(token[..|word|], word)
    requires forall k :: |word| <= k < |token| ==> !IsSpace(token[k])
    requires gap != [] && AllSpace(gap) && Trimmed(reason)
    ensures MatchesAt(prefix + (token + (gap + reason)), Marker(word), |prefix|)
    ensures ReasonStart(prefix + (token + (gap + reason)), |prefix|, word) == |prefix| + |token| + |gap|
    ensures (prefix + (token + (gap + reason)))[|prefix| + |token| + |gap|..] == reason
  {
    var t := token + (gap + reason);
    TokenLeads(token, gap, reason, word);
    MarkerAfter(prefix, t, word);
    ReasonStartShift(prefix, t, word);
    SuffixShift(prefix, t, |token| + |gap|);
  }

  lemma MarkerAfter(prefix: string, t: string, word: string)
    requires MatchesAt(t, Marker(word), 0)
    ensures MatchesAt(prefix + t, Marker(word), |prefix|)
  {
    MarkerShift(prefix, t, word, 0);
  }

  lemma ReasonStartShift(prefix: string, t: string, word: string)
    requires |word| <= |t|
    ensures ReasonStart(prefix + t, |prefix|, word) == |prefix| + ReasonStart(t, 0, word)
  {
    RunEndShift(prefix, t, |word|, NonSpace);
    RunEndShift(prefix, t, RunEnd(t, |word|, NonSpace), Space);
  }

  lemma SuffixShift(prefix: string, t: string, r: nat)
    requires r <= |t|
    ensures (prefix + t)[|prefix| + r..] == t[r..]
  {
  }

  /** The same, for a token at the start of the text. */
  lemma TokenLeads(token: string, gap: string, reason: string, word: string)
    requires |word| <= |token| && FoldedEqual(token[..|word|], word)
    requires forall k :: |word| <= k < |token| ==> !IsSpace(token[k])
    requires gap != [] && AllSpace(gap) && Trimmed(reason)
    ensures MatchesAt(token + (gap + reason), Marker(word), 0)
    ensures ReasonStart(token + (gap + reason), 0, word) == |token| + |gap|
    ensures (token + (gap + reason))[|token| + |gap|..] == reason
  {
    var B := gap + reason;
    var t := token + B;
    TokenRun(token, B, word);
    GapRun(gap, reason);
    RunEndShift(token, B, 0, Space);
    assert t[0..|word|] == token[..|word|];
    assert t[|token| + |gap|..] == B[|gap|..] == reason;
  }

  /** The token's non-space run ends where the gap begins. */
  lemma TokenRun(token: string, B: string, word: string)
    requires |word| <= |token|
    requires forall k :: |word| <= k < |token| ==> !IsSpace(token[k])
    requires B != [] && IsSpace(B[0])
    ensures RunEnd(token + B, |word|, NonSpace) == |token|
  {
    var s := token + B;
    assert forall k :: |word| <= k < |token| ==> s[k] == token[k];
    assert s[|token|] == B[0];
    RunEndIs(s, |word|, |token|, NonSpace);
  }

  /** The gap's whitespace run ends where the reason begins. */
  lemma GapRun(gap: string, reason: string)
    requires AllSpace(gap) && Trimmed(reason)
    ensures RunEnd(gap + reason, 0, Space) == |gap|
  {
    var s := gap + reason;
    assert forall k :: 0 <= k < |gap| ==> s[k] == gap[k];
    if reason != [] {
      assert s[|gap|] == reason[0];
    }
    RunEndIs(s, 0, |gap|, Space);
  }

  /** No marker starts inside a prefix that ends in whitespace and holds
      none of its own. */
  lemma NoEarlierMarker(prefix: string, rest: string, word: string)
    requires word == "skip" || word == "todo"
    requires prefix == [] || IsSpace(prefix[|prefix| - 1])
    requires !Occurs(prefix, Marker(word))
    ensures forall j: nat :: j < |prefix| ==> !MatchesAt(prefix + rest, Marker(word), j)
  {
    var s := prefix + rest;
    OccursIff(prefix, Marker(word));
    forall j: nat | j < |prefix| ensures !MatchesAt(s, Marker(word), j) {
      if MatchesAt(s, Marker(word), j) {
        var m := |prefix| - 1;
        if j + 4 <= m {
          assert s[j..j + 4] == prefix[j..j + 4];
          RunEndBeforeSpace(prefix, j + 4);
          RunEndPrefix(prefix, rest, j + 4, NonSpace);
          assert MatchesAt(prefix, Marker(word), j);
        } else {
          assert s[j..j + 4][m - j] == prefix[m];
          FoldedEqualAt(s[j..j + 4], word, m - j);
        }
      }
    }
  }

  /** A non-space run that starts before a final space ends before it. */
  lemma RunEndBeforeSpace(s: string, i: nat)
    requires i < |s| && IsSpace(s[|s| - 1])
    ensures RunEnd(s, i, NonSpace) < |s|
  {
    RunEndSpec(s, i, NonSpace);
  }

  /** A run that ends inside `a` ends at the same place in `a + b`. */
  lemma RunEndPrefix(a: string, b: string, i: nat, cls: CharClass)
    requires i <= |a| && RunEnd(a, i, cls) < |a|
    ensures RunEnd(a + b, i, cls) == RunEnd(a, i, cls)
  {
    var s := a + b;
    RunEndSpec(a, i, cls);
    assert forall k :: 0 <= k < |a| ==> s[k] == a[k];
    RunEndIs(s, i, RunEnd(a, i, cls), cls);
  }

  lemma {:induction false} FoldedEqualAt(a: string, b: string, i: nat)
    requires |a| == |b| && i < |a| && FoldedEqual(a, b)
    ensures LowerChar(a[i]) == LowerChar(b[i])
    decreases i
  {
    if i > 0 {
      FoldedEqualAt(a[1..], b[1..], i - 1);
    }
  }

  /** `see below TODO x`: a todo token after other words. */
  lemma TodoAfterWords()
    ensures ParseDirective("see below TODO x") == Directive("x", true, false)
  {
    SeeBelowPieces();
    ReasonAfterToken("see below ", "TODO", " ", "x", "todo");
  }

  /** The pieces of `see below TODO x` as the token lemma takes them. */
  lemma SeeBelowPieces()
    ensures "see below TODO x" == "see below " + ("TODO" + (" " + "x"))
    ensures !Occurs("see below TODO x", Marker("skip")) && !Occurs("see below ", Marker("todo"))
    ensures FoldedEqual("TODO"[..4], "todo")
  {
    NoSkipInSeeBelow();
    NoTodoInSeeBelow();
    assert "TODO"[..4] == "TODO";
  }

  lemma NoSkipInSeeBelow()
    ensures !Occurs("see below TODO x", Marker("skip"))
  {
    var s := "see below TODO x";
    forall k: nat | k <= |s| ensures !MatchesAt(s, Marker("skip"), k) {
      if k + 4 <= |s| {
        var a := s[k..k + 4];
        assert a[0] == s[k] && a[1] == s[k + 1];
        if FoldedEqual(a, "skip") {
          FoldedEqualAt(a, "skip", 0);
          FoldedEqualAt(a, "skip", 1);
        }
      }
    }
    OccursIff(s, Marker("skip"));
  }

  lemma NoTodoInSeeBelow()
    ensures !Occurs("see below ", Marker("todo"))
  {
    var s := "see below ";
    forall k: nat | k <= |s| ensures !MatchesAt(s, Marker("todo"), k) {
      if k + 4 <= |s| {
        assert s[k..k + 4][0] == s[k];
      }
    }
    OccursIff(s, Marker("todo"));
  }

  /** A bare `SKIP` with nothing after it is not a skip directive: the
      marker needs whitespace after its token. */
  lemma BareSkip()
    ensures ParseDirective("SKIP") == Directive("SKIP", false, false)
  {
    var s := "SKIP";
    forall k: nat | k <= |s| ensures !MatchesAt(s, Marker("skip"), k) && !MatchesAt(s, Marker("todo"), k) {
      if k == 0 {
        RunEndIs(s, 4, 4, NonSpace);
      }
    }
    TrimPadded([], s, []);
    assert [] + s + [] == s;
  }

  /** Skipped and Todo are computed independently: both can be set, and the
      text is then the skip reason. */
  lemma SkipAndTodo()
    ensures ParseDirective("skip it todo later") == Directive("it todo later", true, true)
  {
    SkipAndTodoMarkers();
    SkipAndTodoReason();
  }

  lemma SkipAndTodoReason()
    ensures ReasonStart("skip it todo later", 0, "skip") == 5
    ensures Trim("skip it todo later"[5..]) == "it todo later"
  {
    var s := "skip it todo later";
    RunEndIs(s, 4, 4, NonSpace);
    RunEndIs(s, 4, 5, Space);
    assert s[5..] == "it todo later";
    TrimPadded([], "it todo later", []);
    assert [] + "it todo later" + [] == "it todo later";
  }

  lemma SkipAndTodoMarkers()
    ensures FindFrom("skip it todo later", Marker("skip"), 0) == Some(0)
    ensures Occurs("skip it todo later", Marker("todo"))
  {
    var s := "skip it todo later";
    assert s[0..4] == "skip";
    RunEndIs(s, 4, 4, NonSpace);
    assert MatchesAt(s, Marker("skip"), 0);
    assert s[8..12] == "todo";
    RunEndIs(s, 12, 12, NonSpace);
    assert MatchesAt(s, Marker("todo"), 8);
    OccursIff(s, Marker("todo"));
  }

  // Case-insensitivity of the directive parser.

  lemma RunEndLower(s: string, i: nat, cls: CharClass)
    requires i <= |s| && cls != Digit && cls != NotHash
    ensures RunEnd(Lower(s), i, cls) == RunEnd(s, i, cls)
  {
    RunEndSpec(s, i, cls);
    RunEndIs(Lower(s), i, RunEnd(s, i, cls), cls);
  }

  lemma RunStartLower(s: string, j: nat)
    requires j <= |s|
    ensures RunStart(Lower(s), j, Space) == RunStart(s, j, Space)
  {
    RunStartSpec(s, j, Space);
    RunStartIs(Lower(s), RunStart(s, j, Space), j, Space);
  }

  lemma LowerSlice(s: string, i: nat, j: nat)
    requires i <= j <= |s|
    ensures Lower(s)[i..j] == Lower(s[i..j])
  {
  }

  lemma TrimLower(s: string)
    ensures Trim(Lower(s)) == Lower(Trim(s))
  {
    RunEndLower(s, 0, Space);
    RunStartLower(s, |s|);
    var lo := RunEnd(s, 0, Space);
    var hi := RunStart(s, |s|, Space);
    if lo < hi {
      LowerSlice(s, lo, hi);
    }
  }

  lemma MarkerLower(s: string, w: string, k: nat)
    requires k <= |s|
    ensures MatchesAt(Lower(s), Marker(w), k) <==> MatchesAt(s, Marker(w), k)
  {
    if k + |w| <= |s| {
      var t := s[k..k + |w|];
      LowerSlice(s, k, k + |w|);
      FoldedEqualLower(t, w);
      FoldedEqualLower(Lower(t), w);
      assert Lower(Lower(t)) == Lower(t);
      RunEndLower(s, k + |w|, NonSpace);
    }
  }

  lemma {:induction false} FindMarkerLower(s: string, w: string, i: nat)
    requires i <= |s|
    ensures FindFrom(Lower(s), Marker(w), i) == FindFrom(s, Marker(w), i)
    decreases |s| - i
  {
    MarkerLower(s, w, i);
    if !MatchesAt(s, Marker(w), i) && i < |s| {
      FindMarkerLower(s, w, i + 1);
    }
  }

  lemma ReasonStartLower(s: string, k: nat, w: string)
    requires k + |w| <= |s|
    ensures ReasonStart(Lower(s), k, w) == ReasonStart(s, k, w)
  {
    RunEndLower(s, k + |w|, NonSpace);
    RunEndLower(s, RunEnd(s, k + |w|, NonSpace), Space);
  }

  lemma TrimSuffixLower(s: string, r: nat)
    requires r <= |s|
    ensures Trim(Lower(s)[r..]) == Lower(Trim(s[r..]))
  {
    LowerSlice(s, r, |s|);
    assert Lower(s)[r..] == Lower(s)[r..|s|];
    assert s[r..] == s[r..|s|];
    TrimLower(s[r..]);
  }

  lemma ReasonLower(s: string, k: nat, w: string)
    requires k + |w| <= |s|
    ensures ReasonStart(Lower(s), k, w) == ReasonStart(s, k, w)
    ensures Trim(Lower(s)[ReasonStart(s, k, w)..]) == Lower(Trim(s[ReasonStart(s, k, w)..]))
  {
    ReasonStartLower(s, k, w);
    TrimSuffixLower(s, ReasonStart(s, k, w));
  }

  /** Directive parsing ignores the case of the input: lower-casing the
      input lower-cases the reason and changes neither flag. */
  lemma DirectiveCaseInsensitive(s: string)
    ensures ParseDirective(Lower(s)) ==
      ParseDirective(s).(text := Lower(ParseDirective(s).text))
  {
    FindMarkerLower(s, "skip", 0);
    FindMarkerLower(s, "todo", 0);
    var skip := FindFrom(s, Marker("skip"), 0);
    var todo := FindFrom(s, Marker("todo"), 0);
    if skip.Some? {
      ReasonLower(s, skip.value, "skip");
    } else if todo.Some? {
      ReasonLower(s, todo.value, "todo");
    } else {
      TrimLower(s);
    }
  }

  // Classifier priorities.

  /** A line that starts with `#` but carries a version tag is a version
      line: the version pattern is tried before the diagnostic one. */
  lemma CommentedVersionIsVersion()
    ensures IsDiagnostic("# TAP version 14")
    ensures ParseLine("# TAP version 14", false) == VersionLine
  {
    var s := "# TAP version 14";
    RunEndIs(s, 0, 0, Space);
    CommentedVersionTag();
    CommentedVersionNoDashes();
  }

  lemma CommentedVersionTag()
    ensures IsVersion("# TAP version 14")
  {
    var s := "# TAP version 14";
    assert s[2..5] == "TAP";
    RunEndIs(s, 5, 6, Space);
    assert s[6..13] == "version";
    RunEndIs(s, 13, 14, Space);
    assert MatchesAt(s, VersionTag, 2);
    OccursIff(s, VersionTag);
  }

  lemma CommentedVersionNoDashes()
    ensures !IsYamlStart("# TAP version 14")
  {
    var s := "# TAP version 14";
    forall k: nat | k <= |s| ensures !MatchesAt(s, Literal("---"), k) {
      if k + 3 <= |s| {
        assert s[k..k + 3][0] == s[k];
      }
    }
    FindFromNone(s, Literal("---"), 0);
  }

  /** An `ok` line that contains two dots is a plan line: the plan pattern
      is tried before the test-result one. */
  lemma OkWithDotsIsPlan()
    ensures IsTestResult("ok 1 - wait..")
    ensures ParseLine("ok 1 - wait..", false) == PlanLine
  {
    OkWithDotsNoDashes();
    OkWithDotsNoTag();
    OkWithDotsHasDots();
    OkWithDotsHeader();
  }

  lemma OkWithDotsHeader()
    ensures !IsDiagnostic("ok 1 - wait..") && IsTestResult("ok 1 - wait..")
  {
    var s := "ok 1 - wait..";
    assert s[0..2] == "ok";
    RunEndIs(s, 0, 0, Space);
  }

  lemma OkWithDotsNoDashes()
    ensures !IsYamlStart("ok 1 - wait..")
  {
    var s := "ok 1 - wait..";
    forall k: nat | k <= |s| ensures !MatchesAt(s, Literal("---"), k) {
      if k + 3 <= |s| {
        assert s[k..k + 3][0] == s[k];
        assert s[k..k + 3][1] == s[k + 1];
      }
    }
    FindFromNone(s, Literal("---"), 0);
  }

  lemma OkWithDotsNoTag()
    ensures !IsVersion("ok 1 - wait..")
  {
    var s := "ok 1 - wait..";
    forall k: nat | k <= |s| ensures !MatchesAt(s, VersionTag, k) {
      if k + 3 <= |s| {
        assert s[k..k + 3][0] == s[k];
      }
    }
    FindFromNone(s, VersionTag, 0);
  }

  lemma OkWithDotsHasDots()
    ensures IsPlan("ok 1 - wait..")
  {
    var s := "ok 1 - wait..";
    assert s[11..13] == "..";
    assert MatchesAt(s, Literal(".."), 11);
    OccursIff(s, Literal(".."));
  }

  // Which patterns a line cannot match, from the characters it lacks.

  /** A literal pattern needs its first character. */
  lemma LiteralNeedsFirst(s: string, t: string)
    requires t != [] && t[0] !in s
    ensures !Occurs(s, Literal(t))
  {
    forall k: nat | k <= |s| ensures !MatchesAt(s, Literal(t), k) {
    }
    OccursIff(s, Literal(t));
  }

  /** A directive marker needs its first letter, in either case. */
  lemma MarkerNeedsFirst(s: string, w: string)
    requires w != [] && 'a' <= w[0] <= 'z'
    requires w[0] !in s && (w[0] as int - 32) as char !in s
    ensures !Occurs(s, Marker(w))
  {
    forall k: nat | k <= |s| ensures !MatchesAt(s, Marker(w), k) {
      if k + |w| <= |s| {
        var a := s[k..k + |w|];
        assert a[0] == s[k];
        if FoldedEqual(a, w) {
          FoldedEqualAt(a, w, 0);
        }
      }
    }
    OccursIff(s, Marker(w));
  }

  /** Without a dot a line is neither a plan nor a YAML end. */
  lemma NoDot(s: string)
    requires '.' !in s
    ensures !IsPlan(s) && !IsYamlEnd(s)
  {
    LiteralNeedsFirst(s, "..");
    LiteralNeedsFirst(s, "...");
  }

  /** `TAP\s+version` needs a capital `A`. */
  lemma NoCapitalA(s: string)
    requires 'A' !in s
    ensures !IsVersion(s)
  {
    forall k: nat | k <= |s| ensures !MatchesAt(s, VersionTag, k) {
      if LiteralAt(s, "TAP", k) {
        TagHasCapitalA(s, k);
      }
    }
    OccursIff(s, VersionTag);
  }

  lemma TagHasCapitalA(s: string, k: nat)
    requires LiteralAt(s, "TAP", k)
    ensures 'A' in s
  {
    assert s[k + 1] == s[k..k + 3][1];
  }

  /** A line with a single dash is not a YAML start. */
  lemma SingleDash(A: string, B: string)
    requires '-' !in A && '-' !in B
    ensures !IsYamlStart(A + "-" + B)
  {
    var s := A + "-" + B;
    forall k: nat | k <= |s| ensures !MatchesAt(s, Literal("---"), k) {
      if LiteralAt(s, "---", k) {
        assert s[k..k + 3][0] == s[k] && s[k..k + 3][1] == s[k + 1];
        DashAt(A, B, k);
        DashAt(A, B, k + 1);
      }
    }
    OccursIff(s, Literal("---"));
  }

  lemma DashAt(A: string, B: string, k: nat)
    requires '-' !in A && '-' !in B && k < |A + "-" + B| && (A + "-" + B)[k] == '-'
    ensures k == |A|
  {
  }

  /** A formatted test line whose description and directive hold no dot,
      no dash and no capital `A` is classified as a test line. */
  lemma ResultLineKind(status: Status, index: nat, description: string, directive: Option<string>)
    requires '.' !in description && '-' !in description && 'A' !in description
    requires directive.Some? ==> '.' !in directive.value && '-' !in directive.value && 'A' !in directive.value
    ensures IsTestResult(FormatResult(status, index, description, directive))
    ensures ParseLine(FormatResult(status, index, description, directive), false) == TestResultLine
  {
    ResultLineChars(status, index, description, directive);
    ResultLineStart(status, index, description, directive);
  }

  lemma ResultLineChars(status: Status, index: nat, description: string, directive: Option<string>)
    requires '.' !in description && '-' !in description && 'A' !in description
    requires directive.Some? ==> '.' !in directive.value && '-' !in directive.value && 'A' !in directive.value
    ensures var L := FormatResult(status, index, description, directive);
      !IsYamlStart(L) && !IsVersion(L) && !IsPlan(L)
  {
    var L := FormatResult(status, index, description, directive);
    var H := StatusText(status) + " " + DecimalString(index) + " ";
    var B := " " + description + DirectiveSuffix(directive);
    ResultLineSplit(status, index, description, directive);
    SingleDash(H, B);
    NoDot(L);
    NoCapitalA(L);
  }

  /** The only dash of a formatted test line is the one after its number. */
  lemma ResultLineSplit(status: Status, index: nat, description: string, directive: Option<string>)
    requires '.' !in description && '-' !in description && 'A' !in description
    requires directive.Some? ==> '.' !in directive.value && '-' !in directive.value && 'A' !in directive.value
    ensures
      var L := FormatResult(status, index, description, directive);
      var H := StatusText(status) + " " + DecimalString(index) + " ";
      var B := " " + description + DirectiveSuffix(directive);
      && L == H + "-" + B
      && '-' !in H && '-' !in B && '.' !in L && 'A' !in L
  {
    DecimalPlain(index);
  }

  /** A numeral holds no dash, dot or capital `A`. */
  lemma DecimalPlain(n: nat)
    ensures var N := DecimalString(n); '-' !in N && '.' !in N && 'A' !in N
  {
    var N := DecimalString(n);
    forall k | 0 <= k < |N| ensures IsDigit(N[k]) { }
  }

  lemma ResultLineStart(status: Status, index: nat, description: string, directive: Option<string>)
    ensures var L := FormatResult(status, index, description, directive);
      IsTestResult(L) && !IsDiagnostic(L)
  {
    var L := FormatResult(status, index, description, directive);
    HeaderPositions(status, index, description, directive);
    assert L[0] == StatusText(status)[0];
    assert RunEnd(L, 0, Space) == 0;
  }

  // Round trips: format a line, read it back.

  function StatusText(status: Status): string {
    if status == Ok then "ok" else "not ok"
  }

  /** The text after the description: nothing, or ` # ` and the directive. */
  function DirectiveSuffix(directive: Option<string>): string {
    match directive
    case None => ""
    case Some(d) => " # " + d
  }

  /** A test line as a TAP producer writes it:
      `ok 3 - description` or `not ok 3 - description # directive`. */
  function FormatResult(status: Status, index: nat, description: string, directive: Option<string>): string {
    StatusText(status) + " " + DecimalString(index) + " - " + description + DirectiveSuffix(directive)
  }

  /** The status word, the index and the dash of a formatted line. */
  lemma ResultHeader(status: Status, index: nat, rest: string)
    ensures
      var L := StatusText(status) + " " + DecimalString(index) + " - " + rest;
      var p := |StatusText(status)|;
      var q := p + 1 + |DecimalString(index)|;
      && q + 3 <= |L|
      && StatusEnd(L) == Some(p)
      && (LiteralAt(L, "ok", 0) <==> status == Ok)
      && RunEnd(L, p, Space) == p + 1
      && RunEnd(L, p + 1, Digit) == q
      && L[p + 1..q] == DecimalString(index)
      && RunEnd(L, q, Space) == q + 1
      && L[q + 1] == '-'
      && L[q + 2] == ' '
  {
    var S := StatusText(status);
    var N := DecimalString(index);
    var L := S + " " + N + " - " + rest;
    var p := |S|;
    var q := p + 1 + |N|;
    StatusPrefix(status, " " + N + " - " + rest);
    assert S + (" " + N + " - " + rest) == L;
    NumberRuns(S, N, rest);
  }

  /** The runs around a number between single spaces, before a dash. */
  lemma NumberRuns(A: string, N: string, rest: string)
    requires N != [] && AllDigits(N)
    ensures
      var L := A + " " + N + " - " + rest;
      var p := |A|;
      var q := p + 1 + |N|;
      && RunEnd(L, p, Space) == p + 1
      && RunEnd(L, p + 1, Digit) == q
      && L[p + 1..q] == N
      && RunEnd(L, q, Space) == q + 1
      && L[q + 1] == '-'
      && L[q + 2] == ' '
  {
    var L := A + " " + N + " - " + rest;
    var p := |A|;
    var q := p + 1 + |N|;
    assert forall k :: 0 <= k < |N| ==> L[p + 1 + k] == N[k];
    assert L[p] == ' ' && L[q] == ' ' && L[q + 1] == '-' && L[q + 2] == ' ';
    RunEndIs(L, p, p + 1, Space);
    RunEndIs(L, p + 1, q, Digit);
    assert L[p + 1..q] == N;
    RunEndIs(L, q, q + 1, Space);
  }

  /** A status word followed by a space ends there. */
  lemma StatusPrefix(status: Status, rest: string)
    requires rest != [] && rest[0] == ' '
    ensures StatusEnd(StatusText(status) + rest) == Some(|StatusText(status)|)
    ensures LiteralAt(StatusText(status) + rest, "ok", 0) <==> status == Ok
  {
    var L := StatusText(status) + rest;
    if status == Ok {
      assert L[0..2] == "ok";
      assert L[2] == ' ';
    } else {
      assert L[0..6] == "not ok";
      assert L[6] == ' ';
    }
    StatusWord(L);
  }

  /** Where the description starts and where the `#` stops it. */
  lemma DescriptionBounds(H: string, D: string, T: string)
    requires |H| >= 1 && H[|H| - 1] == ' '
    requires Trimmed(D) && '#' !in D
    requires T == "" || (|T| >= 2 && T[0] == ' ' && T[1] == '#')
    ensures
      var L := H + D + T;
      var e := if D == [] && T != "" then |H| + 1 else |H|;
      var f := if T == "" then |L| else |H| + |D| + 1;
      RunEnd(L, |H| - 1, Space) == e && RunEnd(L, e, NotHash) == f
  {
    var L := H + D + T;
    assert forall k :: 0 <= k < |D| ==> L[|H| + k] == D[k];
    assert L[|H| - 1] == ' ';
    if T != "" {
      assert L[|H| + |D|] == ' ' && L[|H| + |D| + 1] == '#';
    }
    var e := if D == [] && T != "" then |H| + 1 else |H|;
    var f := if T == "" then |L| else |H| + |D| + 1;
    RunEndIs(L, |H| - 1, e, Space);
    RunEndIs(L, e, f, NotHash);
  }

  /** The description between those bounds trims to the original. */
  lemma DescriptionText(H: string, D: string, T: string)
    requires Trimmed(D)
    requires T == "" || (|T| >= 1 && T[0] == ' ')
    ensures
      var L := H + D + T;
      var e := if D == [] && T != "" then |H| + 1 else |H|;
      var f := if T == "" then |L| else |H| + |D| + 1;
      e <= f <= |L| && Trim(L[e..f]) == D
  {
    var L := H + D + T;
    var e := if D == [] && T != "" then |H| + 1 else |H|;
    var f := if T == "" then |L| else |H| + |D| + 1;
    if T == "" {
      assert L[e..f] == D;
      TrimPadded([], D, []);
      assert [] + D + [] == D;
    } else if D == [] {
      assert L[e..f] == [];
    } else {
      assert L[e..f] == D + " ";
      TrimPadded([], D, " ");
      assert [] + D + " " == D + " ";
    }
  }

  /** The directive text starts right after `# `. */
  lemma DirectiveText(H: string, D: string, r: string)
    requires Trimmed(r)
    ensures
      var L := H + D + (" # " + r);
      |H| + |D| + 1 <= |L| && L[DirectiveStart(L, |H| + |D| + 1)..] == r
  {
    var L := H + D + (" # " + r);
    var f := |H| + |D| + 1;
    assert forall k :: 0 <= k < |r| ==> L[f + 2 + k] == r[k];
    assert L[f] == '#' && L[f + 1] == ' ';
    RunEndIs(L, f, f, Space);
    RunEndIs(L, f + 1, f + 2, Space);
    assert DirectiveStart(L, f) == f + 2;
    assert L[f + 2..] == r;
  }

  /** `ParseTestResult` on a line whose groups are known. */
  lemma ResultFields(line: string, current: nat, index: nat)
    requires IsTestResult(line)
    requires
      var g := MatchResult(line);
      line[g.indexStart..g.indexEnd] == DecimalString(index)
    ensures
      var g := MatchResult(line);
      var d := ParseDirective(line[g.directiveStart..]);
      ParseTestResult(line, current) ==
        TestLine(if g.status == 2 then Ok else NotOk, if index <= UINT32_MAX then index else current, Trim(line[g.descStart..g.descEnd]),
          d.text, EmptyText, d.todo, d.skipped, [])
  {
    ParseUIntDecimal(index);
  }

  /** Where the status, index and dash of a formatted line lie. */
  lemma HeaderPositions(status: Status, index: nat, description: string, directive: Option<string>)
    ensures
      var L := FormatResult(status, index, description, directive);
      var p := |StatusText(status)|;
      var q := p + 1 + |DecimalString(index)|;
      && q + 3 <= |L|
      && StatusEnd(L) == Some(p)
      && RunEnd(L, p, Space) == p + 1 && RunEnd(L, p + 1, Digit) == q
      && L[p + 1..q] == DecimalString(index)
      && RunEnd(L, q, Space) == q + 1 && L[q + 1] == '-'
  {
    var T := DirectiveSuffix(directive);
    ResultHeader(status, index, description + T);
    var H := StatusText(status) + " " + DecimalString(index) + " - ";
    assert H + (description + T) == FormatResult(status, index, description, directive);
  }

  /** Where the description and the directive of a formatted line lie. */
  lemma TailPositions(status: Status, index: nat, description: string, directive: Option<string>)
    requires Trimmed(description) && '#' !in description
    requires directive.Some? ==> Trimmed(directive.value)
    ensures
      var L := FormatResult(status, index, description, directive);
      var q := |StatusText(status)| + 1 + |DecimalString(index)|;
      var e := if description == [] && directive.Some? then q + 4 else q + 3;
      var f := if directive.None? then |L| else q + 3 + |description| + 1;
      && q + 3 <= e <= f <= |L|
      && RunEnd(L, q + 2, Space) == e && RunEnd(L, e, NotHash) == f
      && Trim(L[e..f]) == description
      && L[DirectiveStart(L, f)..] == directive.GetOr("")
  {
    var H := StatusText(status) + " " + DecimalString(index) + " - ";
    assert H + description + DirectiveSuffix(directive) == FormatResult(status, index, description, directive);
    TailOf(H, description, directive);
  }

  /** The description and the directive after a header `H` ending in a
      space. */
  lemma TailOf(H: string, description: string, directive: Option<string>)
    requires |H| >= 1 && H[|H| - 1] == ' '
    requires Trimmed(description) && '#' !in description
    requires directive.Some? ==> Trimmed(directive.value)
    ensures
      var L := H + description + DirectiveSuffix(directive);
      var e := if description == [] && directive.Some? then |H| + 1 else |H|;
      var f := if directive.None? then |L| else |H| + |description| + 1;
      && |H| <= e <= f <= |L|
      && RunEnd(L, |H| - 1, Space) == e && RunEnd(L, e, NotHash) == f
      && Trim(L[e..f]) == description
      && L[DirectiveStart(L, f)..] == directive.GetOr("")
  {
    var T := DirectiveSuffix(directive);
    var L := H + description + T;
    DescriptionBounds(H, description, T);
    DescriptionText(H, description, T);
    match directive
    case None =>
      assert DirectiveStart(L, |L|) == |L|;
    case Some(r) =>
      DirectiveText(H, description, r);
  }

  /** The runs of a test line, with the status word ending at `p`, the
      index at `q`, the description between `e` and `f`, and what its
      groups then hold. */
  predicate Layout(line: string, status: Status, number: string, description: string, directive: string,
                   p: nat, q: nat, e: nat, f: nat)
  {
    && p == |StatusText(status)| && StatusEnd(line) == Some(p)
    && q + 2 <= e <= f <= |line|
    && RunEnd(line, p, Space) == p + 1 && RunEnd(line, p + 1, Digit) == q
    && line[p + 1..q] == number
    && RunEnd(line, q, Space) == q + 1 && line[q + 1] == '-'
    && RunEnd(line, q + 2, Space) == e && RunEnd(line, e, NotHash) == f
    && Trim(line[e..f]) == description
    && line[DirectiveStart(line, f)..] == directive
  }

  /** A formatted test line has the layout of its parts. */
  lemma FormattedLayout(status: Status, index: nat, description: string, directive: Option<string>)
    requires Trimmed(description) && '#' !in description
    requires directive.Some? ==> Trimmed(directive.value)
    ensures
      var L := FormatResult(status, index, description, directive);
      var p := |StatusText(status)|;
      var q := p + 1 + |DecimalString(index)|;
      var e := if description == [] && directive.Some? then q + 4 else q + 3;
      var f := if directive.None? then |L| else q + 3 + |description| + 1;
      Layout(L, status, DecimalString(index), description, directive.GetOr(""), p, q, e, f)
  {
    HeaderPositions(status, index, description, directive);
    TailPositions(status, index, description, directive);
  }

  /** The groups of a formatted test line hold its status word, index,
      description and directive. */
  lemma FormattedGroups(status: Status, index: nat, description: string, directive: Option<string>)
    requires Trimmed(description) && '#' !in description
    requires directive.Some? ==> Trimmed(directive.value)
    ensures IsTestResult(FormatResult(status, index, description, directive))
    ensures
      var L := FormatResult(status, index, description, directive);
      var g := MatchResult(L);
      && (g.status == 2 <==> status == Ok)
      && L[g.indexStart..g.indexEnd] == DecimalString(index)
      && Trim(L[g.descStart..g.descEnd]) == description
      && L[g.directiveStart..] == directive.GetOr("")
  {
    var L := FormatResult(status, index, description, directive);
    var p := |StatusText(status)|;
    var q := p + 1 + |DecimalString(index)|;
    var e := if description == [] && directive.Some? then q + 4 else q + 3;
    var f := if directive.None? then |L| else q + 3 + |description| + 1;
    FormattedLayout(status, index, description, directive);
    GroupsOf(L, status, DecimalString(index), description, directive.GetOr(""), p, q, e, f);
  }

  /** The groups of a test line, from its layout. */
  lemma GroupsOf(line: string, status: Status, number: string, description: string, directive: string,
                 p: nat, q: nat, e: nat, f: nat)
    requires Layout(line, status, number, description, directive, p, q, e, f)
    ensures IsTestResult(line)
    ensures
      var g := MatchResult(line);
      && (g.status == 2 <==> status == Ok)
      && line[g.indexStart..g.indexEnd] == number
      && Trim(line[g.descStart..g.descEnd]) == description
      && line[g.directiveStart..] == directive
  {
    SpansOf(line, p, q, e, f);
  }

  /** The groups of a test line whose runs are known. */
  lemma SpansOf(line: string, p: nat, q: nat, e: nat, f: nat)
    requires StatusEnd(line) == Some(p)
    requires q + 2 <= e <= f <= |line|
    requires RunEnd(line, p, Space) == p + 1 && RunEnd(line, p + 1, Digit) == q
    requires RunEnd(line, q, Space) == q + 1 && line[q + 1] == '-'
    requires RunEnd(line, q + 2, Space) == e && RunEnd(line, e, NotHash) == f
    ensures MatchResult(line) == ResultSpans(p, p + 1, q, e, f, DirectiveStart(line, f))
  {
  }

  /** Reading a formatted test line gives back its status, index and
      description, and the directive text through the directive parser; an
      index numeral that does not fit in 32 bits fails `uint.TryParse`, and
      the line gets the running position instead. */
  lemma ResultRoundTrip(status: Status, index: nat, description: string, directive: Option<string>, current: nat)
    requires Trimmed(description) && '#' !in description
    requires directive.Some? ==> Trimmed(directive.value)
    ensures IsTestResult(FormatResult(status, index, description, directive))
    ensures
      var d := ParseDirective(directive.GetOr(""));
      ParseTestResult(FormatResult(status, index, description, directive), current) ==
        TestLine(status, if index <= UINT32_MAX then index else current, description, d.text, EmptyText, d.todo, d.skipped, [])
  {
    FormattedGroups(status, index, description, directive);
    ResultFields(FormatResult(status, index, description, directive), current, index);
  }

  /** A plan line as a TAP producer writes it: `1..4`. */
  function FormatPlan(first: nat, last: nat): string {
    DecimalString(first) + ".." + DecimalString(last)
  }

  /** Reading a formatted plan gives back both indices, with an empty
      directive and neither flag; an index that does not fit in 32 bits
      fails `uint.TryParse` and reads as 0. */
  lemma PlanRoundTrip(first: nat, last: nat)
    ensures IsPlan(FormatPlan(first, last))
    ensures ParseTestPlan(FormatPlan(first, last)) ==
      TestPlan(Some(""), if first <= UINT32_MAX then first else 0, if last <= UINT32_MAX then last else 0, false, false)
  {
    PlanBare(DecimalString(first), DecimalString(last));
    ParseUIntDecimal(first);
    ParseUIntDecimal(last);
  }

  /** A plan with a directive, `1..0 # SKIP no tests`, followed by text
      without word characters: the directive group stops after the last
      word character, and the plan's directive and flags are those of the
      directive parser on it. */
  lemma PlanDirectiveRoundTrip(first: nat, last: nat, d: string, tail: string)
    requires d != [] && !IsSpace(d[0]) && IsWordChar(d[|d| - 1])
    requires forall k :: 0 <= k < |tail| ==> !IsWordChar(tail[k])
    ensures IsPlan(FormatPlan(first, last) + " # " + d + tail)
    ensures
      var p := ParseDirective(d);
      ParseTestPlan(FormatPlan(first, last) + " # " + d + tail) ==
        TestPlan(Some(p.text), if first <= UINT32_MAX then first else 0, if last <= UINT32_MAX then last else 0,
          p.todo, p.skipped)
  {
    PlanWithDirective(DecimalString(first), DecimalString(last), d, tail);
    ParseUIntDecimal(first);
    ParseUIntDecimal(last);
  }

  /** `..5`: without digits before the dots the first index is 0. */
  lemma PlanWithoutFirst(last: nat)
    requires last <= UINT32_MAX
    ensures IsPlan(".." + DecimalString(last))
    ensures ParseTestPlan(".." + DecimalString(last)) == TestPlan(Some(""), 0, last, false, false)
  {
    PlanBare("", DecimalString(last));
    assert "" + ".." + DecimalString(last) == ".." + DecimalString(last);
    ParseUIntDecimal(last);
  }

  /** A trailing space cuts the reason off a plan's skip directive:
      `1..0 # SKIP ` is not skipped, `1..0 # SKIP no tests` is. */
  lemma PlanSkipNeedsReason()
    ensures IsPlan("1..0 # SKIP ") && ParseTestPlan("1..0 # SKIP ") == TestPlan(Some("SKIP"), 1, 0, false, false)
    ensures IsPlan("1..0 # SKIP no tests") && ParseTestPlan("1..0 # SKIP no tests") == TestPlan(Some("no tests"), 1, 0, false, true)
  {
    PlanBareSkip();
    PlanSkipReason();
  }

  lemma PlanBareSkip()
    ensures IsPlan("1..0 # SKIP ") && ParseTestPlan("1..0 # SKIP ") == TestPlan(Some("SKIP"), 1, 0, false, false)
  {
    var tail := " ";
    assert forall k :: 0 <= k < |tail| ==> !IsWordChar(tail[k]);
    assert FormatPlan(1, 0) + " # " + "SKIP" + tail == "1..0 # SKIP ";
    PlanDirectiveRoundTrip(1, 0, "SKIP", tail);
    BareSkip();
  }

  lemma PlanSkipReason()
    ensures IsPlan("1..0 # SKIP no tests") && ParseTestPlan("1..0 # SKIP no tests") == TestPlan(Some("no tests"), 1, 0, false, true)
  {
    var d := "SKIP no tests";
    assert d == "SKIP " + "no tests";
    assert FormatPlan(1, 0) + " # " + d + "" == "1..0 # SKIP no tests";
    PlanDirectiveRoundTrip(1, 0, d, "");
    NoTodoInNoTests();
    SkipDirective("no tests");
  }

  lemma NoTodoInNoTests()
    ensures Trimmed("no tests") && !Occurs("no tests", Marker("todo"))
  {
    var s := "no tests";
    forall k: nat | k <= |s| ensures !MatchesAt(s, Marker("todo"), k) {
      if k + 4 <= |s| {
        var a := s[k..k + 4];
        assert a[0] == s[k] && a[1] == s[k + 1];
        if FoldedEqual(a, "todo") {
          FoldedEqualAt(a, "todo", 0);
          FoldedEqualAt(a, "todo", 1);
        }
      }
    }
    OccursIff(s, Marker("todo"));
  }

  /** `F..G` for digit strings `F` and `G`, either possibly empty. */
  lemma PlanBare(F: string, G: string)
    requires AllDigits(F) && AllDigits(G)
    ensures IsPlan(F + ".." + G)
    ensures ParseTestPlan(F + ".." + G) == TestPlan(Some(""), UIntOrZero(F), UIntOrZero(G), false, false)
  {
    var L := F + ".." + G;
    var e := |F| + 2 + |G|;
    PlanSlices(L, F, G, e);
    PlanNumbers(L, F, G, e);
    assert DirectiveStart(L, e) == e;
    assert ParseDirective("") == Directive("", false, false);
  }

  /** `F..G # d` and a tail without word characters. */
  lemma PlanWithDirective(F: string, G: string, d: string, tail: string)
    requires AllDigits(F) && AllDigits(G)
    requires d != [] && !IsSpace(d[0]) && IsWordChar(d[|d| - 1])
    requires forall k :: 0 <= k < |tail| ==> !IsWordChar(tail[k])
    ensures IsPlan(F + ".." + G + " # " + d + tail)
    ensures
      var p := ParseDirective(d);
      ParseTestPlan(F + ".." + G + " # " + d + tail) == TestPlan(Some(p.text), UIntOrZero(F), UIntOrZero(G), p.todo, p.skipped)
  {
    var L := F + ".." + G + " # " + d + tail;
    var e := |F| + 2 + |G|;
    var b := e + 3 + |d|;
    DirectiveSlices(F + ".." + G, d, tail);
    PlanSlices(L, F, G, e);
    PlanNumbers(L, F, G, e);
    DirectiveAfterHash(L, e);
    BoundaryAfter(L, e + 3, b);
    PlanOf(L, |F|, e, e + 3, b);
  }

  /** `ParseTestPlan` on a line whose dots, numerals, directive start and
      last word boundary are known. */
  lemma PlanOf(L: string, dots: nat, e: nat, start: nat, b: nat)
    requires IsPlan(L) && FindFrom(L, Literal(".."), 0) == Some(dots)
    requires RunEnd(L, dots + 2, Digit) == e && DirectiveStart(L, e) == start
    requires LastBoundary(L, start, |L|) == Some(b)
    ensures
      var p := ParseDirective(L[start..b]);
      ParseTestPlan(L) ==
        TestPlan(Some(p.text), UIntOrZero(L[RunStart(L, dots, Digit)..dots]), UIntOrZero(L[dots + 2..e]), p.todo, p.skipped)
  {
  }

  /** Where the parts of `F..G # d tail` lie. */
  lemma DirectiveSlices(P: string, d: string, tail: string)
    requires d != []
    ensures
      var L := P + " # " + d + tail;
      var e := |P|;
      && L[..e] == P && L[e] == ' ' && L[e + 1] == '#' && L[e + 2] == ' '
      && L[e + 3] == d[0] && L[e + 3..e + 3 + |d|] == d && L[e + 3 + |d| - 1] == d[|d| - 1]
      && L[e + 3 + |d|..] == tail
  {
    var L := P + " # " + d + tail;
    var e := |P|;
    assert L == P + (" # " + (d + tail));
    assert L[e..] == " # " + (d + tail);
    assert L[e + 3..] == d + tail;
  }

  /** The dots and the numerals of a plan line, from slices of it. */
  lemma PlanSlices(L: string, F: string, G: string, e: nat)
    requires e == |F| + 2 + |G| <= |L|
    requires L[..e] == F + ".." + G
    ensures L[..|F|] == F && L[|F|] == '.' && L[|F| + 1] == '.' && L[|F| + 2..e] == G
  {
    assert L[..|F|] == L[..e][..|F|];
    assert L[|F| + 2..e] == L[..e][|F| + 2..];
  }

  /** The groups of `(\d*)\.\.(\d*)` on a line with digit strings `F` and
      `G` around the first dots and no digit after `G`. */
  lemma PlanNumbers(L: string, F: string, G: string, e: nat)
    requires AllDigits(F) && AllDigits(G) && e == |F| + 2 + |G| <= |L|
    requires L[..|F|] == F && L[|F|] == '.' && L[|F| + 1] == '.' && L[|F| + 2..e] == G
    requires e == |L| || !IsDigit(L[e])
    ensures IsPlan(L) && FindFrom(L, Literal(".."), 0) == Some(|F|)
    ensures RunStart(L, |F|, Digit) == 0 && L[0..|F|] == F
    ensures RunEnd(L, |F| + 2, Digit) == e
  {
    assert forall k :: 0 <= k < |F| ==> L[k] == L[..|F|][k];
    assert forall k :: |F| + 2 <= k < e ==> L[k] == L[|F| + 2..e][k - |F| - 2];
    assert L[|F|..|F| + 2] == "..";
    forall j: nat | j < |F| ensures !MatchesAt(L, Literal(".."), j) {
      assert L[j..j + 2][0] == L[j];
    }
    FindFromIs(L, Literal(".."), 0, |F|);
    RunStartIs(L, 0, |F|, Digit);
    RunEndIs(L, |F| + 2, e, Digit);
    assert L[0..|F|] == L[..|F|];
  }

  /** ` # ` then a non-space character: the directive starts after it. */
  lemma DirectiveAfterHash(L: string, e: nat)
    requires e + 3 < |L| && L[e] == ' ' && L[e + 1] == '#' && L[e + 2] == ' ' && !IsSpace(L[e + 3])
    ensures DirectiveStart(L, e) == e + 3
  {
    RunEndIs(L, e, e + 1, Space);
    RunEndIs(L, e + 2, e + 3, Space);
  }

  /** After the last word character no position is a word boundary. */
  lemma BoundaryAfter(L: string, lo: nat, b: nat)
    requires 0 < lo <= b <= |L| && IsWordChar(L[b - 1])
    requires forall k :: b <= k < |L| ==> !IsWordChar(L[k])
    ensures LastBoundary(L, lo, |L|) == Some(b)
  {
    assert IsBoundary(L, b);
  }

  /** A version line as a TAP producer writes it: `TAP version 13`. */
  function FormatVersion(version: nat): string {
    "TAP version " + DecimalString(version)
  }

  /** Versions up to 13 read back; larger ones that fit in 32 bits abort the
      parse; larger ones still fail `uint.TryParse` and read as version 0. */
  lemma VersionRoundTrip(version: nat)
    ensures IsVersion(FormatVersion(version))
    ensures ParseTAPVersion(FormatVersion(version)) ==
      if version <= 13 then Success(version)
      else if version <= UINT32_MAX then Failure(UnsupportedVersion(version))
      else Success(0)
  {
    var L := FormatVersion(version);
    FormattedVersionStart(version);
    var N := DecimalString(version);
    assert forall k :: 0 <= k < |N| ==> L[12 + k] == N[k];
    RunEndIs(L, 12, |L|, Digit);
    assert L[12..|L|] == N;
    ParseUIntDecimal(version);
  }

  /** A formatted version line is classified as one. */
  lemma VersionLineKind(version: nat)
    ensures ParseLine(FormatVersion(version), false) == VersionLine
  {
    var N := DecimalString(version);
    var L := FormatVersion(version);
    assert '-' !in N by {
      forall k | 0 <= k < |N| ensures IsDigit(N[k]) { }
    }
    forall k | 0 <= k < 12 ensures L[k] != '-' {
      assert L[k] == "TAP version "[k];
    }
    assert '-' !in L by {
      forall k | 12 <= k < |L| ensures L[k] == N[k - 12] { }
    }
    LiteralNeedsFirst(L, "---");
    FormattedVersionStart(version);
  }

  /** A formatted plan line is classified as one. */
  lemma PlanLineKind(first: nat, last: nat)
    ensures ParseLine(FormatPlan(first, last), false) == PlanLine
  {
    var F := DecimalString(first);
    var G := DecimalString(last);
    var L := FormatPlan(first, last);
    assert forall k | 0 <= k < |F| :: IsDigit(F[k]);
    assert forall k | 0 <= k < |G| :: IsDigit(G[k]);
    assert '-' !in F && 'A' !in F && '-' !in G && 'A' !in G;
    assert '-' !in L && 'A' !in L;
    LiteralNeedsFirst(L, "---");
    NoCapitalA(L);
    assert L[0] == F[0];
    assert RunEnd(L, 0, Space) == 0;
    PlanRoundTrip(first, last);
  }

  lemma FormattedVersionStart(version: nat)
    ensures IsVersion(FormatVersion(version))
    ensures VersionStart(FormatVersion(version)) == 12
  {
    var N := DecimalString(version);
    var L := "TAP version " + N;
    assert L == FormatVersion(version);
    assert L[0..3] == "TAP" && L[4..11] == "version";
    assert L[3] == ' ' && L[11] == ' ' && L[12] == N[0];
    RunEndIs(L, 3, 4, Space);
    RunEndIs(L, 11, 12, Space);
    assert MatchesAt(L, VersionTag, 0);
    FindFromIs(L, VersionTag, 0, 0);
  }

  lemma EmptyIndexGroup(line: string)
    requires IsTestResult(line)
    requires var a := MatchResult(line).indexStart; a == |line| || !IsDigit(line[a])
    ensures MatchResult(line).indexEnd == MatchResult(line).indexStart
  {
    var a := MatchResult(line).indexStart;
    RunEndIs(line, a, a, Digit);
  }

  /** Without digits after the status word the index is the running count. */
  lemma IndexFallback(line: string, current: nat)
    requires IsTestResult(line)
    requires var a := MatchResult(line).indexStart; a == |line| || !IsDigit(line[a])
    ensures ParseTestResult(line, current).index == current
  {
    EmptyIndexGroup(line);
  }

  /** A version tag without digits after it reads as version 0. */
  lemma VersionWithoutDigits(line: string)
    requires IsVersion(line)
    requires VersionStart(line) == |line| || !IsDigit(line[VersionStart(line)])
    ensures ParseTAPVersion(line) == Success(0)
  {
    var a := VersionStart(line);
    RunEndIs(line, a, a, Digit);
    assert line[a..a] == "";
  }

  /** A diagnostic line as a TAP producer writes it: `# message`, possibly
      indented; reading it gives back the message. */
  lemma DiagnosticRoundTrip(indent: string, message: string)
    requires AllSpace(indent) && Trimmed(message)
    ensures IsDiagnostic(indent + "# " + message)
    ensures DiagnosticText(indent + "# " + message) == message
  {
    var L := indent + "# " + message;
    var h := |indent|;
    assert forall k :: 0 <= k < h ==> L[k] == indent[k];
    assert L[h] == '#';
    RunEndIs(L, 0, h, Space);
    assert L[h + 1..] == " " + message;
    TrimPadded(" ", message, []);
    assert " " + message + [] == " " + message;
  }

  /** A bail out line as a TAP producer writes it: `Bail out! reason`, in
      any letter case; reading it gives back the reason. */
  lemma BailOutRoundTrip(tag: string, reason: string)
    requires |tag| == 9 && FoldedEqual(tag, "bail out!")
    requires Trimmed(reason)
    ensures IsBailOut(tag + " " + reason)
    ensures BailOutMessage(tag + " " + reason) == reason
  {
    var L := tag + " " + reason;
    TagAtStart(tag, " " + reason);
    assert tag + (" " + reason) == L;
    RunEndIs(L, 9, 10, Space);
    assert L[10..] == reason;
    TrimPadded([], reason, []);
    assert [] + reason + [] == reason;
    MessageAfter(L, 10);
  }

  lemma TagAtStart(tag: string, rest: string)
    requires |tag| == 9 && FoldedEqual(tag, "bail out!")
    ensures FindFrom(tag + rest, Folded("bail out!"), 0) == Some(0)
  {
    assert (tag + rest)[0..9] == tag;
    FindFromIs(tag + rest, Folded("bail out!"), 0, 0);
  }

  /** The message of a line whose tag is at its start and whose message
      starts at `m`. */
  lemma MessageAfter(line: string, m: nat)
    requires m <= |line|
    requires FindFrom(line, Folded("bail out!"), 0) == Some(0) && RunEnd(line, 9, Space) == m
    ensures IsBailOut(line) && BailOutMessage(line) == Trim(line[m..])
  {
  }

  /** `Bail out!`, as producers capitalise it, is one of those tags. */
  lemma CapitalisedBailOut()
    ensures FoldedEqual("Bail out!", "bail out!")
  {
    var w := "ail out!";
    FoldedEqualRefl(w);
    assert "Bail out!"[1..] == w && "bail out!"[1..] == w;
  }

  lemma {:induction false} FoldedEqualRefl(s: string)
    ensures FoldedEqual(s, s)
    decreases |s|
  {
    if s != [] {
      FoldedEqualRefl(s[1..]);
    }
  }
}
