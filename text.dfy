/** Character classes, greedy runs, leftmost pattern search, trimming and
    unsigned-integer parsing: the pieces the parser's regular expressions,
    `String.Trim` and `uint.TryParse` are built from. */
module Text {
  import opened Wrappers

  const UINT32_MAX: nat := 0xFFFF_FFFF
  const INT32_MAX: int := 0x7FFF_FFFF

  /** .NET's `\s` and `Char.IsWhiteSpace` are the same set: the controls
      U+0009..U+000D, U+0085 and every separator (Zs, Zl, Zp). */
  predicate IsSpace(c: char) {
    c == ' ' || ('\t' <= c <= '\r') || (c > '\U{007F}' && IsWideSpace(c))
  }

  /** The white-space characters outside ASCII. */
  predicate IsWideSpace(c: char) {
    c == '\U{0085}' || c == '\U{00A0}' || c == '\U{1680}'
    || ('\U{2000}' <= c <= '\U{200A}') || c == '\U{2028}' || c == '\U{2029}'
    || c == '\U{202F}' || c == '\U{205F}' || c == '\U{3000}'
  }

  predicate IsDigit(c: char) { '0' <= c <= '9' }

  /** `\w`, restricted to ASCII. */
  predicate IsWordChar(c: char) { 'a' <= c <= 'z' || 'A' <= c <= 'Z' || IsDigit(c) || c == '_' }

  function LowerChar(c: char): char {
    if 'A' <= c <= 'Z' then (c as int + 32) as char else c
  }

  /** ASCII lower-casing, the case folding used by the `(?i)` patterns. */
  function Lower(s: string): (r: string)
    ensures |r| == |s| && forall k :: 0 <= k < |s| ==> r[k] == LowerChar(s[k])
  {
    seq(|s|, k requires 0 <= k < |s| => LowerChar(s[k]))
  }

  predicate AllSpace(s: string) { forall k :: 0 <= k < |s| ==> IsSpace(s[k]) }

  predicate AllDigits(s: string) { forall k :: 0 <= k < |s| ==> IsDigit(s[k]) }

  /** A string with no whitespace at either end: what `Trim` returns. */
  predicate Trimmed(s: string) { s == [] || (!IsSpace(s[0]) && !IsSpace(s[|s| - 1])) }

  /** The character sets the regular expressions repeat with `*` or `+`. */
  datatype CharClass = Space | NonSpace | Digit | NotHash

  predicate InClass(c: char, cls: CharClass) {
    match cls
    case Space => IsSpace(c)
    case NonSpace => !IsSpace(c)
    case Digit => IsDigit(c)
    case NotHash => c != '#'
  }

  /** End of the longest run of `cls` characters starting at `i` (a greedy `cls*`). */
  function RunEnd(s: string, i: nat, cls: CharClass): (r: nat)
    requires i <= |s|
    ensures i <= r <= |s|
    decreases |s| - i
  {
    if i == |s| || !InClass(s[i], cls) then i else RunEnd(s, i + 1, cls)
  }

  /** Start of the longest run of `cls` characters ending at `j`. */
  function RunStart(s: string, j: nat, cls: CharClass): (r: nat)
    requires j <= |s|
    ensures r <= j
  {
    if j == 0 || !InClass(s[j - 1], cls) then j else RunStart(s, j - 1, cls)
  }

  /** `RunEnd` stops at the first character outside the class. */
  lemma {:induction false} RunEndSpec(s: string, i: nat, cls: CharClass)
    requires i <= |s|
    ensures forall k :: i <= k < RunEnd(s, i, cls) ==> InClass(s[k], cls)
    ensures RunEnd(s, i, cls) == |s| || !InClass(s[RunEnd(s, i, cls)], cls)
    decreases |s| - i
  {
    if i < |s| && InClass(s[i], cls) {
      RunEndSpec(s, i + 1, cls);
    }
  }

  /** `RunStart` stops just after the last character outside the class. */
  lemma {:induction false} RunStartSpec(s: string, j: nat, cls: CharClass)
    requires j <= |s|
    ensures forall k :: RunStart(s, j, cls) <= k < j ==> InClass(s[k], cls)
    ensures RunStart(s, j, cls) == 0 || !InClass(s[RunStart(s, j, cls) - 1], cls)
  {
    if j > 0 && InClass(s[j - 1], cls) {
      RunStartSpec(s, j - 1, cls);
    }
  }

  /** The run end is determined by the characters: any `j` with the two
      properties of `RunEnd` is the run end. */
  lemma RunEndIs(s: string, i: nat, j: nat, cls: CharClass)
    requires i <= j <= |s|
    requires forall k :: i <= k < j ==> InClass(s[k], cls)
    requires j == |s| || !InClass(s[j], cls)
    ensures RunEnd(s, i, cls) == j
  {
    RunEndSpec(s, i, cls);
  }

  lemma RunStartIs(s: string, i: nat, j: nat, cls: CharClass)
    requires i <= j <= |s|
    requires forall k :: i <= k < j ==> InClass(s[k], cls)
    requires i == 0 || !InClass(s[i - 1], cls)
    ensures RunStart(s, j, cls) == i
  {
    RunStartSpec(s, j, cls);
  }

  predicate LiteralAt(s: string, pat: string, k: nat) {
    k + |pat| <= |s| && s[k..k + |pat|] == pat
  }

  predicate FoldedAt(s: string, pat: string, k: nat) {
    k + |pat| <= |s| && FoldedEqual(s[k..k + |pat|], pat)
  }

  /** Equal up to ASCII case, compared character by character. */
  predicate FoldedEqual(a: string, b: string)
    requires |a| == |b|
  {
    a == [] || (LowerChar(a[0]) == LowerChar(b[0]) && FoldedEqual(a[1..], b[1..]))
  }

  lemma {:induction false} FoldedEqualLower(a: string, b: string)
    requires |a| == |b|
    ensures FoldedEqual(a, b) <==> Lower(a) == Lower(b)
  {
    if a != [] {
      FoldedEqualLower(a[1..], b[1..]);
      assert Lower(a) == [LowerChar(a[0])] + Lower(a[1..]);
      assert Lower(b) == [LowerChar(b[0])] + Lower(b[1..]);
    }
  }

  /** The unanchored patterns the parser looks for inside a line. */
  datatype Pattern =
    | Literal(text: string)  // the text itself
    | Folded(text: string)   // `(?i)text`, ASCII case-insensitive
    | Marker(word: string)   // `(?i)word\S*\s+`: the word, the rest of its token, then whitespace
    | VersionTag             // `TAP\s+version\s+`

  predicate MatchesAt(s: string, p: Pattern, k: nat) {
    match p
    case Literal(t) => LiteralAt(s, t, k)
    case Folded(t) => FoldedAt(s, t, k)
    case Marker(w) => FoldedAt(s, w, k) && RunEnd(s, k + |w|, NonSpace) < |s|
    case VersionTag =>
      LiteralAt(s, "TAP", k) &&
      var j := RunEnd(s, k + 3, Space);
      j > k + 3 && LiteralAt(s, "version", j) && RunEnd(s, j + 7, Space) > j + 7
  }


  /** The leftmost match at or after `i`, as the regex engine finds it. */
  function FindFrom(s: string, p: Pattern, i: nat): (r: Option<nat>)
    requires i <= |s|
    ensures r.Some? ==> i <= r.value <= |s| && MatchesAt(s, p, r.value)
    decreases |s| - i
  {
    if MatchesAt(s, p, i) then Some(i)
    else if i == |s| then None
    else FindFrom(s, p, i + 1)
  }

  /** No match lies before the one `FindFrom` returns, and none at all when
      it returns None. */
  lemma {:induction false} FindFromSpec(s: string, p: Pattern, i: nat)
    requires i <= |s|
    ensures forall k: nat :: i <= k <= |s| && (FindFrom(s, p, i).None? || k < FindFrom(s, p, i).value) ==> !MatchesAt(s, p, k)
    decreases |s| - i
  {
    if !MatchesAt(s, p, i) && i < |s| {
      FindFromSpec(s, p, i + 1);
    }
  }

  /** `Regex.IsMatch`: the search for the pattern succeeds. */
  predicate Occurs(s: string, p: Pattern) {
    FindFrom(s, p, 0).Some?
  }

  /** The pattern occurs exactly when it matches at some position. */
  lemma OccursIff(s: string, p: Pattern)
    ensures Occurs(s, p) <==> exists k: nat :: k <= |s| && MatchesAt(s, p, k)
  {
    FindFromSpec(s, p, 0);
  }

  /** The search finds the first position that matches. */
  lemma {:induction false} FindFromIs(s: string, p: Pattern, i: nat, k: nat)
    requires i <= k <= |s| && MatchesAt(s, p, k)
    requires forall j: nat :: i <= j < k ==> !MatchesAt(s, p, j)
    ensures FindFrom(s, p, i) == Some(k)
    decreases k - i
  {
    if i < k {
      FindFromIs(s, p, i + 1, k);
    }
  }

  /** The search fails when no position from `i` on matches. */
  lemma {:induction false} FindFromNone(s: string, p: Pattern, i: nat)
    requires i <= |s|
    requires forall j: nat :: i <= j <= |s| ==> !MatchesAt(s, p, j)
    ensures FindFrom(s, p, i) == None
    decreases |s| - i
  {
    if i < |s| {
      FindFromNone(s, p, i + 1);
    }
  }

  /** `\b`: exactly one side of position `k` is a word character. */
  predicate IsBoundary(s: string, k: nat)
    requires k <= |s|
  {
    (k > 0 && IsWordChar(s[k - 1])) != (k < |s| && IsWordChar(s[k]))
  }

  /** The largest word-boundary position in `lo..hi`, which is where a greedy
      `[\S\s]*\b` started at `lo` stops. */
  function LastBoundary(s: string, lo: nat, hi: nat): (r: Option<nat>)
    requires lo <= hi <= |s|
    ensures r.Some? ==> lo <= r.value <= hi && IsBoundary(s, r.value)
    ensures forall k: nat :: lo <= k <= hi && (r.None? || r.value < k) ==> !IsBoundary(s, k)
    decreases hi
  {
    if IsBoundary(s, hi) then Some(hi)
    else if hi == lo then None
    else LastBoundary(s, lo, hi - 1)
  }

  /** `String.Trim()`. */
  function Trim(s: string): (r: string)
    ensures |r| <= |s|
  {
    var lo := RunEnd(s, 0, Space);
    var hi := RunStart(s, |s|, Space);
    if lo < hi then s[lo..hi] else []
  }

  /** `Trim` leaves no whitespace at either end, is empty exactly on blank
      input and keeps only characters of its input. */
  lemma TrimSpec(s: string)
    ensures Trimmed(Trim(s))
    ensures Trim(s) == [] <==> AllSpace(s)
    ensures forall c :: c in Trim(s) ==> c in s
  {
    RunEndSpec(s, 0, Space);
    RunStartSpec(s, |s|, Space);
  }

  /** Trimming removes exactly the surrounding whitespace. */
  lemma TrimPadded(a: string, b: string, c: string)
    requires AllSpace(a) && AllSpace(c) && Trimmed(b)
    ensures Trim(a + b + c) == b
  {
    var s := a + b + c;
    TrimSpec(s);
    if b == [] {
      assert AllSpace(s) by {
        forall k | 0 <= k < |s| ensures IsSpace(s[k]) {
          if k < |a| { assert s[k] == a[k]; } else { assert s[k] == c[k - |a|]; }
        }
      }
    } else {
      assert forall k :: 0 <= k < |b| ==> s[|a| + k] == b[k];
      assert forall k :: 0 <= k < |a| ==> s[k] == a[k];
      assert forall k :: 0 <= k < |c| ==> s[|a| + |b| + k] == c[k];
      RunEndIs(s, 0, |a|, Space);
      RunStartIs(s, |a| + |b|, |s|, Space);
      assert s[|a|..|a| + |b|] == b;
    }
  }

  lemma TrimIdempotent(s: string)
    ensures Trim(Trim(s)) == Trim(s)
  {
    TrimSpec(s);
    TrimPadded([], Trim(s), []);
    assert [] + Trim(s) + [] == Trim(s);
  }

  function DigitValue(c: char): nat
    requires IsDigit(c)
  {
    c as int - '0' as int
  }

  function DigitChar(d: nat): char
    requires d < 10
  {
    ('0' as int + d) as char
  }

  /** The number a string of decimal digits denotes. */
  function DigitsValue(s: string): nat
    requires AllDigits(s)
  {
    if s == [] then 0 else DigitsValue(s[..|s| - 1]) * 10 + DigitValue(s[|s| - 1])
  }

  /** `uint.TryParse` on the text a `\d*` group captured: fails on the empty
      string, on anything but decimal digits and on values that do not fit
      in 32 bits. */
  function ParseUInt(s: string): (r: Option<nat>)
    ensures r.Some? ==> r.value <= UINT32_MAX
  {
    if s == [] || !AllDigits(s) || DigitsValue(s) > UINT32_MAX then None else Some(DigitsValue(s))
  }

  /** The `out` value `uint.TryParse` leaves: 0 when parsing fails. */
  function UIntOrZero(s: string): (r: nat)
    ensures r <= UINT32_MAX
  {
    match ParseUInt(s)
    case Some(v) => v
    case None => 0
  }

  /** The decimal numeral of `n`, without leading zeros. */
  function DecimalString(n: nat): (r: string)
    ensures r != [] && AllDigits(r)
  {
    if n < 10 then [DigitChar(n)] else DecimalString(n / 10) + [DigitChar(n % 10)]
  }

  lemma {:induction false} DigitsValueOfDecimal(n: nat)
    ensures DigitsValue(DecimalString(n)) == n
  {
    var r := DecimalString(n);
    if n >= 10 {
      DigitsValueOfDecimal(n / 10);
      assert r[..|r| - 1] == DecimalString(n / 10);
    }
  }

  /** `uint.TryParse` reads back every numeral that fits in 32 bits, and
      refuses every one that does not. */
  lemma ParseUIntDecimal(n: nat)
    ensures ParseUInt(DecimalString(n)) == if n <= UINT32_MAX then Some(n) else None
  {
    DigitsValueOfDecimal(n);
  }

  /** The value a C# `int` holds after an unchecked conversion or operation
      whose mathematical result is `x`. */
  function Wrap32(x: int): (r: int)
    ensures -0x8000_0000 <= r <= INT32_MAX
    ensures (x - r) % 0x1_0000_0000 == 0
    ensures -0x8000_0000 <= x <= INT32_MAX ==> r == x
  {
    var m := x % 0x1_0000_0000;
    if m <= INT32_MAX then m else m - 0x1_0000_0000
  }
}
