/** The few operations on Python `str` values and regular-expression character
    classes that the two scripts rely on, with Python's semantics: `strip`,
    `split`, `partition`, `startswith`, `lower`, `upper`, `title`, `int(...)`
    and the leftmost-match rule of `re.search`. */
module Text {
  import opened Options

  /** `str.isspace()`: the characters `str.strip()` removes and `\s` matches. */
  predicate IsSpace(c: char) {
    || c == ' '
    || ('\t' <= c <= '\r')
    || ('\U{1C}' <= c <= '\U{1F}')
    || c == '\U{85}' || c == '\U{A0}' || c == '\U{1680}'
    || ('\U{2000}' <= c <= '\U{200A}')
    || c == '\U{2028}' || c == '\U{2029}' || c == '\U{202F}' || c == '\U{205F}' || c == '\U{3000}'
  }

  /** `\d`, ASCII digits only. */
  predicate IsDigit(c: char) {
    '0' <= c <= '9'
  }

  /** `\w`, ASCII letters, digits and the underscore only. */
  predicate IsWordChar(c: char) {
    IsDigit(c) || ('a' <= c <= 'z') || ('A' <= c <= 'Z') || c == '_'
  }

  predicate IsLetter(c: char) {
    ('a' <= c <= 'z') || ('A' <= c <= 'Z')
  }

  predicate StartsWith(s: string, prefix: string) {
    |prefix| <= |s| && s[..|prefix|] == prefix
  }

  /** A concatenation starts with its first piece and ends with its last. */
  lemma PiecesAround(a: string, b: string, c: string)
    ensures StartsWith(a + b + c, a) && EndsWith(a + b + c, c)
  {
    assert (a + b + c)[..|a|] == a;
    assert (a + b + c)[|a + b|..] == c;
  }

  /** A prefix of `a` is a prefix of `a + b + c`, and so is each shorter prefix. */
  lemma StartsWithAppend(a: string, b: string, c: string, prefix: string, shorter: string)
    requires StartsWith(a, prefix) && StartsWith(prefix, shorter)
    ensures StartsWith(a + b + c, prefix) && StartsWith(a + b + c, shorter)
  {
    assert (a + b + c)[..|prefix|] == a[..|prefix|];
    assert (a + b + c)[..|shorter|] == prefix[..|shorter|];
  }

  predicate EndsWith(s: string, suffix: string) {
    |suffix| <= |s| && s[|s| - |suffix|..] == suffix
  }

  lemma EndsWithAppend(a: string, b: string, suffix: string)
    requires EndsWith(b, suffix)
    ensures EndsWith(a + b, suffix)
  {
    assert (a + b)[|a + b| - |suffix|..] == b[|b| - |suffix|..];
  }

  /** Two suffixes of one text: the shorter is a suffix of the longer. */
  lemma EndsWithBoth(s: string, short: string, long: string)
    requires EndsWith(s, short) && EndsWith(s, long) && |short| <= |long|
    ensures EndsWith(long, short)
  {
    assert long[|long| - |short|..] == s[|s| - |short|..];
  }

  lemma AppendAssoc(a: string, b: string, c: string)
    ensures (a + b) + c == a + (b + c)
  {
  }

  function LowerChar(c: char): char {
    if 'A' <= c <= 'Z' then (c as int + 32) as char else c
  }

  function UpperChar(c: char): char {
    if 'a' <= c <= 'z' then (c as int - 32) as char else c
  }

  /** `str.lower()` on ASCII letters. */
  function Lower(s: string): (r: string)
    ensures |r| == |s|
    ensures forall i :: 0 <= i < |s| ==> r[i] == LowerChar(s[i])
  {
    seq(|s|, i requires 0 <= i < |s| => LowerChar(s[i]))
  }

  /** `str.upper()` on ASCII letters. */
  function Upper(s: string): (r: string)
    ensures |r| == |s|
    ensures forall i :: 0 <= i < |s| ==> r[i] == UpperChar(s[i])
  {
    seq(|s|, i requires 0 <= i < |s| => UpperChar(s[i]))
  }

  /** A text without lower-case letters is its own upper case. */
  lemma UpperWithoutLower(s: string)
    requires forall i :: 0 <= i < |s| ==> !('a' <= s[i] <= 'z')
    ensures Upper(s) == s
  {
  }

  /** `str.title()` on ASCII letters: a letter after a non-letter is upper-cased,
      a letter after a letter is lower-cased. */
  function Title(s: string): string {
    TitleAfter(s, false)
  }

  function TitleAfter(s: string, afterLetter: bool): string
    decreases |s|
  {
    if s == [] then []
    else
      var c := s[0];
      [if !IsLetter(c) then c else if afterLetter then LowerChar(c) else UpperChar(c)]
        + TitleAfter(s[1..], IsLetter(c))
  }

  /** `str.lstrip()`: `s` without its leading whitespace. */
  function LStrip(s: string): (r: string)
    ensures |r| <= |s| && r == s[|s| - |r|..]
    ensures forall i :: 0 <= i < |s| - |r| ==> IsSpace(s[i])
    ensures r == [] || !IsSpace(r[0])
    decreases |s|
  {
    if |s| > 0 && IsSpace(s[0]) then LStrip(s[1..]) else s
  }

  /** `str.rstrip()`: `s` without its trailing whitespace. */
  function RStrip(s: string): (r: string)
    ensures |r| <= |s| && r == s[..|r|]
    ensures forall i :: |r| <= i < |s| ==> IsSpace(s[i])
    ensures r == [] || !IsSpace(r[|r| - 1])
    decreases |s|
  {
    if |s| > 0 && IsSpace(s[|s| - 1]) then RStrip(s[..|s| - 1]) else s
  }

  /** `str.strip()`. */
  function Strip(s: string): (r: string)
    ensures |r| <= |s|
    ensures r == [] || (!IsSpace(r[0]) && !IsSpace(r[|r| - 1]))
  {
    RStrip(LStrip(s))
  }

  /** A string that neither begins nor ends with whitespace is its own strip. */
  lemma StripUnchanged(s: string)
    requires s == [] || (!IsSpace(s[0]) && !IsSpace(s[|s| - 1]))
    ensures Strip(s) == s
  {
  }

  /** Index of the first `c` at or after `from`, or `|s|` when there is none. */
  function FindFrom(s: string, c: char, from: nat): (i: nat)
    requires from <= |s|
    ensures from <= i <= |s|
    ensures forall k :: from <= k < i ==> s[k] != c
    ensures i < |s| ==> s[i] == c
    decreases |s| - from
  {
    if from == |s| || s[from] == c then from else FindFrom(s, c, from + 1)
  }

  /** Index of the first non-whitespace character at or after `from`, or `|s|`:
      where a greedy `\s*` starting at `from` stops. */
  function SkipSpace(s: string, from: nat): (i: nat)
    requires from <= |s|
    ensures from <= i <= |s|
    ensures forall k :: from <= k < i ==> IsSpace(s[k])
    ensures i < |s| ==> !IsSpace(s[i])
    decreases |s| - from
  {
    if from == |s| || !IsSpace(s[from]) then from else SkipSpace(s, from + 1)
  }

  /** Index of the first word character at or after `from` that is not, or `|s|`:
      where a greedy `\w+` starting at `from` stops. */
  function SkipWord(s: string, from: nat): (i: nat)
    requires from <= |s|
    ensures from <= i <= |s|
    ensures forall k :: from <= k < i ==> IsWordChar(s[k])
    ensures i < |s| ==> !IsWordChar(s[i])
    decreases |s| - from
  {
    if from == |s| || !IsWordChar(s[from]) then from else SkipWord(s, from + 1)
  }

  /** Index of the last `c` in `s`, or -1 (`str.rfind`). */
  function RFind(s: string, c: char): (i: int)
    ensures -1 <= i < |s|
    ensures i >= 0 ==> s[i] == c
    ensures forall k :: i < k < |s| ==> s[k] != c
    decreases |s|
  {
    if |s| == 0 then -1
    else if s[|s| - 1] == c then |s| - 1
    else RFind(s[..|s| - 1], c)
  }

  /** `str.partition(sep)`: the text before the first `sep` and the text after it
      (`(s, "")` when `sep` does not occur). */
  function Partition(s: string, sep: char): (r: (string, string))
    ensures sep in s ==> s == r.0 + [sep] + r.1 && sep !in r.0
    ensures sep !in s ==> r == (s, "")
  {
    var i := FindFrom(s, sep, 0);
    if i == |s| then (s, "") else (s[..i], s[i + 1..])
  }

  /** `partition` splits at the first separator. */
  lemma PartitionAtFirst(before: string, after: string, sep: char)
    requires sep !in before
    ensures Partition(before + [sep] + after, sep) == (before, after)
  {
    var s := before + [sep] + after;
    assert s[|before|] == sep;
    assert forall k :: 0 <= k < |before| ==> s[k] == before[k];
    assert FindFrom(s, sep, 0) == |before|;
    assert s[..|before|] == before && s[|before| + 1..] == after;
  }

  /** `str.split(sep)` with an explicit one-character separator: empty pieces are kept. */
  function Split(s: string, sep: char): (parts: seq<string>)
    ensures |parts| >= 1
    ensures forall k :: 0 <= k < |parts| ==> sep !in parts[k]
    ensures sep !in s ==> parts == [s]
    decreases |s|
  {
    var i := FindFrom(s, sep, 0);
    if i == |s| then [s] else [s[..i]] + Split(s[i + 1..], sep)
  }

  /** `str.split` cuts at every separator: a piece without the separator,
      then the split of what follows it. */
  lemma SplitAtFirst(before: string, after: string, sep: char)
    requires sep !in before
    ensures Split(before + [sep] + after, sep) == [before] + Split(after, sep)
  {
    var s := before + [sep] + after;
    assert s[|before|] == sep;
    assert forall k :: 0 <= k < |before| ==> s[k] == before[k];
    assert FindFrom(s, sep, 0) == |before|;
    assert s[..|before|] == before && s[|before| + 1..] == after;
  }

  /** The first position at or after `from` where `at` reports a match: the
      leftmost-match rule of Python's `re.search`. */
  function FirstMatch(s: string, from: nat, at: (string, nat) -> Option<string>): (r: Option<nat>)
    ensures r.Some? ==> from <= r.value < |s| && at(s, r.value).Some?
    ensures forall k :: from <= k < |s| && (r.None? || k < r.value) ==> at(s, k).None?
    decreases |s| - from
  {
    if from >= |s| then None
    else if at(s, from).Some? then Some(from)
    else FirstMatch(s, from + 1, at)
  }

  /** The match `re.search` reports: the one at the leftmost matching position. */
  function Search(s: string, at: (string, nat) -> Option<string>): (r: Option<string>)
    ensures r.None? <==> forall k :: 0 <= k < |s| ==> at(s, k).None?
  {
    match FirstMatch(s, 0, at)
    case None => None
    case Some(k) => at(s, k)
  }

  /** What the search reports is the match at the leftmost position where
      there is one. */
  lemma SearchReportsAMatch(s: string, at: (string, nat) -> Option<string>)
    ensures Search(s, at).Some? ==>
      exists k :: 0 <= k < |s| && at(s, k) == Search(s, at) && forall j :: 0 <= j < k ==> at(s, j).None?
  {
    if Search(s, at).Some? {
      var k := FirstMatch(s, 0, at).value;
      assert at(s, k) == Search(s, at);
    }
  }

  /** Positions where nothing matches can be skipped by the search. */
  lemma {:induction false} FirstMatchSkip(s: string, from: nat, to: nat, at: (string, nat) -> Option<string>)
    requires from <= to <= |s|
    requires forall k :: from <= k < to ==> at(s, k).None?
    ensures FirstMatch(s, from, at) == FirstMatch(s, to, at)
    decreases (to as int) - (from as int)
  {
    if from < to {
      FirstMatchSkip(s, from + 1, to, at);
    }
  }

  // ---- int(...) and str(int) ----

  function DigitValue(c: char): nat
    requires IsDigit(c)
  {
    c as int - '0' as int
  }

  function DigitChar(d: nat): (c: char)
    requires d < 10
    ensures IsDigit(c) && DigitValue(c) == d
  {
    ('0' as int + d) as char
  }

  /** The body of a base-10 literal `int()` accepts: digits, with single
      underscores allowed between digits. */
  predicate IsDecimal(s: string) {
    && |s| > 0
    && IsDigit(s[0])
    && IsDigit(s[|s| - 1])
    && (forall i :: 0 <= i < |s| ==> IsDigit(s[i]) || s[i] == '_')
    && (forall i :: 0 <= i < |s| - 1 ==> IsDigit(s[i]) || IsDigit(s[i + 1]))
  }

  function DecimalValue(s: string): nat
    requires forall i :: 0 <= i < |s| ==> IsDigit(s[i]) || s[i] == '_'
    decreases |s|
  {
    if s == [] then 0
    else if s[|s| - 1] == '_' then DecimalValue(s[..|s| - 1])
    else 10 * DecimalValue(s[..|s| - 1]) + DigitValue(s[|s| - 1])
  }

  /** Python's `int(text)` on a `str`: `Some(value)`, or `None` where `int`
      raises `ValueError`. Surrounding whitespace and one sign are accepted. */
  function ParseInt(text: string): (n: Option<int>)
    ensures n.Some? ==> Strip(text) != "" && IsDigit(Strip(text)[|Strip(text)| - 1])
    ensures n.Some? && n.value < 0 ==> Strip(text)[0] == '-'
  {
    var t := Strip(text);
    if |t| > 0 && (t[0] == '+' || t[0] == '-') then
      if IsDecimal(t[1..]) then
        Some(if t[0] == '-' then 0 - DecimalValue(t[1..]) as int else DecimalValue(t[1..]))
      else None
    else if IsDecimal(t) then Some(DecimalValue(t))
    else None
  }

  /** A character of a text that is not whitespace survives `strip`. */
  lemma StripKeepsInner(s: string, i: nat)
    requires i < |s| && !IsSpace(s[i])
    ensures s[i] in Strip(s)
  {
    var l := LStrip(s);
    var j := i - (|s| - |l|);
    assert l[j] == s[i];
    assert RStrip(l)[j] == l[j];
  }

  /** `int` rejects a text holding a character that is neither whitespace, a
      digit, an underscore nor a sign. */
  lemma ParseIntRejects(text: string, i: nat)
    requires i < |text| && !IsSpace(text[i]) && !IsDigit(text[i])
    requires text[i] != '_' && text[i] != '+' && text[i] != '-'
    ensures ParseInt(text).None?
  {
    StripKeepsInner(text, i);
    var t := Strip(text);
    var m :| 0 <= m < |t| && t[m] == text[i];
    if |t| > 0 && (t[0] == '+' || t[0] == '-') {
      assert t[1..][m - 1] == t[m];
    }
  }

  lemma DigitsAreDecimal(s: string)
    requires |s| > 0 && forall i :: 0 <= i < |s| ==> IsDigit(s[i])
    ensures IsDecimal(s)
  {
  }

  /** `str(n)` for a natural number. */
  function NatToString(n: nat): (s: string)
    ensures |s| >= 1 && forall i :: 0 <= i < |s| ==> IsDigit(s[i])
  {
    if n < 10 then [DigitChar(n)] else NatToString(n / 10) + [DigitChar(n % 10)]
  }

  /** `str(n)` for an integer. */
  function IntToString(n: int): string {
    if n < 0 then "-" + NatToString(-n) else NatToString(n)
  }

  lemma {:induction false} DecimalValueOfNatToString(n: nat)
    ensures DecimalValue(NatToString(n)) == n
  {
    if n >= 10 {
      var s := NatToString(n);
      assert s[..|s| - 1] == NatToString(n / 10);
      DecimalValueOfNatToString(n / 10);
    }
  }

  lemma ParseIntOfNatToString(n: nat)
    ensures ParseInt(NatToString(n)) == Some(n)
  {
    var s := NatToString(n);
    StripUnchanged(s);
    DigitsAreDecimal(s);
    DecimalValueOfNatToString(n);
  }

  /** A minus sign before a decimal numeral reads as its negation. */
  lemma ParseIntOfMinus(d: string)
    requires IsDecimal(d)
    ensures ParseInt("-" + d) == Some(0 - DecimalValue(d) as int)
  {
    var s := "-" + d;
    assert s[0] == '-' && s[|s| - 1] == d[|d| - 1];
    StripUnchanged(s);
    assert s[1..] == d;
  }

  /** `str(n)` of a negative number is a minus sign before `str(-n)`, a numeral
      worth `-n`. */
  lemma NegativeNumeral(n: int)
    requires n < 0
    ensures IntToString(n) == "-" + NatToString(-n)
    ensures IsDecimal(NatToString(-n)) && 0 - DecimalValue(NatToString(-n)) as int == n
  {
    DigitsAreDecimal(NatToString(-n));
    DecimalValueOfNatToString(-n);
  }

  lemma ParseIntOfNegative(n: int)
    requires n < 0
    ensures ParseInt(IntToString(n)) == Some(n)
  {
    NegativeNumeral(n);
    ParseIntOfMinus(NatToString(-n));
  }

  /** `int(str(n)) == n`: the integer reader undoes the integer writer. */
  lemma ParseIntOfIntToString(n: int)
    ensures ParseInt(IntToString(n)) == Some(n)
  {
    if n < 0 {
      ParseIntOfNegative(n);
    } else {
      ParseIntOfNatToString(n);
    }
  }
}
