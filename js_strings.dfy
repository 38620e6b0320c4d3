/**
  The JavaScript string and number behaviour the handlers rely on: ASCII case
  mapping, the ECMAScript white-space set (shared by `trim`, the regular
  expression class `\s` and `parseInt`), `padStart`, integer `toString`,
  `parseInt(_, 10)`, `replace` of the first occurrence of a string,
  `split`/`join` on a one-character separator and `split(/\s+/)`.
*/
module JsStrings {
  import opened Wrappers

  /** JavaScript truthiness of a string that may be undefined: present and non-empty. */
  predicate Truthy(s: Option<string>) {
    s.Some? && s.value != ""
  }

  // ----- case mapping (ASCII letters only) -----

  predicate IsUpperAscii(c: char) { 'A' <= c <= 'Z' }

  predicate IsLowerAscii(c: char) { 'a' <= c <= 'z' }

  function LowerChar(c: char): (r: char)
    ensures !IsUpperAscii(r)
  {
    if IsUpperAscii(c) then (c as int + 32) as char else c
  }

  function UpperChar(c: char): (r: char)
    ensures !IsLowerAscii(r)
  {
    if IsLowerAscii(c) then (c as int - 32) as char else c
  }

  /** `toLowerCase()`. */
  function Lower(s: string): (r: string)
    ensures |r| == |s|
    ensures forall i :: 0 <= i < |s| ==> r[i] == LowerChar(s[i])
  {
    seq(|s|, i requires 0 <= i < |s| => LowerChar(s[i]))
  }

  /** `toUpperCase()`. */
  function Upper(s: string): (r: string)
    ensures |r| == |s|
    ensures forall i :: 0 <= i < |s| ==> r[i] == UpperChar(s[i])
  {
    seq(|s|, i requires 0 <= i < |s| => UpperChar(s[i]))
  }

  lemma LowerChars(c: char)
    ensures LowerChar(LowerChar(c)) == LowerChar(c)
    ensures LowerChar(UpperChar(c)) == LowerChar(c)
  {
  }

  /** Lower-casing the upper-cased text gives the lower-cased text: the two agree ignoring case. */
  lemma LowerUpper(s: string)
    ensures Lower(Upper(s)) == Lower(s)
    ensures Lower(Lower(s)) == Lower(s)
  {
    forall i | 0 <= i < |s| ensures Lower(Upper(s))[i] == Lower(s)[i] && Lower(Lower(s))[i] == Lower(s)[i] {
      LowerChars(s[i]);
    }
  }

  // ----- white space -----

  /** The characters of the ECMAScript WhiteSpace and LineTerminator productions. */
  predicate IsJsSpace(c: char) {
    || c == '\t' || c == '\n' || c == '\U{B}' || c == '\U{C}' || c == '\r' || c == ' '
    || c == '\U{A0}' || c == '\U{1680}' || ('\U{2000}' <= c <= '\U{200A}')
    || c == '\U{2028}' || c == '\U{2029}' || c == '\U{202F}' || c == '\U{205F}'
    || c == '\U{3000}' || c == '\U{FEFF}'
  }

  predicate NoSpace(s: string) {
    forall i :: 0 <= i < |s| ==> !IsJsSpace(s[i])
  }

  /** `trimStart()`: drops the leading white space and nothing else. */
  function TrimStart(s: string): (r: string)
    ensures |r| <= |s| && r == s[|s| - |r|..]
    ensures r == [] || !IsJsSpace(r[0])
    ensures forall i :: 0 <= i < |s| - |r| ==> IsJsSpace(s[i])
  {
    if |s| > 0 && IsJsSpace(s[0]) then TrimStart(s[1..]) else s
  }

  /** `trimEnd()`: drops the trailing white space and nothing else. */
  function TrimEnd(s: string): (r: string)
    ensures |r| <= |s| && r == s[..|r|]
    ensures r == [] || !IsJsSpace(r[|r| - 1])
    ensures forall i :: |r| <= i < |s| ==> IsJsSpace(s[i])
  {
    if |s| > 0 && IsJsSpace(s[|s| - 1]) then TrimEnd(s[..|s| - 1]) else s
  }

  /** `trim()`: drops the leading and the trailing white space. */
  function Trim(s: string): string {
    TrimEnd(TrimStart(s))
  }

  /** `trim()` never lengthens, and what it returns has no white space at either end. */
  lemma TrimEnds(s: string)
    ensures |Trim(s)| <= |s|
    ensures Trim(s) == [] || (!IsJsSpace(Trim(s)[0]) && !IsJsSpace(Trim(s)[|Trim(s)| - 1]))
  {
  }

  /** How many leading white-space characters `trim()` drops. */
  function TrimOffset(s: string): nat {
    |s| - |TrimStart(s)|
  }

  /**
    `trim()` keeps one slice of `s`: everything before it and after it is
    white space, and the slice neither starts nor ends with white space.
  */
  lemma TrimSlice(s: string)
    ensures var r, k := Trim(s), TrimOffset(s);
      && (r == [] || (!IsJsSpace(r[0]) && !IsJsSpace(r[|r| - 1])))
      && k + |r| <= |s| && r == s[k..k + |r|]
      && (forall i :: 0 <= i < k ==> IsJsSpace(s[i]))
      && (forall i :: k + |r| <= i < |s| ==> IsJsSpace(s[i]))
  {
    TrimSliceKept(s);
    TrimSliceEnds(s);
    TrimSliceAfter(s);
  }

  lemma TrimSliceKept(s: string)
    ensures TrimOffset(s) + |Trim(s)| <= |s| && Trim(s) == s[TrimOffset(s)..TrimOffset(s) + |Trim(s)|]
  {
    var t := TrimStart(s);
    var k := |s| - |t|;
    assert t == s[k..];
    assert TrimEnd(t) == t[..|TrimEnd(t)|];
  }

  /** Character by character, `trim()` keeps the characters from the offset on. */
  lemma TrimChars(s: string)
    ensures TrimOffset(s) + |Trim(s)| <= |s|
    ensures forall i :: 0 <= i < |Trim(s)| ==> Trim(s)[i] == s[TrimOffset(s) + i]
  {
    TrimSliceKept(s);
  }

  /** A character that `s` lacks, its trim lacks too. */
  lemma TrimKeepsAbsent(s: string, c: char)
    requires forall i :: 0 <= i < |s| ==> s[i] != c
    ensures forall i :: 0 <= i < |Trim(s)| ==> Trim(s)[i] != c
  {
    TrimChars(s);
  }

  lemma TrimSliceEnds(s: string)
    ensures Trim(s) == [] || (!IsJsSpace(Trim(s)[0]) && !IsJsSpace(Trim(s)[|Trim(s)| - 1]))
  {
    var t := TrimStart(s);
    var r := TrimEnd(t);
    if r != [] {
      assert r[0] == t[0];
    }
  }

  lemma TrimSliceAfter(s: string)
    ensures forall i :: TrimOffset(s) + |Trim(s)| <= i < |s| ==> IsJsSpace(s[i])
  {
    var t := TrimStart(s);
    var r := TrimEnd(t);
    var k := |s| - |t|;
    forall i | k + |r| <= i < |s|
      ensures IsJsSpace(s[i])
    {
      assert s[i] == t[i - k];
    }
  }

  /** A string that neither starts nor ends with white space is its own trim. */
  lemma TrimNoop(s: string)
    requires s == [] || (!IsJsSpace(s[0]) && !IsJsSpace(s[|s| - 1]))
    ensures Trim(s) == s
  {
  }

  // ----- padding and numbers -----

  function Repeat(c: char, n: nat): (r: string)
    ensures |r| == n
    ensures forall i :: 0 <= i < n ==> r[i] == c
  {
    if n == 0 then [] else [c] + Repeat(c, n - 1)
  }

  /** `padStart(width, fill)` with a one-character fill string. */
  function PadStart(s: string, width: nat, fill: char): (r: string)
    ensures |r| == if |s| < width then width else |s|
    ensures r[|r| - |s|..] == s
    ensures forall i :: 0 <= i < |r| - |s| ==> r[i] == fill
  {
    if |s| < width then Repeat(fill, width - |s|) + s else s
  }

  predicate IsDigit(c: char) { '0' <= c <= '9' }

  predicate AllDigits(s: string) {
    forall i :: 0 <= i < |s| ==> IsDigit(s[i])
  }

  function DigitChar(d: nat): (c: char)
    requires d < 10
    ensures IsDigit(c)
  {
    ('0' as int + d) as char
  }

  function DigitValue(c: char): (d: nat)
    requires IsDigit(c)
    ensures d < 10
  {
    c as int - '0' as int
  }

  /** The value of a string of decimal digits, most significant first. */
  function DigitsValue(s: string): nat
    requires AllDigits(s)
  {
    if |s| == 0 then 0 else DigitsValue(s[..|s| - 1]) * 10 + DigitValue(s[|s| - 1])
  }

  function Pow10(k: nat): (p: nat)
    ensures p >= 1
  {
    if k == 0 then 1 else 10 * Pow10(k - 1)
  }

  /** `n.toString()` for a non-negative integer: its decimal digits without leading zeros. */
  function NatToString(n: nat): (r: string)
    ensures |r| > 0 && AllDigits(r)
    ensures DigitsValue(r) == n
    ensures |r| > 1 ==> r[0] != '0'
  {
    if n < 10 then [DigitChar(n)]
    else
      var r := NatToString(n / 10) + [DigitChar(n % 10)];
      assert r[..|r| - 1] == NatToString(n / 10);
      r
  }

  /** `n.toString()` for any integer, with a leading "-" when negative. */
  function IntToString(n: int): string {
    if n < 0 then "-" + NatToString(-n) else NatToString(n)
  }

  /** `toString` of an integer: its decimal digits, after a "-" exactly when it is negative. */
  lemma IntToStringText(n: int)
    ensures var r := IntToString(n); |r| > 0
    ensures var r := IntToString(n); n >= 0 ==> AllDigits(r) && DigitsValue(r) == n
    ensures var r := IntToString(n); n < 0 ==> r[0] == '-' && AllDigits(r[1..]) && DigitsValue(r[1..]) == -n
  {
    if n < 0 {
      var d := NatToString(-n);
      assert ("-" + d)[1..] == d;
    }
  }

  /** A non-negative number is written without a sign. */
  lemma NatText(n: int)
    requires n >= 0
    ensures IntToString(n) == NatToString(n)
  {
  }

  /** A number with `k` digits lies in [10^(k-1), 10^k), or in [0, 10) when `k` is 1. */
  lemma {:induction false} NatToStringBounds(n: nat)
    ensures var k := |NatToString(n)|; n < Pow10(k) && (k > 1 ==> Pow10(k - 1) <= n)
  {
    if n >= 10 {
      NatToStringBounds(n / 10);
      assert |NatToString(n)| == |NatToString(n / 10)| + 1;
    }
  }

  /** A number has at most `k` digits exactly when it is below 10^k. */
  lemma {:induction false} NatToStringWidth(n: nat, k: nat)
    requires k >= 1
    ensures |NatToString(n)| <= k <==> n < Pow10(k)
  {
    var r := NatToString(n);
    NatToStringBounds(n);
    if |r| <= k {
      Pow10Monotone(|r|, k);
    } else {
      Pow10Monotone(k, |r| - 1);
    }
  }

  lemma {:induction false} Pow10Monotone(i: nat, j: nat)
    requires i <= j
    ensures Pow10(i) <= Pow10(j)
    decreases j
  {
    if i < j {
      Pow10Monotone(i, j - 1);
    }
  }

  /** Leading zeros do not change the value of a digit string. */
  lemma {:induction false} LeadingZeros(k: nat, s: string)
    requires AllDigits(s)
    ensures AllDigits(Repeat('0', k) + s)
    ensures DigitsValue(Repeat('0', k) + s) == DigitsValue(s)
    decreases |s|
  {
    var z := Repeat('0', k);
    if |s| == 0 {
      assert z + s == z;
      ZerosValue(k);
    } else {
      var t := z + s;
      assert t[..|t| - 1] == z + s[..|s| - 1];
      LeadingZeros(k, s[..|s| - 1]);
    }
  }

  lemma {:induction false} ZerosValue(k: nat)
    ensures AllDigits(Repeat('0', k)) && DigitsValue(Repeat('0', k)) == 0
  {
    if k > 0 {
      var z := Repeat('0', k);
      assert z[..k - 1] == Repeat('0', k - 1);
      ZerosValue(k - 1);
    }
  }

  /** The length of the longest prefix of `s` made of digits. */
  function DigitRun(s: string): (n: nat)
    ensures n <= |s| && AllDigits(s[..n])
    ensures n < |s| ==> !IsDigit(s[n])
  {
    if |s| > 0 && IsDigit(s[0]) then
      var n := 1 + DigitRun(s[1..]);
      assert s[..n] == [s[0]] + s[1..][..n - 1];
      n
    else 0
  }

  /**
    `parseInt(s, 10)`: skip leading white space, read an optional sign and then
    the longest run of digits; `None` (NaN) when there are no digits.
  */
  function ParseInt(s: string): Option<int> {
    var t := TrimStart(s);
    var negative := |t| > 0 && t[0] == '-';
    var body := if |t| > 0 && (t[0] == '-' || t[0] == '+') then t[1..] else t;
    var n := DigitRun(body);
    if n == 0 then None
    else if negative then Some(-(DigitsValue(body[..n]) as int))
    else Some(DigitsValue(body[..n]))
  }

  /** `parseInt` reads a non-empty digit string back as its value. */
  lemma ParseIntOfDigits(d: string)
    requires |d| > 0 && AllDigits(d)
    ensures ParseInt(d) == Some(DigitsValue(d))
  {
    assert !IsJsSpace(d[0]);
    assert TrimStart(d) == d;
    DigitRunOfDigits(d);
    assert d[..|d|] == d;
  }

  /** A number zero-padded to `width` is a digit string of that value that `parseInt` reads back. */
  lemma PaddedNumber(n: nat, width: nat)
    requires width >= 1
    ensures |PadStart(NatToString(n), width, '0')| > 0
    ensures AllDigits(PadStart(NatToString(n), width, '0'))
    ensures DigitsValue(PadStart(NatToString(n), width, '0')) == n
    ensures ParseInt(PadStart(NatToString(n), width, '0')) == Some(n)
    ensures |PadStart(NatToString(n), width, '0')| == width <==> n < Pow10(width)
  {
    var text := NatToString(n);
    var zeros := if |text| < width then width - |text| else 0;
    assert PadStart(text, width, '0') == Repeat('0', zeros) + text;
    LeadingZeros(zeros, text);
    ParseIntOfDigits(PadStart(text, width, '0'));
    NatToStringWidth(n, width);
  }

  /** `parseInt` gives NaN for text that starts with neither white space, a sign nor a digit. */
  lemma ParseIntWithoutDigits(s: string)
    requires |s| > 0 && !IsJsSpace(s[0]) && !IsDigit(s[0]) && s[0] != '-' && s[0] != '+'
    ensures ParseInt(s) == None
  {
    assert TrimStart(s) == s;
    assert DigitRun(s) == 0;
  }

  lemma {:induction false} DigitRunOfDigits(d: string)
    requires AllDigits(d)
    ensures DigitRun(d) == |d|
  {
    if |d| > 0 {
      DigitRunOfDigits(d[1..]);
    }
  }

  // ----- searching, replacing, splitting, joining -----

  /** The first index of `c` in `s`, or `|s|` when there is none. */
  function IndexOf(s: string, c: char): (i: nat)
    ensures i <= |s|
    ensures i < |s| ==> s[i] == c
    ensures forall j :: 0 <= j < i ==> s[j] != c
  {
    if |s| == 0 || s[0] == c then 0 else 1 + IndexOf(s[1..], c)
  }

  /** `s.replace(pattern, replacement)` with a string pattern: only the first occurrence. */
  function ReplaceFirst(s: string, pattern: string, replacement: string): string
  {
    if |pattern| <= |s| && s[..|pattern|] == pattern then replacement + s[|pattern|..]
    else if |s| == 0 then s
    else [s[0]] + ReplaceFirst(s[1..], pattern, replacement)
  }

  /** `pattern` occurs in `s` at offset `k`. */
  predicate OccursAt(s: string, pattern: string, k: nat) {
    k + |pattern| <= |s| && s[k..k + |pattern|] == pattern
  }

  /**
    `replace` rewrites the first occurrence only: when `pattern` first occurs
    right after `a`, the text before it and after it is kept as it is.
  */
  lemma {:induction false} ReplaceFirstAt(a: string, pattern: string, b: string, replacement: string)
    requires forall k :: 0 <= k < |a| ==> !OccursAt(a + pattern + b, pattern, k)
    ensures ReplaceFirst(a + pattern + b, pattern, replacement) == a + replacement + b
    decreases |a|
  {
    if |a| == 0 {
      assert a + pattern + b == pattern + b;
      ReplaceAtStart(pattern, b, replacement);
    } else {
      var t := a[1..] + pattern + b;
      assert a + pattern + b == [a[0]] + t;
      forall k | 0 <= k < |a| - 1
        ensures !OccursAt(t, pattern, k)
      {
        OccursShift(a[0], t, pattern, k);
      }
      ReplaceFirstAt(a[1..], pattern, b, replacement);
      ReplaceFirstCons(a[0], t, pattern, replacement);
      assert a + replacement + b == [a[0]] + (a[1..] + replacement + b);
    }
  }

  lemma ReplaceAtStart(pattern: string, b: string, replacement: string)
    ensures ReplaceFirst(pattern + b, pattern, replacement) == replacement + b
  {
    assert (pattern + b)[..|pattern|] == pattern && (pattern + b)[|pattern|..] == b;
  }

  lemma OccursShift(c: char, t: string, pattern: string, k: nat)
    ensures OccursAt([c] + t, pattern, k + 1) == OccursAt(t, pattern, k)
  {
    if k + |pattern| <= |t| {
      assert ([c] + t)[k + 1..k + 1 + |pattern|] == t[k..k + |pattern|];
    }
  }

  lemma ReplaceFirstCons(c: char, t: string, pattern: string, replacement: string)
    requires !OccursAt([c] + t, pattern, 0)
    ensures ReplaceFirst([c] + t, pattern, replacement) == [c] + ReplaceFirst(t, pattern, replacement)
  {
    assert ([c] + t)[1..] == t;
  }


  /** `s.replace(/x/g, y)` for single characters. */
  function ReplaceChar(s: string, from: char, to: char): (r: string)
    ensures |r| == |s|
    ensures forall i :: 0 <= i < |s| ==> r[i] == if s[i] == from then to else s[i]
  {
    seq(|s|, i requires 0 <= i < |s| => if s[i] == from then to else s[i])
  }

  /** `s.split(sep)` for a one-character separator: the pieces between separators. */
  function Split(s: string, sep: char): (parts: seq<string>)
    ensures |parts| >= 1
    decreases |s|
  {
    var i := IndexOf(s, sep);
    if i == |s| then [s] else [s[..i]] + Split(s[i + 1..], sep)
  }

  /** One step of a split: the piece before the first separator, then the split of the rest. */
  lemma SplitStep(s: string, sep: char)
    ensures Split(s, sep)[0] == s[..IndexOf(s, sep)]
    ensures IndexOf(s, sep) == |s| ==> |Split(s, sep)| == 1
    ensures IndexOf(s, sep) < |s| ==> Split(s, sep)[1..] == Split(s[IndexOf(s, sep) + 1..], sep)
  {
    var i := IndexOf(s, sep);
    if i < |s| {
      var tail := Split(s[i + 1..], sep);
      assert Split(s, sep) == [s[..i]] + tail;
      assert ([s[..i]] + tail)[1..] == tail;
    } else {
      assert Split(s, sep) == [s];
    }
  }

  /** No piece of a split holds the separator. */
  lemma {:induction false} SplitPieces(s: string, sep: char)
    ensures forall k :: 0 <= k < |Split(s, sep)| ==> sep !in Split(s, sep)[k]
    decreases |s|
  {
    var i := IndexOf(s, sep);
    var parts := Split(s, sep);
    SplitStep(s, sep);
    assert sep !in parts[0] by {
      assert forall j :: 0 <= j < i ==> s[..i][j] != sep;
    }
    if i < |s| {
      SplitPieces(s[i + 1..], sep);
      forall k | 1 <= k < |parts|
        ensures sep !in parts[k]
      {
        assert parts[k] == parts[1..][k - 1];
      }
    }
  }

  /** `parts.join(sep)`. */
  function Join(parts: seq<string>, sep: char): string {
    if |parts| == 0 then ""
    else if |parts| == 1 then parts[0]
    else parts[0] + [sep] + Join(parts[1..], sep)
  }

  /** Joining the pieces of a split with the same separator gives back the string. */
  lemma {:induction false} JoinSplit(s: string, sep: char)
    ensures Join(Split(s, sep), sep) == s
    decreases |s|
  {
    var i := IndexOf(s, sep);
    if i < |s| {
      var rest := s[i + 1..];
      var tail := Split(rest, sep);
      assert Split(s, sep) == [s[..i]] + tail;
      JoinSplit(rest, sep);
      JoinCons(s[..i], tail, sep);
      assert s == s[..i] + [sep] + rest;
    }
  }

  lemma JoinCons(head: string, tail: seq<string>, sep: char)
    requires |tail| >= 1
    ensures Join([head] + tail, sep) == head + [sep] + Join(tail, sep)
  {
    assert ([head] + tail)[1..] == tail;
  }

  /** The first white-space index of `s`, or `|s|` when there is none. */
  function FirstSpace(s: string): (i: nat)
    ensures i <= |s|
    ensures i < |s| ==> IsJsSpace(s[i])
    ensures forall j :: 0 <= j < i ==> !IsJsSpace(s[j])
  {
    if |s| == 0 || IsJsSpace(s[0]) then 0 else 1 + FirstSpace(s[1..])
  }

  /** `s.split(/\s+/)`: the pieces between maximal runs of white space. */
  function SplitOnSpaceRuns(s: string): (parts: seq<string>)
    ensures |parts| >= 1
    ensures forall k :: 0 <= k < |parts| ==> NoSpace(parts[k])
    decreases |s|
  {
    var i := FirstSpace(s);
    if i == |s| then [s]
    else
      var rest := TrimStart(s[i..]);
      assert |rest| < |s[i..]| by {
        assert IsJsSpace(s[i..][0]);
      }
      [s[..i]] + SplitOnSpaceRuns(rest)
  }

  /**
    The reference for `split(/\s+/)`: the string with every maximal run of
    white space replaced by a single space, read character by character.
  */
  function CollapseSpaces(s: string): string
    decreases |s|
  {
    if |s| == 0 then ""
    else if IsJsSpace(s[0]) then
      var rest := TrimStart(s);
      " " + CollapseSpaces(rest)
    else
      [s[0]] + CollapseSpaces(s[1..])
  }

  /** Text without white space passes through the reference unchanged. */
  lemma {:induction false} CollapseAfterWord(p: string, t: string)
    requires NoSpace(p)
    ensures CollapseSpaces(p + t) == p + CollapseSpaces(t)
    decreases |p|
  {
    if |p| == 0 {
      assert p + t == t;
    } else {
      assert (p + t)[0] == p[0] && (p + t)[1..] == p[1..] + t;
      CollapseAfterWord(p[1..], t);
      assert [p[0]] + p[1..] == p;
    }
  }

  /**
    The pieces of `split(/\s+/)` joined with single spaces give the string
    with each run of white space collapsed to one space: no text is lost,
    reordered or invented.
  */
  lemma {:induction false} JoinSplitOnSpaceRuns(s: string)
    ensures Join(SplitOnSpaceRuns(s), ' ') == CollapseSpaces(s)
    decreases |s|
  {
    var i := FirstSpace(s);
    if i == |s| {
      SplitRunsWord(s);
      CollapseAfterWord(s, "");
      assert s + "" == s;
    } else {
      JoinRunsStep(s);
      CollapseStep(s);
      JoinSplitOnSpaceRuns(TrimStart(s[i..]));
    }
  }

  /** Joining the pieces: the first word, one space and the joined pieces after the run. */
  lemma JoinRunsStep(s: string)
    requires FirstSpace(s) < |s|
    ensures var i := FirstSpace(s);
      Join(SplitOnSpaceRuns(s), ' ') == s[..i] + [' '] + Join(SplitOnSpaceRuns(TrimStart(s[i..])), ' ')
  {
    SplitRunsStep(s);
    JoinCons(s[..FirstSpace(s)], SplitOnSpaceRuns(TrimStart(s[FirstSpace(s)..])), ' ');
  }

  /** Collapsing: the first word, one space and the collapsed text after the run. */
  lemma CollapseStep(s: string)
    requires FirstSpace(s) < |s|
    ensures var i := FirstSpace(s);
      CollapseSpaces(s) == s[..i] + [' '] + CollapseSpaces(TrimStart(s[i..]))
  {
    var i := FirstSpace(s);
    FirstWord(s);
    SplitAt(s, i);
    CollapseWordThenSpace(s[..i], s[i..]);
  }

  /** The text before the first white space holds none, and white space follows it. */
  lemma FirstWord(s: string)
    requires FirstSpace(s) < |s|
    ensures NoSpace(s[..FirstSpace(s)])
    ensures |s[FirstSpace(s)..]| > 0 && IsJsSpace(s[FirstSpace(s)..][0])
  {
    var i := FirstSpace(s);
    forall j | 0 <= j < i ensures !IsJsSpace(s[..i][j]) {
      assert s[..i][j] == s[j];
    }
    assert s[i..][0] == s[i];
  }

  lemma CollapseWordThenSpace(w: string, t: string)
    requires NoSpace(w) && |t| > 0 && IsJsSpace(t[0])
    ensures CollapseSpaces(w + t) == w + [' '] + CollapseSpaces(TrimStart(t))
  {
    CollapseAfterWord(w, t);
    CollapseAtSpace(t);
  }

  lemma SplitAt(s: string, i: nat)
    requires i <= |s|
    ensures s[..i] + s[i..] == s
  {
  }

  lemma SplitRunsWord(s: string)
    requires FirstSpace(s) == |s|
    ensures SplitOnSpaceRuns(s) == [s]
  {
  }

  lemma SplitRunsStep(s: string)
    requires FirstSpace(s) < |s|
    ensures SplitOnSpaceRuns(s) == [s[..FirstSpace(s)]] + SplitOnSpaceRuns(TrimStart(s[FirstSpace(s)..]))
  {
  }

  lemma CollapseAtSpace(t: string)
    requires |t| > 0 && IsJsSpace(t[0])
    ensures CollapseSpaces(t) == " " + CollapseSpaces(TrimStart(t))
  {
  }
}
