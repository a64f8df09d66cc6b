/**
 * The JavaScript string operations the date index relies on:
 * `String.prototype.split` on one character, `trim`, the 255-character
 * display truncation and the decimal rendering of a number in a template
 * literal.
 */
module Text {

  /** ECMAScript WhiteSpace and LineTerminator code points: what `trim` strips and `\s` matches. */
  predicate IsWhitespace(c: char) {
    || c == '\t' || c == '\n' || c == '\U{000B}' || c == '\U{000C}' || c == '\r' || c == ' '
    || c == '\U{00A0}' || c == '\U{1680}' || ('\U{2000}' <= c <= '\U{200A}')
    || c == '\U{2028}' || c == '\U{2029}' || c == '\U{202F}' || c == '\U{205F}'
    || c == '\U{3000}' || c == '\U{FEFF}'
  }

  /** `\d` in a JavaScript regular expression. */
  predicate IsDigit(c: char) {
    '0' <= c <= '9'
  }

  predicate AllWhitespace(s: string) {
    forall i :: 0 <= i < |s| ==> IsWhitespace(s[i])
  }

  /** The index of the first character at or after `k` that is not whitespace, or `|s|`. */
  function SkipWhitespace(s: string, k: nat): (n: nat)
    requires k <= |s|
    ensures k <= n <= |s|
    ensures forall j :: k <= j < n ==> IsWhitespace(s[j])
    ensures n == |s| || !IsWhitespace(s[n])
    decreases |s| - k
  {
    if k < |s| && IsWhitespace(s[k]) then SkipWhitespace(s, k + 1) else k
  }

  /** A whitespace run from `k` ended by a non-whitespace character at `w` is skipped up to `w`. */
  lemma {:induction false} SkipWhitespaceExact(s: string, k: nat, w: nat)
    requires k <= w < |s|
    requires forall j :: k <= j < w ==> IsWhitespace(s[j])
    requires !IsWhitespace(s[w])
    ensures SkipWhitespace(s, k) == w
    decreases w - k
  {
    if k < w {
      SkipWhitespaceExact(s, k + 1, w);
    }
  }

  /** `s[i..j]` with the whitespace at both of its ends stripped, leading whitespace first. */
  function TrimRange(s: string, i: nat, j: nat): string
    requires i <= j <= |s|
    decreases j - i
  {
    if i < j && IsWhitespace(s[i]) then TrimRange(s, i + 1, j)
    else if i < j && IsWhitespace(s[j - 1]) then TrimRange(s, i, j - 1)
    else s[i..j]
  }

  /** `s.trim()`: what is left after stripping whitespace from both ends. */
  function Trim(s: string): string {
    TrimRange(s, 0, |s|)
  }

  /** `TrimRange` keeps the slice `s[a..b]` of `s[i..j]`: only whitespace around it, none at its ends. */
  lemma {:induction false} TrimRangeSlice(s: string, i: nat, j: nat) returns (a: nat, b: nat)
    requires i <= j <= |s|
    ensures i <= a <= b <= j && TrimRange(s, i, j) == s[a..b]
    ensures forall k :: i <= k < a ==> IsWhitespace(s[k])
    ensures forall k :: b <= k < j ==> IsWhitespace(s[k])
    ensures a < b ==> !IsWhitespace(s[a]) && !IsWhitespace(s[b - 1])
    decreases j - i
  {
    if i < j && IsWhitespace(s[i]) {
      a, b := TrimRangeSlice(s, i + 1, j);
    } else if i < j && IsWhitespace(s[j - 1]) {
      a, b := TrimRangeSlice(s, i, j - 1);
    } else {
      a, b := i, j;
    }
  }

  /**
   * The trimmed text is a slice of `s` with only whitespace before and after
   * it, and neither starts nor ends with whitespace; it is empty exactly
   * when `s` is all whitespace.
   */
  lemma TrimSpec(s: string)
    ensures var r := Trim(s);
            r == [] || (!IsWhitespace(r[0]) && !IsWhitespace(r[|r| - 1]))
    ensures exists i, j :: 0 <= i <= j <= |s| && Trim(s) == s[i..j]
                           && (forall k :: 0 <= k < i ==> IsWhitespace(s[k]))
                           && (forall k :: j <= k < |s| ==> IsWhitespace(s[k]))
    ensures Trim(s) == [] <==> AllWhitespace(s)
  {
    var a, b := TrimRangeSlice(s, 0, |s|);
    assert a < b ==> s[a..b][0] == s[a] && s[a..b][b - a - 1] == s[b - 1];
    assert a < b ==> !IsWhitespace(s[a]);
  }

  /** `s.split(sep)` for a one-character separator. */
  function Split(s: string, sep: char): (parts: seq<string>)
    ensures |parts| >= 1
    ensures forall i :: 0 <= i < |parts| ==> sep !in parts[i]
    decreases |s|
  {
    if s == [] then [""]
    else
      var rest := Split(s[1..], sep);
      if s[0] == sep then [""] + rest
      else [[s[0]] + rest[0]] + rest[1..]
  }

  /** `parts.join(sep)`, the inverse of `Split`. */
  function Join(parts: seq<string>, sep: char): string
    requires |parts| >= 1
  {
    if |parts| == 1 then parts[0] else parts[0] + [sep] + Join(parts[1..], sep)
  }

  /** Joining the pieces of a split gives back the original string. */
  lemma {:induction false} JoinSplit(s: string, sep: char)
    ensures Join(Split(s, sep), sep) == s
    decreases |s|
  {
    if s != [] {
      var rest := Split(s[1..], sep);
      JoinSplit(s[1..], sep);
      if s[0] != sep {
        if |rest| == 1 {
          assert Split(s, sep) == [[s[0]] + rest[0]];
        } else {
          assert Split(s, sep)[1..] == rest[1..];
          assert Join(rest, sep) == rest[0] + [sep] + Join(rest[1..], sep);
        }
      }
    }
  }

  lemma {:induction false} SplitPrefix(a: string, sep: char, b: string)
    requires sep !in a
    ensures Split(a + [sep] + b, sep) == [a] + Split(b, sep)
    decreases |a|
  {
    if a == [] {
      assert a + [sep] + b == [sep] + b;
      assert ([sep] + b)[1..] == b;
    } else {
      assert (a + [sep] + b)[1..] == a[1..] + [sep] + b;
      SplitPrefix(a[1..], sep, b);
      assert [a[0]] + a[1..] == a;
    }
  }

  lemma {:induction false} SplitWithout(a: string, sep: char)
    requires sep !in a
    ensures Split(a, sep) == [a]
    decreases |a|
  {
    if a != [] {
      SplitWithout(a[1..], sep);
      assert [a[0]] + a[1..] == a;
    }
  }

  /** Splitting a join of separator-free pieces gives back the pieces. */
  lemma {:induction false} SplitJoin(parts: seq<string>, sep: char)
    requires |parts| >= 1
    requires forall i :: 0 <= i < |parts| ==> sep !in parts[i]
    ensures Split(Join(parts, sep), sep) == parts
    decreases |parts|
  {
    if |parts| == 1 {
      SplitWithout(parts[0], sep);
    } else {
      SplitJoin(parts[1..], sep);
      SplitPrefix(parts[0], sep, Join(parts[1..], sep));
    }
  }

  /** The longest display text kept in an item before it is cut. */
  const MaxDisplayLength: nat := 255

  /**
   * `text.length > 255 ? text.substring(0, 255) + '...' : text`: longer
   * texts keep their first 255 characters and gain an ellipsis.
   */
  function Truncate(s: string): (r: string)
    ensures |s| <= MaxDisplayLength ==> r == s
    ensures |s| > MaxDisplayLength ==>
              |r| == MaxDisplayLength + 3 && r[..MaxDisplayLength] == s[..MaxDisplayLength]
              && r[MaxDisplayLength..] == "..."
    ensures |r| <= MaxDisplayLength + 3
  {
    if |s| > MaxDisplayLength then s[..MaxDisplayLength] + "..." else s
  }

  function DigitChar(d: nat): (c: char)
    requires d < 10
  {
    ['0', '1', '2', '3', '4', '5', '6', '7', '8', '9'][d]
  }

  /** The decimal form of a natural number, as `${n}` renders it. */
  function Decimal(n: nat): (r: string)
    ensures |r| >= 1
    ensures forall i :: 0 <= i < |r| ==> IsDigit(r[i])
  {
    if n < 10 then [DigitChar(n)] else Decimal(n / 10) + [DigitChar(n % 10)]
  }

  /** The number a string of decimal digits denotes. */
  function DecimalValue(s: string): nat
    requires forall i :: 0 <= i < |s| ==> IsDigit(s[i])
  {
    if s == [] then 0
    else
      assert IsDigit(s[|s| - 1]);
      DecimalValue(s[..|s| - 1]) * 10 + ((s[|s| - 1] as int) - ('0' as int))
  }

  /** `Decimal` is injective: its value reads back as the number it was made from. */
  lemma {:induction false} DecimalRoundTrip(n: nat)
    ensures DecimalValue(Decimal(n)) == n
  {
    var r := Decimal(n);
    if n >= 10 {
      DecimalRoundTrip(n / 10);
      assert r[..|r| - 1] == Decimal(n / 10);
    }
  }
}
