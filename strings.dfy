/**
 * The few JavaScript string operations the application relies on, written out
 * over `seq<char>`: `trim`, `split` on one separator character, `Number(...)`
 * on decimal text, `String(n)` and two-digit zero padding, and
 * `indexOf`/`replace` with a plain string pattern (first occurrence only).
 */
module Strings {
  import opened Wrappers

  // ---------------------------------------------------------------- trimming

  /**
   * The code points `String.prototype.trim` removes: the white-space ones
   * (tab, vertical tab, form feed, the byte order mark and every space
   * separator) and the line terminators.
   */
  predicate IsWhitespace(c: char) {
    c == ' ' || c == '\t' || c == '\n' || c == '\r' || c == '\U{B}' || c == '\U{C}'
    || c == '\U{A0}' || c == '\U{FEFF}' || c == '\U{2028}' || c == '\U{2029}'
    || c == '\U{1680}' || ('\U{2000}' <= c <= '\U{200A}') || c == '\U{202F}' || c == '\U{205F}'
    || c == '\U{3000}'
  }

  predicate AllWhitespace(s: string) {
    forall k :: 0 <= k < |s| ==> IsWhitespace(s[k])
  }

  /** The index of the first non-space at or after `i`, or `|s|` when there is none. */
  function TrimStart(s: string, i: nat): (k: nat)
    requires i <= |s|
    ensures i <= k <= |s|
    ensures forall j :: i <= j < k ==> IsWhitespace(s[j])
    ensures k < |s| ==> !IsWhitespace(s[k])
    decreases |s| - i
  {
    if i < |s| && IsWhitespace(s[i]) then TrimStart(s, i + 1) else i
  }

  /** The index just after the last non-space before `j`, or 0 when there is none. */
  function TrimEnd(s: string, j: nat): (k: nat)
    requires j <= |s|
    ensures k <= j
    ensures forall m :: k <= m < j ==> IsWhitespace(s[m])
    ensures k > 0 ==> !IsWhitespace(s[k - 1])
  {
    if j > 0 && IsWhitespace(s[j - 1]) then TrimEnd(s, j - 1) else j
  }

  /**
   * `s.trim()`: the contiguous middle of `s` between a white-space prefix and
   * a white-space suffix, with no white space at either end.
   */
  function Trim(s: string): (r: string)
    ensures |r| <= |s|
    ensures r != [] ==> !IsWhitespace(r[0]) && !IsWhitespace(r[|r| - 1])
    ensures var i := TrimStart(s, 0);
            i + |r| <= |s| && r == s[i..i + |r|] && AllWhitespace(s[..i]) && AllWhitespace(s[i + |r|..])
  {
    var i := TrimStart(s, 0);
    var j := TrimEnd(s, |s|);
    if j <= i then [] else s[i..j]
  }

  /** A string trims to nothing exactly when it is all white space (`!s.trim()` in the source). */
  lemma TrimEmptyIff(s: string)
    ensures Trim(s) == [] <==> AllWhitespace(s)
  {
    if Trim(s) == [] {
      var i := TrimStart(s, 0);
      assert s == s[..i] + s[i..];
    }
  }

  /** Text with no white space at either end is left as it is. */
  lemma TrimUnchanged(s: string)
    requires s != [] ==> !IsWhitespace(s[0]) && !IsWhitespace(s[|s| - 1])
    ensures Trim(s) == s
  {
  }

  // --------------------------------------------------------------- splitting

  /** `s.split(sep)` for a one-character separator: the pieces between separators, in order. */
  function Split(s: string, sep: char): (parts: seq<string>)
    ensures |parts| >= 1
    ensures forall i :: 0 <= i < |parts| ==> sep !in parts[i]
  {
    if s == [] then [""]
    else
      var rest := Split(s[1..], sep);
      if s[0] == sep then [""] + rest
      else [[s[0]] + rest[0]] + rest[1..]
  }

  /** `parts.join(sep)`. */
  function Join(parts: seq<string>, sep: char): string {
    if |parts| == 0 then ""
    else if |parts| == 1 then parts[0]
    else parts[0] + [sep] + Join(parts[1..], sep)
  }

  /** Joining the pieces again gives back the original text. */
  lemma {:induction false} JoinSplit(s: string, sep: char)
    ensures Join(Split(s, sep), sep) == s
  {
    if s != [] {
      var rest := Split(s[1..], sep);
      JoinSplit(s[1..], sep);
      if s[0] == sep {
        assert Split(s, sep) == [""] + rest;
        assert ([""] + rest)[1..] == rest;
      } else {
        var parts := Split(s, sep);
        assert parts == [[s[0]] + rest[0]] + rest[1..];
        if |rest| == 1 {
          assert parts == [[s[0]] + rest[0]];
        } else {
          assert parts[1..] == rest[1..];
          assert Join(rest, sep) == rest[0] + [sep] + Join(rest[1..], sep);
        }
      }
    }
  }

  /** Text without the separator is one piece. */
  lemma {:induction false} SplitNoSeparator(s: string, sep: char)
    requires sep !in s
    ensures Split(s, sep) == [s]
  {
    if s != [] {
      SplitNoSeparator(s[1..], sep);
      assert [s[0]] + s[1..] == s;
    }
  }

  /** Text with exactly one separator splits into the part before it and the part after it. */
  lemma {:induction false} SplitOnce(a: string, b: string, sep: char)
    requires sep !in a && sep !in b
    ensures Split(a + [sep] + b, sep) == [a, b]
  {
    if a == [] {
      assert a + [sep] + b == [sep] + b;
      assert ([sep] + b)[1..] == b;
      SplitNoSeparator(b, sep);
    } else {
      var s := a + [sep] + b;
      assert s[1..] == a[1..] + [sep] + b;
      SplitOnce(a[1..], b, sep);
      assert [a[0]] + a[1..] == a;
    }
  }

  // ------------------------------------------------------------------ numbers

  predicate IsDigit(c: char) {
    '0' <= c <= '9'
  }

  predicate AllDigits(s: string) {
    forall k :: 0 <= k < |s| ==> IsDigit(s[k])
  }

  function DigitValue(c: char): nat
    requires IsDigit(c)
  {
    c as int - '0' as int
  }

  function DigitChar(d: nat): (c: char)
    requires d < 10
    ensures IsDigit(c) && DigitValue(c) == d
  {
    ('0' as int + d) as char
  }

  /** The value of a string of decimal digits, most significant first; the empty string is 0. */
  function DigitsValue(s: string): nat
    requires AllDigits(s)
  {
    if s == [] then 0 else 10 * DigitsValue(s[..|s| - 1]) + DigitValue(s[|s| - 1])
  }

  /**
   * `Number(s)` as far as the model follows it: surrounding white space is
   * ignored, what remains must be decimal digits (none at all reads as 0),
   * and anything else is `NaN`, here `None`.
   */
  function ToNumber(s: string): (r: Option<nat>)
    ensures r.Some? <==> AllDigits(Trim(s))
  {
    var t := Trim(s);
    if AllDigits(t) then Some(DigitsValue(t)) else None
  }

  /** `String(n)` for a natural number: its decimal digits without leading zeros. */
  function NatToString(n: nat): (s: string)
    ensures s != [] && AllDigits(s)
    ensures |s| > 1 ==> s[0] != '0'
  {
    if n < 10 then [DigitChar(n)] else NatToString(n / 10) + [DigitChar(n % 10)]
  }

  /** Reading back the decimal text of `n` gives `n`. */
  lemma {:induction false} NatToStringValue(n: nat)
    ensures DigitsValue(NatToString(n)) == n
  {
    if n >= 10 {
      var s := NatToString(n);
      assert s[..|s| - 1] == NatToString(n / 10);
      NatToStringValue(n / 10);
    }
  }

  /** `n.toString().padStart(2, '0')` for `n < 100`. */
  function Pad2(n: nat): (s: string)
    requires n < 100
    ensures |s| == 2 && AllDigits(s)
  {
    if n < 10 then ['0'] + NatToString(n)
    else
      assert |NatToString(n / 10)| == 1;
      NatToString(n)
  }

  /** The padded text reads back as the number it was made from. */
  lemma Pad2Value(n: nat)
    requires n < 100
    ensures ToNumber(Pad2(n)) == Some(n)
  {
    var s := Pad2(n);
    TrimUnchanged(s);
    assert Trim(s) == s;
    if n < 10 {
      assert s == ['0', DigitChar(n)];
      assert s[..1] == ['0'];
      assert DigitsValue(s[..1]) == 10 * DigitsValue([]) + 0;
      assert DigitsValue(s) == n;
    } else {
      NatToStringValue(n);
    }
  }

  /**
   * The 24-hour `HH:MM` text of a minute of the day (hours and minutes each
   * zero-padded to two digits).
   */
  function FormatHHMM(m: nat): (s: string)
    requires m < 1440
    ensures |s| == 5 && s[2] == ':'
  {
    Pad2(m / 60) + [':'] + Pad2(m % 60)
  }

  /** An `HH:MM` text splits at its colon into the two padded numbers. */
  lemma SplitFormat(m: nat)
    requires m < 1440
    ensures Split(FormatHHMM(m), ':') == [Pad2(m / 60), Pad2(m % 60)]
  {
    SplitOnce(Pad2(m / 60), Pad2(m % 60), ':');
  }

  /** Two minutes of the day have the same `HH:MM` text exactly when they are the same minute. */
  lemma FormatHHMMInjective(m1: nat, m2: nat)
    requires m1 < 1440 && m2 < 1440
    ensures FormatHHMM(m1) == FormatHHMM(m2) <==> m1 == m2
  {
    if FormatHHMM(m1) == FormatHHMM(m2) {
      SplitFormat(m1);
      SplitFormat(m2);
      Pad2Value(m1 / 60);
      Pad2Value(m2 / 60);
      Pad2Value(m1 % 60);
      Pad2Value(m2 % 60);
    }
  }

  // ------------------------------------------------------- search and replace

  predicate OccursAt(text: string, pat: string, j: int) {
    0 <= j && j + |pat| <= |text| && text[j..j + |pat|] == pat
  }

  predicate Contains(text: string, pat: string) {
    exists j | 0 <= j <= |text| :: OccursAt(text, pat, j)
  }

  function IndexFrom(text: string, pat: string, i: nat): (r: Option<nat>)
    ensures r.Some? ==> i <= r.value && OccursAt(text, pat, r.value)
    ensures r.Some? ==> forall j :: i <= j < r.value ==> !OccursAt(text, pat, j)
    ensures r.None? ==> forall j :: i <= j ==> !OccursAt(text, pat, j)
    decreases |text| - i
  {
    if i + |pat| > |text| then None
    else if text[i..i + |pat|] == pat then Some(i)
    else IndexFrom(text, pat, i + 1)
  }

  /** `text.indexOf(pat)`: the first position where `pat` occurs, if any. */
  function IndexOf(text: string, pat: string): (r: Option<nat>)
    ensures r.None? <==> !Contains(text, pat)
    ensures r.Some? ==> OccursAt(text, pat, r.value)
                        && forall j :: 0 <= j < r.value ==> !OccursAt(text, pat, j)
  {
    IndexFrom(text, pat, 0)
  }

  /**
   * `text.replace(pat, rep)` with a string pattern and a replacement free of
   * `$` patterns: the first occurrence of `pat` is replaced, nothing else
   * changes, and text without an occurrence comes back unchanged.
   */
  function ReplaceFirst(text: string, pat: string, rep: string): (r: string)
    ensures !Contains(text, pat) ==> r == text
    ensures Contains(text, pat) ==>
              exists i :: OccursAt(text, pat, i)
                          && (forall j :: 0 <= j < i ==> !OccursAt(text, pat, j))
                          && r == text[..i] + rep + text[i + |pat|..]
  {
    match IndexOf(text, pat)
    case None => text
    case Some(i) => text[..i] + rep + text[i + |pat|..]
  }

  /** A string contains itself inside any surrounding text. */
  lemma ContainsInfix(pre: string, x: string, post: string)
    ensures Contains(pre + x + post, x)
  {
    var s := pre + x + post;
    assert s[|pre|..|pre| + |x|] == x;
    assert OccursAt(s, x, |pre|);
  }
}
