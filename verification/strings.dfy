/** Character and string helpers shared by the backend and client models:
    digits, ASCII case folding, prefix/suffix/substring tests, the JavaScript
    and Java whitespace classes, `trim`, decimal rendering of integers and
    `padStart`. Strings are sequences of Unicode scalar values, as in Dafny. */
module Strings {

  /** An ASCII decimal digit, the `[0-9]` class of Java and JavaScript regular expressions. */
  predicate IsDigit(c: char) {
    '0' <= c <= '9'
  }

  /** Every character of `s` is an ASCII digit. */
  predicate AllDigits(s: string) {
    forall i :: 0 <= i < |s| ==> IsDigit(s[i])
  }

  /** The value of one decimal digit. */
  function DigitValue(c: char): (d: nat)
    requires IsDigit(c)
    ensures d < 10
  {
    c as int - '0' as int
  }

  /** The character of a digit value `d < 10`. */
  function DigitChar(d: nat): (c: char)
    requires d < 10
    ensures IsDigit(c) && DigitValue(c) == d
  {
    ('0' as int + d) as char
  }

  /** An ASCII upper-case letter, the `[A-Z]` class. */
  predicate IsUpper(c: char) {
    'A' <= c <= 'Z'
  }

  /** An ASCII letter or digit, the complement of `[^A-Za-z0-9]`. */
  predicate IsAlnum(c: char) {
    IsUpper(c) || 'a' <= c <= 'z' || IsDigit(c)
  }

  /** ASCII case folding of one character. */
  function LowerChar(c: char): (r: char)
    ensures IsUpper(c) ==> r as int == c as int + 32
    ensures !IsUpper(c) ==> r == c
    ensures !IsUpper(r)
  {
    if IsUpper(c) then (c as int + 32) as char else c
  }

  /** `toLowerCase()`, restricted to ASCII letters. */
  function Lower(s: string): (r: string)
    ensures |r| == |s|
    ensures forall i :: 0 <= i < |s| ==> r[i] == LowerChar(s[i])
  {
    if s == [] then [] else [LowerChar(s[0])] + Lower(s[1..])
  }

  /** A text without upper-case letters is its own lower-case form. */
  lemma LowerOfLowerCase(s: string)
    requires forall i :: 0 <= i < |s| ==> !IsUpper(s[i])
    ensures Lower(s) == s
  {
  }

  /** Lower-casing is idempotent. */
  lemma LowerIdempotent(s: string)
    ensures Lower(Lower(s)) == Lower(s)
  {
  }

  /** `s.startsWith(p)`. */
  predicate StartsWith(s: string, p: string) {
    |p| <= |s| && s[..|p|] == p
  }

  /** The text after one leading `-` or `+`, if there is one. */
  function Unsigned(s: string): (u: string)
    ensures |u| <= |s|
  {
    if StartsWith(s, "-") || StartsWith(s, "+") then s[1..] else s
  }

  /** `s.endsWith(p)`. */
  predicate EndsWith(s: string, p: string) {
    |p| <= |s| && s[|s| - |p|..] == p
  }

  /** `hay.includes(needle)`: `needle` occurs in `hay` at some offset. */
  predicate Contains(hay: string, needle: string) {
    exists i :: 0 <= i <= |hay| - |needle| && StartsWith(hay[i..], needle)
  }

  /** Case-insensitive containment, `hay.toLowerCase().includes(needle.toLowerCase())`. */
  predicate ContainsIgnoringCase(hay: string, needle: string) {
    Contains(Lower(hay), Lower(needle))
  }

  /** The empty string occurs in every string. */
  lemma ContainsEmpty(hay: string)
    ensures Contains(hay, "")
  {
    assert StartsWith(hay[0..], "");
  }

  /** A string contains itself. */
  lemma ContainsSelf(s: string)
    ensures Contains(s, s)
  {
    assert s[0..] == s;
    assert StartsWith(s[0..], s);
  }

  /** Lower-casing works character by character, so it distributes over
      concatenation. */
  lemma LowerConcat(a: string, b: string)
    ensures Lower(a + b) == Lower(a) + Lower(b)
  {
    assert forall i :: 0 <= i < |a + b| ==> Lower(a + b)[i] == (Lower(a) + Lower(b))[i];
  }

  /** What a text contains, any longer text starting with it contains too. */
  lemma ContainsExtended(hay: string, more: string, needle: string)
    requires Contains(hay, needle)
    ensures Contains(hay + more, needle)
  {
    var i :| 0 <= i <= |hay| - |needle| && StartsWith(hay[i..], needle);
    assert (hay + more)[i..][..|needle|] == hay[i..][..|needle|];
  }

  /** The characters JavaScript's `trim` and `parseInt` skip: WhiteSpace and
      LineTerminator of the ECMAScript grammar. */
  predicate IsJsSpace(c: char) {
    c == '\t' || c == '\n' || c == '\U{B}' || c == '\U{C}' || c == '\r' || c == ' '
    || c == '\U{A0}' || c == '\U{1680}' || ('\U{2000}' <= c <= '\U{200A}')
    || c == '\U{2028}' || c == '\U{2029}' || c == '\U{202F}' || c == '\U{205F}'
    || c == '\U{3000}' || c == '\U{FEFF}'
  }

  /** The `\s` class of a Java regular expression: `[ \t\n\x0B\f\r]`. */
  predicate IsJavaSpace(c: char) {
    c == ' ' || c == '\t' || c == '\n' || c == '\U{B}' || c == '\U{C}' || c == '\r'
  }

  /** `s.replace(/^\s+/, '')` in JavaScript terms: drop leading JavaScript white space. */
  function TrimStart(s: string): (r: string)
    ensures |r| <= |s| && r == s[|s| - |r|..]
    ensures forall i :: 0 <= i < |s| - |r| ==> IsJsSpace(s[i])
    ensures r != [] ==> !IsJsSpace(r[0])
  {
    if s != [] && IsJsSpace(s[0]) then TrimStart(s[1..]) else s
  }

  /** Drop trailing JavaScript white space. */
  function TrimEnd(s: string): (r: string)
    ensures |r| <= |s| && r == s[..|r|]
    ensures forall i :: |r| <= i < |s| ==> IsJsSpace(s[i])
    ensures r != [] ==> !IsJsSpace(r[|r| - 1])
  {
    if s != [] && IsJsSpace(s[|s| - 1]) then TrimEnd(s[..|s| - 1]) else s
  }

  /** `s.trim()`. */
  function Trim(s: string): (r: string)
  {
    TrimEnd(TrimStart(s))
  }

  /** Every character of `s` outside `s[i..j]` is white space. */
  predicate SpaceOutside(s: string, i: int, j: int)
    requires 0 <= i <= j <= |s|
  {
    (forall k :: 0 <= k < i ==> IsJsSpace(s[k])) && (forall k :: j <= k < |s| ==> IsJsSpace(s[k]))
  }

  /** `Trim(s)` is the slice of `s` between its leading and its trailing
      white space. */
  lemma TrimSlice(s: string)
    ensures |s| - |TrimStart(s)| + |Trim(s)| <= |s|
    ensures Trim(s) == s[|s| - |TrimStart(s)|..|s| - |TrimStart(s)| + |Trim(s)|]
  {
    var t := TrimStart(s);
    var e := TrimEnd(t);
    var i := |s| - |t|;
    assert t == s[i..];
    assert e == t[..|e|];
    PrefixOfSuffix(s, i, |e|);
  }

  /** A prefix of a suffix is a middle slice. */
  lemma PrefixOfSuffix(s: string, i: nat, n: nat)
    requires i + n <= |s|
    ensures s[i..][..n] == s[i..i + n]
  {
  }

  /** What `Trim` drops at either end is white space. */
  lemma TrimDropsSpace(s: string)
    ensures |s| - |TrimStart(s)| + |Trim(s)| <= |s|
    ensures SpaceOutside(s, |s| - |TrimStart(s)|, |s| - |TrimStart(s)| + |Trim(s)|)
  {
    var t := TrimStart(s);
    var i := |s| - |t|;
    var e := TrimEnd(t);
    SpaceCarriesToWhole(s, i, |e|);
  }

  /** White space at the end of a suffix is white space at the end of the
      whole text. */
  lemma SpaceCarriesToWhole(s: string, i: nat, n: nat)
    requires i + n <= |s|
    requires forall k :: n <= k < |s[i..]| ==> IsJsSpace(s[i..][k])
    ensures forall k :: i + n <= k < |s| ==> IsJsSpace(s[k])
  {
    forall k | i + n <= k < |s|
      ensures IsJsSpace(s[k])
    {
      assert s[k] == s[i..][k - i];
    }
  }

  /** `Trim` returns a contiguous piece of its input with every dropped
      character white space and no white space at either end. */
  lemma TrimShape(s: string)
    ensures exists i, j :: 0 <= i <= j <= |s| && Trim(s) == s[i..j] && SpaceOutside(s, i, j)
    ensures Trim(s) != [] ==> !IsJsSpace(Trim(s)[0]) && !IsJsSpace(Trim(s)[|Trim(s)| - 1])
  {
    TrimSlice(s);
    TrimDropsSpace(s);
    TrimEndsNotSpace(s);
    var i := |s| - |TrimStart(s)|;
    var j := i + |Trim(s)|;
    assert Trim(s) == s[i..j] && SpaceOutside(s, i, j);
  }

  /** The trimmed text starts and ends with a character that is not white
      space. */
  lemma TrimEndsNotSpace(s: string)
    ensures Trim(s) != [] ==> !IsJsSpace(Trim(s)[0]) && !IsJsSpace(Trim(s)[|Trim(s)| - 1])
  {
    var t := TrimStart(s);
    var e := TrimEnd(t);
    if e != [] {
      assert e == t[..|e|];
      assert e[0] == t[0];
    }
  }

  /** `s.trim() === ''` holds exactly when every character is white space. */
  lemma TrimEmptyIff(s: string)
    ensures Trim(s) == [] <==> forall k :: 0 <= k < |s| ==> IsJsSpace(s[k])
  {
    if Trim(s) == [] {
      TrimShape(s);
    } else {
      var t := TrimStart(s);
      assert t != [];
      var k := |s| - |t|;
      assert s[k] == t[0] && !IsJsSpace(s[k]);
    }
  }

  /** Leading white space before a non-space character is exactly what
      `TrimStart` drops. */
  lemma TrimStartPadded(pre: string, rest: string)
    requires rest != [] && !IsJsSpace(rest[0])
    requires forall k :: 0 <= k < |pre| ==> IsJsSpace(pre[k])
    ensures TrimStart(pre + rest) == rest
  {
    var s := pre + rest;
    var t := TrimStart(s);
    assert s[|pre|] == rest[0];
    assert forall k :: 0 <= k < |pre| ==> s[k] == pre[k];
    assert |s| - |t| == |pre|;
  }

  /** Trailing white space after a non-space character is exactly what
      `TrimEnd` drops. */
  lemma TrimEndPadded(rest: string, post: string)
    requires rest != [] && !IsJsSpace(rest[|rest| - 1])
    requires forall k :: 0 <= k < |post| ==> IsJsSpace(post[k])
    ensures TrimEnd(rest + post) == rest
  {
    var s := rest + post;
    var t := TrimEnd(s);
    assert s[|rest| - 1] == rest[|rest| - 1];
    assert forall k :: |rest| <= k < |s| ==> s[k] == post[k - |rest|];
    assert |t| == |rest|;
  }

  /** Trimming removes exactly the white space padding a text whose ends
      are not white space. */
  lemma TrimPadded(pre: string, core: string, post: string)
    requires core != [] && !IsJsSpace(core[0]) && !IsJsSpace(core[|core| - 1])
    requires forall k :: 0 <= k < |pre| ==> IsJsSpace(pre[k])
    requires forall k :: 0 <= k < |post| ==> IsJsSpace(post[k])
    ensures Trim(pre + core + post) == core
  {
    assert pre + core + post == pre + (core + post);
    TrimStartPadded(pre, core + post);
    TrimEndPadded(core, post);
  }

  /** Decimal rendering of a natural number, `n.toString()`. */
  function NatToString(n: nat): (r: string)
    ensures |r| >= 1 && AllDigits(r)
    ensures n > 0 ==> r[0] != '0'
    decreases n
  {
    if n < 10 then [DigitChar(n)] else NatToString(n / 10) + [DigitChar(n % 10)]
  }

  /** Decimal rendering of an integer, with a leading `-` for negatives. */
  function IntToString(n: int): (r: string)
    ensures |r| >= 1
    ensures n >= 0 ==> r == NatToString(n)
    ensures n < 0 ==> r == "-" + NatToString(-n)
  {
    if n >= 0 then NatToString(n) else "-" + NatToString(-n)
  }

  /** The value of a string of decimal digits (most significant first). */
  function DecimalValue(s: string): (v: nat)
    requires AllDigits(s)
  {
    if s == [] then 0 else DecimalValue(s[..|s| - 1]) * 10 + DigitValue(s[|s| - 1])
  }

  /** Reading back what `NatToString` wrote gives the number. */
  lemma {:induction false} DecimalValueOfNatToString(n: nat)
    ensures DecimalValue(NatToString(n)) == n
    decreases n
  {
    if n >= 10 {
      DecimalValueOfNatToString(n / 10);
      var s := NatToString(n);
      assert s[..|s| - 1] == NatToString(n / 10);
    }
  }

  /** Leading zeros do not change a decimal value. */
  lemma {:induction false} DecimalValueLeadingZero(s: string)
    requires AllDigits(s)
    ensures AllDigits("0" + s) && DecimalValue("0" + s) == DecimalValue(s)
    decreases |s|
  {
    var z := "0" + s;
    if s != [] {
      DecimalValueLeadingZero(s[..|s| - 1]);
      assert z[..|z| - 1] == "0" + s[..|s| - 1];
    }
  }

  /** `n` copies of `c`. */
  function Repeat(c: char, n: nat): (r: string)
    ensures |r| == n && forall i :: 0 <= i < n ==> r[i] == c
  {
    if n == 0 then [] else [c] + Repeat(c, n - 1)
  }

  /** `s.padStart(width, c)` with a one-character pad string. */
  function PadStart(s: string, width: nat, c: char): (r: string)
    ensures |s| >= width ==> r == s
    ensures |s| < width ==> |r| == width
    ensures EndsWith(r, s)
    ensures forall i :: 0 <= i < |r| - |s| ==> r[i] == c
  {
    if |s| >= width then s else Repeat(c, width - |s|) + s
  }

  /** Prefixing zeros to a digit string keeps its value. */
  lemma {:induction false} DecimalValueZeros(n: nat, s: string)
    requires AllDigits(s)
    ensures AllDigits(Repeat('0', n) + s)
    ensures DecimalValue(Repeat('0', n) + s) == DecimalValue(s)
    decreases n
  {
    if n > 0 {
      DecimalValueZeros(n - 1, s);
      var rest := Repeat('0', n - 1) + s;
      assert Repeat('0', n) + s == "0" + rest;
      DecimalValueLeadingZero(rest);
      assert DecimalValue("0" + rest) == DecimalValue(rest) == DecimalValue(s);
    } else {
      assert Repeat('0', n) + s == s;
    }
  }

  /** `(n / 100).toFixed(2)` for a non-negative amount of cents `n`: the
      whole part, a point, and two digits of cents. */
  function CentsToFixed(n: nat): (r: string)
  {
    NatToString(n / 100) + "." + PadStart(NatToString(n % 100), 2, '0')
  }

  /** `(c / 100).toFixed(2)` for any amount of cents. */
  function FixedTwo(c: int): (r: string)
  {
    if c >= 0 then CentsToFixed(c) else "-" + CentsToFixed(-c)
  }

  /** A number below 100 prints with at most two digits. */
  lemma TwoDigitsAtMost(m: nat)
    requires m < 100
    ensures |NatToString(m)| <= 2
  {
    if m >= 10 {
      assert NatToString(m) == NatToString(m / 10) + [DigitChar(m % 10)];
    }
  }

  /** The rendering reads back: the text before the point and the two
      digits after it give the amount again. */
  lemma CentsToFixedReadsBack(n: nat)
    ensures var r := CentsToFixed(n);
      |r| >= 4 && r[|r| - 3] == '.' && AllDigits(r[..|r| - 3]) && AllDigits(r[|r| - 2..])
      && DecimalValue(r[..|r| - 3]) * 100 + DecimalValue(r[|r| - 2..]) == n
  {
    var w := NatToString(n / 100);
    var d := NatToString(n % 100);
    var f := PadStart(d, 2, '0');
    TwoDigitsAtMost(n % 100);
    assert f == Repeat('0', 2 - |d|) + d;
    DecimalValueZeros(2 - |d|, d);
    DecimalValueOfNatToString(n / 100);
    DecimalValueOfNatToString(n % 100);
    var r := CentsToFixed(n);
    assert r == w + "." + f;
    assert r[..|r| - 3] == w;
    assert r[|r| - 2..] == f;
  }
}
