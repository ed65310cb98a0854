/** JavaScript's global `parseInt(string)` with no radix argument, as the
    client and the Express controllers use it: leading white space is
    skipped, one sign is accepted, a `0x`/`0X` prefix switches to base 16,
    digits are read up to the first character that is not one, and a string
    with no digit there yields `NaN` (modelled as `None`). */
module JsParse {
  import opened Strings
  import opened Wrappers

  /** A digit of base 16 (`hex`) or base 10. */
  predicate IsRadixDigit(c: char, hex: bool) {
    IsDigit(c) || (hex && ('a' <= c <= 'f' || 'A' <= c <= 'F'))
  }

  /** The value of a base-16 or base-10 digit. */
  function RadixDigitValue(c: char, hex: bool): (d: nat)
    requires IsRadixDigit(c, hex)
    ensures d < (if hex then 16 else 10)
    ensures IsDigit(c) ==> d == DigitValue(c)
  {
    if IsDigit(c) then DigitValue(c)
    else if 'a' <= c <= 'f' then c as int - 'a' as int + 10
    else c as int - 'A' as int + 10
  }

  /** Every character of `s` is a digit of the base. */
  predicate AllRadixDigits(s: string, hex: bool) {
    forall i :: 0 <= i < |s| ==> IsRadixDigit(s[i], hex)
  }

  /** Length of the longest prefix of `s` made of digits. */
  function DigitRun(s: string, hex: bool): (n: nat)
    ensures n <= |s|
    ensures forall i :: 0 <= i < n ==> IsRadixDigit(s[i], hex)
    ensures n < |s| ==> !IsRadixDigit(s[n], hex)
  {
    if s != [] && IsRadixDigit(s[0], hex) then 1 + DigitRun(s[1..], hex) else 0
  }

  /** The value of a string of digits in base 16 or 10. */
  function RadixValue(s: string, hex: bool): (v: nat)
    requires forall i :: 0 <= i < |s| ==> IsRadixDigit(s[i], hex)
  {
    if s == [] then 0
    else RadixValue(s[..|s| - 1], hex) * (if hex then 16 else 10) + RadixDigitValue(s[|s| - 1], hex)
  }

  /** In base 10 the value is the ordinary decimal value. */
  lemma {:induction false} RadixValueDecimal(s: string)
    requires AllDigits(s)
    ensures RadixValue(s, false) == DecimalValue(s)
    decreases |s|
  {
    if s != [] {
      RadixValueDecimal(s[..|s| - 1]);
    }
  }

  /** The sign and the string that follows it. */
  function SplitSign(t: string): (r: (int, string))
    ensures r.0 == 1 || r.0 == -1
    ensures r.0 == -1 <==> StartsWith(t, "-")
    ensures r.1 == (if StartsWith(t, "-") || StartsWith(t, "+") then t[1..] else t)
  {
    if t != [] && t[0] == '-' then (-1, t[1..])
    else if t != [] && t[0] == '+' then (1, t[1..])
    else (1, t)
  }

  /** Whether the unsigned part starts with a hexadecimal prefix. */
  predicate HasHexPrefix(u: string) {
    StartsWith(u, "0x") || StartsWith(u, "0X")
  }

  /** `parseInt(s)`; `None` is `NaN`. */
  function ParseInt(s: string): Option<int> {
    var (sign, u) := SplitSign(TrimStart(s));
    var hex := HasHexPrefix(u);
    var body := if hex then u[2..] else u;
    var n := DigitRun(body, hex);
    if n == 0 then None else Some(sign * RadixValue(body[..n], hex))
  }

  /** The optional sign `parseInt` accepts, as text. */
  predicate IsSignText(sg: string) {
    sg == "" || sg == "+" || sg == "-"
  }

  /** The factor a sign text stands for. */
  function SignFactor(sg: string): (f: int)
    ensures f == 1 || f == -1
    ensures f == -1 <==> sg == "-"
  {
    if sg == "-" then -1 else 1
  }

  /** Leading white space and an optional sign are skipped, and the decimal
      digits that follow are read up to the first character that is not a
      digit, whatever comes after it: `parseInt(" -12abc")` is -12. A lone
      `0` followed by `x` or `X` is excluded, since it starts a hexadecimal
      number instead. */
  lemma ParseIntReadsLeadingDigits(w: string, sg: string, d: string, rest: string)
    requires forall k :: 0 <= k < |w| ==> IsJsSpace(w[k])
    requires IsSignText(sg)
    requires d != [] && AllDigits(d)
    requires rest == [] || !IsDigit(rest[0])
    requires !(d == "0" && rest != [] && (rest[0] == 'x' || rest[0] == 'X'))
    ensures ParseInt(w + sg + d + rest) == Some(SignFactor(sg) * DecimalValue(d))
  {
    var u := d + rest;
    var t := sg + u;
    assert w + sg + d + rest == w + t;
    assert u[0] == d[0] && IsDigit(d[0]);
    SignedTextTrimmed(w, sg, u);
    SignSplitsOff(sg, u);
    NoHexAfterDigits(d, rest);
    DigitRunStops(d, rest, false);
    assert u[..|d|] == d;
    RadixValueDecimal(d);
    ParseIntDecimalBody(w + t, t, SignFactor(sg), u, |d|);
  }

  /** After leading white space and an optional sign, a `0x` or `0X` prefix
      makes the hexadecimal digits that follow be read, up to the first
      character that is not one: `parseInt("0x1fz")` is 31. */
  lemma ParseIntReadsHexDigits(w: string, sg: string, x: string, h: string, rest: string)
    requires forall k :: 0 <= k < |w| ==> IsJsSpace(w[k])
    requires IsSignText(sg)
    requires x == "0x" || x == "0X"
    requires h != [] && AllRadixDigits(h, true)
    requires rest == [] || !IsRadixDigit(rest[0], true)
    ensures ParseInt(w + sg + x + h + rest) == Some(SignFactor(sg) * RadixValue(h, true))
  {
    var u := x + (h + rest);
    var t := sg + u;
    assert w + sg + x + h + rest == w + t;
    HexPrefixSplits(x, h + rest);
    SignedTextTrimmed(w, sg, u);
    SignSplitsOff(sg, u);
    DigitRunStops(h, rest, true);
    assert (h + rest)[..|h|] == h;
    ParseIntHexBody(w + t, t, SignFactor(sg), u, |h|);
  }

  /** `parseInt` once the white space, the sign and a decimal digit run are
      known. */
  lemma ParseIntDecimalBody(s: string, t: string, f: int, u: string, n: nat)
    requires TrimStart(s) == t && SplitSign(t) == (f, u) && !HasHexPrefix(u)
    requires 0 < n && DigitRun(u, false) == n
    ensures ParseInt(s) == Some(f * RadixValue(u[..n], false))
  {
  }

  /** `parseInt` once the white space, the sign, the hexadecimal prefix and
      a hexadecimal digit run are known. */
  lemma ParseIntHexBody(s: string, t: string, f: int, u: string, n: nat)
    requires TrimStart(s) == t && SplitSign(t) == (f, u) && HasHexPrefix(u)
    requires 0 < n && DigitRun(u[2..], true) == n
    ensures ParseInt(s) == Some(f * RadixValue(u[2..][..n], true))
  {
  }

  /** White space before a sign text and a non-space character is exactly
      what `parseInt` skips. */
  lemma SignedTextTrimmed(w: string, sg: string, u: string)
    requires forall k :: 0 <= k < |w| ==> IsJsSpace(w[k])
    requires IsSignText(sg)
    requires u != [] && IsDigit(u[0])
    ensures TrimStart(w + (sg + u)) == sg + u
  {
    var t := sg + u;
    assert t[0] == (if sg == "" then u[0] else sg[0]);
    TrimStartPadded(w, t);
  }

  /** A `0x` or `0X` prefix is recognised and split off. */
  lemma HexPrefixSplits(x: string, v: string)
    requires x == "0x" || x == "0X"
    ensures (x + v) != [] && IsDigit((x + v)[0])
    ensures HasHexPrefix(x + v) && (x + v)[2..] == v
  {
    assert (x + v)[..2] == x;
    assert (x + v)[0] == '0';
  }

  /** Decimal digits followed by a non-digit start no hexadecimal prefix,
      unless they are a lone `0` followed by `x` or `X`. */
  lemma NoHexAfterDigits(d: string, rest: string)
    requires d != [] && AllDigits(d)
    requires rest == [] || !IsDigit(rest[0])
    requires !(d == "0" && rest != [] && (rest[0] == 'x' || rest[0] == 'X'))
    ensures !HasHexPrefix(d + rest)
  {
    var u := d + rest;
    if |d| >= 2 {
      assert u[1] == d[1] && IsDigit(d[1]);
    } else if d[0] != '0' {
      assert u[0] == d[0];
    } else {
      assert d == "0";
      if rest != [] {
        assert u[1] == rest[0];
      }
    }
  }

  /** A sign text splits off as its factor; without one, a text that does
      not start with a sign is kept whole. */
  lemma SignSplitsOff(sg: string, u: string)
    requires IsSignText(sg)
    requires u != [] && u[0] != '-' && u[0] != '+'
    ensures SplitSign(sg + u) == (SignFactor(sg), u)
  {
    if sg == "" {
      assert sg + u == u;
    } else {
      assert (sg + u)[0] == sg[0];
      assert (sg + u)[1..] == u;
    }
  }

  /** A run of digits followed by a non-digit is read exactly to its end. */
  lemma {:induction false} DigitRunStops(d: string, rest: string, hex: bool)
    requires AllRadixDigits(d, hex)
    requires rest == [] || !IsRadixDigit(rest[0], hex)
    ensures DigitRun(d + rest, hex) == |d|
    decreases |d|
  {
    if d != [] {
      assert (d + rest)[0] == d[0];
      assert (d + rest)[1..] == d[1..] + rest;
      DigitRunStops(d[1..], rest, hex);
    } else {
      assert d + rest == rest;
    }
  }

  /** A run of digits is read to its end. */
  lemma {:induction false} DigitRunAll(s: string, hex: bool)
    requires forall i :: 0 <= i < |s| ==> IsRadixDigit(s[i], hex)
    ensures DigitRun(s, hex) == |s|
    decreases |s|
  {
    if s != [] {
      DigitRunAll(s[1..], hex);
    }
  }

  /** A decimal digit string has no hexadecimal prefix. */
  lemma DigitsNoHexPrefix(d: string)
    requires AllDigits(d)
    ensures !HasHexPrefix(d)
  {
    if |d| >= 2 {
      assert IsDigit(d[1]);
    }
  }

  /** The unsigned digits `d` after an optional sign read as their decimal value. */
  lemma ParseUnsignedDigits(t: string, d: string)
    requires d != [] && AllDigits(d)
    requires TrimStart(t) == t && SplitSign(t).1 == d
    ensures ParseInt(t) == Some(SplitSign(t).0 * DecimalValue(d))
  {
    DigitsNoHexPrefix(d);
    DigitRunAll(d, false);
    assert d[..|d|] == d;
    RadixValueDecimal(d);
  }

  /** A non-empty string of decimal digits parses to its decimal value. */
  lemma ParseIntDigits(d: string)
    requires d != [] && AllDigits(d)
    ensures ParseInt(d) == Some(DecimalValue(d))
  {
    DigitsNoSign(d);
    ParseUnsignedDigits(d, d);
  }

  /** A string starting with a digit has no leading white space and no sign. */
  lemma DigitsNoSign(d: string)
    requires d != [] && IsDigit(d[0])
    ensures TrimStart(d) == d && SplitSign(d) == (1, d)
  {
  }

  /** A minus sign followed by decimal digits parses to the negated value. */
  lemma ParseIntNegativeDigits(d: string)
    requires d != [] && AllDigits(d)
    ensures ParseInt("-" + d) == Some(-(DecimalValue(d) as int))
  {
    MinusSignSplit(d);
    ParseUnsignedDigits("-" + d, d);
  }

  /** A leading minus sign is no white space and splits off as the sign. */
  lemma MinusSignSplit(d: string)
    ensures TrimStart("-" + d) == "-" + d
    ensures SplitSign("-" + d) == (-1, d)
  {
    var s := "-" + d;
    assert s[0] == '-';
    assert s[1..] == d;
  }

  /** `parseInt(String(n))` returns `n` for every integer. */
  lemma ParseIntOfIntToString(n: int)
    ensures ParseInt(IntToString(n)) == Some(n)
  {
    if n >= 0 {
      ParseIntOfNatToString(n);
    } else {
      ParseIntOfNegativeToString(n);
    }
  }

  /** `parseInt` reads back a natural number's rendering. */
  lemma ParseIntOfNatToString(n: nat)
    ensures ParseInt(NatToString(n)) == Some(n)
  {
    DecimalValueOfNatToString(n);
    ParseIntDigits(NatToString(n));
  }

  /** `parseInt("0")` is 0. */
  lemma ParseIntZero()
    ensures ParseInt("0") == Some(0)
  {
    ParseIntOfNatToString(0);
    assert NatToString(0) == "0";
  }

  /** `parseInt` reads back a negative number's rendering. */
  lemma ParseIntOfNegativeToString(n: int)
    requires n < 0
    ensures ParseInt("-" + NatToString(-n)) == Some(n)
  {
    var d := NatToString(-n);
    DecimalValueOfNatToString(-n);
    assert DecimalValue(d) == -n;
    ParseIntNegativeDigits(d);
  }

  /** A string whose first non-space character is neither a digit nor a sign
      gives `NaN`. */
  lemma ParseIntNoDigit(s: string)
    requires var t := TrimStart(s); t == [] || (!IsDigit(t[0]) && t[0] != '-' && t[0] != '+')
    ensures ParseInt(s) == None
  {
    NoDigitHead(TrimStart(s));
  }

  /** A string that starts with neither a digit nor a sign has no sign, no
      hexadecimal prefix and no leading digit. */
  lemma NoDigitHead(t: string)
    requires t == [] || (!IsDigit(t[0]) && t[0] != '-' && t[0] != '+')
    ensures SplitSign(t) == (1, t) && !HasHexPrefix(t) && DigitRun(t, false) == 0
  {
    if t != [] {
      assert t[0] != '0';
    }
  }
}
