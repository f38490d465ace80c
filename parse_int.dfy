/**
 * JavaScript's global `parseInt(string)` called without a radix, as
 * `checkAnswer` uses it: skip leading white space, read an optional sign,
 * read a `0x`/`0X` prefix as base 16 (base 10 otherwise), take the longest
 * run of digits of that base and ignore the rest; no digit at all is `NaN`.
 * `NaN` is `None` here.
 */
module JsParseInt {
  import opened Wrappers

  /** ECMAScript WhiteSpace and LineTerminator code points (the space
      separators of Unicode category Zs are listed one by one). */
  predicate IsWhiteSpace(c: char) {
    c == '\t' || c == '\n' || c == '\U{B}' || c == '\U{C}' || c == '\r' ||
    c == ' ' || c == '\U{A0}' || c == '\U{1680}' ||
    ('\U{2000}' <= c <= '\U{200A}') ||
    c == '\U{2028}' || c == '\U{2029}' || c == '\U{202F}' || c == '\U{205F}' ||
    c == '\U{3000}' || c == '\U{FEFF}'
  }

  predicate AllWhiteSpace(s: string) {
    forall i :: 0 <= i < |s| ==> IsWhiteSpace(s[i])
  }

  predicate IsDecimalDigit(c: char) {
    '0' <= c <= '9'
  }

  /** The value of `c` as a digit: `0`-`9`, `a`-`f`, `A`-`F`; 16 for every
      other character. */
  function DigitValue(c: char): (d: nat)
    ensures d <= 16
    ensures IsDecimalDigit(c) <==> d < 10
  {
    if '0' <= c <= '9' then c as int - '0' as int
    else if 'a' <= c <= 'f' then c as int - 'a' as int + 10
    else if 'A' <= c <= 'F' then c as int - 'A' as int + 10
    else 16
  }

  /** The bases parseInt can pick when it is given no radix. */
  type Radix = r: nat | r == 10 || r == 16 witness 10

  predicate IsDigit(c: char, radix: Radix) {
    DigitValue(c) < radix
  }

  predicate AllDigits(s: string, radix: Radix) {
    forall i :: 0 <= i < |s| ==> IsDigit(s[i], radix)
  }

  /** The number of white-space characters `s` starts with. */
  function LeadingSpaces(s: string): (n: nat)
    ensures n <= |s|
  {
    if s != [] && IsWhiteSpace(s[0]) then 1 + LeadingSpaces(s[1..]) else 0
  }

  /** The length of the longest prefix of `s` made of digits of `radix`. */
  function DigitRunLength(s: string, radix: Radix): (n: nat)
    ensures n <= |s|
  {
    if s != [] && IsDigit(s[0], radix) then 1 + DigitRunLength(s[1..], radix) else 0
  }

  /** The number a run of digits denotes, most significant digit first. */
  function DigitsValue(s: string, radix: Radix): nat
    requires AllDigits(s, radix)
  {
    if s == [] then 0
    else DigitsValue(s[..|s| - 1], radix) * radix + DigitValue(s[|s| - 1])
  }

  /** The text after the sign: `+x` and `-x` give `x`. */
  function DropSign(t: string): string {
    if t != [] && (t[0] == '-' || t[0] == '+') then t[1..] else t
  }

  predicate HasHexPrefix(u: string) {
    |u| >= 2 && u[0] == '0' && (u[1] == 'x' || u[1] == 'X')
  }

  /** The value of the text after the sign: a `0x`/`0X` prefix selects
      base 16, anything else base 10; no digit is NaN. */
  function ParseUnsigned(u: string): Option<nat> {
    var radix: Radix := if HasHexPrefix(u) then 16 else 10;
    var w := if HasHexPrefix(u) then u[2..] else u;
    var n := DigitRunLength(w, radix);
    DigitRunExact(w, radix);
    if n == 0 then None else Some(DigitsValue(w[..n], radix))
  }

  /** The value of text that starts after the white space. */
  function ParseSigned(t: string): Option<int> {
    match ParseUnsigned(DropSign(t))
    case None => None
    case Some(m) =>
      var v: int := if t != [] && t[0] == '-' then -(m as int) else m;
      Some(v)
  }

  /** `parseInt(s)` with the radix left out. */
  function ParseInt(s: string): Option<int> {
    ParseSigned(s[LeadingSpaces(s)..])
  }

  // ---------------------------------------------------------------------
  // The scans stop at the right place.

  /** The skipped prefix is all white space and the text after it does not
      start with white space. */
  lemma {:induction false} LeadingSpacesExact(s: string)
    ensures var n := LeadingSpaces(s); AllWhiteSpace(s[..n]) && (n == |s| || !IsWhiteSpace(s[n]))
  {
    if s != [] && IsWhiteSpace(s[0]) {
      LeadingSpacesExact(s[1..]);
      var n := LeadingSpaces(s);
      assert s[..n] == [s[0]] + s[1..][..n - 1];
    }
  }

  /** The digit run holds only digits and ends at a non-digit or at the end. */
  lemma {:induction false} DigitRunExact(s: string, radix: Radix)
    ensures var n := DigitRunLength(s, radix);
      AllDigits(s[..n], radix) && (n == |s| || !IsDigit(s[n], radix))
  {
    if s != [] && IsDigit(s[0], radix) {
      DigitRunExact(s[1..], radix);
      var n := DigitRunLength(s, radix);
      assert s[..n] == [s[0]] + s[1..][..n - 1];
    }
  }

  /** White space in front of text that starts with a non-space is skipped
      exactly. */
  lemma {:induction false} LeadingSpacesOf(ws: string, rest: string)
    requires AllWhiteSpace(ws)
    requires rest == [] || !IsWhiteSpace(rest[0])
    ensures LeadingSpaces(ws + rest) == |ws|
  {
    if ws != [] {
      assert (ws + rest)[1..] == ws[1..] + rest;
      LeadingSpacesOf(ws[1..], rest);
    } else {
      assert ws + rest == rest;
    }
  }

  /** White space in front of any text is skipped along with the text's own. */
  lemma {:induction false} LeadingSpacesPadded(ws: string, s: string)
    requires AllWhiteSpace(ws)
    ensures LeadingSpaces(ws + s) == |ws| + LeadingSpaces(s)
  {
    if ws != [] {
      assert (ws + s)[1..] == ws[1..] + s;
      LeadingSpacesPadded(ws[1..], s);
    } else {
      assert ws + s == s;
    }
  }

  /** A run of digits stops exactly where the first non-digit stands. */
  lemma {:induction false} DigitRunStops(ds: string, tail: string, radix: Radix)
    requires AllDigits(ds, radix)
    requires tail == [] || !IsDigit(tail[0], radix)
    ensures DigitRunLength(ds + tail, radix) == |ds|
  {
    if ds != [] {
      assert (ds + tail)[1..] == ds[1..] + tail;
      DigitRunStops(ds[1..], tail, radix);
    } else {
      assert ds + tail == tail;
    }
  }

  // ---------------------------------------------------------------------
  // An independent reference: the decimal rendering of an integer, which
  // parseInt reads back whatever white space precedes it and whatever
  // non-digit text follows it.

  function DigitChar(d: nat): (c: char)
    requires d < 10
    ensures IsDecimalDigit(c) && DigitValue(c) == d
  {
    (d + '0' as int) as char
  }

  /** The decimal digits of `m`, most significant first, without leading zeros. */
  function DecimalDigits(m: nat): (s: string)
    ensures |s| >= 1 && AllDigits(s, 10)
    ensures s[0] == '0' <==> m == 0
  {
    if m < 10 then [DigitChar(m)]
    else
      var s := DecimalDigits(m / 10) + [DigitChar(m % 10)];
      assert s[0] == DecimalDigits(m / 10)[0];
      s
  }

  /** The decimal text of an integer, as `String(n)` writes it. */
  function Render(n: int): string {
    (if n < 0 then "-" else "") + DecimalDigits(if n < 0 then -n else n)
  }

  lemma {:induction false} DecimalDigitsValue(m: nat)
    ensures DigitsValue(DecimalDigits(m), 10) == m
  {
    if m >= 10 {
      var s := DecimalDigits(m);
      assert s[..|s| - 1] == DecimalDigits(m / 10);
      DecimalDigitsValue(m / 10);
    }
  }

  /** The unsigned part of the round trip. */
  lemma ParseDecimalDigits(m: nat, tail: string)
    requires tail != [] ==> !IsDecimalDigit(tail[0]) && (m == 0 ==> tail[0] != 'x' && tail[0] != 'X')
    ensures ParseUnsigned(DecimalDigits(m) + tail) == Some(m)
  {
    var ds := DecimalDigits(m);
    var u := ds + tail;
    assert !HasHexPrefix(u) by {
      if m == 0 { assert |ds| == 1; assert tail != [] ==> u[1] == tail[0]; }
    }
    DigitRunStops(ds, tail, 10);
    assert u[..|ds|] == ds;
    DecimalDigitsValue(m);
  }

  /** The signed part of the round trip: the text starts with `-` or a
      digit, so no white space is skipped, and its value is `n`. */
  lemma ParseSignedRendered(n: int, tail: string)
    requires tail != [] ==> !IsDecimalDigit(tail[0]) && (n == 0 ==> tail[0] != 'x' && tail[0] != 'X')
    ensures var t := Render(n) + tail; t != [] && !IsWhiteSpace(t[0])
    ensures ParseSigned(Render(n) + tail) == Some(n)
  {
    var m: nat := if n < 0 then -n else n;
    var u := DecimalDigits(m) + tail;
    var t := Render(n) + tail;
    assert t != [] && DropSign(t) == u && (t[0] == '-' <==> n < 0) && !IsWhiteSpace(t[0]) by {
      if n < 0 {
        assert t == "-" + u;
      } else {
        assert t == u;
        assert IsDecimalDigit(u[0]);
      }
    }
    ParseDecimalDigits(m, tail);
  }

  /** Round trip: the decimal text of any integer, after any white space and
      before any text that does not continue the number, parses back to it.
      (After a lone `0`, an `x` would turn the text into a hex prefix.) */
  lemma ParseRendered(n: int, ws: string, tail: string)
    requires AllWhiteSpace(ws)
    requires tail != [] ==> !IsDecimalDigit(tail[0]) && (n == 0 ==> tail[0] != 'x' && tail[0] != 'X')
    ensures ParseInt(ws + Render(n) + tail) == Some(n)
  {
    var rest := Render(n) + tail;
    var s := ws + Render(n) + tail;
    assert s == ws + rest;
    ParseSignedRendered(n, tail);
    LeadingSpacesOf(ws, rest);
    assert s[|ws|..] == rest;
  }

  /** The decimal text of any integer parses back to it. */
  lemma ParseRenderedExactly(n: int)
    ensures ParseInt(Render(n)) == Some(n)
  {
    ParseRendered(n, [], []);
    assert [] + Render(n) + [] == Render(n);
  }

  /** Text that holds no decimal digit is NaN (there is no hex prefix
      without a `0`). */
  lemma NaNWithoutDigits(s: string)
    requires forall i :: 0 <= i < |s| ==> !IsDecimalDigit(s[i])
    ensures ParseInt(s) == None
  {
    var t := s[LeadingSpaces(s)..];
    var u := DropSign(t);
    var k := |s| - |u|;
    assert u == s[k..];
    assert !HasHexPrefix(u) by {
      if |u| >= 2 { assert u[0] == s[k]; }
    }
    assert u == [] || !IsDigit(u[0], 10) by {
      if u != [] { assert u[0] == s[k]; }
    }
  }

  /** White space before the number does not change the value. */
  lemma LeadingWhiteSpaceIgnored(ws: string, s: string)
    requires AllWhiteSpace(ws)
    ensures ParseInt(ws + s) == ParseInt(s)
  {
    var k := LeadingSpaces(s);
    LeadingSpacesPadded(ws, s);
    SuffixOfPadded(ws, s, k);
    assert (ws + s)[LeadingSpaces(ws + s)..] == s[k..];
  }

  lemma SuffixOfPadded(ws: string, s: string, k: nat)
    requires k <= |s|
    ensures (ws + s)[|ws| + k..] == s[k..]
  {
  }

  /** A minus sign directly in front of a signless, unpadded text negates
      its value, and leaves NaN as NaN. */
  lemma MinusNegates(s: string)
    requires s == [] || (!IsWhiteSpace(s[0]) && s[0] != '-' && s[0] != '+')
    ensures ParseInt("-" + s) == (match ParseInt(s) case None => None case Some(v) => Some(-v))
  {
    var t := "-" + s;
    assert LeadingSpaces(t) == 0;
    assert LeadingSpaces(s) == 0;
    assert t[1..] == s;
  }

  /** A plus sign directly in front of a signless, unpadded text is
      skipped. */
  lemma PlusIgnored(s: string)
    requires s == [] || (!IsWhiteSpace(s[0]) && s[0] != '-' && s[0] != '+')
    ensures ParseInt("+" + s) == ParseInt(s)
  {
    var t := "+" + s;
    assert LeadingSpaces(t) == 0;
    assert LeadingSpaces(s) == 0;
    assert t[1..] == s;
  }

  /** Any run of decimal digits, leading zeros included, reads as the
      number it denotes, up to the first non-digit. */
  lemma DecimalRunRead(ds: string, tail: string)
    requires ds != [] && AllDigits(ds, 10)
    requires tail == [] || !IsDigit(tail[0], 10)
    requires ds == "0" && tail != [] ==> tail[0] != 'x' && tail[0] != 'X'
    ensures ParseInt(ds + tail) == Some(DigitsValue(ds, 10))
  {
    var u := ds + tail;
    assert u[0] == ds[0];
    assert LeadingSpaces(u) == 0;
    assert DropSign(u) == u;
    assert !HasHexPrefix(u) by {
      if |ds| >= 2 {
        assert u[1] == ds[1];
      } else if tail != [] {
        assert ds == [ds[0]];
        assert u[1] == tail[0];
      }
    }
    DigitRunStops(ds, tail, 10);
    assert u[..|ds|] == ds;
  }

  /** Text whose sign, if any, is not followed by a decimal digit is NaN,
      even when digits come later. */
  lemma NaNWithoutLeadingDigit(s: string)
    requires s == [] || !IsWhiteSpace(s[0])
    requires DropSign(s) == [] || !IsDecimalDigit(DropSign(s)[0])
    ensures ParseInt(s) == None
  {
    assert LeadingSpaces(s) == 0;
  }

  /** A `0x` or `0X` prefix reads the hex digits after it, up to the first
      character that is not a hex digit; with no hex digit it is NaN. */
  lemma HexPrefixRead(x: char, ds: string, tail: string)
    requires x == 'x' || x == 'X'
    requires AllDigits(ds, 16)
    requires tail == [] || !IsDigit(tail[0], 16)
    ensures ParseInt(['0', x] + ds + tail) == if ds == [] then None else Some(DigitsValue(ds, 16))
  {
    var u := ['0', x] + ds + tail;
    assert u[0] == '0' && HasHexPrefix(u);
    assert LeadingSpaces(u) == 0;
    assert DropSign(u) == u;
    assert u[2..] == ds + tail;
    DigitRunStops(ds, tail, 16);
    assert (ds + tail)[..|ds|] == ds;
  }

  /** Worked input: a sign, digits, then text that is cut off. */
  lemma ParseIntCutsTail()
    ensures ParseInt(" -12abc") == Some(-12)
  {
    assert DecimalDigits(1) == "1";
    assert DecimalDigits(12) == "12";
    assert Render(-12) == "-12";
    ParseRendered(-12, " ", "abc");
    assert " " + "-12" + "abc" == " -12abc";
  }

  /** Worked input: the fraction of a decimal number is cut off. */
  lemma ParseIntCutsFraction()
    ensures ParseInt("3.9") == Some(3)
  {
    assert Render(3) == "3";
    ParseRendered(3, "", ".9");
    assert "" + "3" + ".9" == "3.9";
  }

  /** Worked inputs: a sign alone or a bare hex prefix is NaN, and the
      prefix switches to base 16. */
  lemma ParseIntNaNAndHex()
    ensures ParseInt("+") == None
    ensures ParseInt("0x") == None
    ensures ParseInt("0x1A") == Some(26)
  {
    assert LeadingSpaces("+") == 0;
    HexPrefixRead('x', [], []);
    assert ['0', 'x'] + [] + [] == "0x";
    HexPrefixRead('x', "1A", []);
    assert ['0', 'x'] + "1A" + [] == "0x1A";
    assert "1A"[..1] == "1";
    assert DigitsValue("1A", 16) == 26;
  }
}
