/** ECMAScript's global parseInt(string, radix) called with the radix undefined,
    as ECMA-262 section 19.2.5 defines it, on the string the argument converts to.
    NaN is None. */
module EcmaParseInt {
  import opened Wrappers
  import opened Numerals

  /** StrWhiteSpaceChar: a WhiteSpace or LineTerminator code point (ECMA-262, sections 12.2 and 12.3). */
  predicate IsStrWhiteSpace(c: char) {
    var u := c as int;
    || u == 0x09 || u == 0x0B || u == 0x0C || u == 0x20 || u == 0xA0 || u == 0xFEFF
    || u == 0x1680 || 0x2000 <= u <= 0x200A || u == 0x202F || u == 0x205F || u == 0x3000
    || u == 0x0A || u == 0x0D || u == 0x2028 || u == 0x2029
  }

  predicate IsSign(c: char) {
    c == '+' || c == '-'
  }

  predicate AllStrWhiteSpace(s: string) {
    forall i :: 0 <= i < |s| ==> IsStrWhiteSpace(s[i])
  }

  /** The string with its leading white space removed (TrimString with `start`). */
  function TrimStart(s: string): (r: string)
    ensures |r| <= |s|
    ensures r == [] || !IsStrWhiteSpace(r[0])
  {
    if s != [] && IsStrWhiteSpace(s[0]) then TrimStart(s[1..]) else s
  }

  /** Trimming removes a prefix made only of white space. */
  lemma {:induction false} TrimStartRemovesWhiteSpace(s: string)
    ensures var r := TrimStart(s);
      r == s[|s| - |r|..] && AllStrWhiteSpace(s[..|s| - |r|])
  {
    if s != [] && IsStrWhiteSpace(s[0]) {
      TrimStartRemovesWhiteSpace(s[1..]);
      var r := TrimStart(s);
      assert s[1..][|s| - 1 - |r|..] == s[|s| - |r|..];
      assert s[..|s| - |r|] == [s[0]] + s[1..][..|s| - 1 - |r|];
    }
  }

  /** True when the text starts with "0x" or "0X", which switches the radix to 16. */
  predicate HasHexPrefix(s: string) {
    |s| >= 2 && s[0] == '0' && (s[1] == 'x' || s[1] == 'X')
  }

  /** The longest prefix of s made of digits of the radix. */
  function DigitPrefix(s: string, radix: nat): (z: string)
    ensures |z| <= |s| && z == s[..|z|]
    ensures AllRadixDigits(z, radix)
    ensures |z| < |s| ==> !IsRadixDigit(s[|z|], radix)
  {
    if s != [] && IsRadixDigit(s[0], radix) then [s[0]] + DigitPrefix(s[1..], radix) else []
  }

  function Negate(r: Option<int>): Option<int> {
    match r
    case None => None
    case Some(n) => Some(-n)
  }

  /** The value of the longest digit prefix, or NaN when it is empty. */
  function DigitsOrNaN(digits: string, radix: nat): (r: Option<int>)
    requires AllRadixDigits(digits, radix)
  {
    if digits == [] then None else Some(DigitsValue(digits, radix))
  }

  /** Steps 9 to 13 of parseInt on the text after the sign: a "0x" or "0X" prefix selects
      radix 16, otherwise radix 10, and the longest run of digits of that radix is read. */
  function ParseUnsigned(u: string): (r: Option<int>)
    ensures r.Some? ==> r.value >= 0
  {
    if HasHexPrefix(u) then DigitsOrNaN(DigitPrefix(u[2..], 16), 16)
    else DigitsOrNaN(DigitPrefix(u, 10), 10)
  }

  /** parseInt(input) with the radix undefined; None is NaN. A negative zero is 0. */
  function ParseInt(input: string): (r: Option<int>)
  {
    var s := TrimStart(input);
    var signed := s != [] && IsSign(s[0]);
    var r := ParseUnsigned(if signed then s[1..] else s);
    if signed && s[0] == '-' then Negate(r) else r
  }

  lemma {:induction false} DigitPrefixStopsAt(z: string, rest: string, radix: nat)
    requires AllRadixDigits(z, radix)
    requires rest == [] || !IsRadixDigit(rest[0], radix)
    ensures DigitPrefix(z + rest, radix) == z
  {
    if z != [] {
      assert (z + rest)[1..] == z[1..] + rest;
      DigitPrefixStopsAt(z[1..], rest, radix);
    }
  }

  lemma {:induction false} TrimStartSkips(ws: string, s: string)
    requires AllStrWhiteSpace(ws)
    ensures TrimStart(ws + s) == TrimStart(s)
  {
    if ws != [] {
      assert (ws + s)[0] == ws[0];
      assert (ws + s)[1..] == ws[1..] + s;
      TrimStartSkips(ws[1..], s);
    } else {
      assert ws + s == s;
    }
  }

  /** Leading white space does not change the result. */
  lemma ParseIntSkipsWhiteSpace(ws: string, s: string)
    requires AllStrWhiteSpace(ws)
    ensures ParseInt(ws + s) == ParseInt(s)
  {
    TrimStartSkips(ws, s);
  }

  /** Without leading white space or sign, parseInt reads the text as it is. */
  lemma ParseIntUnsigned(s: string)
    requires s == [] || !(IsStrWhiteSpace(s[0]) || IsSign(s[0]))
    ensures ParseInt(s) == ParseUnsigned(s)
  {
    assert TrimStart(s) == s;
  }

  lemma DigitsOrNaNStopsAt(digits: string, rest: string, radix: nat)
    requires |digits| > 0 && AllRadixDigits(digits, radix)
    requires rest == [] || !IsRadixDigit(rest[0], radix)
    ensures DigitsOrNaN(DigitPrefix(digits + rest, radix), radix) == Some(DigitsValue(digits, radix))
  {
    DigitPrefixStopsAt(digits, rest, radix);
  }

  /** A run of decimal digits followed by anything that is not a digit (".56", "abc", the end)
      parses to the value of the run: the remainder is ignored, so "1234.56" gives 1234. */
  lemma ParseIntDecimalPrefix(digits: string, rest: string)
    requires |digits| > 0 && AllRadixDigits(digits, 10)
    requires rest == [] || !IsDecimalDigit(rest[0])
    requires !HasHexPrefix(digits + rest)
    ensures ParseInt(digits + rest) == Some(DigitsValue(digits, 10))
  {
    var s := digits + rest;
    assert s[0] == digits[0];
    ParseIntUnsigned(s);
    assert ParseUnsigned(s) == DigitsOrNaN(DigitPrefix(s, 10), 10);
    DigitsOrNaNStopsAt(digits, rest, 10);
  }

  /** "0x" or "0X" followed by hexadecimal digits parses in radix 16. */
  lemma ParseIntHex(x: char, digits: string, rest: string)
    requires x == 'x' || x == 'X'
    requires |digits| > 0 && AllRadixDigits(digits, 16)
    requires rest == [] || !IsRadixDigit(rest[0], 16)
    ensures ParseInt("0" + [x] + digits + rest) == Some(DigitsValue(digits, 16))
  {
    assert "0" + [x] + digits + rest == "0" + [x] + (digits + rest);
    HexPrefixed(x, digits + rest);
    DigitsOrNaNStopsAt(digits, rest, 16);
  }

  lemma HexPrefixed(x: char, body: string)
    requires x == 'x' || x == 'X'
    ensures ParseInt("0" + [x] + body) == DigitsOrNaN(DigitPrefix(body, 16), 16)
  {
    var s := "0" + [x] + body;
    assert s[0] == '0' && s[1] == x && s[2..] == body;
    ParseIntUnsigned(s);
  }

  /** A leading minus sign negates the result; a leading plus sign is dropped. No white space
      is skipped after the sign. */
  lemma ParseIntSign(s: string)
    requires s == [] || !(IsStrWhiteSpace(s[0]) || IsSign(s[0]))
    ensures ParseInt("-" + s) == Negate(ParseInt(s))
    ensures ParseInt("+" + s) == ParseInt(s)
  {
    var minus, plus := "-" + s, "+" + s;
    assert minus[0] == '-' && minus[1..] == s;
    assert plus[0] == '+' && plus[1..] == s;
    assert TrimStart(minus) == minus;
    assert TrimStart(plus) == plus;
    ParseIntUnsigned(s);
  }

  /** Text whose first non-blank character is neither a sign nor a decimal digit has no
      digits to parse: "$100.00" gives NaN. */
  lemma ParseIntNoDigits(s: string)
    requires s == [] || !(IsStrWhiteSpace(s[0]) || IsSign(s[0]) || IsDecimalDigit(s[0]))
    ensures ParseInt(s) == None
  {
    ParseIntUnsigned(s);
    if s != [] {
      assert !IsRadixDigit(s[0], 10);
    }
  }

  /** parseInt of the decimal digits of a natural number is that number. */
  lemma ParseIntOfNatString(m: nat)
    ensures ParseInt(NatToString(m)) == Some(m)
  {
    var digits := NatToString(m);
    NatToStringValue(m);
    assert digits + [] == digits;
    assert !HasHexPrefix(digits) by {
      if |digits| >= 2 {
        assert IsRadixDigit(digits[1], 10);
      }
    }
    ParseIntDecimalPrefix(digits, []);
  }

  /** parseInt of the decimal rendering of an integer is that integer. */
  lemma ParseIntOfIntString(n: int)
    ensures ParseInt(IntToString(n)) == Some(n)
  {
    if n < 0 {
      var digits := NatToString(-n);
      NatToStringDigits(-n);
      assert IsRadixDigit(digits[0], 10);
      ParseIntSign(digits);
      ParseIntOfNatString(-n);
    } else {
      ParseIntOfNatString(n);
    }
  }

  lemma ParseIntExamples()
    ensures ParseInt("1234.56") == Some(1234)
    ensures ParseInt("$100.00") == None
    ensures ParseInt("$1,234") == None
  {
    assert "1234" + ".56" == "1234.56";
    assert NatToString(1234) == "1234";
    NatToStringValue(1234);
    ParseIntDecimalPrefix("1234", ".56");
    ParseIntNoDigits("$100.00");
    ParseIntNoDigits("$1,234");
  }
}
