/**
 * The few pieces of JavaScript number, date and string semantics that the arrival pipeline
 * relies on, stated on unbounded integers: the Date time-value range (ECMA-262 TimeClip),
 * Math.round of a quotient, Number-to-string of a whole number, and the global parseInt.
 */
module JsNumber {
  import opened Wrappers

  /** The largest magnitude of a valid Date time value, in milliseconds (8.64e15, ECMA-262 section 21.4.1). */
  const MaxTimeValue: int := 8_640_000_000_000_000

  /** `new Date(ms)` is a valid date exactly when TimeClip keeps `ms`; otherwise it is an Invalid Date. */
  predicate IsTimeValue(ms: int) {
    -MaxTimeValue <= ms <= MaxTimeValue
  }

  const MsPerMinute: int := 60000

  /** minutes is Math.round(deltaMs / 60000): within half a minute of deltaMs, a tie going up. */
  predicate RoundsTo(minutes: int, deltaMs: int) {
    MsPerMinute * minutes - MsPerMinute / 2 <= deltaMs < MsPerMinute * minutes + MsPerMinute / 2
  }

  /**
   * Math.round(deltaMs / 60000): the whole number of minutes nearest to deltaMs, a tie going
   * up (toward +infinity), as Math.round does.
   */
  function RoundMinutes(deltaMs: int): (m: int)
    ensures RoundsTo(m, deltaMs)
    ensures deltaMs > 0 ==> m >= 0
  {
    (deltaMs + MsPerMinute / 2) / MsPerMinute
  }

  /** Only one whole number lies within half a minute (ties counted upward) of deltaMs. */
  lemma RoundMinutesUnique(deltaMs: int, m: int)
    requires RoundsTo(m, deltaMs)
    ensures m == RoundMinutes(deltaMs)
  {
    var r := RoundMinutes(deltaMs);
    assert MsPerMinute * (m - r) < MsPerMinute && MsPerMinute * (r - m) < MsPerMinute;
  }

  /** The value of a character as a digit in radix up to 36 ('0'-'9', then 'a'/'A' = 10 ...); 36 for a non-digit. */
  function DigitValue(c: char): (d: nat)
    ensures d <= 36
  {
    if '0' <= c <= '9' then c as int - '0' as int
    else if 'a' <= c <= 'z' then c as int - 'a' as int + 10
    else if 'A' <= c <= 'Z' then c as int - 'A' as int + 10
    else 36
  }

  predicate IsDigit(c: char, radix: nat) {
    DigitValue(c) < radix
  }

  /** The decimal digit character for d. */
  function DigitChar(d: nat): (c: char)
    requires d < 10
    ensures IsDigit(c, 10) && DigitValue(c) == d
  {
    "0123456789"[d]
  }

  /** The value of a string of radix digits, most significant first. */
  function DigitsValue(z: string, radix: nat): int
  {
    if z == [] then 0 else DigitsValue(z[..|z| - 1], radix) * radix + DigitValue(z[|z| - 1])
  }

  /**
   * Number::toString of a non-negative whole number below 1e21: its decimal digits, most
   * significant first (see NatToDecimalDigits).
   */
  function NatToDecimal(n: nat): string
    decreases n
  {
    if n < 10 then [DigitChar(n)] else NatToDecimal(n / 10) + [DigitChar(n % 10)]
  }

  /** The text of n is a non-empty run of decimal digits, without a leading zero, whose value is n. */
  lemma {:induction false} NatToDecimalDigits(n: nat)
    ensures var s := NatToDecimal(n);
      && |s| >= 1
      && (forall i :: 0 <= i < |s| ==> IsDigit(s[i], 10))
      && DigitsValue(s, 10) == n
      && (s[0] == '0' ==> s == "0")
    decreases n
  {
    if n >= 10 {
      NatToDecimalDigits(n / 10);
      var s := NatToDecimal(n);
      var init := NatToDecimal(n / 10);
      assert s == init + [DigitChar(n % 10)];
      assert s[..|s| - 1] == init;
    }
  }

  /** StrWhiteSpaceChar of ECMA-262: the white space and line terminator code points. */
  predicate IsStrWhiteSpace(c: char) {
    var k := c as int;
    k == 0x09 || k == 0x0B || k == 0x0C || k == 0x20 || k == 0xA0 || k == 0xFEFF
    || k == 0x1680 || (0x2000 <= k <= 0x200A) || k == 0x202F || k == 0x205F || k == 0x3000
    || k == 0x0A || k == 0x0D || k == 0x2028 || k == 0x2029
  }

  /** The string with its leading white space removed. */
  function TrimStart(s: string): (r: string)
    ensures r == [] || !IsStrWhiteSpace(r[0])
  {
    if |s| > 0 && IsStrWhiteSpace(s[0]) then TrimStart(s[1..]) else s
  }

  /** How many characters at the head of s are digits of the radix. */
  function DigitRunLength(s: string, radix: nat): (k: nat)
    ensures k <= |s|
    ensures forall i :: 0 <= i < k ==> IsDigit(s[i], radix)
    ensures k < |s| ==> !IsDigit(s[k], radix)
  {
    if s == [] || !IsDigit(s[0], radix) then 0 else 1 + DigitRunLength(s[1..], radix)
  }

  /**
   * The global parseInt(s) with no radix: skip leading white space, take an optional sign and
   * an optional 0x / 0X prefix (radix 16, else 10), then the longest run of digits.
   * None stands for NaN (no digits at all); -0 is not told apart from 0.
   */
  function ParseInt(input: string): Option<int>
  {
    var s := TrimStart(input);
    var sign := if |s| > 0 && s[0] == '-' then -1 else 1;
    var unsigned := if |s| > 0 && (s[0] == '-' || s[0] == '+') then s[1..] else s;
    var hex := |unsigned| >= 2 && unsigned[0] == '0' && (unsigned[1] == 'x' || unsigned[1] == 'X');
    var radix := if hex then 16 else 10;
    var body := if hex then unsigned[2..] else unsigned;
    var k := DigitRunLength(body, radix);
    if k == 0 then None else Some(sign * DigitsValue(body[..k], radix))
  }

  /** A run of digits followed by a non-digit (or nothing) is measured exactly. */
  lemma {:induction false} DigitRunOfDigits(digits: string, rest: string, radix: nat)
    requires forall i :: 0 <= i < |digits| ==> IsDigit(digits[i], radix)
    requires rest == [] || !IsDigit(rest[0], radix)
    ensures DigitRunLength(digits + rest, radix) == |digits|
    decreases |digits|
  {
    if digits != [] {
      assert (digits + rest)[1..] == digits[1..] + rest;
      DigitRunOfDigits(digits[1..], rest, radix);
    } else {
      assert digits + rest == rest;
    }
  }

  /**
   * parseInt of a string that starts with a decimal digit not followed by 'x' or 'X': no white
   * space, sign or hex prefix to strip, so its value is that of its leading decimal digits.
   */
  lemma ParseIntPlain(s: string)
    requires |s| >= 1 && '0' <= s[0] <= '9'
    requires |s| >= 2 ==> s[1] != 'x' && s[1] != 'X'
    ensures ParseInt(s) == Some(DigitsValue(s[..DigitRunLength(s, 10)], 10))
  {
    assert !IsStrWhiteSpace(s[0]);
    assert TrimStart(s) == s;
    assert DigitRunLength(s, 10) >= 1;
  }

  /**
   * parseInt reads back the whole number that Number::toString wrote, whatever follows it,
   * provided what follows does not start with a digit or an 'x' (which after "0" would make a hex prefix).
   */
  lemma ParseIntOfDecimal(n: nat, rest: string)
    requires rest == [] || (!IsDigit(rest[0], 10) && rest[0] != 'x' && rest[0] != 'X')
    ensures ParseInt(NatToDecimal(n) + rest) == Some(n)
  {
    NatToDecimalDigits(n);
    var d := NatToDecimal(n);
    var s := d + rest;
    DecimalDigitIsPlain(d[0]);
    if |d| >= 2 {
      DecimalDigitIsPlain(d[1]);
    }
    assert |s| >= 2 ==> s[1] == (if |d| >= 2 then d[1] else rest[0]);
    ParseIntPlain(s);
    DigitRunOfDigits(d, rest, 10);
    assert s[..|d|] == d;
  }

  /** A decimal digit is one of '0' to '9', so neither white space, a sign nor an 'x'. */
  lemma DecimalDigitIsPlain(c: char)
    requires IsDigit(c, 10)
    ensures '0' <= c <= '9'
  {
  }
}
