/** Decimal text of integers, as Python writes it: `str(n)` (and the `{:d}`
    format spec, which agrees with it on ints) and the always-signed `{:+d}`
    format spec. A reader of that text is the partner of each writer: every
    writer is proved to be undone by the reader. */
module Decimal {
  import opened Errors

  predicate IsDigit(c: char) {
    '0' <= c <= '9'
  }

  predicate AllDigits(s: string) {
    forall i :: 0 <= i < |s| ==> IsDigit(s[i])
  }

  function DigitChar(d: nat): (c: char)
    requires d < 10
    ensures IsDigit(c) && c as int - '0' as int == d
  {
    ('0' as int + d) as char
  }

  /** Value of a string of decimal digits, most significant first. */
  function DigitsValue(s: string): nat
    requires AllDigits(s)
    decreases |s|
  {
    if s == [] then 0 else DigitsValue(s[..|s| - 1]) * 10 + (s[|s| - 1] as int - '0' as int)
  }

  /** Decimal digits of a natural number, most significant first. */
  function NatToString(n: nat): (r: string)
    ensures |r| > 0 && AllDigits(r)
    ensures r[0] == '0' ==> n == 0   // no leading zero
    decreases n
  {
    if n < 10 then [DigitChar(n)] else NatToString(n / 10) + [DigitChar(n % 10)]
  }

  /** Python `str(n)` for an int: a minus sign only when negative. */
  function IntToString(n: int): string {
    if n < 0 then "-" + NatToString(-n) else NatToString(n)
  }

  /** Python `format(n, '+d')`: the sign is always written. */
  function SignedToString(n: int): string {
    if n < 0 then "-" + NatToString(-n) else "+" + NatToString(n)
  }

  /** Length of the run of digits at the front of s. */
  function SpanDigits(s: string): (k: nat)
    ensures k <= |s|
    ensures forall i :: 0 <= i < k ==> IsDigit(s[i])
    ensures k < |s| ==> !IsDigit(s[k])
  {
    if s != [] && IsDigit(s[0]) then 1 + SpanDigits(s[1..]) else 0
  }

  /** Reads an integer at the front of s: a sign (compulsory when
      signRequired, otherwise optional) and then the longest non-empty run
      of digits. Answers the value and the text after it. */
  function ReadInt(s: string, signRequired: bool): Option<(int, string)> {
    var signed := s != [] && (s[0] == '-' || s[0] == '+');
    if signRequired && !signed then None
    else
      var body := if signed then s[1..] else s;
      var k := SpanDigits(body);
      if k == 0 then None
      else
        var v: int := DigitsValue(body[..k]);
        var value: int := if signed && s[0] == '-' then -v else v;
        Some((value, body[k..]))
  }

  /** The text does not continue the number in front of it. */
  predicate StopsNumber(rest: string) {
    rest == [] || !IsDigit(rest[0])
  }

  lemma {:induction false} DigitsValueOfNatToString(n: nat)
    ensures DigitsValue(NatToString(n)) == n
    decreases n
  {
    if n >= 10 {
      var r := NatToString(n);
      assert r[..|r| - 1] == NatToString(n / 10);
      DigitsValueOfNatToString(n / 10);
    }
  }

  lemma {:induction false} SpanDigitsOfDigitsThenStop(ds: string, rest: string)
    requires AllDigits(ds) && StopsNumber(rest)
    ensures SpanDigits(ds + rest) == |ds|
    decreases |ds|
  {
    if ds != [] {
      assert (ds + rest)[1..] == ds[1..] + rest;
      SpanDigitsOfDigitsThenStop(ds[1..], rest);
    }
  }

  /** Reading digits with no sign in front. */
  lemma ReadBareDigits(digits: string, rest: string)
    requires |digits| > 0 && AllDigits(digits) && StopsNumber(rest)
    ensures ReadInt(digits + rest, false) == Some((DigitsValue(digits) as int, rest))
  {
    var s := digits + rest;
    SpanDigitsOfDigitsThenStop(digits, rest);
    assert s[0] == digits[0];
    assert s[..|digits|] == digits;
    assert s[|digits|..] == rest;
  }

  /** Reading digits behind a sign character. */
  lemma ReadSignedDigits(sign: char, digits: string, rest: string)
    requires sign == '-' || sign == '+'
    requires |digits| > 0 && AllDigits(digits) && StopsNumber(rest)
    ensures forall required: bool :: ReadInt([sign] + digits + rest, required)
              == Some((if sign == '-' then -(DigitsValue(digits) as int) else DigitsValue(digits) as int, rest))
  {
    var s := [sign] + digits + rest;
    var body := digits + rest;
    assert s[1..] == body;
    SpanDigitsOfDigitsThenStop(digits, rest);
    assert body[..|digits|] == digits;
    assert body[|digits|..] == rest;
  }

  /** `int(str(n))` is n: the unsigned-by-default writer is undone by the reader. */
  lemma ReadIntToString(n: int, rest: string)
    requires StopsNumber(rest)
    ensures ReadInt(IntToString(n) + rest, false) == Some((n, rest))
  {
    var m: nat := if n < 0 then -n else n;
    DigitsValueOfNatToString(m);
    if n < 0 {
      ReadSignedDigits('-', NatToString(m), rest);
      assert IntToString(n) + rest == ['-'] + NatToString(m) + rest;
    } else {
      ReadBareDigits(NatToString(m), rest);
    }
  }

  /** The `{:+d}` writer is undone by the reader that demands a sign. */
  lemma ReadSignedToString(n: int, rest: string)
    requires StopsNumber(rest)
    ensures ReadInt(SignedToString(n) + rest, true) == Some((n, rest))
  {
    var m: nat := if n < 0 then -n else n;
    DigitsValueOfNatToString(m);
    var sign := if n < 0 then '-' else '+';
    ReadSignedDigits(sign, NatToString(m), rest);
    assert SignedToString(n) + rest == [sign] + NatToString(m) + rest;
  }

  /** Distinct integers get distinct texts under both writers. */
  lemma DecimalTextsAreInjective(a: int, b: int)
    ensures IntToString(a) == IntToString(b) ==> a == b
    ensures SignedToString(a) == SignedToString(b) ==> a == b
  {
    ReadIntToString(a, []);
    ReadIntToString(b, []);
    ReadSignedToString(a, []);
    ReadSignedToString(b, []);
    assert IntToString(a) + [] == IntToString(a);
    assert IntToString(b) + [] == IntToString(b);
    assert SignedToString(a) + [] == SignedToString(a);
    assert SignedToString(b) + [] == SignedToString(b);
  }

  /** The writers only use digits and a sign, so they never produce a
      parenthesis, a letter or anything else the query syntax gives meaning. */
  lemma DecimalTextAlphabet(n: int)
    ensures forall i :: 0 <= i < |IntToString(n)| ==> IsDigit(IntToString(n)[i]) || IntToString(n)[i] == '-'
    ensures forall i :: 0 <= i < |SignedToString(n)| ==>
              IsDigit(SignedToString(n)[i]) || SignedToString(n)[i] in "+-"
  {
  }
}
