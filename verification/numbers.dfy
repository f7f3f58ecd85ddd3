/**
 * The 32-bit `int` of C#, `int.Parse` restricted to an optional sign followed by
 * ASCII digits, and the decimal rendering `$"{mode}"`.
 */
module Numbers {
  import opened Wrappers

  newtype int32 = x: int | -0x8000_0000 <= x < 0x8000_0000

  predicate IsDigit(c: char) {
    '0' <= c <= '9'
  }

  predicate AllDigits(s: string) {
    forall i :: 0 <= i < |s| ==> IsDigit(s[i])
  }

  /** The value of a string of decimal digits, most significant first. */
  function DigitsValue(s: string): nat
    requires AllDigits(s)
  {
    if s == [] then 0
    else 10 * DigitsValue(s[..|s| - 1]) + (s[|s| - 1] as int - '0' as int)
  }

  /** The decimal digits of n, without leading zeros. */
  function Digits(n: nat): (s: string)
    ensures s != [] && AllDigits(s)
    ensures n > 0 ==> s[0] != '0'
  {
    (if n < 10 then [] else Digits(n / 10)) + [('0' as int + n % 10) as char]
  }

  /** `$"{n}"` with the invariant culture: a minus sign for negatives, then the digits. */
  function Show(n: int): string {
    if n < 0 then "-" + Digits(-n) else Digits(n)
  }

  /** The signs `int.Parse` accepts in front of the digits: none, '+' or '-'. */
  predicate IsSign(sign: string) {
    sign == "" || sign == "+" || sign == "-"
  }

  /** The value of a sign followed by digits. */
  function Signed(sign: string, digits: string): int
    requires AllDigits(digits)
  {
    if sign == "-" then -(DigitsValue(digits) as int) else DigitsValue(digits)
  }

  predicate InInt32(v: int) {
    -0x8000_0000 <= v < 0x8000_0000
  }

  /**
   * `int.Parse(s)`: an optional '+' or '-', then one or more digits, within the 32-bit
   * range; anything else (including null, which the caller passes as None) fails.
   * An accepted string is a sign followed by digits, and the result is their value.
   */
  function ParseInt32(s: string): (r: Option<int32>)
    ensures (forall i :: 0 <= i < |s| ==> !IsDigit(s[i])) ==> r.None?
    ensures r.Some? ==>
      exists k :: 0 <= k <= 1 && k < |s| && IsSign(s[..k]) && AllDigits(s[k..])
        && r.value as int == Signed(s[..k], s[k..])
  {
    var signed := s != [] && (s[0] == '-' || s[0] == '+');
    var body := if signed then s[1..] else s;
    if body == [] || !AllDigits(body) then None
    else
      var v: int := if signed && s[0] == '-' then 0 - DigitsValue(body) as int else DigitsValue(body);
      if -0x8000_0000 <= v < 0x8000_0000 then
        var k := if signed then 1 else 0;
        assert s[k..] == body && IsSign(s[..k]);
        Some(v as int32)
      else None
  }

  /**
   * Every sign followed by one or more digits parses, to its value when that fits in
   * 32 bits and to a failure otherwise.
   */
  lemma ParseInt32Accepts(sign: string, digits: string)
    requires IsSign(sign) && digits != [] && AllDigits(digits)
    ensures ParseInt32(sign + digits) == if InInt32(Signed(sign, digits)) then Some(Signed(sign, digits) as int32) else None
  {
    var s := sign + digits;
    if sign == "" {
      assert s == digits && IsDigit(s[0]);
    } else {
      assert s[0] == sign[0] && s[1..] == digits;
    }
  }

  lemma {:induction false} DigitsValueOfDigits(n: nat)
    ensures DigitsValue(Digits(n)) == n
  {
    var s := Digits(n);
    var last := ('0' as int + n % 10) as char;
    if n < 10 {
      assert s == [last];
    } else {
      DigitsValueOfDigits(n / 10);
      assert s[..|s| - 1] == Digits(n / 10);
    }
  }

  /** Parsing what `$"{n}"` renders gives n back: the mode key survives the round trip. */
  lemma ParseShow(n: int32)
    ensures ParseInt32(Show(n as int)) == Some(n)
  {
    var m := n as int;
    var sign := if m < 0 then "-" else "";
    var d := Digits(if m < 0 then -m else m);
    assert Show(m) == sign + d;
    assert Signed(sign, d) == m by {
      DigitsValueOfDigits(if m < 0 then -m else m);
    }
    ParseInt32Accepts(sign, d);
  }
}
