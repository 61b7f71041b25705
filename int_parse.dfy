/** Rust's `str::parse::<i64>()` (decimal `i64::from_str`), which the parser
    uses to read the microsecond timestamp, with its inverse `i64::to_string`
    as the reference the parse is checked against. */
module IntParse {
  import opened Wrappers

  const I64Min: int := -0x8000_0000_0000_0000
  const I64Max: int := 0x7FFF_FFFF_FFFF_FFFF

  predicate IsDigit(c: char) {
    '0' <= c <= '9'
  }

  predicate AllDigits(s: string) {
    forall i :: 0 <= i < |s| ==> IsDigit(s[i])
  }

  /** The value of a string of ASCII digits, most significant first. */
  function DigitsValue(s: string): nat
    requires AllDigits(s)
  {
    if s == [] then 0
    else DigitsValue(s[..|s| - 1]) * 10 + ((s[|s| - 1] as int) - ('0' as int))
  }

  /** `i64::from_str`: an optional `+` or `-`, then at least one ASCII digit
      and nothing else; a value outside the `i64` range is an error too. */
  function ParseI64(s: string): (r: Option<int>)
    ensures r.Some? ==> I64Min <= r.value <= I64Max
    ensures r.Some? ==> s != [] && (IsDigit(s[0]) || s[0] == '+' || s[0] == '-')
    ensures r.Some? ==> AllDigits(s[1..])
    ensures r.Some? ==> s != [] && ((s[0] == '+' || s[0] == '-') ==> |s| >= 2)
    ensures r.Some? && s[0] == '-' ==> r.value == -(DigitsValue(s[1..]) as int)
    ensures r.Some? && s[0] == '+' ==> r.value == DigitsValue(s[1..])
    ensures r.Some? && IsDigit(s[0]) ==> AllDigits(s) && r.value == DigitsValue(s)
  {
    var negative := |s| > 0 && s[0] == '-';
    var digits := if |s| > 0 && (s[0] == '-' || s[0] == '+') then s[1..] else s;
    if digits == [] || !AllDigits(digits) then None
    else
      var magnitude: int := DigitsValue(digits);
      var v := if negative then -magnitude else magnitude;
      if I64Min <= v <= I64Max then Some(v) else None
  }

  /** The decimal digits of `n`, without leading zeros. */
  function ShowNat(n: nat): (s: string)
    decreases n
  {
    if n < 10 then [('0' as int + n) as char]
    else ShowNat(n / 10) + [('0' as int + n % 10) as char]
  }

  /** `i64::to_string`. */
  function ShowI64(n: int): string {
    if n < 0 then "-" + ShowNat(-n) else ShowNat(n)
  }

  lemma {:induction false} ShowNatDigits(n: nat)
    ensures ShowNat(n) != [] && AllDigits(ShowNat(n)) && DigitsValue(ShowNat(n)) == n
    decreases n
  {
    if n >= 10 {
      ShowNatDigits(n / 10);
      var s := ShowNat(n);
      assert s[..|s| - 1] == ShowNat(n / 10);
    }
  }

  /** Every `i64` survives a round trip through its decimal text. */
  lemma ParseShowRoundTrip(n: int)
    requires I64Min <= n <= I64Max
    ensures ParseI64(ShowI64(n)) == Some(n)
  {
    var s := ShowI64(n);
    if n < 0 {
      ShowNatDigits(-n);
      assert s[0] == '-' && s[1..] == ShowNat(-n);
      assert DigitsValue(s[1..]) == -n;
    } else {
      ShowNatDigits(n);
      assert s == ShowNat(n) && IsDigit(s[0]);
      assert DigitsValue(s) == n;
    }
  }

  /** The converse: an optional sign followed by one or more digits parses
      to its signed value whenever that value is in the `i64` range. */
  lemma ParseI64Accepts(sign: string, digits: string)
    requires sign == "" || sign == "+" || sign == "-"
    requires digits != [] && AllDigits(digits)
    requires sign == "-" ==> I64Min <= -(DigitsValue(digits) as int)
    requires sign != "-" ==> DigitsValue(digits) <= I64Max
    ensures ParseI64(sign + digits) == Some(if sign == "-" then -(DigitsValue(digits) as int) else DigitsValue(digits))
  {
    var s := sign + digits;
    if sign == "" {
      assert s == digits;
    } else {
      assert s[0] == sign[0] && s[1..] == digits;
    }
  }

  /** Text that is not canonical still parses: a `+` sign, leading zeros
      and a negative zero. */
  lemma AcceptsNonCanonical()
    ensures ParseI64("+7") == Some(7) && ParseI64("007") == Some(7) && ParseI64("-0") == Some(0)
  {
    assert "0"[..0] == "";
    assert DigitsValue("0") == 0;
    assert "00"[..1] == "0";
    assert DigitsValue("00") == 0;
    assert "007"[..2] == "00";
    assert DigitsValue("007") == 7;
    assert DigitsValue("7") == 7 by { assert "7"[..0] == ""; }
    ParseI64Accepts("+", "7");
    ParseI64Accepts("", "007");
    ParseI64Accepts("-", "0");
  }

  /** Text that is not a plain signed decimal is rejected: the source turns
      this into an absent timestamp. */
  lemma RejectsEmptyAndBareSign()
    ensures ParseI64("") == None && ParseI64("+") == None && ParseI64("-") == None
    ensures ParseI64(" 1") == None && ParseI64("1.5") == None
  {
  }
}
