/** Which texts read as finite numbers, as `str::parse::<f64>` reads them. */
module FloatText {
  import opened Wrappers
  import opened Decimal

  /** Digits worth `Value(digits) * 10^exponent`. */
  datatype Scaled = Scaled(digits: string, exponent: int)

  function LeadingDigits(text: string): (n: nat)
    ensures n <= |text| && AllDigits(text[..n])
    ensures n < |text| ==> !IsDigit(text[n])
  {
    if text == [] || !IsDigit(text[0]) then 0
    else
      var rest := LeadingDigits(text[1..]);
      assert text[..rest + 1] == [text[0]] + text[1..][..rest];
      rest + 1
  }

  function Unsigned(text: string): string {
    if text != [] && (text[0] == '+' || text[0] == '-') then text[1..] else text
  }

  /** The exponent after a number's digits: none, or `e` and an integer. */
  function Exponent(text: string): Option<int> {
    if text == [] then Some(0)
    else if text[0] != 'e' && text[0] != 'E' then None
    else
      var digits := Unsigned(text[1..]);
      if digits == [] || !AllDigits(digits) then None
      else Some(if text[1] == '-' then -(Value(digits) as int) else Value(digits) as int)
  }

  /** A number without its sign: digits on at least one side of an optional point, then
      an optional exponent. Infinities and NaN are not finite, so they are left out. */
  function Parse(text: string): (parsed: Option<Scaled>)
    ensures parsed.Some? ==> AllDigits(parsed.value.digits)
  {
    var whole := LeadingDigits(text);
    var pointed := whole < |text| && text[whole] == '.';
    var rest := if pointed then text[whole + 1..] else text[whole..];
    var fraction := if pointed then LeadingDigits(rest) else 0;
    var exponent := Exponent(rest[fraction..]);
    if whole + fraction == 0 || exponent.None? then None
    else Some(Scaled(text[..whole] + rest[..fraction], exponent.value - fraction))
  }

  function PowerOfTen(n: nat): nat {
    if n == 0 then 1 else 10 * PowerOfTen(n - 1)
  }

  const TWO_TO_256 := 0x1_0000_0000_0000_0000_0000_0000_0000_0000_0000_0000_0000_0000_0000_0000_0000_0000
  const TWO_TO_202 := 0x400_0000_0000_0000_0000_0000_0000_0000_0000_0000_0000_0000_0000

  /** (2^54 - 1) * 2^970, half way from the largest double to 2^1024: from here on a number
      rounds to infinity. */
  const TOO_LARGE := 0x3F_FFFF_FFFF_FFFF * TWO_TO_256 * TWO_TO_256 * TWO_TO_256 * TWO_TO_202

  predicate ReadsAsFinite(text: string) {
    var parsed := Parse(Unsigned(text));
    parsed.Some? &&
      var (mantissa, exponent) := (Value(parsed.value.digits), parsed.value.exponent);
      if exponent >= 0 then mantissa * PowerOfTen(exponent) < TOO_LARGE
      else mantissa < TOO_LARGE * PowerOfTen(-exponent)
  }

  lemma {:induction false} AllAreLeading(text: string)
    requires AllDigits(text)
    ensures LeadingDigits(text) == |text|
    decreases |text|
  {
    if text != [] { AllAreLeading(text[1..]); }
  }

  /** One past the widest unsigned integer, of 128 bits. */
  const WIDEST := 0x1_0000_0000_0000_0000_0000_0000_0000_0000

  /** The text of every integer reads as a finite number. */
  lemma IntegersReadAsFinite(n: int)
    requires -WIDEST < n < WIDEST
    ensures ReadsAsFinite(PrintInt(n))
  {
    var digits := PrintNat(if n < 0 then -n else n);
    assert digits[0] != '-' && digits[0] != '+';
    assert PrintInt(n) == if n < 0 then "-" + digits else digits;
    assert Unsigned(PrintInt(n)) == digits;
    AllAreLeading(digits);
    assert digits[|digits|..] == [];
    assert digits[..|digits|] + [] == digits;
    assert Parse(digits) == Some(Scaled(digits, 0));
    assert WIDEST <= TOO_LARGE && PowerOfTen(0) == 1;
  }
}
