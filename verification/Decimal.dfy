/** Decimal text of integers, as map keys and module ids print and parse it. */
module Decimal {
  import opened Wrappers

  predicate IsDigit(c: char) { '0' <= c <= '9' }

  predicate AllDigits(text: string) {
    forall i | 0 <= i < |text| :: IsDigit(text[i])
  }

  function DigitValue(c: char): nat
    requires IsDigit(c)
  {
    (c - '0') as int
  }

  function Digit(d: nat): (c: char)
    requires d < 10
    ensures IsDigit(c) && DigitValue(c) == d
  {
    '0' + d as char
  }

  /** The value of a run of digits, most significant first. */
  function Value(text: string): nat
    requires AllDigits(text)
  {
    if text == [] then 0
    else 10 * Value(text[..|text| - 1]) + DigitValue(text[|text| - 1])
  }

  function PrintNat(n: nat): (text: string)
    ensures |text| > 0 && AllDigits(text) && Value(text) == n
    ensures text[0] == '0' ==> n == 0 && text == "0"
  {
    if n < 10 then
      assert [Digit(n)][..0] == [];
      [Digit(n)]
    else
      var high := PrintNat(n / 10);
      assert (high + [Digit(n % 10)])[..|high|] == high;
      high + [Digit(n % 10)]
  }

  function PrintInt(n: int): (text: string) {
    if n < 0 then "-" + PrintNat(-n) else PrintNat(n)
  }

  /** The integers of the number grammar of JSON (section 6 of RFC 8259). */
  predicate IsCanonicalInteger(text: string) {
    var digits := if |text| > 0 && text[0] == '-' then text[1..] else text;
    |digits| > 0 && !(|digits| > 1 && digits[0] == '0') && AllDigits(digits)
  }

  /** An integer key within `lo` and `hi`, or nothing. */
  function ParseKey(text: string, lo: int, hi: int): Option<int> {
    if !IsCanonicalInteger(text) then None
    else
      var n: int := if text[0] == '-' then -(Value(text[1..]) as int) else Value(text) as int;
      if lo <= n <= hi then Some(n) else None
  }

  /** `str::parse::<u64>`: an optional `+`, then digits, within 64 bits. */
  function ParseU64(text: string): Option<nat> {
    var digits := if |text| > 0 && text[0] == '+' then text[1..] else text;
    if |digits| == 0 || !AllDigits(digits) || Value(digits) >= 0x1_0000_0000_0000_0000 then None
    else Some(Value(digits))
  }

  lemma PrintedIntIsCanonical(n: int)
    ensures IsCanonicalInteger(PrintInt(n))
    ensures PrintInt(n)[0] == '-' <==> n < 0
    ensures forall lo, hi | lo <= n <= hi :: ParseKey(PrintInt(n), lo, hi) == Some(n)
  {
    if n < 0 {
      assert PrintInt(n)[1..] == PrintNat(-n);
    }
  }

  lemma SplitLastDigit(text: string) returns (high: string, last: char)
    requires |text| > 0 && AllDigits(text)
    ensures text == high + [last] && IsDigit(last) && AllDigits(high)
    ensures Value(text) == 10 * Value(high) + DigitValue(last)
    ensures |high| > 0 ==> high[0] == text[0]
  {
    high, last := text[..|text| - 1], text[|text| - 1];
  }

  /** Two digit runs of one value, neither with leading zeros, are the same text. */
  lemma {:induction false} DigitsAreUnique(a: string, b: string)
    requires |a| > 0 && |b| > 0 && AllDigits(a) && AllDigits(b)
    requires !(|a| > 1 && a[0] == '0') && !(|b| > 1 && b[0] == '0')
    requires Value(a) == Value(b)
    ensures a == b
    decreases |a|
  {
    var highA, lastA := SplitLastDigit(a);
    var highB, lastB := SplitLastDigit(b);
    var va, vb, da, db := Value(highA), Value(highB), DigitValue(lastA), DigitValue(lastB);
    assert va == vb && da == db;
    if |a| > 1 { LeadingDigitCounts(highA); }
    if |b| > 1 { LeadingDigitCounts(highB); }
    if |a| > 1 && |b| > 1 {
      DigitsAreUnique(highA, highB);
    }
  }

  lemma {:induction false} LeadingDigitCounts(text: string)
    requires |text| > 0 && AllDigits(text) && text[0] != '0'
    ensures Value(text) > 0
  {
    if |text| > 1 {
      LeadingDigitCounts(text[..|text| - 1]);
    }
  }

  /** A key text survives parsing and printing exactly when it is canonical and not
      `-0`, which parses as zero. */
  lemma ParsedKeyPrintsBack(text: string, lo: int, hi: int)
    requires ParseKey(text, lo, hi).Some?
    ensures PrintInt(ParseKey(text, lo, hi).value) == text <==> text != "-0"
  {
    ZeroDigit();
    if text[0] == '-' {
      assert text == "-" + text[1..] && "-0"[1..] == "0";
      if Value(text[1..]) > 0 {
        DigitsAreUnique(PrintNat(Value(text[1..])), text[1..]);
      } else {
        DigitsAreUnique("0", text[1..]);
      }
    } else {
      DigitsAreUnique(PrintNat(Value(text)), text);
    }
  }

  lemma ZeroDigit()
    ensures AllDigits("0") && Value("0") == 0
  {
    assert "0"[..0] == [];
  }

  lemma PrintedU64ParsesBack(n: nat)
    requires n < 0x1_0000_0000_0000_0000
    ensures ParseU64(PrintNat(n)) == Some(n)
  {}

  lemma PrintIntInjective(a: int, b: int)
    requires PrintInt(a) == PrintInt(b)
    ensures a == b
  {
    PrintedIntIsCanonical(a);
    PrintedIntIsCanonical(b);
    assert ParseKey(PrintInt(a), a, a) == Some(a) && ParseKey(PrintInt(b), b, b) == Some(b);
    if a < 0 { assert PrintInt(a)[1..] == PrintNat(-a); assert PrintInt(b)[1..] == PrintNat(-b); }
  }
}
