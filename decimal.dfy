/**
 * Decimal integers as the Go standard library's strconv.Atoi and strconv.Itoa
 * read and write them, for a 64-bit `int`.
 */
module Decimal {
  import opened Wrappers

  const MinInt: int := -0x8000_0000_0000_0000
  const MaxInt: int := 0x7FFF_FFFF_FFFF_FFFF

  predicate IsDigit(c: char)
  {
    '0' <= c <= '9'
  }

  predicate IsDigits(s: string)
  {
    forall i :: 0 <= i < |s| ==> IsDigit(s[i])
  }

  /** The value of a string of decimal digits, most significant first. */
  function DigitsValue(s: string): nat
    requires IsDigits(s)
  {
    if |s| == 0 then 0 else DigitsValue(s[..|s| - 1]) * 10 + (s[|s| - 1] as int - '0' as int)
  }

  /**
   * strconv.Atoi: an optional '+' or '-' sign followed by one or more decimal
   * digits, whose value fits in 64 bits; anything else fails.
   */
  function Atoi(s: string): (r: Option<int>)
    ensures r.Some? ==> |s| > 0 && MinInt <= r.value <= MaxInt
    ensures IsDigits(s) && |s| > 0 ==>
      (r.Some? <==> DigitsValue(s) <= MaxInt) && (r.Some? ==> r.value == DigitsValue(s))
    ensures |s| > 1 && s[0] == '-' && IsDigits(s[1..]) ==>
      (r.Some? <==> DigitsValue(s[1..]) <= MaxInt + 1) && (r.Some? ==> r.value == 0 - DigitsValue(s[1..]))
    ensures |s| > 0 && !IsDigit(s[0]) && s[0] != '+' && s[0] != '-' ==> r.None?
    ensures |s| > 0 && (s[0] == '+' || s[0] == '-') && !IsDigits(s[1..]) ==> r.None?
    ensures |s| > 1 && s[0] == '+' && IsDigits(s[1..]) ==>
      (r.Some? <==> DigitsValue(s[1..]) <= MaxInt) && (r.Some? ==> r.value == DigitsValue(s[1..]))
    ensures r.Some? ==> (|s| > 0 && IsDigits(s)) || (|s| > 1 && (s[0] == '+' || s[0] == '-') && IsDigits(s[1..]))
  {
    var signed := |s| > 0 && (s[0] == '+' || s[0] == '-');
    var body := if signed then s[1..] else s;
    if |body| == 0 || !IsDigits(body) then None
    else
      var n: int := if signed && s[0] == '-' then 0 - DigitsValue(body) as int else DigitsValue(body);
      if MinInt <= n <= MaxInt then Some(n) else None
  }

  function DigitChar(d: nat): (c: char)
    requires d < 10
    ensures IsDigit(c) && c as int - '0' as int == d
  {
    ('0' as int + d) as char
  }

  /** strconv.Itoa on a non-negative argument: shortest decimal rendering. */
  function Itoa(n: nat): string
  {
    if n < 10 then [DigitChar(n)] else Itoa(n / 10) + [DigitChar(n % 10)]
  }

  lemma {:induction false} DigitsValueAppend(s: string, c: char)
    requires IsDigits(s) && IsDigit(c)
    ensures IsDigits(s + [c])
    ensures DigitsValue(s + [c]) == DigitsValue(s) * 10 + (c as int - '0' as int)
  {
    assert (s + [c])[..|s|] == s;
  }

  /** Itoa renders a non-empty digit string that reads back as its argument. */
  lemma {:induction false} ItoaReadsBack(n: nat)
    ensures |Itoa(n)| > 0 && IsDigits(Itoa(n)) && DigitsValue(Itoa(n)) == n
  {
    if n < 10 {
      assert Itoa(n)[..0] == [];
    } else {
      ItoaReadsBack(n / 10);
      DigitsValueAppend(Itoa(n / 10), DigitChar(n % 10));
    }
  }

  /** Atoi inverts Itoa on the whole non-negative range of a 64-bit int. */
  lemma AtoiItoa(n: nat)
    requires n <= MaxInt
    ensures Atoi(Itoa(n)) == Some(n)
  {
    ItoaReadsBack(n);
  }

  /** Distinct indices render as distinct keys. */
  lemma ItoaInjective(a: nat, b: nat)
    requires a != b
    ensures Itoa(a) != Itoa(b)
  {
    ItoaReadsBack(a);
    ItoaReadsBack(b);
  }
}
