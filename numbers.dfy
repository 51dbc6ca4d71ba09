/**
 * Decimal spelling of whole numbers: `String(n)`, zero padding as date-fns
 * applies it to date fields, and reading digits back.
 */
module Numbers {

  function DigitChar(n: nat): (c: char)
    requires n < 10
    ensures '0' <= c <= '9'
  {
    ('0' as int + n) as char
  }

  predicate IsDigit(c: char) {
    '0' <= c <= '9'
  }

  function DigitValue(c: char): (n: nat)
    requires IsDigit(c)
    ensures n < 10
  {
    c as int - '0' as int
  }

  predicate AllDigits(s: string) {
    forall i :: 0 <= i < |s| ==> IsDigit(s[i])
  }

  /** The decimal spelling of `n`, without leading zeros. */
  function Decimal(n: nat): (r: string)
    ensures |r| >= 1 && AllDigits(r)
  {
    if n < 10 then [DigitChar(n)] else Decimal(n / 10) + [DigitChar(n % 10)]
  }

  function Zeros(k: nat): (r: string)
    ensures |r| == k && forall i :: 0 <= i < k ==> r[i] == '0'
  {
    if k == 0 then [] else ['0'] + Zeros(k - 1)
  }

  /** `n` in decimal, left-padded with zeros to at least `width` characters. */
  function Pad(n: nat, width: nat): (r: string)
    ensures |r| >= width && |r| >= 1 && AllDigits(r)
  {
    var digits := Decimal(n);
    if |digits| >= width then digits else Zeros(width - |digits|) + digits
  }

  /** The value of a string of decimal digits, leading zeros allowed. */
  function ParseDecimal(s: string): nat
    requires AllDigits(s)
  {
    if s == [] then 0 else 10 * ParseDecimal(s[..|s| - 1]) + DigitValue(s[|s| - 1])
  }

  lemma {:induction false} ParseDecimalOfDecimal(n: nat)
    ensures ParseDecimal(Decimal(n)) == n
  {
    if n >= 10 {
      ParseDecimalOfDecimal(n / 10);
      var s := Decimal(n);
      assert s[..|s| - 1] == Decimal(n / 10);
    }
  }

  lemma {:induction false} ParseDecimalLeadingZeros(k: nat, s: string)
    requires AllDigits(s)
    ensures AllDigits(Zeros(k) + s)
    ensures ParseDecimal(Zeros(k) + s) == ParseDecimal(s)
  {
    var t := Zeros(k) + s;
    assert AllDigits(t) by {
      forall i | 0 <= i < |t| ensures IsDigit(t[i]) {
        if i >= k { assert t[i] == s[i - k]; }
      }
    }
    if s == [] {
      ParseDecimalZeros(k);
      assert t == Zeros(k);
    } else {
      ParseDecimalLeadingZeros(k, s[..|s| - 1]);
      assert t[..|t| - 1] == Zeros(k) + s[..|s| - 1];
    }
  }

  lemma {:induction false} ParseDecimalZeros(k: nat)
    ensures AllDigits(Zeros(k)) && ParseDecimal(Zeros(k)) == 0
  {
    if k > 0 {
      ParseDecimalZeros(k - 1);
      var z := Zeros(k);
      assert z[..k - 1] == Zeros(k - 1);
    }
  }

  lemma ParseDecimalOfPad(n: nat, width: nat)
    ensures ParseDecimal(Pad(n, width)) == n
  {
    ParseDecimalOfDecimal(n);
    var digits := Decimal(n);
    if |digits| < width {
      assert Pad(n, width) == Zeros(width - |digits|) + digits;
      ParseDecimalLeadingZeros(width - |digits|, digits);
    } else {
      assert Pad(n, width) == digits;
    }
  }

  lemma NoDashInDigits(s: string)
    requires AllDigits(s)
    ensures '-' !in s
  {
    forall i | 0 <= i < |s| ensures s[i] != '-' {
      assert IsDigit(s[i]);
    }
  }

  function Pow10(k: nat): (r: nat)
    ensures r >= 1
  {
    if k == 0 then 1 else 10 * Pow10(k - 1)
  }

  lemma {:induction false} DecimalLength(n: nat, k: nat)
    requires k >= 1 && n < Pow10(k)
    ensures |Decimal(n)| <= k
  {
    if n >= 10 {
      DecimalLength(n / 10, k - 1);
    }
  }

  /** `String(n)` for an integer: a minus sign, then the digits of its magnitude. */
  function IntText(n: int): (r: string)
    ensures r != []
    ensures n >= 0 ==> AllDigits(r) && ParseDecimal(r) == n
    ensures n < 0 ==> r[0] == '-' && AllDigits(r[1..]) && ParseDecimal(r[1..]) == -n
  {
    if n >= 0 then
      ParseDecimalOfDecimal(n);
      Decimal(n)
    else
      ParseDecimalOfDecimal(-n);
      var r := "-" + Decimal(-n);
      assert r[1..] == Decimal(-n);
      r
  }
}
