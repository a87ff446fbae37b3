/** The level banner: LEVEL_MESSAGE, a space and the one-based level number,
    as JavaScript's string concatenation writes an integer. */
module LevelText {
  import opened Entities

  predicate IsDigit(c: char) { '0' <= c <= '9' }

  function DigitChar(d: nat): (c: char)
    requires d < 10
    ensures IsDigit(c) && c as int - '0' as int == d
  {
    ('0' as int + d) as char
  }

  function DigitValue(c: char): (d: nat)
    requires IsDigit(c)
    ensures d < 10 && DigitChar(d) == c
  {
    c as int - '0' as int
  }

  /** The decimal digits of `n`, most significant first, without leading zeros. */
  function Decimal(n: nat): (s: string)
    ensures 1 <= |s| && forall i :: 0 <= i < |s| ==> IsDigit(s[i])
    ensures (s[0] == '0') <==> n == 0
  {
    if n < 10 then [DigitChar(n)] else Decimal(n / 10) + [DigitChar(n % 10)]
  }

  /** The number a string of decimal digits denotes. */
  function DecimalValue(s: string): nat
    requires forall i :: 0 <= i < |s| ==> IsDigit(s[i])
  {
    if s == [] then 0 else 10 * DecimalValue(s[..|s| - 1]) + DigitValue(s[|s| - 1])
  }

  /** Reading back the digits gives the number: `Decimal` is injective. */
  lemma {:induction false} DecimalRoundTrip(n: nat)
    ensures DecimalValue(Decimal(n)) == n
  {
    var s := Decimal(n);
    if n >= 10 {
      DecimalRoundTrip(n / 10);
      assert s[..|s| - 1] == Decimal(n / 10);
    }
  }

  /** `LEVEL_MESSAGE + " " + (number + 1)`. */
  function LevelBanner(number: nat): (s: string)
    ensures |s| > |LevelMessage| + 1
  {
    LevelMessage + " " + Decimal(number + 1)
  }

  /** The banner is "LEVEL " followed by a number a player reads as the
      one-based level, so distinct levels show distinct banners. */
  lemma LevelBannerShowsLevel(number: nat)
    ensures var s := LevelBanner(number);
      s[..6] == "LEVEL " &&
      (forall i :: 6 <= i < |s| ==> IsDigit(s[i])) &&
      s[6] != '0' &&
      DecimalValue(s[6..]) == number + 1
  {
    var s := LevelBanner(number);
    assert s[6..] == Decimal(number + 1);
    DecimalRoundTrip(number + 1);
  }
}
