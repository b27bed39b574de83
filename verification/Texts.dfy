/** How numbers and ids are written out. */
module Texts {
  import opened Identifiers

  predicate IsDigit(c: char) { '0' <= c <= '9' }

  predicate Digits(s: string) {
    forall i | 0 <= i < |s| :: IsDigit(s[i])
  }

  function DigitOf(c: char): nat {
    if IsDigit(c) then (c - '0') as nat else 0
  }

  /** The number a digit string writes out. */
  function ValueOf(s: string): nat {
    if s == "" then 0 else 10 * ValueOf(s[..|s| - 1]) + DigitOf(s[|s| - 1])
  }

  function DigitChar(d: nat): char
    requires d < 10
  {
    '0' + d as char
  }

  function HexChar(d: nat): char
    requires d < 16
  {
    if d < 10 then '0' + d as char else 'a' + (d - 10) as char
  }

  /** Decimal digits, no leading zeros. */
  function NatText(n: nat): string {
    if n < 10 then [DigitChar(n)] else NatText(n / 10) + [DigitChar(n % 10)]
  }

  /** Decimal text reads back as the number it was written for. */
  lemma {:induction false} NatTextDigits(n: nat)
    ensures NatText(n) != "" && Digits(NatText(n)) && ValueOf(NatText(n)) == n
  {
    if n >= 10 {
      NatTextDigits(n / 10);
      assert NatText(n)[..|NatText(n)| - 1] == NatText(n / 10);
    } else {
      assert NatText(n)[..0] == "";
    }
  }

  function IntText(n: int): string {
    if n < 0 then "-" + NatText(-n) else NatText(n)
  }

  /** The lowest `width` hexadecimal digits. */
  function HexText(n: nat, width: nat): string {
    if width == 0 then "" else HexText(n / 16, width - 1) + [HexChar(n % 16)]
  }

  lemma {:induction false} HexTextLength(n: nat, width: nat)
    ensures |HexText(n, width)| == width
  {
    if width > 0 {
      HexTextLength(n / 16, width - 1);
    }
  }

  /** The canonical 8-4-4-4-12 form. */
  function UuidText(u: Uuid): string {
    HexTextLength(u, 32);
    var h := HexText(u, 32);
    h[..8] + "-" + h[8..12] + "-" + h[12..16] + "-" + h[16..20] + "-" + h[20..]
  }
}
