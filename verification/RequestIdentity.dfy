/** Two requests have the same canonical text exactly when a retry may treat them as the same. */
module RequestIdentity {
  import opened Identifiers
  import opened Requests
  import opened Texts

  predicate Bare(s: string) { '|' !in s }

  // ---- the separator cannot be forged

  /** Up to the first separator there is only one way to read a text. */
  lemma {:induction false} FirstFieldUnique(a: string, b: string, x: string, y: string)
    requires Bare(a) && Bare(b) && a + "|" + x == b + "|" + y
    ensures a == b && x == y
  {
    if a == [] || b == [] {
      assert (a + "|" + x)[0] == (b + "|" + y)[0];
      assert (a + "|" + x)[1..] == (b + "|" + y)[1..];
      assert ("|" + x)[1..] == x && ("|" + y)[1..] == y;
      assert a == b == [];
      assert a + "|" + x == "|" + x && b + "|" + y == "|" + y;
    } else {
      assert a[0] == (a + "|" + x)[0] == (b + "|" + y)[0] == b[0];
      assert (a + "|" + x)[1..] == a[1..] + "|" + x;
      assert (b + "|" + y)[1..] == b[1..] + "|" + y;
      FirstFieldUnique(a[1..], b[1..], x, y);
      assert a == [a[0]] + a[1..] && b == [b[0]] + b[1..];
    }
  }

  // ---- decimal text

  lemma IntTextInjective(m: int, n: int)
    requires IntText(m) == IntText(n)
    ensures m == n
  {
    var a, b := if m < 0 then -m else m, if n < 0 then -n else n;
    NatTextDigits(a);
    NatTextDigits(b);
    assert IntText(m)[0] == IntText(n)[0];
    if m < 0 && n < 0 {
      assert ("-" + NatText(-m))[1..] == NatText(-m) && ("-" + NatText(-n))[1..] == NatText(-n);
    }
  }

  // ---- id text

  function Pow16(width: nat): nat {
    if width == 0 then 1 else 16 * Pow16(width - 1)
  }

  lemma {:induction false} Pow16Adds(v: nat, w: nat)
    ensures Pow16(v + w) == Pow16(v) * Pow16(w)
  {
    if v > 0 {
      Pow16Adds(v - 1, w);
    }
  }

  /** An id has exactly 32 hexadecimal digits. */
  lemma UuidDigits()
    ensures Pow16(32) == 0x1_0000_0000_0000_0000_0000_0000_0000_0000
  {
    assert Pow16(1) == 16;
    Pow16Adds(1, 1);
    Pow16Adds(2, 2);
    Pow16Adds(4, 4);
    Pow16Adds(8, 8);
    Pow16Adds(16, 16);
  }

  lemma {:induction false} HexTextInjective(m: nat, n: nat, width: nat)
    requires m < Pow16(width) && n < Pow16(width) && HexText(m, width) == HexText(n, width)
    ensures m == n
  {
    if width > 0 {
      HexTextLength(m / 16, width - 1);
      HexTextLength(n / 16, width - 1);
      var s, t := HexText(m, width), HexText(n, width);
      assert s[width - 1] == t[width - 1];
      assert HexText(m / 16, width - 1) == s[..width - 1] == t[..width - 1] == HexText(n / 16, width - 1);
      HexTextInjective(m / 16, n / 16, width - 1);
    }
  }

  lemma {:induction false} HexTextIsBare(n: nat, width: nat)
    ensures Bare(HexText(n, width))
  {
    if width > 0 {
      HexTextIsBare(n / 16, width - 1);
    }
  }

  /** Taking the dashes out gives the digits back. */
  lemma UuidTextParts(u: Uuid)
    ensures |UuidText(u)| == 36 && Bare(UuidText(u))
    ensures UuidText(u)[8] == UuidText(u)[13] == UuidText(u)[18] == UuidText(u)[23] == '-'
    ensures UuidText(u)[..8] + UuidText(u)[9..13] + UuidText(u)[14..18] + UuidText(u)[19..23] + UuidText(u)[24..]
         == HexText(u, 32)
  {
    HexTextLength(u, 32);
    HexTextIsBare(u, 32);
  }

  lemma UuidTextInjective(u: Uuid, v: Uuid)
    requires UuidText(u) == UuidText(v)
    ensures u == v
  {
    UuidTextParts(u);
    UuidTextParts(v);
    UuidDigits();
    HexTextInjective(u, v, 32);
  }

  lemma IntTextIsBare(n: int)
    ensures Bare(IntText(n))
  {
    NatTextDigits(if n < 0 then -n else n);
  }

  // ---- requests

  /** The canonical text of a transfer is an identity of its source, destination, amount and currency. */
  lemma SameTransferIffSameText(r: Request, s: Request)
    requires r.TransferRequest? && s.TransferRequest?
    ensures r.Canonical() == s.Canonical()
       <==> r.source == s.source && r.destination == s.destination && r.amount == s.amount
  {
    hide UuidText, IntText;
    if r.Canonical() == s.Canonical() {
      var rTail := IntText(r.amount.amount) + "|" + r.amount.currency;
      var sTail := IntText(s.amount.amount) + "|" + s.amount.currency;
      assert r.Canonical() == UuidText(r.source) + "|" + (UuidText(r.destination) + "|" + rTail);
      assert s.Canonical() == UuidText(s.source) + "|" + (UuidText(s.destination) + "|" + sTail);
      UuidTextParts(r.source);
      UuidTextParts(s.source);
      FirstFieldUnique(UuidText(r.source), UuidText(s.source), UuidText(r.destination) + "|" + rTail,
                       UuidText(s.destination) + "|" + sTail);
      UuidTextInjective(r.source, s.source);
      UuidTextParts(r.destination);
      UuidTextParts(s.destination);
      FirstFieldUnique(UuidText(r.destination), UuidText(s.destination), rTail, sTail);
      UuidTextInjective(r.destination, s.destination);
      IntTextIsBare(r.amount.amount);
      IntTextIsBare(s.amount.amount);
      FirstFieldUnique(IntText(r.amount.amount), IntText(s.amount.amount), r.amount.currency, s.amount.currency);
      IntTextInjective(r.amount.amount, s.amount.amount);
    }
  }

  lemma SameReversalIffSameText(r: Request, s: Request)
    requires r.RevertRequest? && s.RevertRequest?
    ensures r.Canonical() == s.Canonical() <==> r.transferId == s.transferId
  {
    if r.Canonical() == s.Canonical() {
      UuidTextInjective(r.transferId, s.transferId);
    }
  }

  /** A key used for a transfer can never replay as a reversal, nor the other way round. */
  lemma TransferNeverReadsAsReversal(r: Request, s: Request)
    requires r.TransferRequest? && s.RevertRequest?
    ensures r.Canonical() != s.Canonical()
  {
    UuidTextParts(s.transferId);
    assert '|' in r.Canonical();
  }
}
