/** The opaque cursor text: a timestamp and an entry id joined by a separator, in URL-safe Base64. */
module Cursors {
  import opened Identifiers
  import opened Instants
  import opened RequestIdentity
  import opened Results
  import opened Texts

  // ---- Base64 with the URL and filename safe alphabet (RFC 4648, section 5)

  function SextetChar(v: nat): char
    requires v < 64
  {
    if v < 26 then 'A' + v as char
    else if v < 52 then 'a' + (v - 26) as char
    else if v < 62 then '0' + (v - 52) as char
    else if v == 62 then '-'
    else '_'
  }

  function SextetOf(c: char): Option<nat> {
    if 'A' <= c <= 'Z' then Some((c - 'A') as nat)
    else if 'a' <= c <= 'z' then Some((c - 'a') as nat + 26)
    else if '0' <= c <= '9' then Some((c - '0') as nat + 52)
    else if c == '-' then Some(62)
    else if c == '_' then Some(63)
    else None
  }

  type Byte = b: nat | b < 256

  function Quad(a: Byte, b: Byte, c: Byte): string {
    [SextetChar(a / 4), SextetChar(a % 4 * 16 + b / 16), SextetChar(b % 16 * 4 + c / 64), SextetChar(c % 64)]
  }

  function Encode64(bytes: seq<Byte>): string {
    if bytes == [] then ""
    else if |bytes| == 1 then Quad(bytes[0], 0, 0)[..2] + "=="
    else if |bytes| == 2 then Quad(bytes[0], bytes[1], 0)[..3] + "="
    else Quad(bytes[0], bytes[1], bytes[2]) + Encode64(bytes[3..])
  }

  /** The three bytes of a full quad; None for a character outside the alphabet. */
  function OctetsOf(s: string): Option<(Byte, Byte, Byte)>
    requires |s| == 4
  {
    match (SextetOf(s[0]), SextetOf(s[1]), SextetOf(s[2]), SextetOf(s[3]))
    case (Some(p), Some(q), Some(r), Some(t)) =>
      assert p < 64 && q < 64 && r < 64 && t < 64;
      Some((p * 4 + q / 16, q % 16 * 16 + r / 4, r % 4 * 64 + t))
    case _ => None
  }

  function Decode64(s: string): Option<seq<Byte>> {
    if s == "" then Some([])
    else if |s| < 4 then None
    else if |s| == 4 && s[3] == '=' then
      var padded := if s[2] == '=' then s[..2] + "AA" else s[..3] + "A";
      (match OctetsOf(padded)
       case None => None
       case Some((a, b, c)) => Some(if s[2] == '=' then [a] else [a, b]))
    else
      match (OctetsOf(s[..4]), Decode64(s[4..]))
      case (Some((a, b, c)), Some(rest)) => Some([a, b, c] + rest)
      case _ => None
  }

  lemma SextetRoundTrip(v: nat)
    requires v < 64
    ensures SextetOf(SextetChar(v)) == Some(v) && SextetChar(v) != '='
  {
  }

  lemma SextetsJoin(a: Byte, b: Byte, c: Byte)
    ensures a % 4 * 16 + b / 16 < 64 && b % 16 * 4 + c / 64 < 64
    ensures a / 4 * 4 + (a % 4 * 16 + b / 16) / 16 == a
    ensures (a % 4 * 16 + b / 16) % 16 * 16 + (b % 16 * 4 + c / 64) / 4 == b
    ensures (b % 16 * 4 + c / 64) % 4 * 64 + c % 64 == c
  {
    assert (a % 4 * 16 + b / 16) / 16 == a % 4 && (a % 4 * 16 + b / 16) % 16 == b / 16;
    assert (b % 16 * 4 + c / 64) / 4 == b % 16 && (b % 16 * 4 + c / 64) % 4 == c / 64;
  }

  lemma QuadRoundTrip(a: Byte, b: Byte, c: Byte)
    ensures OctetsOf(Quad(a, b, c)) == Some((a, b, c))
    ensures forall i | 0 <= i < 4 :: Quad(a, b, c)[i] != '='
  {
    hide SextetChar, SextetOf;
    SextetsJoin(a, b, c);
    SextetRoundTrip(a / 4);
    SextetRoundTrip(a % 4 * 16 + b / 16);
    SextetRoundTrip(b % 16 * 4 + c / 64);
    SextetRoundTrip(c % 64);
  }

  lemma {:induction false} Decode64Encode64(bytes: seq<Byte>)
    ensures Decode64(Encode64(bytes)) == Some(bytes)
  {
    hide SextetChar, SextetOf, OctetsOf;
    if |bytes| == 1 {
      QuadRoundTrip(bytes[0], 0, 0);
      assert Quad(bytes[0], 0, 0)[2..] == "AA" by { ZeroSextets(); }
      assert Encode64(bytes)[..2] + "AA" == Quad(bytes[0], 0, 0);
      assert bytes == [bytes[0]];
    } else if |bytes| == 2 {
      QuadRoundTrip(bytes[0], bytes[1], 0);
      assert Quad(bytes[0], bytes[1], 0)[3..] == "A" by { ZeroSextets(); }
      assert Encode64(bytes)[..3] + "A" == Quad(bytes[0], bytes[1], 0);
      assert Encode64(bytes)[2] == Quad(bytes[0], bytes[1], 0)[2];
      assert bytes == [bytes[0], bytes[1]];
    } else if |bytes| > 2 {
      QuadRoundTrip(bytes[0], bytes[1], bytes[2]);
      Decode64Encode64(bytes[3..]);
      assert Encode64(bytes)[..4] == Quad(bytes[0], bytes[1], bytes[2]);
      assert Encode64(bytes)[4..] == Encode64(bytes[3..]);
      assert bytes == [bytes[0], bytes[1], bytes[2]] + bytes[3..];
    }
  }

  const UPPER := "ABCDEFGHIJKLMNOPQRSTUVWXYZ"
  const LOWER := "abcdefghijklmnopqrstuvwxyz"
  const DIGITS := "0123456789"

  /** Table 2 of RFC 4648. */
  lemma SextetsAreTheAlphabet(v: nat)
    requires v < 64
    ensures |UPPER| == |LOWER| == 26 && |DIGITS| == 10
    ensures SextetChar(v) == (UPPER + LOWER + DIGITS + "-_")[v]
  {
    if v < 26 {
      LetterAt(v);
    } else if v < 52 {
      LetterAt(v - 26);
    } else if v < 62 {
      assert DIGITS[v - 52] == '0' + (v - 52) as char;
    }
  }

  lemma LetterAt(v: nat)
    requires v < 26
    ensures UPPER[v] == 'A' + v as char && LOWER[v] == 'a' + v as char
  {
    assert UPPER[v] as int == 'A' as int + v;
    assert LOWER[v] as int == 'a' as int + v;
  }

  /** The test vectors of section 10 of RFC 4648. */
  lemma Vectors()
    ensures Encode64([]) == "" && Encode64([102]) == "Zg==" && Encode64([102, 111]) == "Zm8="
    ensures Encode64([102, 111, 111]) == "Zm9v" && Encode64([102, 111, 111, 98]) == "Zm9vYg=="
    ensures Encode64([102, 111, 111, 98, 97]) == "Zm9vYmE="
    ensures Encode64([102, 111, 111, 98, 97, 114]) == "Zm9vYmFy"
  {
    assert [102, 111, 111][3..] == [] && [102, 111, 111, 98][3..] == [98];
    assert [102, 111, 111, 98, 97][3..] == [98, 97] && [102, 111, 111, 98, 97, 114][3..] == [98, 97, 114];
    assert [98, 97, 114][3..] == [];
  }

  lemma ZeroSextets()
    ensures SextetChar(0) == 'A'
  {
  }

  // ---- ids read back

  function HexOf(c: char): Option<nat> {
    if '0' <= c <= '9' then Some((c - '0') as nat)
    else if 'a' <= c <= 'f' then Some((c - 'a') as nat + 10)
    else None
  }

  function HexValue(s: string): Option<nat> {
    if s == "" then Some(0)
    else
      match (HexValue(s[..|s| - 1]), HexOf(s[|s| - 1]))
      case (Some(front), Some(d)) => Some(16 * front + d)
      case _ => None
  }

  function ParseUuid(s: string): Option<Uuid> {
    if |s| != 36 || s[8] != '-' || s[13] != '-' || s[18] != '-' || s[23] != '-' then None
    else
      match HexValue(s[..8] + s[9..13] + s[14..18] + s[19..23] + s[24..])
      case None => None
      case Some(n) => if n < 0x1_0000_0000_0000_0000_0000_0000_0000_0000 then Some(n) else None
  }

  lemma {:induction false} HexValueHexText(n: nat, width: nat)
    requires n < Pow16(width)
    ensures HexValue(HexText(n, width)) == Some(n)
  {
    if width > 0 {
      HexValueHexText(n / 16, width - 1);
      HexTextLength(n / 16, width - 1);
      var s := HexText(n, width);
      assert s[..width - 1] == HexText(n / 16, width - 1);
    }
  }

  lemma ParseUuidUuidText(u: Uuid)
    ensures ParseUuid(UuidText(u)) == Some(u)
  {
    UuidTextParts(u);
    UuidDigits();
    HexValueHexText(u, 32);
    HexTextLength(u, 32);
  }

  // ---- the cursor

  predicate Ascii(s: string) {
    forall i | 0 <= i < |s| :: s[i] as int < 128
  }

  function ToBytes(s: string): seq<Byte>
    requires Ascii(s)
  {
    if s == "" then [] else ToBytes(s[..|s| - 1]) + [s[|s| - 1] as Byte]
  }

  function FromBytes(bytes: seq<Byte>): Option<string> {
    if bytes == [] then Some("")
    else
      match FromBytes(bytes[..|bytes| - 1])
      case None => None
      case Some(front) =>
        if bytes[|bytes| - 1] < 128 then Some(front + [bytes[|bytes| - 1] as char]) else None
  }

  /** The text up to the first separator and the text after it. */
  function SplitFirst(s: string): Option<(string, string)> {
    if s == "" then None
    else if s[0] == '|' then Some(("", s[1..]))
    else
      match SplitFirst(s[1..])
      case None => None
      case Some((field, rest)) => Some(([s[0]] + field, rest))
  }

  /** ASCII without the separator. */
  predicate Plain(s: string) {
    forall i | 0 <= i < |s| :: s[i] as int < 128 && s[i] != '|'
  }

  lemma PlainConcat(a: string, b: string)
    requires Plain(a) && Plain(b)
    ensures Plain(a + b)
  {
  }

  lemma {:induction false} FixedIsPlain(n: nat, width: nat)
    ensures Plain(Fixed(n, width))
  {
    if width > 0 {
      FixedIsPlain(n / 10, width - 1);
    }
  }

  lemma FractionIsPlain(micros: nat)
    ensures Plain(FractionText(micros))
  {
    hide Fixed;
    FixedIsPlain(micros, 6);
  }

  lemma SecondsArePlain(micros: nat)
    ensures Plain(SecondsText(micros))
  {
    hide Fixed, FractionText;
    FixedIsPlain(micros / 1000000, 2);
    FractionIsPlain(micros % 1000000);
  }

  lemma OffsetIsPlain(offset: int)
    ensures Plain(OffsetText(offset))
  {
    hide Fixed, SecondsText;
    var size := if offset < 0 then -offset else offset;
    FixedIsPlain(size / 3600000000, 2);
    FixedIsPlain(size / 60000000 % 60, 2);
    SecondsArePlain(size % 60000000);
  }

  lemma IsoIsPlain(t: Moment)
    ensures Plain(IsoText(t))
  {
    hide Fixed, FractionText, OffsetText;
    FixedIsPlain(t.year, 4);
    FixedIsPlain(t.month, 2);
    FixedIsPlain(t.day, 2);
    FixedIsPlain(t.hour, 2);
    FixedIsPlain(t.minute, 2);
    FixedIsPlain(t.second, 2);
    FractionIsPlain(t.micros);
    OffsetIsPlain(t.offset);
    var s5 := Fixed(t.second, 2) + (FractionText(t.micros) + OffsetText(t.offset));
    PlainConcat(FractionText(t.micros), OffsetText(t.offset));
    PlainConcat(Fixed(t.second, 2), FractionText(t.micros) + OffsetText(t.offset));
    var s4 := Fixed(t.hour, 2) + ([':'] + (Fixed(t.minute, 2) + ([':'] + s5)));
    PlainConcat([':'], s5);
    PlainConcat(Fixed(t.minute, 2), [':'] + s5);
    PlainConcat([':'], Fixed(t.minute, 2) + ([':'] + s5));
    PlainConcat(Fixed(t.hour, 2), [':'] + (Fixed(t.minute, 2) + ([':'] + s5)));
    var s3 := Fixed(t.month, 2) + (['-'] + (Fixed(t.day, 2) + (['T'] + s4)));
    PlainConcat(['T'], s4);
    PlainConcat(Fixed(t.day, 2), ['T'] + s4);
    PlainConcat(['-'], Fixed(t.day, 2) + (['T'] + s4));
    PlainConcat(Fixed(t.month, 2), ['-'] + (Fixed(t.day, 2) + (['T'] + s4)));
    PlainConcat(['-'], s3);
    PlainConcat(Fixed(t.year, 4), ['-'] + s3);
  }

  lemma {:induction false} HexIsPlain(n: nat, width: nat)
    ensures Plain(HexText(n, width))
  {
    if width > 0 {
      HexIsPlain(n / 16, width - 1);
    }
  }

  lemma UuidIsPlain(u: Uuid)
    ensures Plain(UuidText(u))
  {
    hide HexText;
    HexIsPlain(u, 32);
    HexTextLength(u, 32);
  }

  lemma RawIsAscii(at: Moment, id: Uuid)
    ensures Ascii(IsoText(at) + "|" + UuidText(id))
  {
    hide IsoText, UuidText;
    IsoIsPlain(at);
    UuidIsPlain(id);
  }

  function EncodeCursor(at: Moment, id: Uuid): string {
    RawIsAscii(at, id);
    Encode64(ToBytes(IsoText(at) + "|" + UuidText(id)))
  }

  /** None is the one refusal every undecodable cursor gets. */
  function DecodeCursor(cursor: string): Option<(Moment, Uuid)> {
    var bytes :- Decode64(cursor);
    var raw :- FromBytes(bytes);
    var (atText, idText) :- SplitFirst(raw);
    var at :- ParseIso(atText);
    var id :- ParseUuid(idText);
    Some((at, id))
  }

  lemma {:induction false} BytesRoundTrip(s: string)
    requires Ascii(s)
    ensures FromBytes(ToBytes(s)) == Some(s)
  {
    if s != "" {
      var n := |s| - 1;
      BytesRoundTrip(s[..n]);
      assert ToBytes(s)[..|ToBytes(s)| - 1] == ToBytes(s[..n]);
      assert s == s[..n] + [s[n]];
    }
  }

  lemma {:induction false} SplitJoined(a: string, x: string)
    requires Bare(a)
    ensures SplitFirst(a + "|" + x) == Some((a, x))
  {
    var s := a + "|" + x;
    if a == "" {
      assert s[0] == '|' && s[1..] == x;
    } else {
      SplitJoined(a[1..], x);
      assert s[0] == a[0] && s[1..] == a[1..] + "|" + x;
      assert a == [a[0]] + a[1..];
    }
  }

  /** A cursor decodes to exactly the position it was made from. */
  lemma CursorRoundTrip(at: Moment, id: Uuid)
    requires at.Valid()
    ensures DecodeCursor(EncodeCursor(at, id)) == Some((at, id))
  {
    hide Encode64, Decode64, ToBytes, FromBytes, ParseUuid, UuidText, SplitFirst, IsoText, ParseIso;
    var raw := IsoText(at) + "|" + UuidText(id);
    RawIsAscii(at, id);
    Decode64Encode64(ToBytes(raw));
    BytesRoundTrip(raw);
    IsoIsPlain(at);
    SplitJoined(IsoText(at), UuidText(id));
    IsoRoundTrip(at);
    ParseUuidUuidText(id);
  }
}
