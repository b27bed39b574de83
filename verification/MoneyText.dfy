/** Money as people type and read it: string arithmetic only, never a float. */
module MoneyText {
  import opened Texts

  datatype Reason =
    | Empty | Incomplete | Negative | TwoSeparators | NotDigits | NoFraction | TooPrecise | NotPositive | TooLarge

  datatype Parsed = Amount(minor: nat) | Rejected(reason: Reason)

  /** Every currency offered has two minor-unit digits. */
  const EXPONENT := 2

  const MAX_SAFE_MINOR: nat := 9007199254740991

  // ---- text helpers

  /** What JavaScript's `\s` matches. */
  predicate IsSpace(c: char) {
    '\t' <= c <= '\r' || c == ' ' || c == '\U{00A0}' || c == '\U{1680}' || '\U{2000}' <= c <= '\U{200A}'
    || c == '\U{2028}' || c == '\U{2029}' || c == '\U{202F}' || c == '\U{205F}' || c == '\U{3000}' || c == '\U{FEFF}'
  }

  function PadEnd(s: string, width: nat): string
    decreases width - |s|
  {
    if |s| >= width then s else PadEnd(s + "0", width)
  }

  function PadStart(s: string, width: nat): string
    decreases width - |s|
  {
    if |s| >= width then s else PadStart("0" + s, width)
  }

  function TrimStart(s: string): string {
    if s != "" && IsSpace(s[0]) then TrimStart(s[1..]) else s
  }

  function TrimEnd(s: string): string {
    if s != "" && IsSpace(s[|s| - 1]) then TrimEnd(s[..|s| - 1]) else s
  }

  function WithoutSpaces(s: string): string {
    if s == "" then "" else (if IsSpace(s[0]) then "" else [s[0]]) + WithoutSpaces(s[1..])
  }

  /** A separator before exactly three digits groups thousands. */
  predicate GroupsThousands(s: string) {
    && |s| >= 4 && (IsSpace(s[0]) || s[0] == ',' || s[0] == '_')
    && IsDigit(s[1]) && IsDigit(s[2]) && IsDigit(s[3])
    && (|s| == 4 || !IsDigit(s[4]))
  }

  function Ungrouped(s: string): string {
    if s == "" then ""
    else (if GroupsThousands(s) then "" else [s[0]]) + Ungrouped(s[1..])
  }

  predicate IsPoint(c: char) { c == '.' || c == ',' }

  function PointCount(s: string): nat {
    if s == "" then 0 else (if IsPoint(s[0]) then 1 else 0) + PointCount(s[1..])
  }

  /** How many characters come before the first decimal separator. */
  function BeforePoint(s: string): nat
    ensures BeforePoint(s) <= |s|
  {
    if s == "" || IsPoint(s[0]) then 0 else 1 + BeforePoint(s[1..])
  }

  // ---- parsing

  function Cleaned(raw: string): string {
    WithoutSpaces(Ungrouped(TrimEnd(TrimStart(raw))))
  }

  /** The checks after the sign and the separator are settled, in their order. */
  function ParseParts(whole: string, pointed: bool, fraction: string): Parsed {
    if whole == "" && fraction == "" then Rejected(Incomplete)
    else if !Digits(whole) || !Digits(fraction) then Rejected(NotDigits)
    else if pointed && fraction == "" then Rejected(NoFraction)
    else if |fraction| > EXPONENT then Rejected(TooPrecise)
    else
      var digits := (if whole == "" then "0" else whole) + PadEnd(fraction, EXPONENT);
      if ValueOf(digits) == 0 then Rejected(NotPositive)
      else if ValueOf(digits) > MAX_SAFE_MINOR then Rejected(TooLarge)
      else Amount(ValueOf(digits))
  }

  function ParseUnsigned(s: string): Parsed {
    if PointCount(s) > 1 then Rejected(TwoSeparators)
    else
      var at := BeforePoint(s);
      if at == |s| then ParseParts(s, false, "") else ParseParts(s[..at], true, s[at + 1..])
  }

  function ParseCleaned(s: string): Parsed {
    if s == "" then Rejected(Empty)
    else if s in {"-", "+", ".", ","} then Rejected(Incomplete)
    else if s[0] == '-' then Rejected(Negative)
    else ParseUnsigned(if s[0] == '+' then s[1..] else s)
  }

  function Parse(raw: string): Parsed {
    ParseCleaned(Cleaned(raw))
  }

  // ---- printing

  /** Three digits, with their leading zeros. */
  function Triple(n: nat): string {
    PadStart(NatText(n), 3)
  }

  /** The en-US rendering of a whole number: groups of three behind commas. */
  function Grouped(n: nat): string {
    if n < 1000 then NatText(n) else Grouped(n / 1000) + "," + Triple(n % 1000)
  }

  /** Magnitude and sign by hand; the currency follows after a space. */
  function FormatAmount(minor: int): string {
    var digits := PadStart(NatText(if minor < 0 then -minor else minor), EXPONENT + 1);
    PadStartLength(NatText(if minor < 0 then -minor else minor), EXPONENT + 1);
    var at := |digits| - EXPONENT;
    (if minor < 0 then "\U{2212}" else "") + Grouped(ValueOf(digits[..at])) + "." + digits[at..]
  }

  function Format(minor: int, currency: string): string {
    FormatAmount(minor) + " " + currency
  }

  lemma {:induction false} PadStartLength(s: string, width: nat)
    ensures |PadStart(s, width)| == if |s| >= width then |s| else width
    decreases width - |s|
  {
    if |s| < width {
      PadStartLength("0" + s, width);
    }
  }

  // ---- what an accepted text means

  /** The text, read as people read it: an optional plus, a whole part, at most one separator and its cents. */
  ghost predicate Reads(s: string, plus: bool, whole: string, point: string, fraction: string) {
    && s == (if plus then "+" else "") + whole + point + fraction
    && Digits(whole) && Digits(fraction)
    && (point == "" ==> fraction == "")
    && (point != "" ==> (point == "." || point == ",") && fraction != "")
    && (whole != "" || fraction != "")
    && |fraction| <= EXPONENT
  }

  /** Exactly the whole part in hundreds plus the padded cents. */
  function Meaning(whole: string, fraction: string): nat {
    ValueOf(whole) * 100 + ValueOf(PadEnd(fraction, EXPONENT))
  }

  lemma ValueConcat(s: string, t: string)
    requires |t| == 2
    ensures ValueOf(s + t) == 100 * ValueOf(s) + ValueOf(t)
  {
    var one := s + [t[0]];
    assert s + t == one + [t[1]] && (s + t)[..|s| + 1] == one && one[..|s|] == s;
    assert ValueOf(one) == 10 * ValueOf(s) + DigitOf(t[0]);
    assert t[..1] == [t[0]] && [t[0]][..0] == "";
    assert ValueOf([t[0]]) == DigitOf(t[0]);
  }

  lemma PadTwo(s: string)
    requires |s| <= 2
    ensures |PadEnd(s, 2)| == 2
  {
    if |s| == 0 {
      assert PadEnd(s, 2) == PadEnd(s + "0" + "0", 2);
    }
  }

  /** What becomes of an amount that could be read: zero and what a browser cannot hold are refused. */
  function Weighed(v: nat): Parsed {
    if v == 0 then Rejected(NotPositive) else if v > MAX_SAFE_MINOR then Rejected(TooLarge) else Amount(v)
  }

  /** Digits and cents that make an amount, positive or not, representable or not. */
  ghost predicate Readable(whole: string, pointed: bool, fraction: string) {
    && Digits(whole) && Digits(fraction) && (pointed ==> fraction != "")
    && (whole != "" || fraction != "") && |fraction| <= EXPONENT
  }

  /** The parts get as far as being weighed exactly when they read as an amount, and then it is that amount. */
  lemma PartsMean(whole: string, pointed: bool, fraction: string)
    requires !pointed ==> fraction == ""
    ensures
      var p := ParseParts(whole, pointed, fraction);
      if Readable(whole, pointed, fraction) then p == Weighed(Meaning(whole, fraction))
      else p in {Rejected(Incomplete), Rejected(NotDigits), Rejected(NoFraction), Rejected(TooPrecise)}
  {
    if |fraction| <= EXPONENT {
      PadTwo(fraction);
      ValueConcat(if whole == "" then "0" else whole, PadEnd(fraction, EXPONENT));
      assert "0"[..0] == "";
      assert ValueOf("0") == 0 == ValueOf("");
    }
  }

  lemma {:induction false} PointsIn(s: string, t: string)
    ensures PointCount(s + t) == PointCount(s) + PointCount(t)
  {
    if s == "" {
      assert s + t == t;
    } else {
      PointsIn(s[1..], t);
      assert (s + t)[1..] == s[1..] + t;
    }
  }

  lemma {:induction false} DigitsHaveNoPoint(s: string)
    requires Digits(s)
    ensures PointCount(s) == 0 && BeforePoint(s) == |s|
  {
    if s != "" {
      DigitsHaveNoPoint(s[1..]);
    }
  }

  lemma {:induction false} BeforeFirstPoint(s: string, t: string)
    requires Digits(s) && t != "" && IsPoint(t[0])
    ensures BeforePoint(s + t) == |s|
  {
    if s == "" {
      assert s + t == t;
    } else {
      BeforeFirstPoint(s[1..], t);
      assert (s + t)[1..] == s[1..] + t;
    }
  }

  lemma {:induction false} PointFound(s: string)
    requires BeforePoint(s) < |s|
    ensures IsPoint(s[BeforePoint(s)])
  {
    if !IsPoint(s[0]) {
      PointFound(s[1..]);
    }
  }

  /** An unsigned text that reads as an amount is weighed as that amount. */
  lemma UnsignedWeighed(s: string, whole: string, point: string, fraction: string)
    requires Reads(s, false, whole, point, fraction)
    ensures ParseUnsigned(s) == Weighed(Meaning(whole, fraction))
  {
    hide ParseParts, Meaning, Weighed;
    DigitsHaveNoPoint(whole);
    DigitsHaveNoPoint(fraction);
    if point == "" {
      assert s == whole;
      PartsMean(s, false, "");
    } else {
      assert s == whole + (point + fraction);
      PointsIn(whole, point + fraction);
      assert (point + fraction)[1..] == fraction;
      BeforeFirstPoint(whole, point + fraction);
      assert s[..|whole|] == whole && s[|whole| + 1..] == fraction;
      PartsMean(whole, true, fraction);
    }
  }

  /** The text was read to its end and its amount weighed. */
  predicate WasWeighed(p: Parsed) {
    p.Amount? || p == Rejected(NotPositive) || p == Rejected(TooLarge)
  }

  /** An unsigned text whose amount was weighed reads as an amount, that one. */
  lemma UnsignedReads(s: string) returns (whole: string, point: string, fraction: string)
    requires WasWeighed(ParseUnsigned(s))
    ensures Reads(s, false, whole, point, fraction) && ParseUnsigned(s) == Weighed(Meaning(whole, fraction))
  {
    hide ParseParts, Meaning, Weighed;
    var at := BeforePoint(s);
    if at == |s| {
      whole, point, fraction := s, "", "";
      PartsMean(s, false, "");
      assert s == "" + s + "" + "";
    } else {
      PointFound(s);
      whole, point, fraction := s[..at], [s[at]], s[at + 1..];
      PartsMean(whole, true, fraction);
      assert s == "" + whole + point + fraction;
    }
  }

  lemma CleanedWeighed(s: string, plus: bool, whole: string, point: string, fraction: string)
    requires Reads(s, plus, whole, point, fraction)
    ensures ParseCleaned(s) == Weighed(Meaning(whole, fraction))
  {
    hide ParseUnsigned, Meaning, Weighed;
    var rest := whole + point + fraction;
    assert s == if plus then "+" + rest else rest;
    assert (if plus then s[1..] else s) == rest;
    assert rest[0] == if whole != "" then whole[0] else point[0];
    assert "" + whole + point + fraction == rest;
    UnsignedWeighed(rest, whole, point, fraction);
    assert |rest| == 1 ==> IsDigit(rest[0]);
  }

  /** A text's amount is weighed exactly when, cleaned up, it reads as an amount, and it is that amount. */
  lemma WeighedIffReads(raw: string, p: Parsed)
    requires WasWeighed(p)
    ensures Parse(raw) == p <==>
      exists plus, whole, point, fraction ::
        Reads(Cleaned(raw), plus, whole, point, fraction) && p == Weighed(Meaning(whole, fraction))
  {
    hide ParseUnsigned, Meaning, Cleaned, Reads, Weighed;
    var s := Cleaned(raw);
    if Parse(raw) == p {
      var signed := s[0] == '+';
      var whole, point, fraction := UnsignedReads(if signed then s[1..] else s);
      ReadsSigned(s, signed, whole, point, fraction);
    }
    if plus, whole, point, fraction :|
      Reads(s, plus, whole, point, fraction) && p == Weighed(Meaning(whole, fraction))
    {
      CleanedWeighed(s, plus, whole, point, fraction);
    }
  }

  /** Nothing is rounded: a text is accepted for v exactly when, cleaned up, that is what it says. */
  lemma AcceptedIffMeant(raw: string, v: nat)
    ensures Parse(raw) == Amount(v) <==>
      && 1 <= v <= MAX_SAFE_MINOR
      && exists plus, whole, point, fraction ::
           Reads(Cleaned(raw), plus, whole, point, fraction) && v == Meaning(whole, fraction)
  {
    hide Parse, Meaning, Cleaned, Reads;
    WeighedIffReads(raw, Amount(v));
    if 1 <= v <= MAX_SAFE_MINOR {
      if plus, whole, point, fraction :|
        Reads(Cleaned(raw), plus, whole, point, fraction) && v == Meaning(whole, fraction)
      {
        assert Amount(v) == Weighed(Meaning(whole, fraction));
      }
    }
  }

  lemma ReadsSigned(s: string, plus: bool, whole: string, point: string, fraction: string)
    requires s != "" && (plus ==> s[0] == '+')
    requires Reads(if plus then s[1..] else s, false, whole, point, fraction)
    ensures Reads(s, plus, whole, point, fraction)
  {
    hide Digits;
    var sign := if plus then "+" else "";
    var rest := if plus then s[1..] else s;
    JoinedFront("", whole, point, fraction);
    JoinedFront(sign, whole, point, fraction);
    assert s == sign + rest;
  }

  lemma JoinedFront(sign: string, whole: string, point: string, fraction: string)
    ensures sign + whole + point + fraction == sign + (whole + point + fraction)
    ensures "" + whole == whole
  {
  }

  // ---- the round trip

  lemma DigitIsKept(s: string)
    requires s != "" && IsDigit(s[0])
    ensures Ungrouped(s) == [s[0]] + Ungrouped(s[1..])
  {
    hide IsSpace;
    DigitIsNoSpace(s[0]);
  }

  lemma DigitIsNoSpace(c: char)
    requires IsDigit(c)
    ensures !IsSpace(c)
  {
  }

  lemma {:induction false} UngroupedDigits(d: string, rest: string)
    requires Digits(d)
    ensures Ungrouped(d + rest) == d + Ungrouped(rest)
  {
    hide Ungrouped;
    if d == [] {
      assert d + rest == rest;
    } else {
      DigitIsKept(d + rest);
      UngroupedDigits(d[1..], rest);
      assert (d + rest)[1..] == d[1..] + rest;
    }
  }

  /** Shifting one digit in moves every other digit up one place. */
  lemma DigitShift(m: nat, c: nat)
    requires c < 10
    ensures (10 * m + c) / 10 == m && (10 * m + c) % 10 == c
    ensures (10 * m + c) / 100 == m / 10 && (10 * m + c) / 1000 == m / 100
    ensures (10 * m + c) % 1000 == 10 * (m % 100) + c
  {
  }

  /** Dividing by ten again and again takes the decimal digits off one at a time. */
  lemma DigitsApart(n: nat)
    ensures n / 10 / 10 == n / 100 && n / 100 / 10 == n / 1000
    ensures n % 1000 / 100 == n / 100 % 10 && n % 1000 / 10 % 10 == n / 10 % 10 && n % 1000 % 10 == n % 10
  {
    var m := n / 10;
    DigitShift(m, n % 10);
    DigitShift(m / 10, m % 10);
    DigitShift(m % 100, n % 10);
    DigitShift(m / 10 % 10, m % 10);
    assert m % 100 == 10 * (m / 10 % 10) + m % 10;
  }

  lemma LastTwoDigits(n: nat)
    requires n >= 100
    ensures NatText(n) == NatText(n / 100) + [DigitChar(n / 10 % 10), DigitChar(n % 10)]
  {
    hide DigitChar;
    DigitsApart(n);
    assert NatText(n) == NatText(n / 10) + [DigitChar(n % 10)];
    assert NatText(n / 10) == NatText(n / 10 / 10) + [DigitChar(n / 10 % 10)];
  }

  /** The decimal digits of n, three at a time. */
  lemma NatTextTriples(n: nat)
    requires n >= 1000
    ensures NatText(n) == NatText(n / 1000) + Triple(n % 1000)
  {
    hide DigitChar, Triple;
    DigitsApart(n);
    assert NatText(n / 100) == NatText(n / 100 / 10) + [DigitChar(n / 100 % 10)];
    hide NatText;
    LastTwoDigits(n);
    TripleIs(n % 1000);
  }

  lemma TripleIs(r: nat)
    requires r < 1000
    ensures Triple(r) == [DigitChar(r / 100), DigitChar(r / 10 % 10), DigitChar(r % 10)]
    ensures Digits(Triple(r))
  {
    if r < 10 {
      assert NatText(r) == [DigitChar(r)] && DigitChar(0) == '0';
      assert PadStart(NatText(r), 3) == PadStart("0" + NatText(r), 3) == PadStart("0" + ("0" + NatText(r)), 3);
    } else if r < 100 {
      assert NatText(r) == [DigitChar(r / 10)] + [DigitChar(r % 10)] && DigitChar(0) == '0';
      assert PadStart(NatText(r), 3) == PadStart("0" + NatText(r), 3) == "0" + NatText(r);
    } else {
      LastTwoDigits(r);
      assert NatText(r / 100) == [DigitChar(r / 100)];
    }
  }

  /** A comma before three digits and no fourth is a thousands separator, and goes. */
  lemma UngroupedTriple(triple: string, rest: string)
    requires |triple| == 3 && Digits(triple)
    requires rest == "" || !IsDigit(rest[0])
    ensures Ungrouped("," + triple + rest) == triple + Ungrouped(rest)
  {
    var tail := "," + triple + rest;
    assert tail[1..] == triple + rest;
    assert tail[1] == triple[0] && tail[2] == triple[1] && tail[3] == triple[2];
    assert rest != "" ==> tail[4] == rest[0];
    assert GroupsThousands(tail);
    UngroupedDigits(triple, rest);
  }

  /** Grouping is undone, whatever follows the number, as long as it is not another digit. */
  lemma {:induction false} UngroupedGrouped(n: nat, rest: string)
    requires rest == "" || !IsDigit(rest[0])
    ensures Ungrouped(Grouped(n) + rest) == NatText(n) + Ungrouped(rest)
  {
    hide Ungrouped, NatText, Triple;
    if n < 1000 {
      NatTextDigits(n);
      UngroupedDigits(NatText(n), rest);
    } else {
      var triple := Triple(n % 1000);
      TripleIs(n % 1000);
      var tail := "," + triple + rest;
      assert Grouped(n) + rest == Grouped(n / 1000) + tail;
      UngroupedGrouped(n / 1000, tail);
      UngroupedTriple(triple, rest);
      NatTextTriples(n);
      assert NatText(n / 1000) + (triple + Ungrouped(rest)) == NatText(n) + Ungrouped(rest);
    }
  }

  ghost predicate NoSpaces(s: string) {
    forall i | 0 <= i < |s| :: !IsSpace(s[i])
  }

  lemma {:induction false} NothingToTrim(s: string)
    requires NoSpaces(s)
    ensures TrimEnd(TrimStart(s)) == s && WithoutSpaces(s) == s
  {
    if s != "" {
      NothingToTrim(s[1..]);
    }
  }

  lemma {:induction false} GroupedHasNoSpaces(n: nat)
    ensures NoSpaces(Grouped(n))
  {
    if n < 1000 {
      NatTextDigits(n);
    } else {
      GroupedHasNoSpaces(n / 1000);
      TripleIs(n % 1000);
    }
  }

  /** Padding to three digits only ever matters below one hundred, and keeps the last two. */
  lemma PaddedDigits(n: nat)
    ensures PadStart(NatText(n), 3) == NatText(n / 100) + [DigitChar(n / 10 % 10), DigitChar(n % 10)]
  {
    hide DigitChar;
    if n < 100 {
      TripleIs(n);
      assert NatText(n / 100) == [DigitChar(n / 100)];
    } else {
      LastTwoDigits(n);
      NatTextDigits(n / 100);
    }
  }

  /** What is printed: the whole units grouped, a point, and always two cents digits. */
  lemma FormatIs(n: nat)
    ensures FormatAmount(n) == Grouped(n / 100) + "." + [DigitChar(n / 10 % 10), DigitChar(n % 10)]
  {
    hide DigitChar, NatText, PadStart, Grouped;
    var digits := PadStart(NatText(n), 3);
    PaddedDigits(n);
    NatTextDigits(n / 100);
    assert digits[..|digits| - 2] == NatText(n / 100);
    assert digits[|digits| - 2..] == [DigitChar(n / 10 % 10), DigitChar(n % 10)];
    assert "" + Grouped(n / 100) == Grouped(n / 100);
  }

  lemma CentsRead(n: nat)
    ensures
      var cents := [DigitChar(n / 10 % 10), DigitChar(n % 10)];
      Digits(cents) && ValueOf(cents) == n % 100 && PadEnd(cents, EXPONENT) == cents
  {
    var cents := [DigitChar(n / 10 % 10), DigitChar(n % 10)];
    assert cents[..1] == [DigitChar(n / 10 % 10)] && cents[..1][..0] == "";
    assert ValueOf(cents[..1]) == n / 10 % 10;
  }

  lemma ParseAmount(n: nat)
    requires 1 <= n <= MAX_SAFE_MINOR
    ensures Parse(FormatAmount(n)) == Amount(n)
  {
    hide Parse, ParseUnsigned, Grouped, Ungrouped, NatText, TrimEnd, TrimStart, WithoutSpaces, ValueOf;
    hide DigitChar, PadEnd;
    var cents := [DigitChar(n / 10 % 10), DigitChar(n % 10)];
    var text := FormatAmount(n);
    FormatIs(n);
    CentsRead(n);
    CleanedFormat(n, cents);
    NatTextDigits(n / 100);
    assert Cleaned(text) == "" + NatText(n / 100) + "." + cents;
    assert Reads(Cleaned(text), false, NatText(n / 100), ".", cents);
    AcceptedIffMeant(text, n);
  }

  lemma CleanedFormat(n: nat, cents: string)
    requires |cents| == 2 && Digits(cents)
    ensures Cleaned(Grouped(n / 100) + "." + cents) == NatText(n / 100) + "." + cents
  {
    hide Grouped, NatText;
    var text := Grouped(n / 100) + "." + cents;
    GroupedHasNoSpaces(n / 100);
    NothingToTrim(text);
    assert text == Grouped(n / 100) + ("." + cents);
    UngroupedGrouped(n / 100, "." + cents);
    assert ("." + cents)[1..] == cents + "";
    UngroupedDigits(cents, "");
    NatTextDigits(n / 100);
    var clean := NatText(n / 100) + ("." + cents);
    assert Ungrouped(text) == clean == NatText(n / 100) + "." + cents;
    NothingToTrim(clean);
  }

  /** A comma stands at every fourth place from the right, and nowhere else. */
  lemma {:induction false} CommasEveryThree(n: nat)
    ensures forall i | 0 <= i < |Grouped(n)| :: Grouped(n)[i] == ',' <==> (|Grouped(n)| - i) % 4 == 0
    ensures n < 1000 ==> 1 <= |Grouped(n)| <= 3
  {
    hide Triple, NatText;
    if n < 1000 {
      NatTextDigits(n);
      ShortText(n);
    } else {
      CommasEveryThree(n / 1000);
      TripleIs(n % 1000);
      var head, triple := Grouped(n / 1000), Triple(n % 1000);
      var all := head + "," + triple;
      forall i | 0 <= i < |all| ensures all[i] == ',' <==> (|all| - i) % 4 == 0 {
        if i < |head| {
          assert all[i] == head[i];
        } else if i > |head| {
          assert all[i] == triple[i - |head| - 1];
        }
      }
    }
  }

  lemma ShortText(n: nat)
    requires n < 1000
    ensures |NatText(n)| <= 3
  {
    assert n >= 10 ==> |NatText(n / 10)| <= 2;
  }

  /** A negative amount is its magnitude behind a minus sign. */
  lemma NegativeIsSigned(minor: int)
    requires minor < 0
    ensures FormatAmount(minor) == "\U{2212}" + FormatAmount(-minor)
  {
    hide Grouped, PadStart, NatText;
  }

  /** Every positive amount a browser can hold prints to a text that, less its currency suffix, parses back to it. */
  lemma ParseFormat(n: nat, currency: string)
    requires 1 <= n <= MAX_SAFE_MINOR
    ensures
      var text := Format(n, currency);
      && |text| > |currency| && text[|text| - |currency| - 1..] == " " + currency
      && Parse(text[..|text| - |currency| - 1]) == Amount(n)
  {
    hide Parse, FormatAmount;
    var text := Format(n, currency);
    assert text[..|text| - |currency| - 1] == FormatAmount(n);
    ParseAmount(n);
  }
}
