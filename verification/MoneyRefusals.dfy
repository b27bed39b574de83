/** Which reason a text that is no amount is refused for, read off the text itself. */
module MoneyRefusals {
  import opened MoneyText
  import opened Texts

  // ---- what is left after cleaning up

  /** Exactly three digits follow position `i`. */
  predicate BeforeThreeDigits(raw: string, i: nat) {
    && i + 3 < |raw| && IsDigit(raw[i + 1]) && IsDigit(raw[i + 2]) && IsDigit(raw[i + 3])
    && (i + 4 < |raw| ==> !IsDigit(raw[i + 4]))
  }

  /** White space goes wherever it stands; a comma or an underscore goes as a separator of thousands. */
  predicate Dropped(raw: string, i: nat)
    requires i < |raw|
  {
    IsSpace(raw[i]) || ((raw[i] == ',' || raw[i] == '_') && BeforeThreeDigits(raw, i))
  }

  /** The same, one character at a time. */
  function Kept(raw: string): string {
    if raw == "" then "" else (if Dropped(raw, 0) then "" else [raw[0]]) + Kept(raw[1..])
  }

  /** The code points `\s` stands for. */
  const SPACES: set<int> :=
    {9, 10, 11, 12, 13, 32, 160, 5760, 8192, 8193, 8194, 8195, 8196, 8197, 8198, 8199, 8200, 8201, 8202, 8232, 8233,
     8239, 8287, 12288, 65279}

  lemma SpaceCharacters(c: char)
    ensures IsSpace(c) <==> c as int in SPACES
  {
  }

  lemma {:induction false} UngroupedThenBare(s: string)
    ensures WithoutSpaces(Ungrouped(s)) == Kept(s)
  {
    hide IsSpace, IsDigit;
    if s != "" {
      UngroupedThenBare(s[1..]);
      assert Dropped(s, 0) <==> IsSpace(s[0]) || GroupsThousands(s);
      var rest := Ungrouped(s[1..]);
      assert "" + rest == rest && ([s[0]] + rest)[0] == s[0] && ([s[0]] + rest)[1..] == rest;
    }
  }

  lemma {:induction false} KeptAfterSpaces(s: string)
    ensures Kept(TrimStart(s)) == Kept(s)
  {
    hide IsSpace, IsDigit;
    if s != "" && IsSpace(s[0]) {
      KeptAfterSpaces(s[1..]);
    }
  }

  lemma DroppedBeforeSpace(s: string, c: char, i: nat)
    requires IsSpace(c) && i < |s|
    ensures Dropped(s + [c], i) <==> Dropped(s, i)
  {
    assert !IsDigit(c);
  }

  lemma {:induction false} KeptBeforeSpace(s: string, c: char)
    requires IsSpace(c)
    ensures Kept(s + [c]) == Kept(s)
  {
    hide Dropped;
    if s == "" {
      assert s + [c] == [c] && [c][1..] == "";
      SpaceIsDropped(c);
    } else {
      DroppedBeforeSpace(s, c, 0);
      assert (s + [c])[1..] == s[1..] + [c];
      KeptBeforeSpace(s[1..], c);
    }
  }

  lemma SpaceIsDropped(c: char)
    requires IsSpace(c)
    ensures Dropped([c], 0)
  {
  }

  lemma {:induction false} KeptBeforeSpaces(s: string)
    ensures Kept(TrimEnd(s)) == Kept(s)
  {
    hide IsSpace, Kept;
    if s != "" && IsSpace(s[|s| - 1]) {
      KeptBeforeSpaces(s[..|s| - 1]);
      KeptBeforeSpace(s[..|s| - 1], s[|s| - 1]);
      assert s == s[..|s| - 1] + [s[|s| - 1]];
    }
  }

  /** The positions from `from` on that stay, in order. */
  lemma {:induction false} KeptPositions(raw: string, from: nat) returns (at: seq<nat>)
    requires from <= |raw|
    ensures |at| == |Kept(raw[from..])|
    ensures forall k | 0 <= k < |at| :: from <= at[k] < |raw| && Kept(raw[from..])[k] == raw[at[k]]
    ensures forall j, k | 0 <= j < k < |at| :: at[j] < at[k]
    ensures forall i | from <= i < |raw| :: i in at <==> !Dropped(raw, i)
    decreases |raw| - from
  {
    hide Dropped;
    at := [];
    if from < |raw| {
      var rest := KeptPositions(raw, from + 1);
      DroppedInTail(raw, from);
      assert raw[from..][1..] == raw[from + 1..];
      at := if Dropped(raw, from) then rest else [from] + rest;
    }
  }

  lemma DroppedInTail(raw: string, from: nat)
    requires from < |raw|
    ensures Dropped(raw[from..], 0) <==> Dropped(raw, from)
  {
    hide IsSpace, IsDigit;
  }

  /**
   * Cleaning up drops the white space, and every comma or underscore that stands before exactly three digits; all else
   * stays, in order.
   */
  lemma CleanedDrops(raw: string) returns (at: seq<nat>)
    ensures |at| == |Cleaned(raw)| && forall k | 0 <= k < |at| :: at[k] < |raw| && Cleaned(raw)[k] == raw[at[k]]
    ensures forall j, k | 0 <= j < k < |at| :: at[j] < at[k]
    ensures forall i | 0 <= i < |raw| :: i in at <==> !Dropped(raw, i)
  {
    hide Kept, Dropped;
    UngroupedThenBare(TrimEnd(TrimStart(raw)));
    KeptBeforeSpaces(TrimStart(raw));
    KeptAfterSpaces(raw);
    at := KeptPositions(raw, 0);
    assert raw[0..] == raw;
  }

  // ---- the reasons

  /** A plus sign does not count. */
  function Unplussed(s: string): string {
    if s != "" && s[0] == '+' then s[1..] else s
  }

  ghost predicate ManyPoints(u: string) {
    exists i, j :: 0 <= i < j < |u| && IsPoint(u[i]) && IsPoint(u[j])
  }

  ghost predicate Stray(u: string) {
    exists i :: 0 <= i < |u| && !IsDigit(u[i]) && !IsPoint(u[i])
  }

  /** More than two characters after a decimal separator. */
  ghost predicate TooFine(u: string) {
    exists i :: 0 <= i && i + 3 < |u| && IsPoint(u[i])
  }

  lemma {:induction false} PointsCounted(u: string)
    ensures PointCount(u) > 0 <==> exists i :: 0 <= i < |u| && IsPoint(u[i])
    ensures PointCount(u) > 1 <==> ManyPoints(u)
  {
    hide IsPoint;
    if u != "" {
      var rest := u[1..];
      PointsCounted(rest);
      if IsPoint(u[0]) && PointCount(rest) > 0 {
        var i :| 0 <= i < |rest| && IsPoint(rest[i]);
        assert IsPoint(u[i + 1]);
      }
      if i :| 0 <= i < |rest| && IsPoint(rest[i]) {
        assert IsPoint(u[i + 1]);
      }
      if i, j :| 0 <= i < j < |rest| && IsPoint(rest[i]) && IsPoint(rest[j]) {
        assert IsPoint(u[i + 1]) && IsPoint(u[j + 1]);
      }
      if i, j :| 0 <= i < j < |u| && IsPoint(u[i]) && IsPoint(u[j]) {
        assert IsPoint(rest[j - 1]);
        assert i > 0 ==> IsPoint(rest[i - 1]);
      }
      if i :| 0 <= i < |u| && IsPoint(u[i]) {
        assert i > 0 ==> IsPoint(rest[i - 1]);
      }
    }
  }

  lemma {:induction false} NoneBeforePoint(u: string)
    ensures forall i | 0 <= i < BeforePoint(u) :: !IsPoint(u[i])
  {
    if u != "" && !IsPoint(u[0]) {
      NoneBeforePoint(u[1..]);
      forall i | 0 <= i < BeforePoint(u) ensures !IsPoint(u[i]) {
        assert i > 0 ==> u[i] == u[1..][i - 1];
      }
    }
  }

  /** Without a sign, in the order the checks are made. */
  lemma UnsignedRefusals(u: string)
    ensures ParseUnsigned(u) == Rejected(TwoSeparators) <==> ManyPoints(u)
    ensures ParseUnsigned(u) == Rejected(Incomplete) <==> u in {"", ".", ","}
    ensures ParseUnsigned(u) == Rejected(NotDigits) <==> !ManyPoints(u) && Stray(u)
    ensures ParseUnsigned(u) == Rejected(NoFraction) <==>
      !ManyPoints(u) && !Stray(u) && |u| > 1 && IsPoint(u[|u| - 1])
    ensures ParseUnsigned(u) == Rejected(TooPrecise) <==> !ManyPoints(u) && !Stray(u) && TooFine(u)
    ensures ParseUnsigned(u) !in {Rejected(Empty), Rejected(Negative)}
  {
    hide ValueOf, PadEnd;
    PointsCounted(u);
    NoneBeforePoint(u);
    assert |u| == 1 ==> u == [u[0]];
    if !ManyPoints(u) {
      OnePoint(u);
    }
  }

  /** With at most one separator, the parts are what stands before it and after it. */
  lemma OnePoint(u: string)
    requires !ManyPoints(u)
    ensures
      var at := BeforePoint(u);
      if at == |u| then
        (forall i | 0 <= i < |u| :: !IsPoint(u[i])) && (Stray(u) <==> !Digits(u)) && !TooFine(u)
      else
        && IsPoint(u[at]) && (Stray(u) <==> !Digits(u[..at]) || !Digits(u[at + 1..]))
        && (TooFine(u) <==> |u[at + 1..]| > 2)
        && (IsPoint(u[|u| - 1]) <==> u[at + 1..] == "")
  {
    var at := BeforePoint(u);
    NoneBeforePoint(u);
    if at < |u| {
      PointFound(u);
      forall i | at < i < |u| ensures !IsPoint(u[i]) {
      }
      if i :| 0 <= i < at && !IsDigit(u[..at][i]) {
        assert !IsDigit(u[i]) && !IsPoint(u[i]);
      }
      var fraction := u[at + 1..];
      if i :| 0 <= i < |fraction| && !IsDigit(fraction[i]) {
        assert !IsDigit(u[at + 1 + i]) && !IsPoint(u[at + 1 + i]);
      }
      if i :| 0 <= i < |u| && !IsDigit(u[i]) && !IsPoint(u[i]) {
        assert i < at ==> u[..at][i] == u[i];
        assert i > at ==> fraction[i - at - 1] == u[i];
      }
    }
  }

  /** A cleaned text that carries no minus sign and is more than a lone sign or separator. */
  predicate Signless(s: string) {
    s != "" && s[0] != '-' && s !in {"+", ".", ","}
  }

  /**
   * Every refusal and its reason, in terms of the cleaned text: nothing; only signs and separators; a minus sign; two
   * separators; something that is no digit; nothing after the separator; more than two digits after it; nothing but
   * zero; more than a browser can hold.
   */
  lemma RefusedFor(raw: string)
    ensures
      var (s, p) := (Cleaned(raw), Parse(raw));
      var u := Unplussed(s);
      && (p == Rejected(Empty) <==> s == "")
      && (p == Rejected(Incomplete) <==> s in {"-", "+", ".", ",", "+.", "+,"})
      && (p == Rejected(Negative) <==> |s| > 1 && s[0] == '-')
      && (p == Rejected(TwoSeparators) <==> Signless(s) && ManyPoints(u))
      && (p == Rejected(NotDigits) <==> Signless(s) && !ManyPoints(u) && Stray(u))
      && (p == Rejected(NoFraction) <==>
            Signless(s) && !ManyPoints(u) && !Stray(u) && |u| > 1 && IsPoint(u[|u| - 1]))
      && (p == Rejected(TooPrecise) <==> Signless(s) && !ManyPoints(u) && !Stray(u) && TooFine(u))
  {
    hide Cleaned, ParseUnsigned, ManyPoints, Stray, TooFine;
    var s := Cleaned(raw);
    UnsignedRefusals(Unplussed(s));
    assert "+."[1..] == "." && "+,"[1..] == "," && "+" + "." == "+." && "+" + "," == "+,";
    assert |s| == 1 ==> s == [s[0]];
    if s != "" && s[0] == '+' {
      assert s == "+" + s[1..];
    }
  }

  /** The last two reasons are about the amount that was read. */
  lemma RefusedForAmount(raw: string)
    ensures Parse(raw) == Rejected(NotPositive) <==>
      exists plus, whole, point, fraction ::
        Reads(Cleaned(raw), plus, whole, point, fraction) && Meaning(whole, fraction) == 0
    ensures Parse(raw) == Rejected(TooLarge) <==>
      exists plus, whole, point, fraction ::
        Reads(Cleaned(raw), plus, whole, point, fraction) && Meaning(whole, fraction) > MAX_SAFE_MINOR
  {
    hide Parse, Meaning, Cleaned, Reads;
    WeighedIffReads(raw, Rejected(NotPositive));
    WeighedIffReads(raw, Rejected(TooLarge));
    if plus, whole, point, fraction :|
      Reads(Cleaned(raw), plus, whole, point, fraction) && Meaning(whole, fraction) == 0
    {
      assert Weighed(Meaning(whole, fraction)) == Rejected(NotPositive);
    }
    if plus, whole, point, fraction :|
      Reads(Cleaned(raw), plus, whole, point, fraction) && Meaning(whole, fraction) > MAX_SAFE_MINOR
    {
      assert Weighed(Meaning(whole, fraction)) == Rejected(TooLarge);
    }
  }
}
