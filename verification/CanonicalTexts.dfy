/** The canonical text of a request read field by field: what was hashed can be told from the text alone. */
module CanonicalTexts {
  import opened Cursors
  import opened Identifiers
  import opened Money
  import opened RequestIdentity
  import opened Requests
  import opened Results
  import opened Texts

  function ReadInt(s: string): Option<int> {
    if s == "" then None
    else if s[0] == '-' then
      var size: int := ValueOf(s[1..]);
      if Digits(s[1..]) then Some(-size) else None
    else if Digits(s) then Some(ValueOf(s)) else None
  }

  /** Source, destination, minor units and currency, in this order, behind one another's separators. */
  function ReadTransfer(s: string): Option<(Uuid, Uuid, int, string)> {
    var (source, afterSource) :- SplitFirst(s);
    var (destination, afterDestination) :- SplitFirst(afterSource);
    var (amount, currency) :- SplitFirst(afterDestination);
    var sourceId :- ParseUuid(source);
    var destinationId :- ParseUuid(destination);
    var minor :- ReadInt(amount);
    Some((sourceId, destinationId, minor, currency))
  }

  lemma IntTextReads(n: int)
    ensures ReadInt(IntText(n)) == Some(n)
    ensures n > 0 ==> IntText(n)[0] != '0'
  {
    NatTextDigits(if n < 0 then -n else n);
    if n < 0 {
      assert IntText(n)[1..] == NatText(-n);
    } else {
      NoLeadingZero(n);
    }
  }

  lemma {:induction false} NoLeadingZero(n: nat)
    ensures n > 0 ==> NatText(n)[0] != '0'
  {
    if n >= 10 {
      NoLeadingZero(n / 10);
      NatTextDigits(n / 10);
    }
  }

  /** A transfer's canonical text gives back exactly its four fields. */
  lemma TransferTextReads(r: Request)
    requires r.TransferRequest?
    ensures ReadTransfer(r.Canonical()) == Some((r.source, r.destination, r.amount.amount, r.amount.currency))
  {
    hide UuidText, IntText, ParseUuid, SplitFirst, ReadInt;
    var last := IntText(r.amount.amount) + "|" + r.amount.currency;
    UuidTextParts(r.source);
    UuidTextParts(r.destination);
    IntTextIsBare(r.amount.amount);
    assert r.Canonical() == UuidText(r.source) + "|" + (UuidText(r.destination) + "|" + last);
    SplitJoined(UuidText(r.source), UuidText(r.destination) + "|" + last);
    SplitJoined(UuidText(r.destination), last);
    SplitJoined(IntText(r.amount.amount), r.amount.currency);
    ParseUuidUuidText(r.source);
    ParseUuidUuidText(r.destination);
    IntTextReads(r.amount.amount);
  }

  /** A reversal's canonical text is the id of the transfer it names. */
  lemma ReversalTextReads(r: Request)
    requires r.RevertRequest?
    ensures ParseUuid(r.Canonical()) == Some(r.transferId)
  {
    ParseUuidUuidText(r.transferId);
  }
}
