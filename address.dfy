/**
 * The abbreviated address shown in the account screen's heading: the first
 * four characters, an ellipsis, and the last four characters.
 */
module Address {
  import opened Wrappers
  import opened Store

  /** How many characters are kept at each end of the address. */
  const VisibleChars: nat := 4

  const Ellipsis: Text := "..."

  function Min(a: nat, b: nat): nat { if a <= b then a else b }

  /**
   * Swift's `prefix(n)`: the first `n` elements, or the whole string when it
   * is shorter.
   */
  function Prefix(s: Text, n: nat): (r: Text)
    ensures |r| == Min(n, |s|)
    ensures r == s[..Min(n, |s|)]
  {
    if n == 0 || s == [] then [] else [s[0]] + Prefix(s[1..], n - 1)
  }

  /**
   * Swift's `suffix(n)`: the last `n` elements, or the whole string when it
   * is shorter.
   */
  function Suffix(s: Text, n: nat): (r: Text)
    ensures |r| == Min(n, |s|)
    ensures r == s[|s| - Min(n, |s|)..]
  {
    if |s| <= n then s else Suffix(s[1..], n)
  }

  /** `String(address.prefix(4)) + "..." + String(address.suffix(4))`. */
  function Abbreviate(address: Text): (r: Text)
    ensures var m := Min(VisibleChars, |address|);
      && r == address[..m] + Ellipsis + address[|address| - m..]
      && |r| == 3 + 2 * m
      && r[m..m + 3] == Ellipsis
      && r[..m] == address[..m]
      && r[|r| - m..] == address[|address| - m..]
    ensures |address| <= VisibleChars ==> r == address + Ellipsis + address
  {
    Prefix(address, VisibleChars) + Ellipsis + Suffix(address, VisibleChars)
  }

  /**
   * `addressFormatted`: the abbreviation of the first account's address, or
   * `None` when there is no session or the session has no account.
   */
  function AddressFormatted(session: Option<Session>): (r: Option<Text>)
    ensures r.None? <==> session.None? || session.value.accounts == []
    ensures r.Some? ==> r.value == Abbreviate(session.value.accounts[0].address)
  {
    match ActiveAddress(session)
    case None => None
    case Some(address) => Some(Abbreviate(address))
  }

  /** Only the first account is consulted: later accounts never matter. */
  lemma AddressFormattedReadsOnlyFirst(s1: Session, s2: Session)
    requires FirstAccount(s1.accounts) == FirstAccount(s2.accounts)
    ensures AddressFormatted(Some(s1)) == AddressFormatted(Some(s2))
  {
  }

  // The example lemmas take their address through a `requires`: with the
  // literal written as an argument, the verifier unfolds `Prefix` and `Suffix`
  // on it step by step and the proof becomes far more expensive.

  /** A long address keeps its four-character ends around the ellipsis. */
  lemma AbbreviateLongAddress(a: Text)
    requires a == "0xABCDEF1234567890"
    ensures Abbreviate(a) == "0xAB...7890"
  {
  }

  /** An address of at most four characters appears whole on both sides. */
  lemma AbbreviateShortAddress(a: Text)
    requires a == "0x1"
    ensures Abbreviate(a) == "0x1...0x1"
  {
  }

  /** Between four and eight characters, the two halves overlap. */
  lemma AbbreviateOverlappingHalves(a: Text)
    requires a == "0xAB1"
    ensures Abbreviate(a) == "0xAB...xAB1"
  {
  }

  /**
   * The address can be told back from the abbreviation when it is at most
   * four characters long: it is the text before the ellipsis.
   */
  lemma AbbreviateRecoversShortAddress(a: Text, b: Text)
    requires |a| <= VisibleChars && |b| <= VisibleChars
    requires Abbreviate(a) == Abbreviate(b)
    ensures a == b
  {
  }
}
