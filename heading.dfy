/**
 * The heading of the account screen: the identity's display name when one is
 * known, else the abbreviated address, else no heading at all
 * (`(store.identity?.name ?? addressFormatted).map { Text($0) }`).
 */
module Heading {
  import opened Wrappers
  import opened Store
  import opened Address

  /** The display name resolved for the account, if both identity and name exist. */
  function DisplayName(identity: Option<Identity>): (r: Option<Text>)
    ensures r.Some? <==> identity.Some? && identity.value.name.Some?
    ensures r.Some? ==> r.value == identity.value.name.value
  {
    match identity
    case None => None
    case Some(id) => id.name
  }

  /** The heading's text; `None` means the heading is not rendered. */
  function HeadingText(identity: Option<Identity>, session: Option<Session>): (r: Option<Text>)
    ensures identity.Some? && identity.value.name.Some? ==> r == identity.value.name
    ensures !(identity.Some? && identity.value.name.Some?) ==> r == AddressFormatted(session)
    ensures r.None? <==>
      (identity.None? || identity.value.name.None?) &&
      (session.None? || session.value.accounts == [])
  {
    match DisplayName(identity)
    case Some(name) => Some(name)
    case None => AddressFormatted(session)
  }

  /** With a connected account the heading is always rendered. */
  lemma HeadingShownWhenConnected(identity: Option<Identity>, s: Session)
    requires s.accounts != []
    ensures HeadingText(identity, Some(s)).Some?
  {
  }

  /**
   * A heading that is not the identity's name is the abbreviation of the first
   * account's address, so it holds the ellipsis after at most four characters.
   */
  lemma HeadingFallbackIsAbbreviated(identity: Option<Identity>, s: Session)
    requires s.accounts != []
    requires identity.None? || identity.value.name.None?
    ensures var h := HeadingText(identity, Some(s));
      var m := Min(VisibleChars, |s.accounts[0].address|);
      h.Some? && |h.value| == 3 + 2 * m && h.value[m..m + 3] == Ellipsis
  {
  }
}
