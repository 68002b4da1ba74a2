/**
 * The parts of the shared `Store` that the account screen reads: the wallet
 * session with its accounts, and the resolved identity of the active account.
 */
module Store {
  import opened Wrappers

  /** A Swift `String` whose every element stands for one `Character`. */
  type Text = seq<char>

  datatype Account = Account(address: Text)

  /** A connected wallet session; `accounts` may be empty, as the source allows. */
  datatype Session = Session(accounts: seq<Account>)

  /** Resolved metadata for the active account; the display name may be absent. */
  datatype Identity = Identity(name: Option<Text>)

  /** Swift's `accounts.first`. */
  function FirstAccount(accounts: seq<Account>): (r: Option<Account>)
    ensures r.None? <==> accounts == []
    ensures r.Some? ==> r.value == accounts[0]
  {
    if accounts == [] then None else Some(accounts[0])
  }

  /** `session?.accounts.first?.address`: the address of the active account, if any. */
  function ActiveAddress(session: Option<Session>): (r: Option<Text>)
    ensures r.None? <==> session.None? || session.value.accounts == []
    ensures r.Some? ==> r.value == session.value.accounts[0].address
  {
    match session
    case None => None
    case Some(s) =>
      match FirstAccount(s.accounts)
      case None => None
      case Some(a) => Some(a.address)
  }
}
