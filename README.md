# Account screen logic of Web3Modal, in Dafny

`AccountView` is the SwiftUI screen a Web3Modal user sees once a wallet is
connected. Almost all of it is layout. This project models the few rules in it
that are logic, and proves what they promise:

- **Address abbreviation** (`addressFormatted`). The first account of the
  session is shown as its first four characters, `"..."`, and its last four.
  Swift's `prefix`/`suffix` clamp to the string's length, so a short address
  shows overlapping or repeated halves. There is no text when there is no
  session or no account.
- **Heading fallback.** The heading shows the identity's name, else the
  abbreviated address, else nothing.
- **Effects on appearance and on disconnect.** These are modelled as an ordered
  trace of requested effects. On appearance the balance is always requested,
  and the identity is requested only when none is cached. On disconnect the
  route becomes `connectWallet` before the session teardown starts. Errors from
  these calls are caught and logged. They never reach the caller.

Modules:

- `Wrappers`: Swift's `Optional`.
- `Store`: accounts, the session and the identity that the screen reads.
- `Address`: `Prefix`, `Suffix`, `Abbreviate` and `AddressFormatted`.
- `Heading`: the heading's text.
- `Effects`: routes, interactor calls, outcomes and effect traces. It defines
  the trace of each operation and the helpers that read a trace:
  `Count`, `Requests`, `WithoutLogs`, `Logs` (the messages logged, in order), and `RouteAfter` (the route a trace leads to).
- `Screen`: the class `AccountView`. It holds the store fields, the router's
  route and the effects requested so far. Its invariant `Valid()` says the
  route is always the one the recorded navigations lead to.

The interactor calls are not shown in the source. Each one is a `Request`
effect. How it ends (`Succeeded` or `Failed(description)`) is a parameter. A
failure adds one `Log` effect (the `print` in the `catch` block) and nothing
else. The view itself never writes `store.balance` or `store.identity`: the
interactors do that, and their code is not part of this model.

`onAppear` (Sources/Web3Modal/Screens/AccountView.swift:116-136) checks nothing
about the session. It always starts the balance fetch, and it starts the
identity fetch whenever no identity is cached, even when the session has no
account.

## Model

| member | source | states |
|---|---|---|
| `Store.FirstAccount` | Sources/Web3Modal/Screens/AccountView.swift:13 | `accounts.first` is absent exactly for an empty list, else it is element 0 |
| `Store.ActiveAddress` | Sources/Web3Modal/Screens/AccountView.swift:13 | `session?.accounts.first?.address` is absent exactly when there is no session or no account; otherwise it is the first account's address |
| `Address.Prefix` | Sources/Web3Modal/Screens/AccountView.swift:17 | Swift's `prefix(n)`, written as a take of up to `n` characters, is the slice `s[..min(n, \|s\|)]` and has that length |
| `Address.Suffix` | Sources/Web3Modal/Screens/AccountView.swift:17 | Swift's `suffix(n)`, written as a drop from the front, is the slice `s[\|s\| - min(n, \|s\|)..]` and has that length |
| `Address.Abbreviate` | Sources/Web3Modal/Screens/AccountView.swift:17 | with `m = min(4, \|a\|)`, the result is `a[..m] + "..." + a[\|a\|-m..]`; its length is `3 + 2m`; `"..."` starts at index `m`; its first and last `m` characters are those of the address; an address of at most 4 characters gives `a + "..." + a` |
| `Address.AddressFormatted` | Sources/Web3Modal/Screens/AccountView.swift:12-18 | the result is absent if and only if there is no session or the session has no account; otherwise it is the abbreviation of the first account's address |
| `Address.AddressFormattedReadsOnlyFirst` | Sources/Web3Modal/Screens/AccountView.swift:13-15 | two sessions whose `accounts.first` agree (both absent, or the same account) give the same result, so only `accounts.first` is consulted |
| `Address.AbbreviateLongAddress` | Sources/Web3Modal/Screens/AccountView.swift:17 | `"0xABCDEF1234567890"` becomes `"0xAB...7890"` |
| `Address.AbbreviateShortAddress` | Sources/Web3Modal/Screens/AccountView.swift:17 | `"0x1"` becomes `"0x1...0x1"`, so both halves clamp to the whole address |
| `Address.AbbreviateOverlappingHalves` | Sources/Web3Modal/Screens/AccountView.swift:17 | `"0xAB1"` becomes `"0xAB...xAB1"`, so the two halves overlap |
| `Address.AbbreviateRecoversShortAddress` | Sources/Web3Modal/Screens/AccountView.swift:17 | for addresses of at most 4 characters the abbreviation is injective |
| `Heading.DisplayName` | Sources/Web3Modal/Screens/AccountView.swift:32 | `store.identity?.name` is present exactly when the identity and its name both are, and is that name |
| `Heading.HeadingText` | Sources/Web3Modal/Screens/AccountView.swift:32-36 | the heading is the identity's name when there is one, otherwise `addressFormatted`; it is absent (no heading is rendered) if and only if there is no name and no session account |
| `Heading.HeadingShownWhenConnected` | Sources/Web3Modal/Screens/AccountView.swift:32-36 | with a session that has an account, a heading is always rendered |
| `Heading.HeadingFallbackIsAbbreviated` | Sources/Web3Modal/Screens/AccountView.swift:32 | without a name, the heading has length `3 + 2m` and holds `"..."` at index `m = min(4, \|address\|)` |
| `Effects.TaskEffects` | Sources/Web3Modal/Screens/AccountView.swift:117-123 | one task first requests its call; it adds a second effect, a `Log` of the error, if and only if the call failed |
| `Effects.AppearEffects` | Sources/Web3Modal/Screens/AccountView.swift:116-136 | the appearance trace starts with the balance request; with a cached identity it is the balance task alone |
| `Effects.DisconnectEffects` | Sources/Web3Modal/Screens/AccountView.swift:143-152 | the disconnect trace starts with navigation to `connectWallet`, followed by the teardown request |
| `Effects.TaskEffectsWithoutLogs` | Sources/Web3Modal/Screens/AccountView.swift:118-122 | whatever the outcome, a task's trace without logs is its single request, and that is its only request |
| `Effects.AppearRequests` | Sources/Web3Modal/Screens/AccountView.swift:117-135 | for every outcome, the calls requested on appearance are `[GetBalance, GetIdentity]` without a cached identity and `[GetBalance]` with one; the balance comes first, and a failure never stops the other fetch |
| `Effects.AppearFetchesBalanceOnce` | Sources/Web3Modal/Screens/AccountView.swift:117-123 | exactly one balance fetch per appearance, whatever is cached and however the calls end |
| `Effects.AppearFetchesIdentityIffUncached` | Sources/Web3Modal/Screens/AccountView.swift:125-135 | exactly one identity fetch when no identity is cached and none when one is |
| `Effects.AppearFailuresOnlyLog` | Sources/Web3Modal/Screens/AccountView.swift:117-135 | failed fetches only add log lines: without its logs, the trace equals the one where both calls succeed |
| `Effects.AppearKeepsRoute` | Sources/Web3Modal/Screens/AccountView.swift:116-136 | appearing never changes the route and never requests teardown |
| `Effects.DisconnectOrder` | Sources/Web3Modal/Screens/AccountView.swift:144-151 | navigation to `connectWallet` comes before the teardown request; teardown is the only call; a failing teardown only adds a log line |
| `Effects.DisconnectRouteStands` | Sources/Web3Modal/Screens/AccountView.swift:145-150 | from any route and for any teardown outcome, the route after disconnect is `connectWallet`: there is no rollback |
| `Effects.TaskEffectsLogs` | Sources/Web3Modal/Screens/AccountView.swift:120-122 | a task logs its error's description exactly when its call fails, and logs nothing else |
| `Effects.AppearLogs` | Sources/Web3Modal/Screens/AccountView.swift:117-135 | in the model's schedule, where each task runs to completion in the order it starts: the logs on appearance are the balance error if that fetch failed, then the identity error if no identity was cached and that fetch failed; nothing else is logged |
| `Effects.AppearLoggedErrors` | Sources/Web3Modal/Screens/AccountView.swift:117-135 | whatever order the tasks finish in, the errors logged on appearance are, as a multiset, the balance error if that fetch failed and the identity error if no identity was cached and that fetch failed |
| `Effects.DisconnectLogs` | Sources/Web3Modal/Screens/AccountView.swift:144-151 | `disconnect()` logs the teardown error if teardown failed, and nothing otherwise |
| `Screen.AccountView.constructor` | Sources/Web3Modal/Screens/AccountView.swift:4-8 | the screen starts with the given store fields and route, no effects, and `Valid()` |
| `Screen.AccountView.SetRoute` | Sources/Web3Modal/Screens/AccountView.swift:146 | `router.setRoute` sets the route, records one `Navigate`, keeps the store fields, the starting route and `Valid()` |
| `Screen.AccountView.RunTask` | Sources/Web3Modal/Screens/AccountView.swift:117-123 | a task appends exactly its `TaskEffects` and leaves the route unchanged; the screen itself writes no store field (the interactors' writes are not modelled); keeps `Valid()` |
| `Screen.AccountView.OnAppear` | Sources/Web3Modal/Screens/AccountView.swift:116-136 | appends exactly `AppearEffects` of the identity cached at appearance and leaves the route unchanged; the screen itself writes no store field (the interactors' writes are not modelled); keeps `Valid()` |
| `Screen.AccountView.Disconnect` | Sources/Web3Modal/Screens/AccountView.swift:143-152 | the route becomes `connectWallet` and stays so whatever the teardown outcome; appends exactly `DisconnectEffects`; keeps `Valid()` |

## Left out

- Layout, styling, images, spacing, chain icons and the close button with its animation (Sources/Web3Modal/Screens/AccountView.swift:20-115, 137-162): presentation only.
- The select-network button's `router.setRoute(.selectChain)` (Sources/Web3Modal/Screens/AccountView.swift:84): a plain UI action; `SetRoute` covers the router call itself.
- The copy-to-clipboard button (Sources/Web3Modal/Screens/AccountView.swift:39) and the block-explorer link with its force-unwrapped `URL` (Sources/Web3Modal/Screens/AccountView.swift:63): platform I/O and foreign calls.
- `Double.roundedDecimal` and the balance text (Sources/Web3Modal/Screens/AccountView.swift:52-54, 165-171): floating-point and `Decimal` conversion in a foreign library. `store.balance` is kept as an `Option<real>` field that the screen never changes.
- Swift `Task` concurrency: each trace runs the tasks to completion in the order they start. So a `Log` from the balance task may in reality come after the identity request, or after the identity task's own `Log`.
- Effects.AppearLogs: the balance error before the identity error is an order of the model's sequential schedule, not one the program promises; `AppearLoggedErrors` states the order-free fact.
- The code of `BlockchainAPIInteractor.getBalance/getIdentity`, `SignInteractor.disconnect`, `Router` and `Store` is not part of this model. Their calls are trace effects with an outcome given as a parameter, and the store writes they make are not modelled.
- Swift strings are sequences of `Character` (grapheme clusters). The model takes each `char` to stand for one `Character` and does no Unicode segmentation.
