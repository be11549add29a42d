# Stackup account service and web client: a verified model of its core rules

Stackup is a smart-contract wallet service. The backend keeps a users collection and a
wallets collection (one wallet per user). The web client keeps the session alive, logs
out by clearing all its stores, offers a search box, and tracks account recovery through
a status channel. This project models, in Dafny, the rule sets that decide what these
parts do:

- `Documents` (`documents.dfy`): dynamically typed documents (`map<string, Value>`),
  projections, and the `findOne` (first match in natural order) and filter primitives that
  the queries are built from.
- `WalletModel` (`wallet_model.dfy`): the wallet schema. Every string path is first trimmed
  the way ECMAScript `String.prototype.trim` does it, then checked by the `required`
  validator, then by its custom validator. Issues are reported per path. The module also
  models the wallets collection with its unique `user` index, `alreadyCreated`, and the
  insert that validates before it checks uniqueness.
- `UserService` (`user_service.dfy`): the read functions, the address lookups (a
  `$lookup`, then a `$match`, then a projection), the populate projections for login and
  recovery, and the patch-then-unset merge. The class `UserDirectory` holds the two
  collections and performs the create, update and delete operations on them.
- `Auth` (`auth.dfy`): the session check run on every refresh-token change, the timer
  tick, and the logout closure. `CheckEffects` is the effect sequence one check produces.
  The class `AuthHook` holds `isFirst` and the effects performed so far, and its methods
  are proved against `CheckEffects`.
- `Search` (`search.dfy`): the search box as a class with `value`, `debounce` and the
  callbacks made so far. It covers the `[value]` effect and the four handlers.
- `RecoverConfirm` (`recover_confirm.dfy`): the pure mapping from a channel message to
  its toast and effects, and the page class that runs the channel callback, the
  missing-operations redirect and the confirm submission.

These things become parameters of the model:

- the external validation library (`isEthereumAddress`, `isBase64`);
- the username blacklist;
- the JWT expiry check;
- fresh object ids and the clock;
- whether each awaited remote call rejects.

## Model

| member | source | states |
|---|---|---|
| Documents.Project | apps/backend/src/services/user.service.js:44 | an inclusion keeps exactly the named fields that exist, an exclusion keeps exactly the others; values are copied unchanged |
| Documents.FindFirst | apps/backend/src/services/user.service.js:53 | `findOne` in natural order: the index found satisfies the filter and no earlier one does; none is found exactly when no element matches |
| Documents.Filter | apps/backend/src/services/user.service.js:73 | the `$match` stage keeps exactly the elements that satisfy the filter |
| Documents.FilterIsSubsequence | apps/backend/src/services/user.service.js:66-74 | the aggregate keeps its input's relative order |
| WalletModel.TrimStart | apps/backend/src/models/wallet.model.js:16 | the result is no longer than the input and does not start with whitespace |
| WalletModel.TrimEnd | apps/backend/src/models/wallet.model.js:16 | the result is no longer than the input, keeps its first character and does not end with whitespace |
| WalletModel.Trim | apps/backend/src/models/wallet.model.js:16 | a trimmed value neither starts nor ends with an ECMAScript whitespace or line terminator |
| WalletModel.TrimStartDropsPrefix | apps/backend/src/models/wallet.model.js:16 | removing leading whitespace removes a prefix consisting only of whitespace and keeps the rest exactly |
| WalletModel.TrimEndDropsSuffix | apps/backend/src/models/wallet.model.js:16 | removing trailing whitespace removes a suffix consisting only of whitespace and keeps the rest exactly |
| WalletModel.TrimKeepsInfix | apps/backend/src/models/wallet.model.js:16 | the trimmed value is a contiguous part of the input with only whitespace around it |
| WalletModel.TrimStartSkipsPadding | apps/backend/src/models/wallet.model.js:16 | whitespace in front of a value without leading whitespace is exactly what is removed |
| WalletModel.TrimEndSkipsPadding | apps/backend/src/models/wallet.model.js:16 | whitespace after a value without trailing whitespace is exactly what is removed |
| WalletModel.TrimPadded | apps/backend/src/models/wallet.model.js:13-74 | any unpadded value wrapped in any whitespace trims back to that value |
| WalletModel.TrimIdempotent | apps/backend/src/models/wallet.model.js:16 | trimming a stored (trimmed) value again changes nothing |
| WalletModel.Check | apps/backend/src/models/wallet.model.js:13-22 | a path fails `required` exactly when it is missing or empty after trimming; otherwise it fails with the path's message exactly when the check on the trimmed value fails |
| WalletModel.PathsOf | apps/backend/src/models/wallet.model.js:5-75 | the validated paths: the six scalar fields and one path per guardian index |
| WalletModel.IssueOf | apps/backend/src/models/wallet.model.js:5-75 | each path's validators: `user` required, the four addresses and each guardian checked as addresses, the signer checked as base64 |
| WalletModel.Issues | apps/backend/src/models/wallet.model.js:5-75 | the error map has an entry for exactly those paths (scalar fields and each guardian index) whose validators fail, holding that path's issue |
| WalletModel.IssuesPathByPath | apps/backend/src/models/wallet.model.js:5-75 | an issue is reported at a path exactly when that field fails: no user, a string field that is missing, empty once trimmed or rejected by its check, or a failing guardian element |
| WalletModel.AcceptableHasNoIssueAt | apps/backend/src/models/wallet.model.js:5-75 | an input meeting every field's condition has no issue at any path |
| WalletModel.Acceptable | apps/backend/src/models/wallet.model.js:5-75 | the field-by-field acceptance condition: the user present, the four addresses and every guardian valid addresses after trimming, the signer valid base64 after trimming |
| WalletModel.NoIssuesIffAcceptable | apps/backend/src/models/wallet.model.js:5-75 | validation reports no issue if and only if the user is present, the four addresses and every guardian pass the address check after trimming, and the signer passes the base64 check |
| WalletModel.TrimAll | apps/backend/src/models/wallet.model.js:53-64 | guardians are trimmed element by element, keeping their number and order |
| WalletModel.Validate | apps/backend/src/models/wallet.model.js:5-79 | success exactly for acceptable input; the stored wallet holds every string trimmed, the guardians trimmed in their order, and both timestamps set to the clock; a failure reports exactly the issue map of `Issues` (every failing path with its `Required` or message issue), never an empty one |
| WalletModel.PaddedAddressStoredTrimmed | apps/backend/src/models/wallet.model.js:13-22 | a valid address given with surrounding whitespace is accepted and stored without that whitespace |
| WalletModel.AlreadyCreated | apps/backend/src/models/wallet.model.js:90-93 | true exactly when some stored wallet belongs to the user |
| WalletModel.UniqueUsers | apps/backend/src/models/wallet.model.js:11 | the unique index on `user`: no two stored wallets belong to the same user |
| WalletModel.ValidStore | apps/backend/src/models/wallet.model.js:7-12 | the collection invariant: distinct object ids and one wallet per user |
| WalletModel.Insert | apps/backend/src/models/wallet.model.js:7-12 | invalid input fails with the validation error holding exactly its issues, before the unique check; valid input for a user that has a wallet fails with a duplicate key on `user`; otherwise the wallet is appended, the store keeps distinct ids and one wallet per user, and the user now has a wallet |
| WalletModel.SecondWalletRefused | apps/backend/src/models/wallet.model.js:11 | after one wallet is saved for a user, saving a second one for the same user fails, whatever its fields |
| WalletModel.WalletDoc | apps/backend/src/models/wallet.model.js:5-79 | a stored wallet document has exactly the schema's fields plus `_id` and the timestamps |
| UserService.UserDoc | apps/backend/src/services/user.service.js:18 | a created document carries its fields and its id under `_id` |
| UserService.IsUsernameTaken | apps/backend/src/services/user.service.js:12 | the username is taken exactly when some stored user has it |
| UserService.Populate | apps/backend/src/services/user.service.js:44 | only the `wallet` field changes: a reference is replaced by the projection of the first stored wallet with that id, or by null when there is none, and a document without a reference is unchanged |
| UserService.PopulatedWallet | apps/backend/src/services/user.service.js:44 | what a populate puts in place of a wallet reference: the first stored wallet with that id, projected, or null |
| UserService.GetUserById | apps/backend/src/services/user.service.js:43-45 | nothing exactly when no user has the id; otherwise that user's fields and `_id`, with its own referenced wallet shown without `_id`, `user` and `updatedAt` (null when that wallet is not stored); a user without a wallet reference is returned as stored |
| UserService.GetUserByUsername | apps/backend/src/services/user.service.js:52-54 | nothing exactly when no user has the name; otherwise the first stored user with that name |
| UserService.GetUserByUsernameWithWallet | apps/backend/src/services/user.service.js:61-63 | found exactly when the plain lookup finds the user; same fields, with that user's own referenced wallet populated as `getUserById` does |
| UserService.GetUsersByWalletAddress | apps/backend/src/services/user.service.js:65-75 | one entry per matching user, in order, each holding only that user's `_id` and username; a user is in the match exactly when its wallet's address is listed |
| UserService.LinkedTo | apps/backend/src/services/user.service.js:66-73 | the `$lookup` of a user's wallet reference followed by the `$match`: some stored wallet with that id has one of the addresses |
| UserService.Matching | apps/backend/src/services/user.service.js:66-73 | the users that survive the `$match`, in natural order |
| UserService.LookupByAddressIsExact | apps/backend/src/services/user.service.js:65-75 | a stored user's id appears in the result if and only if the user's wallet address is one of the given addresses |
| UserService.SameIdSameUser | apps/backend/src/services/user.service.js:65-75 | with distinct ids, a matched user with a stored user's id is that stored user |
| UserService.GetUsersByWalletAddressAndPopulate | apps/backend/src/services/user.service.js:77-88 | one entry per matching user, in order: its username, its own wallet reduced to that wallet's `walletAddress` (one of the listed addresses), and its `_id` if and only if `withUserId` is set (by default it is not) |
| UserService.LinkedWalletFound | apps/backend/src/services/user.service.js:79-85 | the wallet that a matched user's populate finds is the one whose address matched |
| UserService.PopulatedMatch | apps/backend/src/services/user.service.js:86-87 | a single populated entry holds no fields other than `username`, `wallet` and optionally `_id`, and its wallet is `{walletAddress}` holding the address of the wallet the user refers to |
| UserService.GetWalletForLogin | apps/backend/src/services/user.service.js:95-102 | NOT_FOUND "User not found" exactly when the username is unknown; otherwise only `username` and `wallet`, the wallet being `{encryptedSigner}` with the signer of the wallet that user refers to (null when it is not stored); a user without a wallet reference gets `{username}` alone |
| UserService.SignerViewOfWallet | apps/backend/src/services/user.service.js:96 | the login populate of a stored wallet is exactly `{encryptedSigner}` with that wallet's signer |
| UserService.AddressViewOfWallet | apps/backend/src/services/user.service.js:86-87 | the address populate of a stored wallet is exactly `{walletAddress}` with that wallet's address |
| UserService.GetWalletForRecovery | apps/backend/src/services/user.service.js:109-119 | NOT_FOUND "User not found" exactly when the username is unknown; otherwise only `username` and `wallet`, the wallet being the recovery view of the wallet that user refers to (null when it is not stored); a user without a wallet reference gets `{username}` alone |
| UserService.LoginViewIsSignerOnly | apps/backend/src/services/user.service.js:96 | the login view of a wallet is its encrypted signer and nothing else |
| UserService.RecoveryViewHidesSigner | apps/backend/src/services/user.service.js:110-113 | the recovery view is the addresses, guardians and creation time, and never the encrypted signer |
| UserService.UnsetKeys | apps/backend/src/services/user.service.js:135-137 | the reduce collects exactly the listed names |
| UserService.SplitUpdate | apps/backend/src/services/user.service.js:132 | an `unset` that is not an array is a TypeError; otherwise the patch is the body without `unset`, and the names default to the empty list |
| UserService.Merge | apps/backend/src/services/user.service.js:133-138 | every unset name ends up absent even if patched; every other patched field takes the patch value; every other field is unchanged |
| UserService.UnsetKeyNeverWritten | apps/backend/src/services/user.service.js:132-138 | the key `unset` never receives a value from an update body |
| UserService.UnsetWinsOverPatch | apps/backend/src/services/user.service.js:132-138 | a patch `{a: 1}` with `unset: [a, b]` leaves `a` and `b` absent and every other field present with its old value |
| UserService.UserDirectory.CreateUser | apps/backend/src/services/user.service.js:11-19 | a taken username fails with BAD_REQUEST "Username already taken" even when it is also blacklisted; a free but blacklisted one fails with BAD_REQUEST "That username is not allowed"; both leave the users unchanged; otherwise exactly one user with the body is appended and returned |
| UserService.UserDirectory.UpdateUserById | apps/backend/src/services/user.service.js:127-142 | an unknown id fails with NOT_FOUND and changes nothing; a non-array `unset` fails and changes nothing; otherwise only that user changes, by the merge, and the merged view is returned |
| UserService.UserDirectory.DeleteUserById | apps/backend/src/services/user.service.js:149-156 | an unknown id fails with NOT_FOUND and changes nothing; otherwise exactly that user is removed, the others stay in order, and the removed user is returned as `getUserById` saw it |
| UserService.UserDirectory.constructor | apps/backend/src/services/user.service.js:2 | the directory starts from users with distinct ids and a valid wallets collection |
| Auth.LogoutClearsEveryStoreFirst | apps/web/src/hooks/auth.js:55-67 | the logout clears search, activity, wallet, onboard, recover, notification, update, history, apps and pusher in that order, each once, and only then calls the account logout |
| Auth.IsLoggedOut | apps/web/src/hooks/auth.js:78 | a session is logged out when it holds no refresh token |
| Auth.RefreshTokenExpired | apps/web/src/hooks/auth.js:79 | the expiry check applied to the refresh token, or to undefined when there is none |
| Auth.AccessTokenExpired | apps/web/src/hooks/auth.js:80 | the expiry check applied to the access token, or to undefined when there is none |
| Auth.NotOnAuthPage | apps/web/src/hooks/auth.js:31-40 | the login page is never outside the exempt set, while the home page and every other path are |
| Auth.OnLoginPage | apps/web/src/hooks/auth.js:82 | the current route is the login page |
| Auth.ShouldRefresh | apps/web/src/hooks/auth.js:83 | the tick guard holds only for sessions that have a refresh token that has not expired, so the session check would not log them out |
| Auth.CheckEffects | apps/web/src/hooks/auth.js:86-104 | the effect sequence of one check, branch by branch as `authCheck` takes them; its properties are the lemmas below and the `AuthCheck` method is proved against it |
| Auth.CheckEffectsStayInBounds | apps/web/src/hooks/auth.js:86-104 | for every input, LOGIN is pushed only off the exempt routes, HOME only from LOGIN on a later check, a refresh only with a valid refresh token; the check never enables the account or starts app sessions itself |
| Auth.NextIsFirst | apps/web/src/hooks/auth.js:76-95 | `isFirst` can only stay true or turn false, and it turns false on any check that reaches a valid refresh token |
| Auth.LoggedOutOnlyRedirects | apps/web/src/hooks/auth.js:78-89 | without a refresh token the check neither refreshes nor logs out, and it pushes LOGIN exactly when the path is outside the exempt set |
| Auth.ExpiredLogsOutBeforeRedirect | apps/web/src/hooks/auth.js:90-103 | with an expired refresh token the whole logout comes first and any LOGIN push after it; a rejected logout is followed by exactly a second logout and by no push |
| Auth.FirstCheckRefreshesOnce | apps/web/src/hooks/auth.js:76-95 | the first check with a valid refresh token refreshes exactly once, pushes nothing and clears `isFirst` |
| Auth.LaterCheckRefreshesWhenExpired | apps/web/src/hooks/auth.js:96-103 | a later check refreshes exactly when the access token has expired, pushes HOME exactly when on LOGIN and that refresh did not reject, and logs out exactly when it did |
| Auth.NoLoginRedirectFromLogin | apps/web/src/hooks/auth.js:31-40 | no check pushes LOGIN while on LOGIN |
| Auth.FailedRefreshLogsOut | apps/web/src/hooks/auth.js:93-103 | a rejected refresh is always followed by a complete logout that ends the check |
| Auth.AuthHook.constructor | apps/web/src/hooks/auth.js:76 | a new hook starts with `isFirst` set and nothing done |
| Auth.AuthHook.Logout | apps/web/src/hooks/auth.js:55-67 | performs exactly the logout sequence and passes on the account logout's rejection |
| Auth.AuthHook.AuthCheck | apps/web/src/hooks/auth.js:86-104 | performs exactly the effects of the check for its inputs and updates `isFirst` as the check does; `isFirst` never becomes true again |
| Auth.AuthHook.OnRefreshTokenChange | apps/web/src/hooks/auth.js:106-110 | the check, then `enableAccount` in every case, then `initAppSessions` with the wallet's address exactly when a wallet is loaded |
| Auth.AuthHook.Tick | apps/web/src/hooks/auth.js:113-121 | a tick refreshes exactly when both tokens exist and the refresh token has not expired |
| Search.SearchCalls | apps/web/src/components/search.js:34-36 | a search makes at most one call: `onSearch` with the value, exactly when the value is non-empty and the callback exists |
| Search.EffectCalls | apps/web/src/components/search.js:22-26 | one run of the effect makes at most one call, `onClear`, exactly when the value is empty, debounce is set and the callback exists |
| Search.NoEmptySearchAppend | apps/web/src/components/search.js:34-36 | the property "no empty query was passed on" survives appending more calls |
| Search.SearchBox.constructor | apps/web/src/components/search.js:19-28 | after mounting, the value is empty and debounce is set, and `onClear` has not been called |
| Search.SearchBox.ValueEffect | apps/web/src/components/search.js:22-28 | on an empty value, a set debounce calls `onClear` (when given) and an unset one is set; a non-empty value changes nothing |
| Search.SearchBox.SetValue | apps/web/src/components/search.js:19-28 | the effect runs only when the value changes; debounce stays set |
| Search.SearchBox.OnChangeHandler | apps/web/src/components/search.js:38-40 | the value becomes the input text; `onClear` is called exactly when a non-empty value becomes empty |
| Search.SearchBox.ClearHandler | apps/web/src/components/search.js:30-32 | the value becomes empty; `onClear` is called exactly when it was non-empty |
| Search.SearchBox.SearchHandler | apps/web/src/components/search.js:34-36 | makes exactly the search calls of the current value; no empty query is ever passed on |
| Search.SearchBox.HandleKeyDown | apps/web/src/components/search.js:42-46 | Enter runs the search path, and every other key does nothing |
| RecoverConfirm.StatusTextInjective | apps/backend/src/config/transaction.js:20-24 | the three transaction statuses have distinct wire names |
| RecoverConfirm.StatusText | apps/backend/src/config/transaction.js:20-24 | the wire names `pending`, `success` and `failed` |
| RecoverConfirm.HashText | apps/web/pages/recover/confirm.js:40 | the hash is inserted as given, and an absent one reads "undefined" |
| RecoverConfirm.ExplorerTxUrl | apps/web/pages/recover/confirm.js:40 | the explorer link: the explorer base, `/tx/`, then the hash text |
| RecoverConfirm.StatusToast | apps/web/pages/recover/confirm.js:29-54 | success gives "Account recovery success", kind success and a LOGIN redirect on close; any other status gives "Account recovery fail", kind error, the explorer link of the hash and no redirect; always top-right, 5000 ms, closable |
| RecoverConfirm.PendingShowsFailure | apps/web/pages/recover/confirm.js:30-53 | a pending status is shown as a failed recovery with no redirect |
| RecoverConfirm.ChannelEffects | apps/web/pages/recover/confirm.js:28-57 | each message shows its toast first, logs the success event exactly on success, completes exactly once at the end, and never navigates by itself |
| RecoverConfirm.RedeliveryRepeatsEffects | apps/web/pages/recover/confirm.js:28-57 | a message delivered twice shows two toasts and completes twice |
| RecoverConfirm.ConfirmPage.OnChannelMessage | apps/web/pages/recover/confirm.js:28-57 | performs exactly the message's effects |
| RecoverConfirm.ConfirmPage.OnToastClosed | apps/web/pages/recover/confirm.js:52-53 | closing a toast navigates exactly when it carries a redirect, and to that route |
| RecoverConfirm.ConfirmPage.OnUserOperationsChange | apps/web/pages/recover/confirm.js:63-69 | missing user operations redirect to RECOVER_LOOKUP; any array, even an empty one, does not |
| RecoverConfirm.ConfirmPage.OnConfirmTransaction | apps/web/pages/recover/confirm.js:71-82 | the confirm call comes first; only if it resolves are the CONFIRM event and then the "Recovery initiated" info toast produced; a rejection produces neither and propagates |
| RecoverConfirm.ConfirmPage.constructor | apps/web/pages/recover/confirm.js:17-26 | the page starts with the configured explorer and nothing done |

## Left out

- `queryUsers` (apps/backend/src/services/user.service.js:33-36) is only a call to the pagination plugin. That plugin is not part of this model.
- The User schema is not part of this model. `isUsernameTaken` is taken to be an existence query on `username`. No field of a user document is validated.
- Mongoose casting and strict mode are not modelled. The `__v` version key, the `toJSON` plugin and the immutability of `_id` under `Object.assign` are not modelled either. An update body is applied as given.
- `save` and `remove` are modelled as replacing or removing the record in the collection. None of the database calls fails.
- Fresh object ids, the clock, and whether each awaited remote call rejects are parameters. Nothing is random or timed.
- `isEthereumAddress`, `isBase64`, the username blacklist and the JWT `isExpired` check belong to libraries or configuration that are not part of this model. They are parameters.
- React scheduling is not modelled: re-renders, effect timing, stale closures, the `setInterval` period and its cleanup. One effect run is one method call, and `REFRESH_INTERVAL_MS` is only a constant.
- `router.prefetch` (apps/web/pages/recover/confirm.js:59-61), `console.error`, the rendered JSX and the toast's visual props are left out, apart from the text, kind, position, duration and close handler.
- Auth.AuthHook.OnRefreshTokenChange: assumes that `enableAccount` resolves. If it rejected, `initAppSessions` would not run.
- Router pushes are not awaited in the source. The model treats them as effects that always take place.
- The race between the timer's refresh and the token-change check is concurrency and is not modelled.
- A path outside the named routes is `Page(path)`. The model assumes such a path never spells one of the named routes.
- The recovery relay is not part of this model: building user operations, signing, submitting, and delivering on the channel. Neither are `apps/web/src/components/lookup.js` or the contract scripts.
- The function-signature tables of `apps/backend/src/config/transaction.js` are static data. Only its status values are mirrored, as `TxStatus`.
- The web client's `txStatus` table (`apps/web/src/utils/transaction`) is not part of this model; its `success` value is taken to be "success", as in the backend's status table.
- The User model and its `remove` middleware are not part of this model.
- RecoverConfirm.ConfirmPage.OnUserOperationsChange: treats `userOperations` only as present or absent, since the page looks at nothing else.

## Behaviour worth noting

- Both `createUser` refusals raise BAD_REQUEST (apps/backend/src/services/user.service.js:12-17).
- `deleteUserById` removes only the user document; the service does not delete the linked wallet (apps/backend/src/services/user.service.js:149-156). Hooks of the User model that `remove` may run are not modelled.
- The channel callback does not deduplicate: a message delivered twice shows two toasts and completes twice (`RecoverConfirm.RedeliveryRepeatsEffects`), and leads to two redirects once both toasts close.
- The callback treats every status other than `success` as a failure, `pending` included.
