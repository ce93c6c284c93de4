# Enroller service: verified model

The repository is an enrolment service. It keeps users in a PostgreSQL table, registers and enrols
them with a Fabric certificate authority, keeps the certificate material of each user (the MSP) in a
path-keyed secret store, hands out access and refresh tokens, and shuts down on signals. This project
models the parts that have real state, concurrency or arithmetic and proves what they keep.

| file | what it models |
|---|---|
| `Signals.dfy` | `HandleSignals` and `ManageServer` as step systems with channels, goroutines and handlers |
| `Text.dfy`, `Base64.dfy`, `Paths.dfy` | splitting and joining text; base64; request paths and what the client library makes of them |
| `MspVault.dfy`, `MspService.dfy` | the secret store, the directory walk, reading a directory back, and the three calls of the vault service |
| `MspProperties.dfy` | what storing, reading and removing mean for what a user gets back |
| `MspIsolation.dfy` | what a user sees of the store, and which calls change what it gets |
| `Sharing.dfy` | which user names can name the same secret, and so change each other's answers |
| `Transactions.dfy` | a database session with one transaction, and `BulkUpdate` |
| `IndexText.dfy`, `Indices.dfy` | the text of a CREATE INDEX statement and a reader for it; `EnsureIndices` and `DropIndices` |
| `Queries.dfy` | `Aggregate`, `List` and `FindOne` over maps with no fixed order; pages |
| `Decimal.dfy`, `Tokens.dfy` | 64-bit ids as decimal text; minting, parsing, the role gate and refreshing; runs of all of these |
| `Accounts.dfy` | lookup, insert, registration, sign-up and login, one call at a time |
| `Enrolment.dfy` | sign-up, registration and enrolment as interleaved steps of any number of clients |

Every call into the database, the secret store or the certificate authority may fail, with a choice
the model leaves open; `reliable` marks a connection that does not fail for reasons of its own.
Clock readings, random text, password hashes and the handlers' results are parameters or free choices.

## What came out

- `HandleSignals` can block for ever. From a reachable state it can still return exactly when its loop
  does not owe a forced result to a channel that is already full (`Signals.CanReturnIff`); that takes
  a force handler and two signals (`Signals.DoomReachableIff`).
- Its comment promises the error of the handler that returned first. The code gives the first value
  sent; the two agree exactly without a force handler or with at most one signal
  (`Signals.ReturnsFirstFinishedIff`).
- `RemoveUserMSP` takes away nothing that `GetUserMsp` returns (`MspIsolation.RemoveThenServable`).
- A failed read of the revocation key is taken for its absence, so `GetUserMsp` can succeed without
  a key that is there (`VaultServices.VaultService.GetUserMsp`).
- Handlers take any user name, and not all names are apart: two of them can name the same secret
  exactly when they lead to one place, or one of the three directories of one leads into the other
  (`Sharing.ShareIff`), and exactly then a store for one can change what the other gets
  (`Sharing.StoreDisturbsIff`). Two ordinary names never do; but every name that has files in the
  engine shares them with some other name (`Sharing.SharesIff`), "" and "." with ordinary ones
  (`Sharing.UnusualNamesShare`). A name can climb past the version prefix of the request and back
  (`Sharing.PastVersion`). On a server with this engine only, a name that leaves the engine's data
  with ".." never gets an answer (`MspIsolation.ClimbingNeverServed`).
- A CREATE INDEX statement leaves its definition open exactly when there is a condition, no storage
  parameters, and a TABLESPACE clause at the end, be it the definition's own or the end of its
  condition (`IndexText.AmbiguousIff`).
- Pages put together give the whole answer exactly if the sort order leaves no ties
  (`Paging.PagingIff`).
- The user id the role gate forwards is the token's own id, which access tokens do not have, so
  `RegisterUser` behind the gate always sees an empty one (`TokenRuns.GatePassed`,
  api/middleware/role_checker.go:26, api/users.go:122).
- Every user lookup asks for a relation the user model does not have (internal/repo/user.go:37,
  model/user.go:22), which the vendored ORM reports as an error after it has filled the user in. A
  first lookup that finds the phone has its error dropped; a lookup by email or by id never yields
  a user. So on a healthy database `Login` takes phones only, `SSOLogin` an email only if it is
  some user's phone, and the handlers `Enroll` and `RegisterUser` always fail (`Accounts.UserService.Login`,
  `Accounts.UserService.SSOLogin`, `Accounts.UserRepo.GetUserById`, `Enrolment.HandlersFail`).
- `SSOLogin` mints a token for an empty user when the first lookup fails before it has found a row
  (`Accounts.UserService.SSOLogin`).
- A sign-up that fails after its insert keeps everybody else out of its phone and email
  (`Enrolment.LockedOut`), and its row can never be registered or enrolled any more
  (`Enrolment.CanRegisterIff`, `Enrolment.CanEnrolIff`).
- A commit that reports an error may have taken effect; an update with neither update nor document is
  no operation (`BulkWrites.BulkUpdate`, `BulkWrites.ResultConcat`).
- The vendored ORM takes a filter of type `DbQuery` for a primary key and refuses it on a statement
  with only a table name (vendor/gorm.io/gorm/statement.go:117-119), so bulk deletions and updates
  with anything to set do not succeed (`BulkWrites.NamedRefused`, `BulkWrites.FiltersRefused`).

## Model

| member | source | states |
|---|---|---|
| Signals.FlowKept | cmd/enroller/rest.go:225-241 | every step keeps the control flow: the graceful handler is started exactly by the first signal, the slot holds the last value sent, the force handler runs only from the second signal on, and at most three signals are taken once there is one |
| Signals.HistoryKept | cmd/enroller/rest.go:225-241 | every value sent or owed was returned by a run of its handler, and the graceful handler returns at most once |
| Signals.FinishedIs | cmd/enroller/rest.go:233-238 | the results recorded along a run are exactly those the handlers returned in it, in that order |
| Signals.FinishedIff | cmd/enroller/rest.go:233-238 | a graceful or forced value is among them if and only if that handler returned it in the run |
| Signals.ReturnedByHandler | cmd/enroller/rest.go:226-241 | the value a run returns is the one its handler returned in that run |
| Signals.DoomedClosed | cmd/enroller/rest.go:236-238 | a loop that runs the force handler or owes its result while the slot is full stays in that state under every step |
| Signals.DoomedForever | cmd/enroller/rest.go:226-241 | and so along every run |
| Signals.CanReturnIff | cmd/enroller/rest.go:218-242 | from a reachable state some run returns if and only if the state is not doomed |
| Signals.DoomReachableIff | cmd/enroller/rest.go:230-239 | a doomed state is reachable with at most n signals if and only if there is a force handler and n is at least two |
| Signals.ReturnedMeans | cmd/enroller/rest.go:218-242 | a return hands over the first value sent, which a handler returned, after a signal; a forced value takes a second signal; the graceful goroutine ran at most once and can finish its send |
| Signals.ReturnsFirstFinishedIff | cmd/enroller/rest.go:215-242 | the documented promise, the value of the handler that returned first, holds if and only if there is no force handler or at most one signal |
| Signals.RunsAreShort | cmd/enroller/rest.go:226-241 | with a force handler no run has more than ten steps or three signals; without one at most three steps besides the signals |
| Signals.StuckIff | cmd/enroller/rest.go:226-241 | nothing can happen any more exactly when the function has returned with its goroutine through, or the loop is blocked in its own send with no graceful handler running |
| Signals.HandleSignals | cmd/enroller/rest.go:218-242 | the function driven by a schedule follows the step relation, answers what the loop returned, and stops early only where a step has to block; a graceful or forced value it returns is what that handler returned in the schedule |
| ServerManager.InvariantKept | cmd/enroller/rest.go:172-213 | every step of server, handlers and reports keeps the handler invariants, handlers finish only after the server was told to close, and a doomed manager stays doomed |
| ServerManager.CanReturnIff | cmd/enroller/rest.go:172-213 | ManageServer can return exactly when it has, the server failed on its own, or HandleSignals is not doomed |
| ServerManager.ReportedMeans | cmd/enroller/rest.go:172-213 | in every run what ManageServer returns is the error the server failed with or a value one of the handlers returned |
| Base64.RoundTrip | internal/repo/vault.go:51-55 | decoding the stored text gives the file's bytes back, for every byte sequence (section 4 of RFC 4648) |
| Base64.Canonical | internal/repo/vault.go:51-55 | whatever decodes is the encoding of what it decodes to, so text and bytes determine each other |
| Base64.Length | internal/repo/vault.go:51-55 | four characters for every started group of three bytes |
| Base64.Shape | internal/repo/vault.go:51-55 | every character is in the alphabet but for the padding, which stands at the very end |
| Base64.GroupBits | internal/repo/vault.go:51-55 | every four characters stand, six bits each and in their order, for the 24 bits of their three bytes, with zeros where padding fills up |
| Paths.FileClean | internal/repo/vault.go:46-47 | for every user name, the path composed for a file comes, after the client has put the version prefix in front and cleaned the whole, to the user's place followed by directory and relative path |
| Paths.FileRoute | internal/repo/vault.go:46-47 | for a name that stays within the engine's data, that is the secret at the user's home, directory and relative path |
| Paths.NameRoute | internal/service/vault.go:95-95 | the same for a name directly below the user |
| Paths.ListRoute | internal/repo/vault.go:66-66 | a listing path of such a user lists exactly that directory |
| Paths.UserRoute | internal/service/vault.go:83-83 | the removal path of such a user names one metadata key, the user's home, or nothing if that is the top |
| Paths.ClimbingPaths | internal/repo/vault.go:66-98 | for a name that climbs out, listing and reading go to the same path, so a place that can be listed cannot be read |
| Sharing.ShareIff | internal/repo/vault.go:46-47 | for all user names: two can name one secret if and only if their places are one or one enters the other by a directory name, and both have files in the engine's data |
| Sharing.StoreDisturbsIff | internal/service/vault.go:91-125 | a store for one name can change what another user gets, with some MSP in some store, if and only if the two names share a secret |
| Sharing.SharesIff | internal/repo/vault.go:46-47 | a name shares a secret with some other name if and only if it has files in the engine's data at all |
| Sharing.PastVersion | internal/repo/vault.go:46-47 | a name that climbs past the request's version prefix names an ordinary user's secrets if it goes down through the prefix again, and none if it does not |
| Sharing.SlashFreeShareIff | internal/repo/vault.go:46-47 | of two names without a slash: exactly if they are equal, both empty or ".", or one is and the other is a directory name |
| Sharing.PathsInjective | internal/repo/vault.go:46-47 | for ordinary names one secret means one user, directory and file |
| Sharing.PlainUndisturbed | internal/service/vault.go:82-125 | so calls for ordinary names, but a store for the user itself, never disturb it |
| Sharing.UnusualNamesShare | internal/repo/vault.go:46-47 | "" and "." share with the user named like a directory, and a name that ends in a directory name with the one before it |
| VaultEngine.Vault.LogicalWrite | internal/infra/vault/client.go:25-27 | a write that succeeds sets the one secret its path names, one that fails changes nothing |
| VaultEngine.Vault.LogicalRead | internal/infra/vault/client.go:37-39 | the secret at the path, its absence, or a failure |
| VaultEngine.Vault.LogicalList | internal/infra/vault/client.go:33-35 | the immediate children, with a marker for each directory below; no children is no answer |
| VaultEngine.Vault.LogicalDelete | internal/infra/vault/client.go:29-31 | a metadata path takes its one secret away, a data path empties it, and a failure changes nothing |
| MspTree.VisitIff | internal/repo/vault.go:36-48 | the walk comes to exactly the files there are at any depth, each with its path and content |
| MspTree.VisitsInOrder | internal/repo/vault.go:36-48 | in every directory what is below one entry is visited before what is below a later one, so nothing twice |
| VaultRepository.VaultRepo.StoreDirectory | internal/repo/vault.go:35-62 | the store is the initial one with exactly the first n files of the walk written: all of them on success, else those before the one that failed |
| VaultRepository.VaultRepo.Walk | internal/repo/vault.go:36-61 | the same for the walk below any path, so the first error ends it |
| VaultRepository.VaultRepo.WalkEntries | internal/repo/vault.go:36-61 | and for the entries of a directory, one after the other |
| VaultRepository.VaultRepo.GetVaultContent | internal/repo/vault.go:97-118 | the stored text, undecoded, or exactly the error for a failed read, a missing secret, missing data or missing content |
| VaultRepository.VaultRepo.GetDirectoryContent | internal/repo/vault.go:64-95 | on success the map grows by exactly the directory's immediate files; it fails, on a reliable connection, exactly when nothing is listed, as not found, or a listed file cannot be read, with that file's error |
| VaultServices.VaultService.StoreUserMSP | internal/service/vault.go:91-125 | the key and the three trees are written in order, a prefix of them if a write or read fails |
| VaultServices.PlanInOrder | internal/service/vault.go:91-125 | the key is stored first, then the certificate, the private key and the CA certificates, so a failure leaves out what comes later |
| VaultServices.VaultService.StoreKey | internal/service/vault.go:92-105 | the revocation key is written if it can be read, and skipped otherwise |
| VaultServices.VaultService.GetUserMsp | internal/service/vault.go:50-80 | an answer is exactly what is readable for the user, possibly without the key if its read failed; on a reliable connection there is one exactly when all three directories can be served and something is there; without anything but a key there is no data, and every other error is a directory's or a failed call's |
| VaultServices.VaultService.GetDirectories | internal/service/vault.go:61-74 | all three directories are read, or one that cannot be served ends the call with its error |
| VaultServices.VaultService.RemoveUserMSP | internal/service/vault.go:82-89 | one key is deleted and nothing else; on a reliable connection it succeeds exactly when the path names a secret |
| MspProperties.PutAllAt | internal/repo/vault.go:51-55 | after a list of files a key holds the last file written to it, or what it held before |
| MspProperties.PutAllTwice | internal/repo/vault.go:35-62 | storing the same files twice is storing them once |
| MspProperties.EntriesLast | internal/repo/vault.go:36-60 | directly below a directory exactly its immediate files are written; nested ones go elsewhere |
| MspProperties.PlanLast | internal/service/vault.go:91-125 | the same for a whole StoreUserMSP, so the three trees and the key do not disturb each other |
| MspProperties.DirFilesOnly | internal/repo/vault.go:81-92 | what is read from a directory is directly in it: nested files never appear |
| MspProperties.StoreThenView | internal/service/vault.go:50-125 | after a successful store a user gets what could be read before, overlaid with the immediate files of the three trees and the key |
| MspProperties.ReadBackDecodes | internal/service/vault.go:91-125 | every file read back decodes to its bytes |
| MspProperties.StoreThenServable | internal/service/vault.go:50-125 | after a successful store there is an answer exactly when in each directory something is listed, from before or from the tree, no unreadable secret is left beside the new files, and there is any file |
| MspIsolation.SeenDecides | internal/service/vault.go:50-80 | what a user gets depends only on its key and on what is below its three directories |
| MspIsolation.ClimbingNeverServed | internal/service/vault.go:50-80 | on a server with this engine only, a user whose name climbs out of the engine's data never gets an answer |
| MspIsolation.EffectElsewhere | internal/service/vault.go:82-125 | a store, failed or not, none of whose files lands where a user looks, and a removal of nothing the user looks at, leave all it sees |
| MspIsolation.DisturbsIff | internal/service/vault.go:82-125 | call by call: it changes the user's answer in some store if and only if one of its files lands where the user looks, or it removes a secret the user looks at, or empties one the user reads |
| MspIsolation.CallsElsewhere | internal/service/vault.go:82-125 | over any sequence of calls that do not disturb it, for any names, every user keeps getting the same answer |
| MspIsolation.RemoveThenServable | internal/service/vault.go:82-89 | after RemoveUserMSP the user still gets what it got before, for every user name |
| Sessions.RunAllConcat | internal/infra/postgres/client.go:151-206 | statements after each other compose, and a refused one refuses the rest |
| BulkWrites.BulkUpdate | internal/infra/postgres/client.go:491-550 | whatever the server makes of a statement: nil means the committed table is the fold of all operations; every error or panic before the commit leaves it unchanged; a failed commit did all or nothing; a transaction begun is ended exactly once; on a reliable session it succeeds exactly when no operation and no statement is refused, and the error tells which kind of operation the call came to |
| BulkWrites.ResultIsRun | internal/infra/postgres/client.go:505-546 | the fold is the operations' statements in order, refused if any operation is |
| BulkWrites.ResultConcat | internal/infra/postgres/client.go:505-546 | a bulk update of two lists is the two bulk updates after each other |
| BulkWrites.InsertMeans | internal/infra/postgres/client.go:506-511 | an insert creates its document, and is refused without one |
| BulkWrites.UpdateMeans | internal/infra/postgres/client.go:513-533 | an update sets its fields in the rows its filter selects, whatever its document; without an update it sets the document; with neither it does nothing; one that cannot be mapped is refused |
| BulkWrites.DeleteMeans | internal/infra/postgres/client.go:535-540 | a delete deletes by its filter |
| BulkWrites.OtherRefused | internal/infra/postgres/client.go:542-545 | an operation of any other name is refused |
| Sessions.RunAllRefused | internal/infra/postgres/client.go:202-205 | a refused statement refuses the whole list |
| BulkWrites.RefusedAt | internal/infra/postgres/client.go:542-545 | one refused operation refuses the whole list |
| BulkWrites.NamedRefused | internal/infra/postgres/client.go:521-536 | a filter of a map type of its own cannot be built into a statement without a schema; one of the built-in map type can |
| BulkWrites.FiltersRefused | internal/infra/postgres/client.go:521-539 | so whatever the server would do, no list with a deletion or an update that sets something succeeds |
| BulkWrites.OrmStatements | internal/infra/postgres/client.go:507-536 | what the ORM makes of each statement: inserts and document updates reach the server, an update of nothing does nothing, filtered ones are refused |
| BulkWrites.TableResult | internal/infra/postgres/client.go:505-546 | on a table that takes every statement, only a refused operation refuses a list |
| BulkWrites.KeptRows | internal/infra/postgres/client.go:535-540 | a delete keeps exactly the rows that do not match, each as often as before |
| BulkWrites.UpdatedRows | internal/infra/postgres/client.go:521-531 | an update sets its fields in the rows that match, and changes nothing else |
| BulkWrites.TableStatements | internal/infra/postgres/client.go:507-536 | an insert appends its document; updates and deletions act on the rows their filter selects |
| IndexText.BuildStatement | internal/infra/postgres/client.go:152-201 | the statement built piece by piece is the printed form of the definition |
| IndexText.FullStatement | internal/infra/postgres/client.go:152-201 | the text with every clause, in the order the code writes them |
| IndexText.ShortStatement | internal/infra/postgres/client.go:152-201 | the text with no optional clause |
| IndexText.RoundTripIff | internal/infra/postgres/client.go:152-201 | every well-formed definition's statement reads back as its table and canonical form, and so as the definition itself if and only if its condition, with nothing printed after it, does not end like a TABLESPACE clause |
| IndexText.PrintInjective | internal/infra/postgres/client.go:152-201 | two well-formed definitions print alike if and only if tables and canonical forms agree |
| IndexText.AmbiguousIff | internal/infra/postgres/client.go:188-201 | another well-formed definition prints alike if and only if there is a condition, no storage parameters, and a TABLESPACE clause of its own or at the end of the condition |
| IndexText.AmbiguousPair | internal/infra/postgres/client.go:188-201 | the other definition: the clause moved into the condition |
| Indices.EnsureIndices | internal/infra/postgres/client.go:134-214 | all statements are committed or none, the transaction is ended once, and on a reliable session it succeeds exactly when the server refuses no statement |
| Indices.ExecNext | internal/infra/postgres/client.go:202-205 | one statement of a list: the transaction goes on with it done, or is rolled back, on a reliable session only if the list is refused |
| Indices.DropIndices | internal/infra/postgres/client.go:217-257 | the same for dropping, with the timeout statement before a concurrent index |
| Indices.DropAt | internal/infra/postgres/client.go:234-249 | each index is dropped by its name, directly after lifting the statement timeout if and only if it is concurrent |
| Indices.CreatesInstall | internal/infra/postgres/client.go:134-214 | a list is created exactly when its names are new and distinct; the catalogue then holds, besides the old ones, what the statements stand for, and a definition as asked for exactly unless its condition ends like a TABLESPACE clause |
| Indices.CreatesAdd | internal/infra/postgres/client.go:151-206 | whatever is created adds exactly the listed names, none of them taken before |
| Indices.DropsRemove | internal/infra/postgres/client.go:234-249 | dropping removes exactly the listed names, there or not |
| Indices.CreatesThenDrops | internal/infra/postgres/client.go:134-257 | creating and dropping the same list restores the catalogue |
| Indices.DropsTwice | internal/infra/postgres/client.go:234-249 | dropping twice is dropping once |
| Queries.LimitStep | internal/infra/postgres/client.go:438-441 | limit and offset of one stage come to the same whichever is applied last |
| Queries.StageStep | internal/infra/postgres/client.go:416-443 | applying one more operation of a stage comes to the effect of the stage with it, panics included |
| Queries.AnyOrder | internal/infra/postgres/client.go:416-443 | every order of a stage's map builds the same query |
| Queries.BuildConcat | internal/infra/postgres/client.go:415-444 | the order of the stages is kept |
| Queries.ApplyStage | internal/infra/postgres/client.go:416-443 | the loop over a map, in whatever order, gives the stage's one effect |
| Queries.Aggregate | internal/infra/postgres/client.go:409-444 | the query is the one the stages stand for, or the panic of a failed type assertion |
| Queries.BuiltConditions | internal/infra/postgres/client.go:420-425 | the conditions of the query are the stages' "where" values, and those on groups the "having" values, in stage order, without the empty text and nil |
| Queries.ConditionIff | internal/infra/postgres/client.go:420-425 | so a value is a condition if and only if some stage holds it and it is not empty |
| Queries.BuiltGroups | internal/infra/postgres/client.go:422-423 | the groups are the stages' own texts in stage order |
| Queries.BuiltOrders | internal/infra/postgres/client.go:426-427 | and so are the orders, without the empty text |
| Queries.BuiltJoins | internal/infra/postgres/client.go:428-437 | the joins are the stages' joins in stage order, each as type, table and condition |
| Queries.SelectLast | internal/infra/postgres/client.go:418-419 | the last selection that is a text or a list of names is the query's |
| Queries.SelectKept | internal/infra/postgres/client.go:418-419 | without one the selection stays as it was |
| Queries.BadSelectIff | internal/infra/postgres/client.go:418-419 | the query is marked if and only if some stage selects with anything else |
| Queries.OneStageLimits | internal/infra/postgres/client.go:438-441 | limit and offset of one stage are the numbers it gives |
| Queries.LimitLast | internal/infra/postgres/client.go:438-439 | of several limits the last that is not zero counts |
| Queries.LimitNone | internal/infra/postgres/client.go:438-439 | where none is different from zero there is no limit, or zero if some stage says so |
| Queries.OffsetLast | internal/infra/postgres/client.go:440-441 | of several offsets the last that is not zero counts if it is positive |
| Queries.OffsetDropped | internal/infra/postgres/client.go:440-441 | and skips nothing if it is negative |
| Queries.PanicIff | internal/infra/postgres/client.go:416-443 | building panics if and only if some stage has a group or order that is no text, or a limit or offset that is no number |
| Queries.AddFilter | internal/infra/postgres/client.go:290-292 | the conditions are exactly the filter's entries, once each |
| Queries.BuildList | internal/infra/postgres/client.go:286-305 | conditions, sort orders, and skip and limit where positive |
| Queries.FilterAnyOrder | internal/infra/postgres/client.go:356-358 | the rows selected do not depend on the order of the filter's map |
| Paging.PageRow | internal/infra/postgres/client.go:299-305 | row by row, a page starts after the rows skipped and ends at its limit; what is not positive neither skips nor limits |
| Paging.AnswerUnique | internal/infra/postgres/client.go:294-305 | without ties a query has one sorted answer |
| Paging.PagingIff | internal/infra/postgres/client.go:299-305 | pages of any size put together give the whole answer, however the server answers each, if and only if no two selected rows tie |
| Paging.TiedPages | internal/infra/postgres/client.go:299-305 | with a tie pages of one row repeat one row and lose another |
| Decimal.AtoiItoa | internal/service/token.go:119-120 | parsing undoes printing for every signed 64-bit integer |
| Decimal.ItoaMeans | internal/service/token.go:119-120 | printing gives a sign and the digits of the number, the first of them not zero |
| Decimal.AtoiMeans | internal/service/token.go:119-120 | parsing any text whose error is ignored gives the number, the nearest one there is, or 0 |
| Decimal.SameBits | internal/service/token.go:119-120 | the 64-bit conversions stay in range and keep the number modulo 2^64 |
| Decimal.IdRoundTrip | internal/service/token.go:119-120 | no unsigned 64-bit id is changed by being printed as signed text and read back |
| Tokens.HasRequiredRole | api/middleware/role_checker.go:35-48 | true exactly when the two lists share a role |
| Tokens.RoleAuthorization | api/middleware/role_checker.go:10-32 | the gate's answer for what the first middleware passed on: unauthenticated without a user, forbidden exactly without a shared role, else forwarding the token's own id |
| Tokens.AuthenticatedIff | api/middleware/jwt_reconcile.go:24-61 | a request is authenticated if and only if its header is "bearer" in any case, one space, and a token that was issued and has not expired |
| Tokens.RejectedMeans | api/middleware/jwt_reconcile.go:24-50 | which error each other request gets |
| Tokens.AuthenticatedUser | api/middleware/jwt_reconcile.go:42-61 | what is seen of a token behind the middleware, claim by claim, for either kind of token |
| Tokens.RefreshAcceptedIff | internal/service/token.go:91-126 | a refresh is accepted if and only if the token was issued, is a refresh token and has not expired |
| Tokens.RefreshAnswer | internal/service/token.go:107-123 | and then passes on the token's id, email and phone, and no roles |
| Tokens.MintedClaims | internal/service/token.go:24-88 | what the two tokens of a pair say, claim by claim, and when they expire |
| Tokens.PayloadFields | internal/service/token.go:107-123 | the payload for a user, field by field |
| Tokens.DurationExactIff | internal/service/token.go:51-51 | the 64-bit product of minutes is exact if and only if there are at most 153722867 of them either way |
| Tokens.ExpiryWithin | internal/service/token.go:51-51 | a token expires less than a second before its duration is over and never after |
| Tokens.AccessWithinRefresh | internal/service/token.go:24-80 | the access token does not outlive the refresh token minted with it |
| Tokens.ChainBound | internal/service/token.go:67-80 | a chain of n refresh times stretches the first by at most n durations plus the delays |
| TokenRuns.LineageExpires | internal/service/token.go:67-80 | in every run the refresh token n refreshes after a login expires at most n + 1 refresh durations after the login minted its own, plus what the calls took |
| TokenRuns.InvariantKept | internal/service/token.go:24-126 | every access token in circulation has no roles or was minted by a login of a user with these; every refresh token speaks of the user of a login |
| TokenRuns.LineageKeepsUser | internal/service/user.go:237-254 | after any number of refreshes the tokens of a login carry its id, email and phone, and from the first refresh on no roles |
| TokenRuns.RefreshKeepsUser | internal/service/token.go:91-126 | whatever a refresh accepts speaks of the user of some login and passes on no roles |
| TokenRuns.RefreshAccepted | internal/service/token.go:91-126 | in every run the refresh token that a login, sign-up or refresh minted is accepted at every later point while it lasts, with that event's id, email and phone and no roles |
| TokenRuns.GatePassed | api/middleware/jwt_reconcile.go:20-63 | in every run a request passes both middlewares only with an unexpired access token minted directly by a sign-up or login whose roles meet the allowed ones; the forwarded id is empty |
| TokenRuns.DirectPasses | api/middleware/jwt_reconcile.go:24-61 | and such a token does pass while it lasts, at any later point |
| TokenRuns.RefreshTokenStops | api/middleware/role_checker.go:21-24 | refresh tokens stop at the role gate |
| TokenRuns.RenewedStops | internal/service/token.go:107-123 | so do both tokens minted by refreshing, at any later point |
| TokenRuns.AccessNeverRefreshes | internal/service/token.go:108-118 | access tokens are rejected by TokenRefresh, however minted |
| Accounts.NeverFetched | internal/repo/user.go:36-54 | no lookup of a user ends without an error, for the relation it asks for; on a healthy database it is "not found" exactly when there is no such row |
| Accounts.UserRepo.FindOne | internal/infra/postgres/client.go:350-382 | a row that meets the condition, "not found" only if there is none, or an error; the error of a relation that cannot be loaded comes with the row filled in |
| Accounts.UserRepo.GetUserByPhoneOREmail | internal/repo/user.go:32-48 | a user returned has the phone; "not found" means neither is taken; on a healthy database an error means a taken email and nobody with the phone, and the empty user does not occur |
| Accounts.UserRepo.GetUserById | internal/repo/user.go:50-59 | never a user |
| Accounts.UserRepo.CreateUser | internal/repo/user.go:61-67 | the unique columns stay unique; success appends a row with exactly the given data, field by field; an error may have stored the row; on a reliable database it succeeds exactly when id, phone and email are all unused |
| Accounts.Authority.Register | internal/service/utils.go:29-48 | a name is registered once, with its secret |
| Accounts.UserService.SignUpUser | internal/service/user.go:77-117 | at most the one row is added, with the request's own fields and never for a taken phone or email; only that row is registered, with its hash; a token is for a stored and registered row and says its id, email, roles and phone; when nothing fails there is one exactly if id, phone and email are unused and the name is not registered |
| Accounts.UserService.Login | internal/service/user.go:210-235 | a token says id, email, roles and phone of the row whose phone the identifier is and whose hash the password matches; there is one exactly when the lookup gave such a row; on a healthy database if and only if there is such a row, so never by email |
| Accounts.UserService.SSOLogin | internal/service/user.go:189-206 | a token says id, email, roles and phone of the row whose phone the email is, or id 0 and nothing else for the empty user after a failed first lookup; on a healthy database there is one if and only if the email is some row's phone |
| Enrolment.StepKeeps | internal/service/user.go:77-162 | every step of every client keeps the invariant, and nothing stored, registered or enrolled is changed or lost |
| Enrolment.RunKeeps | internal/service/user.go:77-162 | and so every run |
| Enrolment.ChangesIff | internal/service/user.go:77-162 | what a step changes of table, authority, vault and clients, and exactly when |
| Enrolment.FailureIsFinal | internal/service/user.go:83-161 | the first error a client is given ends it for good, whatever the call did all the same |
| Enrolment.TurnedAway | internal/service/user.go:83-90 | a sign-up that comes with a phone or an email already stored never gets past the lookup of it |
| Enrolment.StoredHash | internal/service/user.go:92-96 | a stored row holds the hash its own client's password was given |
| Enrolment.NoSharedContact | model/user.go:25-26 | in every reachable state no two rows share an id, a phone or an email, and each is what exactly one client asked for |
| Enrolment.OneWinner | internal/service/user.go:77-117 | of sign-ups competing for a phone or an email at most one succeeds, and its row is stored and registered with its hash |
| Enrolment.LockedOut | internal/service/user.go:83-110 | once a row is stored only the client that inserted it can ever succeed with its phone or email, even if that client fails later |
| Enrolment.RegistersStoredRows | internal/service/user.go:96-110 | a registration is of a row inserted before and of a new name, and both stay for good |
| Enrolment.FilesFollowEnrolment | api/users.go:185-201 | files are written only for a row enrolled before, with the secret its name was registered with |
| Enrolment.VaultNamesEnrolled | api/users.go:185-201 | every name with files was enrolled |
| Enrolment.SameSecret | internal/service/utils.go:10-41 | an enrolment presents the secret its row was registered with |
| Enrolment.CanSignUpIff | internal/service/user.go:83-154 | from a reachable state a new client can still sign up if and only if phone and email are unused, the name is not registered, an id is left, and, if it is to be enrolled, the vault takes files of that name |
| Enrolment.HandlersFail | api/users.go:118-148 | the handlers that register or enrol a stored user only ever fail |
| Enrolment.CanRegisterIff | internal/service/user.go:144-148 | a stored user can be registered, now or later, if and only if it is, or the sign-up that stored it is about to register it and the name is free |
| Enrolment.CanEnrolIff | internal/service/user.go:144-161 | it can be enrolled if and only if it is, or a sign-up that also enrols is about to enrol it, or to register it with the name free |

## Left out

- The database, the secret store, the certificate authority, the identity provider, HTTP, temporary directories and external commands themselves: each is a small state whose operations may fail.
- RSA signatures and bcrypt: a signature verifies for exactly the texts that were signed, and a password match is any relation under which nothing matches the empty hash.
- The JSON text of a refresh token's payload: it is kept as a record. The base64 and JSON of the tokens themselves are left out too.
- How the ORM renders a filter into SQL, and which statements the server refuses: `BulkUpdate` is proved for any partial effect of a statement.
- PostgreSQL's own rules for CREATE INDEX: the order of its clauses, and that CONCURRENTLY is refused inside a transaction. The server of the model refuses a name that is taken and text it cannot read.
- Other sessions on the same database during a transaction, and deadlocks or isolation between them.
- Other engines on the secret store's server, which a user name that climbs out could reach: every path outside the one engine is a failed write and a missing read.
- A secret store whose address has a path of its own, which would stand before the version prefix.
- Which names the vault takes files of is a free choice in the runs of `Enrolment.dfy`.
- A write to the secret store that reports an error and takes effect all the same; a commit, an insert, a registration and an enrolment may do that in the model.
- The lexical order of `filepath.Walk`: a walk takes a tree's entries in the order they are given.
- `RegisterUser` with mocking switched on, which skips the registration (api/users.go:134).
- `RevokeUser`, `UpdateOne`, `DeleteMany`, `Distinct` and `PartialUpdateMany`.
- The preload, select, group and having options of `List`; the sort order of `FindOne`; soft deletion.
- Signals delivered during the force handler, or after `HandleSignals` returned: the channel is unbuffered and they are dropped.
- The countdown goroutine in `ManageServer`, the health server and the API server beside it.
- Loading of configuration and keys, logging, routing and response bodies.
- Validation of phones, emails, passwords and role names, and `GenerateRandomString`.
