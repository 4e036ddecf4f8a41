# Verified models of the kit's stateful code

This project models, in Dafny 4.11, the parts of the kit that keep state or promise something
across several calls, and proves what they promise: the Redis lock, the JSON cache-aside read, the
OAuth states and the token blacklist; the permission lifecycle against a remote Casbin store with
retries, cancellation and calls that outlive their caller; configuration layering and environment
overrides; keyword DSNs; nested transactions; and pagination. `dafny verify dfyconfig.toml` checks
everything.

## How it is organised

| file | models |
|---|---|
| `Options.dfy`, `Sequences.dfy`, `Text.dfy` | two wrapper types; sequences; the string functions of Go the code rests on |
| `Redis.dfy` | one expiring key-value store; each command is one atomic step that may be lost, or whose answer may be lost |
| `Lock.dfy` | the lock operations as one process sees them |
| `LockProtocol.dfy` | any number of processes using the lock, with late and lost requests and replies |
| `LockLeases.dfy` | how long such a process may count on the lock, and how it can tell |
| `CacheAside.dfy` | `SetJSON`, `GetJSON`, `RememberJSON`, and many concurrent `RememberJSON` calls |
| `Session.dfy` | one-time states and revoked tokens, as operations and as a protocol |
| `Permission.dfy` | normalizing grants and shares, role expansion, action lists |
| `Casbin.dfy` | the rule store as a set, and what histories of writes make of it |
| `Casdoor.dfy` | `retry.Do`, `callWithContext` and the adapter's policy operations |
| `Tree.dfy`, `Config.dfy` | configuration as a value, and the maps that are merged in place |
| `Dsn.dfy` | keyword DSNs: printer, splitter and PostgreSQL's own grammar |
| `Tx.dfy` | nested `WithTx` calls |
| `Page.dfy` | page requests, their 64-bit offsets, and sorting |

Time is in integer nanoseconds. A method whose source updates an object updates one here; what it
does to the object is stated by a function on values, and the long-run properties are lemmas about
those functions.

## What the proofs found

- **Lease.** The obvious way to keep track of a lease (from the latest successful reply, cut when a
  shorter Refresh is sent) is right, whatever is late or lost, exactly for owners whose Refreshes all
  ask for the same number of milliseconds (`LockLeases.ObviousLeaseExactly`): a short Refresh
  overtaken by a longer one cuts a lease its owner already counts on. More finely, it is right for
  an owner that never sends a Refresh while an unanswered one is shorter or lasts longer
  (`LockLeases.SteadyLeaseSafe`). One more Refresh breaks a lease that is kept otherwise exactly if
  another on its way is shorter or lasts longer, or a positive reply on its way announces more
  (`LockLeases.SendExactly`). In general the owner has to take every grant that may
  be the last one executed as running from its own sending or that of the latest answered grant,
  whichever is later (`LockProtocol.LeaseExclusion`).
- **Refresh.** A ttl below one millisecond is sent as 0: the key is deleted and true is reported.
- **Actions.** A custom list of blanks is accepted and grants nothing (`Permission.DefaultActions`).
- **Revocation.** A Revoke that succeeds is final exactly if no call left behind by a cancelled Grant
  can still add one of the rules (`Casdoor.Adapter.Revoke`).
- **Role grants.** `GrantRole` ignores `Action`, `Revoke` does not: a role grant that names an action
  is undone by `Revoke` exactly if the role means just that action (`Permission.RoleGrantRevocable`).
- **Subjects.** A subject is type and id joined by a colon, so a type with a colon in it can name
  somebody else's subject (`Permission.SubjectsMeet`); without one it never does
  (`Permission.SubjectInjective`).
- **Cleanup.** A policy with a fourth field survives a cleanup that succeeds (`Casbin.CleanupComplete`).
- **Retries.** `retry.Do` with a nil context and a back-off panics at its first failure
  (`Casdoor.Do`, predicate `Unbackable`).
- **Sessions.** A blacklist prefix that starts with the state prefix lets `VerifyState` delete
  revocations; the default prefixes never do (`Session.FamiliesMeet`).
- **Cache.** Without a positive ttl a hit can be arbitrarily old (`CacheAside.UnboundedWithoutTtl`).
- **Overlay.** Merging layers is associative exactly if no scalar sits between two maps, or the later
  map covers the earlier one (`Tree.OverlayAssociative`).
- **Environment.** A path can be reached through a variable exactly if no key holds `__`, an equals sign
  or an upper-case letter, and none but the last ends in `_` (`Config.AddressableExactly`).
  The order of the environment is irrelevant exactly if no variable's path leads through another's, but
  for variables that set the same (`Config.EnvironmentOrder`). `docs/CONFIG.md` shows `${...}` in YAML values; the code
  expands nothing, the variables work because they override the same paths.
- **DSN.** A value with a line break and nothing else that calls for quotes is printed bare and read
  short; a printed DSN is read back exactly if it has no such value (`Dsn.PrintableExactly`). The
  splitter undoes neither escapes nor quoted spaces (`Dsn.SplitPrinted`), so the maintenance DSN has
  the settings it saw, which need not be those of the original (`Dsn.PostgresMaintenanceDSN`).
- **Pages.** The offset wraps for far-off pages, which then show rows again (`Page.LaterPages`).

## Model

| member | source | states |
|---|---|---|
| Lock.TryLock | cache/lock.go:19-38 | true exactly if the key was free and the answer arrived; the store changes, if at all, by the new token for the millisecond-rounded ttl, also when the answer is lost; bad arguments change nothing |
| Lock.LockWithWait | cache/lock.go:40-66 | every attempt but the last found the key held and had time left, and the last one decides: the lock as soon as the key is free, the error of a failed attempt, and giving up only past the deadline or on cancellation, with the key still held; at least one and at most wait/interval + 2 attempts, paced by the interval (100 ms by default); unless the last request failed on the way, none of its tokens is stored when it gives up |
| Lock.LockStored | cache/lock.go:33-37 | the lock is stored under its token, at its key and at no other |
| Lock.Handle.Refresh | cache/lock.go:81-91 | true means the key held our token and now expires exactly after the truncated ttl, or is gone below one millisecond; another owner's entry and every other key stay |
| Lock.Handle.Unlock | cache/lock.go:93-106 | succeeds exactly if the token was there, and the key is free then; not owned exactly if it was not; nothing of anybody else changes |
| Redis.Rounding | cache/lock.go:33-89 | the ttl SET NX gets and the one the refresh script gets are whole milliseconds less than one from the ttl asked for, and differ exactly below one millisecond |
| Redis.SetLives | cache/json.go:19-19 | how long a value that was written can be read: for exactly the rounded ttl, for good, or as long as what was there |
| LockProtocol.LeaseExclusion | cache/lock.go:19-106 | in every reachable state of any interleaving with late and lost messages, two handles holding a lease on one key are the same handle; a grant whose answer was lost counts from the latest answered one |
| LockProtocol.HeldIsStored | cache/lock.go:81-106 | a handle that holds its lease has its token in the store, live |
| LockProtocol.HolderProceeds | cache/lock.go:81-106 | while a lease holds, any request of that handle executed now succeeds, and anybody else's on the key fails and changes nothing |
| LockProtocol.TryLockGivesLease | cache/lock.go:33-37 | a TryLock on a free key answered within the ttl does give the lease |
| LockProtocol.DeadForever | cache/lock.go:81-106 | in every continuation a token that expired or was released never comes back, and its handle's Refresh and Unlock never succeed |
| LockProtocol.DeadStep | cache/lock.go:81-106 | a dead handle's request changes nothing in the store, so no other holder's entry or expiry |
| LockProtocol.ReleaseKills | cache/lock.go:93-106 | a successful Unlock makes the handle dead |
| LockProtocol.UnlockOnce | cache/lock.go:93-106 | in every run Unlock succeeds at most once per handle |
| LockLeases.RefreshRenewsLease | cache/lock.go:81-91 | in any interleaving, after a Refresh sent when all earlier grants were answered and answered with true, the handle holds exactly until the ttl from sending is over |
| LockLeases.KeptUntilExactly | cache/lock.go:81-106 | a stored, open handle keeps its key until an instant, whatever is delivered, lost or sent by others, exactly if its entry expires no earlier and every Refresh of it on its way reaches that far |
| LockLeases.SteadyLeaseSafe | cache/lock.go:81-91 | for an owner that sends a Refresh only when no unanswered grant is shorter or lasts longer, the obvious lease is a lease in every run, with any loss and delay |
| LockLeases.SteadyExclusion | cache/lock.go:19-106 | so two such owners never count on one key at a time |
| LockLeases.UnbrokenExactly | cache/lock.go:81-106 | if its owner sends nothing more, the obvious lease of a stored, open handle is kept in every run exactly if it, and each lease a reply may still announce, is safe |
| LockLeases.SendExactly | cache/lock.go:81-91 | if so, one more Refresh keeps it so exactly if no Refresh on its way is shorter or lasts longer and no positive reply on its way announces more |
| LockLeases.UnsteadyFails | cache/lock.go:81-91 | a Refresh sent against that leads to a run in which the obvious lease still runs when another process holds the key |
| LockLeases.ObviousLeaseFails | cache/lock.go:81-91 | such a run for any two ttls that differ in milliseconds |
| LockLeases.ObviousLeaseExactly | cache/lock.go:81-91 | the obvious lease is respected in every run exactly if all ttls used are the same number of milliseconds |
| CacheAside.SetJSON | cache/json.go:14-20 | nothing if the value cannot be encoded; else one unconditional write with the ttl, or with the expiry left as it is for the ttl that asks for that; a transport error may hide an applied write |
| CacheAside.GetJSON | cache/json.go:22-36 | a value exactly if the key is live and decodes; a miss exactly if it is not live; never writes |
| CacheAside.RememberJSON | cache/json.go:38-51 | the cached value on a hit; on a miss the loaded one, stored with the ttl; no write on any error but a failed save; each error told apart |
| CacheAside.BoundedStaleness | cache/json.go:38-51 | in every interleaving each hit returns a value the source had less than ttl plus delay ago |
| CacheAside.ConstantSource | cache/json.go:38-51 | while the source does not change every successful call returns what a direct load would |
| CacheAside.UnboundedWithoutTtl | cache/json.go:19-19 | without a positive ttl, for any age a run with a hit that old after the source changed |
| Session.Manager.NewState | session/session.go:54-70 | the subject is stored under the fresh state for the configured ttl, or nothing is and there is an error and no state |
| Session.Manager.VerifyState | session/session.go:72-89 | succeeds exactly if the state was live, with what was stored, and takes it away; other keys stay |
| Session.Manager.RevokeToken | session/session.go:91-107 | a non-blank token is revoked for its ttl, a day if that is not positive; a blank one does nothing |
| Session.Manager.IsRevoked | session/session.go:109-121 | true exactly if the answer arrived and the token's key is live; never for a blank token or without Redis |
| Session.FamiliesMeet | session/session.go:123-128 | no state can name a blacklist key exactly if the state prefix does not begin the blacklist prefix; otherwise every revocation can be deleted by some state |
| Session.DefaultsSeparated | session/session.go:35-44 | without a blacklist prefix of its own every key prefix keeps the two families apart |
| Session.Manager.constructor | session/session.go:35-52 | what is configured is kept; otherwise ten minutes, the default key prefix, and a blacklist prefix derived from the key prefix, which keeps the families apart |
| Session.KeyTexts | session/session.go:123-128 | the text of both kinds of key; a colon at the end of a prefix makes no difference |
| Session.StatesAreOneTime | session/session.go:54-89 | in every interleaving a state verifies at most once, before it expires, and for the subject it was issued for |
| Session.VerifiesExactly | session/session.go:72-89 | in every interleaving a state would verify exactly while stored, unexpired and never verified, whatever was revoked |
| Session.RevokedExactly | session/session.go:91-121 | in every interleaving a token is reported revoked exactly while its latest revocation lasts |
| Permission.NormalizeRefuses | permission/permission.go:169-192 | which grants are refused, and with which error first |
| Permission.NormalizeTwice | permission/permission.go:169-192 | normalizing again changes nothing, so GrantRole may repeat what Grant did; the result is trimmed and says what to grant |
| Permission.SubjectText | permission/permission.go:150-160 | type and id joined by a colon, or the one that is not blank, always trimmed |
| Permission.NormalizedFields | permission/permission.go:169-192 | an accepted grant addresses its own trimmed subject, or the text of its type and id; action and role come back trimmed, the rest as given |
| Permission.SubjectInjective | permission/permission.go:150-160 | with a colon in neither type, two subjects are the same text exactly if type and id agree |
| Permission.SubjectsMeet | permission/permission.go:159-159 | with a colon in a type they need not: part of the type may as well belong to the id |
| Permission.GrantSubjects | permission/permission.go:169-192 | two accepted grants by type and id address one subject exactly if both agree |
| Permission.SharedFields | permission/permission.go:194-219 | an accepted share addresses the text of its type and id, its role and its actions, and names no single action |
| Permission.ShareSubjects | permission/permission.go:194-219 | two accepted shares address one subject exactly if type and id agree |
| Permission.ShareRefuses | permission/permission.go:194-219 | which shares are refused, and as what; only a public one does without an id |
| Permission.RoleGrantRevocable | permission/permission.go:225-233 | Revoke addresses the actions GrantRole wrote exactly if the grant names no action or the role means just that one |
| Permission.ShareRevocable | permission/permission.go:194-219 | revoking a share as a grant addresses exactly what sharing wrote |
| Permission.DefaultActions | permission/permission.go:69-85 | known roles or any custom list; the answer is trimmed, without blanks or repetition, and empty exactly for a list of blanks |
| Permission.Roles | permission/permission.go:69-85 | what each role may do: the editor all the viewer may, the owner all the editor may and to share and delete; custom actions stand in for any role |
| Permission.CleanActions | permission/permission.go:235-250 | the loop computes the specification `Clean` |
| Permission.CleanKeepsAll | permission/permission.go:235-250 | results are trimmed and not blank, and every non-blank action is among them |
| Permission.CleanOccurs | permission/permission.go:235-250 | each result stands for a first occurrence in the input |
| Permission.CleanInOrder | permission/permission.go:235-250 | results come in the order of first occurrences, none twice |
| Casdoor.Remote.CallWithContext | casdoor/adapter.go:230-242 | the answer is that of the call, given up on exactly if the context is cancelled before it is there; no error means the call took effect meanwhile; a write is left behind exactly if it was given up on and not executed yet, and may still land |
| Casdoor.Do | retry/retry.go:42-72 | one call after the other until the first that succeeds, at most max(1, attempts), all of them failed before a plain error, and all failed that were answered before a cancellation; none is started once cancelled; a call outlives the return only if the context was cancelled; with a nil context and a back-off there is one call, and a panic unless it succeeds |
| Casdoor.Adapter.WritePolicy | casdoor/policy.go:185-247 | tried until a call succeeds, as often as the policy allows and, before a plain error, just as often; success means the rule was added or removed meanwhile; with no other writers the store is the old one or the old one with just that rule changed, also after whatever is still under way has landed |
| Casdoor.Adapter.WriteEach | casdoor/policy.go:36-41 | writes in order, stopping at the first failure: those before it happened, it may have, none after it; a plain error comes after as many failed calls in a row as the policy allows |
| Casdoor.Adapter.Grant | casdoor/policy.go:16-25 | adds the rules the grant stands for; alone, stopping at rule i touches only the rules before it and possibly that one |
| Casdoor.Adapter.GrantRole | casdoor/policy.go:27-42 | the same for the rules of the role |
| Casdoor.Adapter.Share | casdoor/policy.go:44-50 | adds the rules that Revoke addresses for the grant the share stands for |
| Casdoor.PlanFields | casdoor/policy.go:16-70 | the rules of a grant field by field: its trimmed action, or what the mapper makes of resource, trimmed role and custom actions, for its subject and resource; refusals and mapper errors are passed on |
| Casdoor.Adapter.Revoke | casdoor/policy.go:52-70 | removes the rules the grant stands for, with the same account of partial failure; alone, success is final exactly if no call left behind adds one of them |
| Casdoor.Adapter.List | casdoor/policy.go:117-159 | exactly the matching p-rules, as stored at one moment of the call |
| Casdoor.ListsFields | casdoor/policy.go:141-157 | a listed grant is a stored p-rule's first three fields, and an empty filter field lets everything through |
| Casdoor.Adapter.DeleteResourcePoliciesEx | casdoor/policy.go:165-183 | success among other writers: what is left of the resource came in after the snapshot; alone: exactly the three-field policies of the resource are gone, or some of them on failure, and nothing else is ever touched |
| Casbin.Settles | casdoor/policy.go:185-247 | any repetition of one write is no write or one |
| Casbin.AddProgress | casdoor/policy.go:36-41 | a run of additions that stops at i changes the set by an already processed prefix plus possibly rule i |
| Casbin.RemoveProgress | casdoor/policy.go:64-69 | the same for removals |
| Casdoor.RevokeFinal | casdoor/policy.go:64-69 | after all rules were removed, nothing that lands brings one back exactly if no call left behind adds one |
| Casdoor.GrantThenRevoke | casdoor/policy.go:16-70 | one grant granted and then revoked, with nobody else writing: no other rule is touched however the Grant went, and a successful Revoke leaves the initial store minus the rules, for good, exactly if no call left behind adds one; none is if the Grant was not cancelled |
| Casbin.SurvivorsAreNew | casdoor/policy.go:165-183 | whatever other writers do, a three-field policy of the resource still there after a sweep was added after its snapshot |
| Casbin.CleanupFrame | casdoor/policy.go:175-180 | no cleanup ever touches anything but three-field policies of its resource |
| Casbin.KeptFields | casdoor/policy.go:141-180 | what a cleanup deletes and what it keeps, by the seven fields of a rule |
| Casdoor.DeleteUntilDone | casdoor/policy.go:165-183 | cleanups under new contexts, failing at any point, with left-behind calls landing at any time: nothing to be kept is lost, and the first success ends in the initial store minus the resource's three-field policies, for good |
| Casbin.ConvergentCleanup | casdoor/policy.go:165-183 | failed runs, left-behind calls landing at any time and one success end in exactly the initial store minus the resource's three-field policies |
| Casbin.CleanupComplete | casdoor/policy.go:222-222 | a successful cleanup leaves no policy of the resource exactly if all of them had three fields |
| Casbin.ShapeKept | casdoor/policy.go:190-190 | adapter writes keep a store of three-field policies so |
| Tree.OverlayIdentity | config/config.go:120-130 | the empty map is a two-sided identity of overlaying |
| Tree.OverlayIdempotent | config/config.go:120-130 | applying a layer twice is applying it once |
| Tree.OverlayAbsorbs | config/config.go:120-130 | a layer hides what is below it exactly if it binds all of it |
| Tree.OverlayAssociative | config/config.go:120-130 | when layers may be merged pairwise first, exactly |
| Tree.NoLeafBetween | config/config.go:120-130 | in particular when no path is a non-map in the middle and a map in both outer layers |
| Tree.OverlayGet | config/config.go:120-130 | every lookup after merging from the lookups before |
| Tree.BlockedExactly | config/config.go:120-130 | a path is blocked where a proper prefix of it leads to a non-map |
| Tree.LayersKeep | config/config.go:91-105 | a path no later layer binds or blocks keeps its value |
| Tree.SetThenGet | config/config.go:147-161 | a set path reads back |
| Tree.SetElsewhere | config/config.go:147-161 | an unrelated path reads as before |
| Tree.SetsCommuteExactly | config/config.go:147-161 | two settings may be exchanged exactly if neither path leads through the other, or they are the same |
| Tree.SetAllPermuted | config/config.go:132-146 | pairwise exchangeable settings give one tree in every order |
| Config.MergeMap | config/config.go:120-130 | for disjoint tree-shaped maps and every iteration order the merge ends in exactly the overlay, keeps `dst` a tree, leaves `src` as it was, and only links objects of the two |
| Config.SetNested | config/config.go:147-161 | writes exactly the path, making maps where there are none |
| Config.ApplyEnv | config/config.go:132-146 | applies the decoded settings in order, in place; entries without the prefix or without an equals sign change nothing |
| Config.DecodeExactly | config/config.go:133-144 | an entry is a setting exactly if it is the prefix, a name and an equals sign, of the path its lower-cased name splits into, to all the text after the first equals sign |
| Text.SplitThenJoin | config/config.go:141-141 | splitting a name at double underscores loses nothing but them |
| Config.LastVariableWins | config/config.go:132-146 | in any environment, the last variable to set a path or a part of it decides |
| Config.Addressable | config/config.go:137-143 | a path is set by a variable whose lower-cased name joins its keys exactly if the keys can be told apart |
| Config.AddressableExactly | config/config.go:137-143 | a path can be set by some variable exactly if its keys can be told apart in a name and hold no equals sign and no upper-case letter |
| Config.EnvironmentOrder | config/config.go:132-146 | over any tree, every permutation of the environment gives the same tree exactly if of any two variables neither path leads through the other, or they set the same |
| Config.EnvironmentReads | config/config.go:132-146 | then each path reads back its value, and paths unrelated to all are unchanged |
| Config.Load | config/config.go:87-106 | each file over the one before, then the environment; the first unreadable or malformed file stops it |
| Config.LastFileWins | config/config.go:91-105 | a leaf of one file hides the defaults and earlier files, and is there in the end if later ones are silent on its path |
| Config.DefaultsStay | config/config.go:88-105 | a path on which every file is silent is as in the defaults |
| Dsn.ReadPrinted | db/postgres.go:269-274 | PostgreSQL reads a printed value back, quoted and escaped or bare |
| Dsn.JoinKeywordDSN | db/postgres.go:248-267 | all settings once, the well-known ones first, the others in any order; PostgreSQL reads the map back exactly if all values are printable, the splitter exactly if all are plain |
| Dsn.PresentInOrder | db/postgres.go:249-260 | the well-known names come in their order |
| Dsn.QuotedExactly | db/postgres.go:269-274 | a value is printed as it is exactly if it holds a character and no space, tab, quote or backslash |
| Dsn.SplitKeywordDSN | db/postgres.go:236-246 | the loop computes the specification `Split` |
| Dsn.LastFieldWins | db/postgres.go:236-246 | the last field that names a key gives its value, without the quotes around it |
| Dsn.NoFieldNames | db/postgres.go:238-242 | a key no field names is not there |
| Dsn.TrimQuotesExactly | db/postgres.go:243-243 | quotes are cut off at both ends as far as there are any, and nothing else |
| Dsn.FieldsSkip | db/postgres.go:238-238 | space before a word is no part of it |
| Dsn.ParsePrinted | db/postgres.go:248-274 | for every order, the grammar of section 34.1.1.1 of the PostgreSQL 16 documentation reads back exactly the printed map |
| Dsn.PrintableExactly | db/postgres.go:248-274 | for every map and order that holds exactly if all values are printable |
| Dsn.SplitPrinted | db/postgres.go:236-267 | the splitter takes a printed DSN apart again exactly if every value is free of spaces, quotes and backslashes |
| Dsn.SplitReadsLikePostgres | db/postgres.go:236-267 | on printed DSNs splitter and PostgreSQL agree exactly then |
| Dsn.PostgresMaintenanceDSN | db/postgres.go:204-234 | the target is the dbname the splitter saw; the new DSN means the settings it saw with dbname replaced, to PostgreSQL exactly if the name is printable, to the splitter exactly if all values are plain; it means those PostgreSQL read in the original exactly if the two agree on the others |
| Dsn.MaintenanceNames | db/postgres.go:205-208 | the database to connect to is postgres unless a name that is not blank is configured |
| Dsn.SimpleReadsAlike | db/postgres.go:236-246 | on a DSN of complete fields without quotes or backslashes the splitter reads what PostgreSQL does |
| Tx.TxManager.Exec | db/tx.go:25-33 | a statement lands in the context's transaction, or directly in the database without one |
| Tx.TxManager.WithTx | db/tx.go:35-46 | does to transaction and database exactly the effect of the call tree; without a database an error and nothing else |
| Tx.AsSteps | db/tx.go:25-46 | every callback without nested calls is, as far as it gets, a list of statements that pass and an end |
| Tx.StepsRun | db/tx.go:25-33 | such a list writes the rows its statements say, in order, each with its context |
| Tx.TransactionRows | db/tx.go:43-45 | WithTx around one: the rows written through the transaction are kept exactly if the callback returns nil and the commit takes effect, those written around it always |
| Tx.NestedSteps | db/tx.go:39-41 | nested in a transaction, the statements run as if they stood in the place of the call |
| Tx.NestedApart | db/tx.go:43-45 | nested with a context without a transaction, they are a transaction of their own |
| Tx.KeepsExactly | db/tx.go:39-41 | nothing happens around the transaction exactly if all that is executed uses the context given |
| Tx.AllOrNothing | db/tx.go:35-46 | then there is one begin, and of all rows written all are kept or none; all if nil is returned, none after a panic, also with inner errors ignored |
| Tx.OneTransactionExactly | db/tx.go:35-46 | a refused commit leaves the database untouched after one begin exactly for such callbacks |
| Tx.NothingInvented | db/tx.go:25-46 | with any use of contexts no row is kept that was not written, and none twice |
| Tx.NestingCollapses | db/tx.go:39-41 | every callback does what its form without nested calls does |
| Page.NormalizePage | db/page.go:29-40 | page at least 1, size from 1 to 200, sensible requests unchanged |
| Page.OnlyAllowedSorts | db/page.go:68-83 | with an allowlist no text of the request gets into the query: no order, or an allowed column that depends on the key only |
| Page.SortExactly | db/page.go:68-83 | raw text exactly without an allowlist and if there is any; a column exactly if its key is allowed; descending exactly for the word desc in any case |
| Page.Paginate | db/page.go:53-66 | count error before find error; otherwise the total and the items of the normalized page, in the order asked for |
| Page.OffsetExact | db/page.go:59-59 | the 64-bit offset is the product exactly if page-1 is at most the maximum over the size |
| Page.SafePages | db/page.go:29-59 | up to a fixed page that holds for every requested size |
| Page.SafePagesEnd | db/page.go:36-59 | the next page of size 200 wraps |
| Page.PagesPartition | db/page.go:53-66 | for any requested size the pages up to the last are the list, without overlap or gap |
| Page.LaterPages | db/page.go:53-66 | a later page is empty except exactly where the wrapped offset falls on a row or below zero |
| Page.WrappedPage | db/page.go:59-59 | such a page shows the first rows again |

## Left out

- Redis and go-redis: one clock, one server, each command atomic and executed at most once; retries inside the client library are not modelled. A positive expiration is sent in whole milliseconds, at least one; an expiration of -1 makes SET keep the ttl.
- Lock.LockWithWait: a nil client, which fails in the first `TryLock`; draining a stopped timer.
- The nil receivers of `Lock.Refresh`, `Lock.Unlock` and `session.Manager`, which return early.
- Randomness, SHA-256 and JSON are parameters: fresh tokens and states, an injective hexadecimal hash, a codec that round-trips on what it encodes.
- CacheAside.BoundedStaleness: the delay between loading and storing is a bound the caller's `load` has to respect; the code enforces none.
- Casbin `Enforce` decisions (`Check`, `Authorize`): the policy model is on the server.
- The remote listing is one atomic read, and `Domain`, `GrantedBy`, `Metadata` and `ExpiresAt` (but for being refused) are not part of a rule.
- Setting the process-wide role mapper: the mapper is a parameter, fixed during a call.
- YAML and JSON decoding, `Default`, `Validate`, and the two Casdoor defaults after decoding: easy members.
- Config.MergeMap: a layer is a tree of maps, as decoding makes it; sharing inside one layer (YAML aliases) is not modelled. Lists are leaves.
- Text.ToLower: ASCII letters only.
- Dsn.PostgresMaintenanceDSN: the URL form, which rests on `net/url`; it is recognised and not followed. `normalizePostgresDSN` only appends text.
- Dsn.Parse: accepts any parameter name; PostgreSQL checks names against a list. Characters are compared as such, not as bytes.
- Tx.TxManager.WithTx: a callback uses the context it is given or one without a transaction, not that of an unrelated transaction; nobody recovers from a panic.
- Page.Paginate: the list does not change between count and find, and a non-positive offset is no offset, as GORM has it. An order the database refuses is a find error.
- MinIO, logging, metrics, health, audit, token parsing and runtime wiring: no hard invariant.
