# Verified models of connection lifetimes, contributions and text cores

This project models, in Dafny, the parts of the repository whose correctness spans several functions: the
protocols that own connections, the registries extensions contribute to, and the parsers and merges whose laws
cross functions. `dafny verify dfyconfig.toml` checks everything.

**SSH pool and tunnels** (`PoolEntry`, `PoolMachine`, `PoolSafety`, `PoolCounts`, `PoolUse`, `PoolRefs`,
`PoolRate`, `PoolObject`). Retirement, removal from the map and closing are three separate steps under two lock levels.
`PoolMachine` cuts every method into its critical sections and gives each caller a program counter; any interleaving
is a run. The objects `PoolEntry` and `Pool` are the same methods called undisturbed, stated with the same entry
functions. `PoolCounts`, `PoolUse` and `PoolRate` speak of all runs; `PoolRefs` of runs without forced removals, and
of what forced removals break.

**Asset connection cache** (`CacheMachine`, `CacheSafety`, `CacheIdle`, `CacheResults`, `CacheStale`, `CacheObject`).
Invalidation generations, shared dials, hold tokens and an evictor that reads two atomics without the holder's lock.
Releasing a hold is two steps. A step counter orders dials, invalidations and answers; `CacheResults` compares them.

**Kafka client manager** (`Kafka`). Deferred close by reference count and a capacity bound, as a class whose methods
are the critical sections, each tied to a value function; runs over these give the main result.

**Extension drivers** (`DriverSessions`, `DriverOps`, `DriverObject`). Opening, operating, streaming, closing and
removing race; an operation looks at the driver's life before and after its call into the extension.

**Contributions** (`Registries`, `Contributions`, `ContributionRuns`). `Registries` shows that adding and removing one
contribution are inverse and commute. `Contributions` has the methods with their loops and undo logs, undo closures
written as data. `ContributionRuns` interleaves attaches, rollbacks and revokes entry by entry.

**Credential templates** (`AuthTemplate`, `AuthRoundTrip`, `AuthParser`, `AuthInject`). The template grammar, its
printer and the loops of the parser; the check on declarations; selection and injection. A template is a sequence of
characters; an unquoted literal may also hold single bytes from `\x80` up.

**Queries and URIs** (`HexDigits`, `Percent`, `RawQuery`, `MongoUri`, `MongoRoundTrip`). Percent-encoding by section
2.1 of RFC 3986 with `+` for a space in queries; strings are bytes.

**Statements** (`Statements`). Spans over UTF-8 by section 3 of RFC 3629.

**Options and routes** (`DriverOptions`, `ConnectionRoute`, `TlsSlots`). Merges into stored configuration.

`Collections` and `Whitespace` hold what several of these share.

Dials, probes, channel opens and closes are nondeterministic events; clocks are monotone parameters; singleflight is
at most one running flight per key whose joiners share the result; encryption, base64 and upper-casing are function
parameters.

Where the code and its own documentation or intent differ, the model follows the code:

- `Pool.Release` is keyed by asset, so after a forced removal it can hit the successor
  (`PoolRefs.RemoveBreaksCounts`), and `ReleaseRefused` then gives nothing back.
  `PoolCounts.RefCountIsBorrowers` is the exact condition: counts are right exactly as long as every release and
  refusal finds the entry it borrowed.
- A borrowed connection can be retired: Remove takes a held entry, or takes an unheld one that a Get has just probed
  and then acquires (`PoolRefs.AcquireAfterRemove`). `PoolUse.BorrowedStayLiveExactlyWhen` is the exact condition:
  nothing held is taken out of the map to be closed, and nothing live is acquired once it is out.
- A `GetOrDial` that begins after `DropAsset` can be handed a closed connection
  (`CacheStale.LateCallerGetsClosedClient`). `CacheResults.CallerGetsOlderExactlyWhen` is the exact condition: it joins
  a dial that was answered before the invalidation and has not yet returned.
- The comment on `applyProxyChainArg` says an empty `proxy_chain` also clears the single tunnel; the code leaves it
  (`ConnectionRoute.ClearingCanLeaveATunnel`; `ConnectionRoute.ClearingTheChainIsDirectWithoutTunnel` says when).
- `applyTLSCertArgs` can leave both certificate sources in place (`TlsSlots.BothKindsCanMix`).
  `TlsSlots.OneSourceStays` is the exact condition for one request and `TlsSlots.UpdatesKeepOneSource` for sequences.

## Model

| member | source | states |
|---|---|---|
| `PoolSafety.NoLeakNoDoubleClose` | internal/sshpool/pool.go:186-436 | in every interleaving of Get, Release, Remove, failed probes, cleanup, refusals and Close, each dialed entry is in the map under its asset, retired, still with its dial, or held by an actor about to retire it; a retired one is closed or has a closer; no connection closes twice or before retirement |
| `PoolSafety.NothingLeaksAtRest` | internal/sshpool/pool.go:186-436 | once nothing is under way, every entry ever dialed is in the map or closed exactly once |
| `PoolSafety.DialOverwritesOnlyRetired` | internal/sshpool/pool.go:255-295 | whatever the map holds for the asset when a dial publishes its entry has already been retired |
| `PoolSafety.StepKeepsInv` | internal/sshpool/pool.go:186-436 | every critical section of the pool and its borrowers keeps the ownership invariant behind these results |
| `PoolCounts.RefCountIsBorrowers` | internal/sshpool/pool.go:42-90 | in every run, with Remove, Close and failed probes anywhere, each entry's refCount is the number of its outstanding borrows throughout, and no release is about to lower another entry, exactly when every Release and ReleaseRefused finds in the map the entry it borrowed |
| `PoolCounts.StepCountsExactlyWhenOwn` | internal/sshpool/pool.go:308-340 | from right counts, one event of any kind keeps them right exactly when it is no release or refusal, or one that finds its own entry |
| `PoolCounts.AtRestRefCountIsOpenTunnels` | internal/connpool/tunnel.go:25-85 | when every release finds its own entry, the count of an entry ends as the number of open tunnel connections on it: DialAddr nets +1 exactly when it returns a connection |
| `PoolCounts.ReleaseIsOwn` | internal/sshpool/pool.go:308-315 | when every release before it found its own entry, Release, though keyed by asset, lowers the entry its caller borrowed |
| `PoolUse.BorrowedStayLiveExactlyWhen` | internal/sshpool/pool.go:186-396 | in every run, borrowed entries are live and in the map throughout exactly when removeEntry, Remove and Close take only unheld entries out of the map and every live entry acquired is still in it; then counts are right as well |
| `PoolUse.StepKeepsUseExactlyWhen` | internal/sshpool/pool.go:186-396 | from such a state, one event of any kind keeps it exactly when it obeys those two guards, and keeps counts right either way |
| `PoolUse.RefusalsAreOfLive` | internal/sshpool/pool.go:323-340 | when every event obeys them, every refusal finds a live entry, its caller's own |
| `PoolRefs.BorrowedStaysLive` | internal/sshpool/pool.go:186-296 | without Remove and Close, and when probes fail only on connections already retired, every event obeys them: every release finds its own entry, and a borrowed entry is never retired and never out of the map |
| `PoolRefs.RemoveBreaksCounts` | internal/sshpool/pool.go:308-353 | a concrete run where a release misses its entry: after a Remove replaces a held entry, the old borrower's Release lowers the new entry and cleanup retires it in use |
| `PoolRefs.AcquireAfterRemove` | internal/sshpool/pool.go:186-353 | a concrete run where an unheld entry is retired in use: Remove takes it out of the map between a Get's probe and its acquisition, and closes it afterwards |
| `PoolRate.RefusalRateBounded` | internal/sshpool/pool.go:323-340 | in every run two refusals of one asset that retire a live entry are at least refusedRedialInterval apart, so a window of length T holds at most 1 + T / interval of them |
| `PoolRefs.GentleRefusalsAreOfLive` | internal/sshpool/pool.go:323-340 | without Remove and Close, and when probes fail only on connections already retired, every refusal finds a live entry, its own, so the bound is about all that retire one |
| `PoolRate.WindowFits` | internal/sshpool/pool.go:80-90 | n refusals inside a window need n - 1 intervals before the latest of them |
| `PoolRate.StepKeepsRate` | internal/sshpool/pool.go:323-340 | every step of every run keeps refusals an interval apart and live entries younger than the refusals before them |
| `PoolEntries.PoolEntry.TryAcquire` | internal/sshpool/pool.go:42-51 | a reference is taken exactly when the entry is not retired |
| `PoolEntries.PoolEntry.Release` | internal/sshpool/pool.go:54-59 | the count goes down by one and the time of use is now; retirement and closing are untouched |
| `PoolEntries.PoolEntry.RetireIfIdle` | internal/sshpool/pool.go:68-76 | retires exactly an unheld entry idle for longer than the timeout, and says so |
| `PoolEntries.PoolEntry.RetireRefused` | internal/sshpool/pool.go:80-90 | gives the reference back and retires exactly when nobody else holds a connection older than the interval |
| `PoolEntries.PoolEntry.CloseConn` | internal/sshpool/pool.go:101-140 | closes the connection the first time only |
| `PoolEntries.PoolEntry.Close` | internal/sshpool/pool.go:93-98 | retired, then closed |
| `PoolObject.Pool.Publish` | internal/sshpool/pool.go:255-295 | the new entry takes the asset's place in the map |
| `PoolObject.Pool.RemoveEntry` | internal/sshpool/pool.go:298-305 | the map loses the asset only if it still holds this entry; the entry is retired and closed either way |
| `PoolObject.Pool.Release` | internal/sshpool/pool.go:308-315 | lowers whatever entry the map holds for the asset and nothing else |
| `PoolObject.Pool.ReleaseRefused` | internal/sshpool/pool.go:323-340 | reports a redial exactly when the connection is no longer the pooled one or was retired, with the map and entry it leaves |
| `PoolObject.Pool.Remove` | internal/sshpool/pool.go:343-353 | the asset's entry leaves the map, retired and closed; others are untouched |
| `PoolObject.Pool.Close` | internal/sshpool/pool.go:383-396 | the map is emptied and every entry retired and closed |
| `PoolObject.Pool.CleanupIdle` | internal/sshpool/pool.go:415-436 | exactly the unheld entries idle too long leave the map, retired and closed; every other keeps its place and value |
| `PoolObject.Pool.RetireIdle` | internal/sshpool/pool.go:415-436 | the first pass retires exactly those |
| `CacheSafety.OnePlacePerConnection` | internal/connpool/conncache.go:86-243 | each dialed connection is at any time in exactly one place: with its flight, cached under one key, with one closer, or closed once |
| `CacheSafety.InsertNeverOverwrites` | internal/connpool/conncache.go:86-111 | inserting after a dial never overwrites an entry: no other flight of the key is running |
| `CacheSafety.StepKeepsInv` | internal/connpool/conncache.go:75-243 | every step of the cache keeps the places of all connections |
| `CacheIdle.CachedIsFresh` | internal/connpool/conncache.go:75-190 | with dials in flight, the dial of a cached entry began after the latest DropAsset of its asset and the latest Close |
| `CacheIdle.HoldsAreTokens` | internal/connpool/conncache.go:127-145 | holds counts exactly the Holds not yet released |
| `CacheIdle.EvictedWasIdle` | internal/connpool/conncache.go:208-225 | an entry a sweep removes is held by nobody, and its last use, no earlier than its last released hold, lies before the idle threshold, though holds are released in two steps between the sweep's two reads |
| `CacheIdle.StepKeepsFresh` | internal/connpool/conncache.go:75-190 | every step keeps generations, flights, readers and cached entries fresh |
| `CacheIdle.StepKeepsHolds` | internal/connpool/conncache.go:127-225 | every step keeps holds equal to tokens and the evictor's first read valid |
| `CacheResults.OlderExactlyThanLater` | internal/connpool/conncache.go:86-190 | the connection a shared dial answers with, from the cache or from its own dial, is older than an invalidation of the asset exactly when that invalidation came after the answer, for every invalidation of the run; an older one is out of the cache and closed or being closed |
| `CacheResults.CallerGetsOlderExactlyWhen` | internal/connpool/conncache.go:75-190 | a caller is handed a connection older than an invalidation that came before it joined, so one closed or being closed, exactly when a dial of its key is running that was answered before the invalidation |
| `CacheResults.OwnDialIsFresh` | internal/connpool/conncache.go:86-111 | a caller that finds no dial of its key running gets a connection newer than every invalidation before |
| `CacheResults.HitIsFresh` | internal/connpool/conncache.go:76-83 | a caller that finds its key cached gets a connection newer than every invalidation before |
| `CacheStale.LateCallerGetsClosedClient` | internal/connpool/conncache.go:86-117 | a concrete run: a GetOrDial that begins after DropAsset joins a dial that has not quite returned and is handed its closed connection |
| `CacheObject.AssetConnCache.Insert` | internal/connpool/conncache.go:95-111 | cached exactly when the generation is the one read before the dial |
| `CacheObject.AssetConnCache.Hold` | internal/connpool/conncache.go:127-145 | exactly the entry under the key gains a hold |
| `CacheObject.AssetConnCache.Drop` | internal/connpool/conncache.go:148-157 | the entry under the key leaves and is closed once |
| `CacheObject.AssetConnCache.DropAsset` | internal/connpool/conncache.go:160-177 | exactly the asset's entries leave, closed once; only its generation moves |
| `CacheObject.AssetConnCache.Close` | internal/connpool/conncache.go:180-190 | every entry leaves, closed once, and every generation moves |
| `CacheObject.AssetConnCache.EvictIdle` | internal/connpool/conncache.go:208-225 | exactly the unheld entries last used before the threshold leave, closed once |
| `Kafka.ClosedExactlyWhenUnused` | internal/connpool/kafka.go:61-177 | after any run an entry is in the map iff it is not closing, refs are its outstanding borrows, its client closes at most once and only when closing and unused, surplus clients of lost dial races included, and at every unlock the map holds at most max entries |
| `Kafka.AtRestOnlyTheMapIsOpen` | internal/connpool/kafka.go:61-177 | of a manager that started empty, once nothing is borrowed or left to close, exactly the clients in the map are open and every other one dialed has been closed once |
| `Kafka.StepKeepsInv` | internal/connpool/kafka.go:61-177 | every critical section keeps that invariant and the capacity bound |
| `Kafka.KafkaClientManager.EvictOverflowLocked` | internal/connpool/kafka.go:158-177 | terminates with max entries, having evicted nothing used later than an entry it keeps |
| `Kafka.KafkaClientManager.Oldest` | internal/connpool/kafka.go:158-177 | the chosen entry is a least recently used one |
| `Kafka.KafkaClientManager.CloseStaleLocked` | internal/connpool/kafka.go:146-156 | evicts exactly the expired entries and the asset's entries with another fingerprint, closing the unused ones |
| `Kafka.KafkaClientManager.AcquireCached` | internal/connpool/kafka.go:61-98 | the first locked part: stale entries go, and a surviving entry of the key is borrowed |
| `Kafka.KafkaClientManager.AcquireDialed` | internal/connpool/kafka.go:61-98 | the second locked part: another caller's entry is borrowed and the dialed client is surplus, or the new entry is published and overflow evicted |
| `Kafka.KafkaClientManager.ReleaseLocked` | internal/connpool/kafka.go:100-110 | the caller closes exactly when it gives back the last borrow of a closing entry |
| `Kafka.KafkaClientManager.CloseAssetLocked` | internal/connpool/kafka.go:112-128 | exactly the asset's entries leave the map, the unused ones handed to the caller to close |
| `Kafka.KafkaClientManager.CloseLocked` | internal/connpool/kafka.go:130-144 | the map is emptied, the unused entries handed to the caller |
| `Kafka.KafkaClientManager.MarkAll` | internal/connpool/kafka.go:112-144 | marking one entry after another marks the set |
| `Kafka.EvictMore` | internal/connpool/kafka.go:158-177 | one eviction after another is one eviction of the set |
| `DriverSessions.RemovedStaysEmpty` | internal/extreg/dbdriver.go:81-168 | once removal has swapped the session set it stays empty, whatever Opens are still under way |
| `DriverSessions.GivenOnlyWhileAlive` | internal/extreg/dbdriver.go:94-106 | Open hands a session out only if its look at the life under the mutex came before the end, and none after removal has swapped the session set |
| `DriverSessions.ClosedAtMostOnce` | internal/extreg/dbdriver.go:81-168 | no inner session closes twice; one not closed is in the set or the duty of its Open, its closer or the remover |
| `DriverSessions.RemovalClosesEverySession` | internal/extreg/dbdriver.go:153-168 | after removal, with nothing under way, every inner session ever opened has been closed exactly once |
| `DriverSessions.StepKeepsInv` | internal/extreg/dbdriver_session.go:38-53 | every step of open, close and remove keeps each session with exactly one party responsible for it |
| `DriverOps.UnavailableExactlyAfterEnd` | internal/extreg/dbdriver_session.go:23-35 | an operation, a row statement or a failed classification reports the driver unavailable exactly when its last look at the life followed the end; one begun after the end always does |
| `DriverOps.HandedOnlyWhileAlive` | internal/extreg/dbdriver_session.go:110-129 | a row stream is handed out only if the look after its cursor was opened came before the end of life |
| `DriverOps.CursorsAreClosedOrHeld` | internal/extreg/dbdriver_session.go:110-232 | every cursor the extension opened is closed, or with the call that opened it or the caller it was handed to; one never handed out is closed at most once |
| `DriverOps.ReadersLearnOfTheEnd` | internal/extreg/dbdriver_session.go:211-220 | Next after the end says no without asking the extension, Err reports the driver unavailable exactly after it, and a reader whose Next stopped because of the end is told by any later Err |
| `DriverOps.StreamReleasedOnce` | internal/extreg/dbdriver_session.go:110-232 | a row stream's context is released at most once, and has been exactly when nobody is left to release it |
| `DriverObject.ExtensionDriver.Register` | internal/extreg/dbdriver.go:81-107 | a session is handed out exactly while the driver lives, closed otherwise |
| `DriverObject.ExtensionDriver.Close` | internal/extreg/dbdriver_session.go:47-53 | a closed session leaves the set |
| `DriverObject.ExtensionDriver.Remove` | internal/extreg/dbdriver.go:153-168 | removal empties the set and leaves each of its sessions closed exactly once |
| `DriverObject.ExtensionSession.CloseInner` | internal/extreg/dbdriver_session.go:38-45 | the inner session is closed once however often this is called |
| `ContributionRuns.RegistriesHoldExactlyTheAttached` | pkg/extension/contribution.go:154-207 | in every interleaving of attaches, rollbacks and revokes the driver, name, owner, asset-type and policy-face registries are the built-ins plus what undo logs hold; at rest, exactly the contributions of the attached extensions |
| `ContributionRuns.HistoryLeavesNoTrace` | pkg/extension/contribution.go:154-207 | two histories that end with the same contributions attached end in equal registries: failed attaches, revoked extensions and loading order cannot be told from the result |
| `ContributionRuns.OrderDoesNotMatter` | internal/extreg/extreg.go:91-100 | the same contributions give the same registries in any order of attachment |
| `ContributionRuns.StepKeepsInv` | pkg/extension/contribution.go:154-207 | every registration, undo and table step keeps registries, undo logs and the attached table in agreement |
| `Registries.RemoveLeavesTheOthers` | internal/extreg/extreg.go:180-184 | undoing any one contribution leaves exactly the others, wherever it stood in the order |
| `Registries.RemoveUndoesAdd` | internal/dbdriver/registry.go:77-106 | unregistering undoes a registration that found its names free, in every registry |
| `Registries.RemoveCommutes` | internal/dbdriver/registry.go:97-106 | an undo does not disturb a contribution that came later |
| `Registries.FitsExactlyWhenApart` | internal/dbdriver/registry.go:77-94 | a contribution is accepted exactly when it clashes with no built-in and with nothing attached |
| `Registries.NameResolves` | internal/dbdriver/registry.go:121-129 | a name resolves to a driver exactly when that driver bears it and is built in or attached |
| `Registries.TypesBelong` | internal/assettype/registry.go:94-117 | an asset type is registered exactly by a built-in or by the attached extension declaring it |
| `Registries.FacesBelong` | internal/extreg/policy.go:114-123 | a policy face is owned exactly by the attached extension claiming it |
| `Registries.AddStaysCoherent` | internal/dbdriver/registry.go:77-94 | a registration keeps the name index and the owner table in step with the drivers |
| `Contributions.Host.TryRegister` | internal/dbdriver/registry.go:77-94 | refused exactly when the id is empty or a name is taken, and then nothing is registered; otherwise the driver and all its names are |
| `Contributions.Host.Unregister` | internal/dbdriver/registry.go:97-106 | the driver and exactly the names it owns leave |
| `Contributions.Host.RegisterDrivers` | internal/extreg/dbdriver.go:174-185 | all of an extension's drivers, or none |
| `Contributions.Host.Release` | internal/extreg/dbdriver.go:219-225 | releasing drivers one by one leaves exactly the other contributions |
| `Contributions.Host.AttachAssetType` | internal/extreg/assettypes.go:263-289 | registered, or after a refused validator taken out again |
| `Contributions.Host.AttachAssetTypes` | internal/extreg/assettypes.go:246-261 | all of an extension's asset types, or none |
| `Contributions.Host.AttachFace` | internal/extreg/policy.go:70-110 | the policy face is claimed unless built in or owned, and given back when its groups are refused |
| `Contributions.Host.Run` | internal/extreg/extreg.go:180-184 | running an undo log leaves exactly the contributions not in it |
| `Contributions.Host.RevokeAll` | pkg/extension/contribution.go:203-207 | undoing the points in reverse leaves exactly the contributions not in their logs |
| `Contributions.Host.AttachPoints` | pkg/extension/contribution.go:167-178 | the points all attach, or the ones before the refusal are undone and nothing is changed |
| `Contributions.Host.Attach` | pkg/extension/contribution.go:154-185 | succeeds exactly when the extension is accepted, not attached and clashes with nothing; a failure changes no registry and no table |
| `Contributions.Host.Revoke` | pkg/extension/contribution.go:189-201 | exactly the named extension's contributions leave, whatever was attached since; an unknown name changes nothing |
| `Contributions.BackOut` | pkg/extension/contribution.go:167-178 | undoing what was added last restores what was there |
| `AuthRoundTrip.PrintThenParse` | internal/extreg/auth.go:175-279 | a template comes back from printing and parsing exactly when it is well formed, quoted literals with braces, commas and parentheses included |
| `AuthRoundTrip.ParseIsWellFormed` | internal/extreg/auth.go:175-279 | the parser yields only well-formed templates |
| `AuthRoundTrip.ParseThenPrint` | internal/extreg/auth.go:175-200 | whatever is accepted has a printed form with the same meaning |
| `AuthRoundTrip.BodyEndsAtBraces` | internal/extreg/auth.go:204-217 | the closing braces found for a printed placeholder are its own, not ones inside a quoted literal |
| `AuthRoundTrip.ParsePrintedParts` | internal/extreg/auth.go:237-279 | a printed argument list parses back to itself |
| `AuthRoundTrip.UnquotePrinted` | internal/extreg/auth.go:237-279 | a printed literal is unquoted to itself and scanning stops behind its closing quote |
| `AuthParser.PlaceholderEnd` | internal/extreg/auth.go:204-217 | the scanning loop computes the end of the placeholder, -1 when there is none |
| `AuthParser.ParseArgsLoop` | internal/extreg/auth.go:237-279 | the loop computes the stated list parser, with the same error for each malformed list |
| `AuthParser.ParseTemplate` | internal/extreg/auth.go:175-200 | the loop terminates and computes the stated template parser |
| `AuthInject.CheckAuth` | internal/extreg/assettypes.go:175-212 | accepts exactly: groups present, a declared non-secret selector with non-empty distinct values, or no selector and one unconditional group, and every binding in order |
| `AuthInject.CheckBinding` | internal/extreg/assettypes.go:214-241 | accepts exactly a well-placed binding whose template parses and names declared fields only |
| `AuthInject.ActiveGroup` | internal/extreg/auth.go:92-102 | the first group selected, or none when none is |
| `AuthInject.AtMostOneGroup` | internal/extreg/auth.go:92-102 | no value of the selector picks two groups of an accepted declaration |
| `AuthInject.AcceptedReadsDeclared` | internal/extreg/assettypes.go:175-241 | an accepted declaration reads only declared fields, selects by no secret, and all its templates parse |
| `AuthInject.GroupFields` | internal/extreg/auth.go:105-118 | the fields of a group, each once, in order of first use |
| `AuthInject.FirstOnlyIsOnce` | internal/extreg/auth.go:105-118 | that list repeats no field |
| `AuthInject.Inject` | internal/extreg/auth.go:141-161 | what is injected from the own fields of the one first group selected equals rendering that group from the whole configuration; an unreadable field refuses the request |
| `AuthInject.BindingsNeedTheirFields` | internal/extreg/auth.go:282-319 | a binding list renders the same from any values that agree on its fields |
| `RawQuery.SetRawQueryParam` | pkg/extension/auth.go:130-143 | the loop joins the kept pairs and the new one |
| `RawQuery.OnlyTheNamedPairChanges` | pkg/extension/auth.go:126-143 | the pairs of the new query are the old ones not naming the parameter, in order and byte for byte, then exactly one that does, decoding to the value |
| `RawQuery.SecondValueWins` | pkg/extension/auth.go:126-143 | setting a parameter twice is setting it to the second value |
| `RawQuery.ReadersSeeTheValue` | pkg/extension/auth.go:126-143 | decoding the new query gives the new value once and every other parameter's values as before |
| `Percent.UnescapeEscape` | pkg/extension/auth.go:135-141 | decoding undoes percent-encoding for every byte string |
| `Percent.SplitJoin` | pkg/extension/auth.go:133-142 | joined parts without the separator are split back into themselves |
| `MongoRoundTrip.BuildThenParse` | internal/connpool/mongodb.go:167-288 | for every user name, password, database and option, parsing the built URI gives host and port with defaults filled in, exactly when the host has no delimiter, no leading bracket and no leading blank |
| `MongoRoundTrip.CleanHostComesBack` | internal/connpool/mongodb.go:167-203 | a clean host and every port come back |
| `MongoRoundTrip.ReadBackMeansClean` | internal/connpool/mongodb.go:225-288 | a host that comes back is clean |
| `MongoRoundTrip.ReadHostHasNoDelimiter` | internal/connpool/mongodb.go:225-250 | whatever URI is read, the host has none of the bytes that end it |
| `MongoUri.ParseHostFromURI` | internal/connpool/mongodb.go:225-288 | the separator loop and the branches compute the stated host parser |
| `MongoUri.AtoiOfDecimal` | internal/connpool/mongodb.go:181-181 | a printed port reads back as itself |
| `Statements.CheckStatements` | pkg/dbdriver/statement.go:85-115 | accepts exactly the well-cut lists; otherwise names the first statement that breaks a rule and the first rule it breaks |
| `Statements.OneMoreFits` | pkg/dbdriver/statement.go:87-113 | a statement extends a well-cut list exactly when it breaks no rule against the last one: order against the last is order against all |
| `Statements.AcceptedCutsTheText` | pkg/dbdriver/statement.go:85-115 | statements and gaps of an accepted list concatenate to the text, and over UTF-8 text each is UTF-8 itself |
| `Statements.CutsAtBoundaries` | pkg/dbdriver/statement.go:92-96 | cutting UTF-8 text leaves UTF-8 exactly at the positions the check allows |
| `DriverOptions.UpdatesCompose` | internal/assettype/database_options.go:31-81 | when a first update succeeds, a second on top gives the same options or the same error, a failing encryption included, as both merged into one, the second overriding and its empty secrets left out |
| `DriverOptions.CompletionIsSettled` | pkg/dbdriver/descriptor.go:321-340 | completion is idempotent, keeps every given value, gives every required field one, and keeps types |
| `DriverOptions.MergeStaysTyped` | internal/assettype/database_options.go:31-81 | a merge into well-typed options is well typed |
| `DriverOptions.SecretsAreEncrypted` | internal/assettype/database_options.go:31-52 | after a merge a secret is the encryption of the value given, or what was stored when none or an empty one was |
| `DriverOptions.SameEncryption` | internal/assettype/database_options.go:31-52 | encrypting a combined update fails on the same secret as the second update, and otherwise gives both encryptions laid over each other |
| `DriverOptions.CompletionAbsorbs` | pkg/dbdriver/descriptor.go:321-340 | completing before an update changes nothing about completing after it |
| `DriverOptions.ValidateFields` | pkg/dbdriver/descriptor.go:197-257 | accepts exactly fields well formed in key, type, tab, values and default, with distinct keys |
| `DriverOptions.CheckDriverOptions` | pkg/dbdriver/descriptor.go:307-318 | reports the fault of the least faulty key |
| `DriverOptions.CompleteDriverOptions` | pkg/dbdriver/descriptor.go:321-340 | the loop fills defaults field by field and stops at the first required field without a value |
| `DriverOptions.EncryptDriverOptions` | internal/assettype/database_options.go:31-52 | the loop encrypts given secrets and drops empty ones, stopping at the first that cannot be encrypted |
| `DriverOptions.MergeDriverOptions` | internal/assettype/database_options.go:67-81 | check, encrypt, overlay, complete, in that order |
| `ConnectionRoute.UpdatesRefineOneRoute` | internal/assettype/extension.go:222-275 | over every sequence of updates a stored chain implies a zero tunnel, and the pair moves exactly as one route: a non-empty chain selects it, ssh_asset_id alone selects that tunnel or direct, an empty chain ends a chain but leaves a tunnel |
| `ConnectionRoute.ClearingTheChainIsDirectWithoutTunnel` | internal/assettype/connection_args.go:282-287 | an empty chain on its own makes the asset direct exactly when no tunnel is stored |
| `ConnectionRoute.ClearingCanLeaveATunnel` | internal/assettype/connection_args.go:282-287 | a concrete sequence of updates after which an empty chain leaves the tunnel |
| `ConnectionRoute.Asset.Put` | internal/assettype/extension.go:222-275 | one update of the stored tunnel and chain, refused requests and failed encryptions leaving both as they were |
| `ConnectionRoute.Asset.ApplyProxyChain` | internal/assettype/connection_args.go:273-303 | the chain is replaced and the tunnel cleared, or the chain dropped, or nothing touched |
| `ConnectionRoute.ProxyChainArg` | internal/assettype/connection_args.go:129-186 | the loop parses every layer or refuses the list |
| `ConnectionRoute.EncryptLayers` | internal/assettype/connection_args.go:289-297 | every layer's secrets encrypted, or none stored |
| `TlsSlots.OneSourceStays` | internal/assettype/connection_args.go:342-372 | one certificate source stays one exactly unless a valid request names keys of both kinds and sets a value of one kind while a stored value of the other is left unnamed |
| `TlsSlots.UpdatesKeepOneSource` | internal/assettype/connection_args.go:342-372 | over every sequence of updates of a new asset, refused and failed ones included, there is one source throughout exactly when no update clashes with what is stored at its turn |
| `TlsSlots.OneKindSettlesTheSource` | internal/assettype/connection_args.go:342-372 | naming keys of one kind leaves one source whatever was stored |
| `TlsSlots.BothKindsCanMix` | internal/assettype/connection_args.go:365-371 | a valid request that sets a path and clears a content slot leaves both sources in place |
| `TlsSlots.Store.ApplyCerts` | internal/assettype/connection_args.go:342-372 | the loop over the slots writes what is named, the client key encrypted, and clears the other source |

## Left out

- Networking, SSH and TLS handshakes, SFTP, database and Kafka clients: only their outcomes occur, as events.
- The etcd and OSS pools: no single flight and no conservation law to state.
- `internal/sshagent`, command canonicalisation, policy and grant evaluation: they rest on code outside these files.
- WASM leasing and host-module memory, bootstrap, migrations, sockets, archives and the frontend.
- Scheduling facts: when a waiting goroutine wakes, and that every started call ends; results are about safety.
- The 64-bit wrap-around of the cache's generation counters, which are unbounded here.
- Panics inside a shared dial, and the blocking of a second caller of a once-guard until the first has finished.
- CacheIdle.EvictedWasIdle: reading the clock and storing it into lastUsed is one step, so a delay between the two is not modelled.
- PoolObject.Pool.Close: the entries are closed in any order, as a map iteration gives them.
- Kafka.KafkaClientManager.MarkAll: entries are records in a table of the manager rather than objects of their own, so aliasing of an entry outside the manager is not captured; borrowers name entries by index.
- DriverObject.ExtensionDriver.Remove: sessions are closed one after another, not side by side; DriverSessions interleaves the closes.
- Contributions.Host.Attach: Check's verdict and the tool, group, page and snippet tables are flags of the extension; their own rules are not modelled. Contributions.Host shows one call at a time; ContributionRuns interleaves them.
- AuthRoundTrip.PrintThenParse: templates are valid UTF-8; invalid bytes, which the standard library would replace inside a quoted literal, do not occur. Error messages are reduced to their kind.
- AuthInject.Inject: configuration values are read at one moment, so a change between the selector's read and the group's is not modelled.
- MongoUri.ParseHostFromURI: rewriting a given URI to add a password (`injectPassword`) is left out.
- DriverOptions.MergeDriverOptions: encryption is a function that may fail but answers equal texts alike; the fresh nonce of each encryption is not modelled.
- DriverOptions.ValidateFields: the parts of a descriptor other than its driver fields are not checked.
- ConnectionRoute.ProxyChainArg: ValidateProxyChain is a predicate parameter, because it needs URL parsing; a float argument outside the 64-bit range is cut like any other.
- TlsSlots.Store.ApplyCerts: the switch, the insecure flag and the server name, plain field writes, are left out.
- Listing drivers and asset types in order, localisation and logging.
