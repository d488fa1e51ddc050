# Keychain: a verified model of the API-key lifecycle and credit protocol

Keychain issues API keys, verifies them, and meters them. A key is created under
an API of a workspace, looked up by the hash of its plaintext, and may be
revoked, rotated, or limited to a number of uses. The RPC handlers run
concurrently over one shared store, and most handlers are several atomic store
calls rather than one.

This project models that protocol and proves what it keeps, from the heap
objects of the in-memory driver up to whole runs of interleaved calls.

| file | what it holds |
|---|---|
| `Domain.dfy` | the values: workspaces, APIs, keys, store errors |
| `StoreSpec.dfy` | the store as a value, each atomic operation as a function, the hash index, tenancy, commutation |
| `MemoryStore.dfy` | the in-memory driver in the heap: maps of records, byte and string slices, time cells, metadata maps, copies in and out |
| `Isolation.dfy` | a caller that keeps and overwrites every record it ever exchanged with that driver |
| `Keymat.dfy` | unpadded base32, plaintext generation and validation |
| `Pagination.dfy` | byte-lexicographic order, one page, and token walks |
| `Verdict.dfy` | the checks of a verify call, the rate limiter, the response |
| `Rpc.dfy` | the handlers run one at a time, over any driver |
| `Contracts.dfy` | what each request is judged by, reads and writes, spelled out field by field |
| `Handlers.dfy` | the handlers as imperative code over the in-memory driver |
| `Postgres.dfy` | tables with their constraints, single SQL statements, the driver's one- and two-statement operations |
| `DriverEquivalence.dfy` | sequential runs over both drivers |
| `Machine.dfy` | any number of calls in flight, one atomic step at a time |
| `Invariants.dfy` | what every step of every call keeps |
| `Safety.dfy` | the results about all runs |
| `Outcomes.dfy` | what calls are told and what they create in any run, spelled out |
| `Replay.dfy` | replaying a run's calls one at a time: their readings, orders, real time |
| `Linearizability.dfy` | concurrent verify and revoke calls on one key look atomic |
| `Locality.dfy` | and on any keys at once: the keys' orders merge into one |
| `Serializability.dfy` | so do calls of every kind, as long as no credit is spent |
| `Runs.dfy` | building a run step by step |
| `SerialLimits.dfy` | exactly when runs with reads or rotations on a key always have a serial order |
| `Anomalies.dfy` | runs that show what the protocol does not promise |
| `PostgresMachine.dfy` | the step machine over Postgres, one SQL statement a step, answered by the Postgres driver and matched by the one over memory |
| `PostgresSafety.dfy` | the results about all runs, over Postgres |
| `PostgresLinearizability.dfy` | concurrent verify and revoke calls over Postgres look atomic |

The layers meet: the heap driver's methods equal the functions of `StoreSpec`
(`Store.*`), the imperative handlers equal the sequential handlers (`Server.*`),
a call of the step machine left alone equals the sequential handler
(`AloneVerify` and its siblings), and the Postgres driver agrees with the
in-memory one on sequential runs (`DriversAgree`, `ExactAgreement`), for its
two-statement operations under interference (`DecrementAtomicIff`,
`RotateAtomicIff`), and run by run when every statement is a step of its own
(`StatementMatches`, `RunMatches`), which carries the results about runs over
(`PostgresSafety`, `PgAllKeysLinearizable`).

## Assumptions

- New identifiers are non-empty and not yet in the store (`Fresh`, `FreshEnv`).
- The hash is an uninterpreted function. Results that need it injective say so:
  `InjectiveOn` ranges over the plaintexts issued in the run. Two results about
  rotations need unused random bytes whose plaintext has a hash that is not in
  the index yet (`Drawable`).
- The 32 random bytes of a generated key never repeat within a run (`Enabled`).
- Clock readings are arbitrary. Where a result needs a monotone clock it says
  so: only the EXPIRED part of `TerminalVerdictsAbsorb` does.
- The rate limiter of an outside service answers anything at all.
- Each SQL statement is atomic, and Postgres compares identifiers by bytes.

## Where code and documentation differ

- `proto/apikey/v1/apikey.proto:49-51` says an API's key prefix does not affect
  hashing. The code hashes the prefix with the rest
  (`pkg/keymat/keymat.go:39-48`); the model follows the code.
- `keychainserver/store/store.go:116-117` calls revoking a revoked key a no-op.
  In Postgres the update matches again and renews the update stamp.
  `DriversAgree` says after any run exactly which stamps differ, and
  `ExactAgreement` that without such a request nothing does.
- `keychainserver/store/store.go:127-130` has the decrement return the depleted
  error for depleted keys. The Postgres driver can return it for a key with
  credit left, when the key is absent at its first statement and has credit at
  its second: `DecrementAnomaly` gives the run, `DecrementAtomicIff` the exact
  condition.
- `keychainserver/store/store.go:119-120` has a rotate replace the hash. The
  Postgres driver can report success without having done so, when the key is
  absent at its first statement and there at its second: `RotateAnomaly` gives
  the run, `RotateAtomicIff` the exact condition.
- The server cannot reach either: it decrements and rotates only keys it has
  already read (`ServerDecrementIsAtomic`, `ServerRotateIsAtomic`).

## Model

| member | source | states |
|---|---|---|
| `StoreSpec.IndexIsScan` | keychainserver/store/memory/memory.go:99-179 | after any sequence of operations, accepted or rejected, the index maps a hash to a key exactly when that key exists with that hash; a lookup by hash equals a scan of all keys; no two keys share a hash |
| `StoreSpec.RotateKeepsIndex` | keychainserver/store/memory/memory.go:160-179 | rotating keeps the index right, also to the hash the key already has, and when it is refused |
| `StoreSpec.OpsEvolve` | keychainserver/store/memory/memory.go:42-261 | over any sequence of operations workspaces and APIs never change, keys never vanish, identity fields are frozen, a revoked key stays revoked, uses never rise, unlimited stays unlimited, a stamp stays |
| `StoreSpec.OpKeepsTenancy` | keychainserver/store/memory/memory.go:69-119 | every API keeps an existing workspace and every key an existing API of the same workspace |
| `StoreSpec.KeyOpsCommute` | keychainserver/store/memory/memory.go:143-261 | any two of revoke, rotate, touch and decrement on one key commute up to the update stamp, unless both are rotates or both are touches |
| `StoreSpec.RotateFrame` | keychainserver/store/memory/memory.go:160-179 | a rotate fails exactly when another key has the hash and then changes nothing; otherwise it changes one key's hash and stamp, the new hash finds the key, the old one nothing, all others what they did |
| `StoreSpec.TouchStamps` | keychainserver/store/memory/memory.go:229-242 | a touch fails exactly without a key, and writes nothing but its stamp |
| `StoreSpec.DecrementReports` | keychainserver/store/store.go:126-130 | a decrement reports the uses it leaves, -1 for an unlimited key, and an error exactly when there is no key or no use left |
| `MemoryStore.CloneKey` | keychainserver/store/memory/memory.go:281-297 | a copy equal in every field that shares no slice, time cell or metadata map with the original |
| `MemoryStore.CloneWorkspace` | keychainserver/store/memory/memory.go:271-274 | the same for a workspace and its metadata |
| `MemoryStore.CloneApi` | keychainserver/store/memory/memory.go:276-279 | the same for an API and its metadata |
| `MemoryStore.CloneCell` | keychainserver/store/memory/memory.go:291-297 | no time for no time, otherwise a new cell with the same one |
| `MemoryStore.SortIds` | keychainserver/store/memory/memory.go:195-195 | the result depends only on which identifiers there are, not on the order they came in |
| `MemoryStore.Store.constructor` | keychainserver/store/memory/memory.go:28-36 | an empty store |
| `MemoryStore.Search` | keychainserver/store/memory/memory.go:202-202 | bisection finds the first position of a sorted list not below the token |
| `MemoryStore.After` | keychainserver/store/memory/memory.go:197-207 | the first position strictly above the token, or the start when there is none |
| `MemoryStore.Cut` | keychainserver/store/memory/memory.go:197-226 | start, size default, end clamp and next token of a page, all slice bounds safe |
| `MemoryStore.Store.CreateWorkspace` | keychainserver/store/memory/memory.go:42-52 | new contents and record equal the specification; the store grows by fresh objects only; the record returned shares nothing with the store |
| `MemoryStore.Store.GetWorkspace` | keychainserver/store/memory/memory.go:54-63 | the stored workspace as a fresh copy, or not found |
| `MemoryStore.Store.CreateApi` | keychainserver/store/memory/memory.go:69-82 | the same for an API, refused without its workspace |
| `MemoryStore.Store.GetApi` | keychainserver/store/memory/memory.go:84-93 | the stored API as a fresh copy, or not found |
| `MemoryStore.Store.CreateKey` | keychainserver/store/memory/memory.go:99-119 | a missing API and a taken hash are refused without effect; otherwise key and index entry go in, the caller's slices are not kept and the stored ones not handed out |
| `MemoryStore.Store.GetKeyById` | keychainserver/store/memory/memory.go:121-130 | the stored key as a fresh copy, or not found |
| `MemoryStore.Store.GetKeyByHash` | keychainserver/store/memory/memory.go:132-141 | the indexed key as a fresh copy, or not found |
| `MemoryStore.Store.RevokeKey` | keychainserver/store/memory/memory.go:143-158 | disables and stamps an enabled key, leaves a revoked one untouched, refuses an unknown one |
| `MemoryStore.Store.RotateKey` | keychainserver/store/memory/memory.go:160-179 | old entry out before new entry in, the new hash copied from the caller's slice, a fresh copy returned |
| `MemoryStore.Store.CollectIds` | keychainserver/store/memory/memory.go:185-194 | in whatever order the map is iterated, exactly the matching identifiers, each once |
| `MemoryStore.Store.ListKeys` | keychainserver/store/memory/memory.go:181-227 | the page equals the specification independent of map order, as fresh copies |
| `MemoryStore.Store.TouchLastVerified` | keychainserver/store/memory/memory.go:229-241 | sets the stamp through a cell of its own, without the update stamp |
| `MemoryStore.Store.DecrementRemainingUses` | keychainserver/store/memory/memory.go:243-261 | unlimited, depleted and credit keys answered as the specification says, one use spent only from a positive credit |
| `Isolation.Session.Scribble` | keychainserver/store/memory/memory.go:271-297 | a write through any reference the caller ever passed in or got back leaves every object of the store, hence its contents, unchanged |
| `Isolation.Session.StaysSealed` | keychainserver/store/memory/memory.go:271-297 | an operation that only adds fresh objects to the store keeps everything in the caller's hands outside it |
| `Isolation.Session.CreateWorkspace` | keychainserver/store/memory/memory.go:42-52 | store and caller stay apart, the contents are those of the operations so far with the workspace as it was when passed, and the caller gains exactly the record the specification returns |
| `Isolation.Session.CreateApi` | keychainserver/store/memory/memory.go:69-82 | the same for an API |
| `Isolation.Session.CreateKey` | keychainserver/store/memory/memory.go:99-119 | the same for a key, its hash, permissions, limit references, times and metadata |
| `Isolation.Session.RotateKey` | keychainserver/store/memory/memory.go:173-178 | the same with the hash bytes of a record the caller holds and may overwrite later |
| `Isolation.Session.RevokeKey` | keychainserver/store/memory/memory.go:143-158 | the same for a revoke |
| `Isolation.Session.TouchLastVerified` | keychainserver/store/memory/memory.go:229-241 | the same for a touch |
| `Isolation.Session.DecrementRemainingUses` | keychainserver/store/memory/memory.go:243-261 | the same for a decrement |
| `Isolation.Session.GetWorkspace` | keychainserver/store/memory/memory.go:54-63 | a read hands out exactly what the operations so far account for, whatever the caller wrote in between, and it stays apart from the store |
| `Isolation.Session.GetApi` | keychainserver/store/memory/memory.go:84-93 | the same for an API |
| `Isolation.Session.GetKeyById` | keychainserver/store/memory/memory.go:121-130 | a key handed out by identifier stays apart too, and is the one the operations so far account for, whatever the caller wrote in between |
| `Isolation.Session.GetKeyByHash` | keychainserver/store/memory/memory.go:132-141 | the same for a key looked up by hash bytes the caller holds |
| `Isolation.Session.ListKeys` | keychainserver/store/memory/memory.go:217-220 | a page handed out stays apart from the store, and holds what the operations so far account for, whatever the caller wrote in between |
| `Keymat.DecodeInvertsEncode` | pkg/keymat/keymat.go:22-25 | unpadded base32 (sections 6 and 3.2 of RFC 4648) is undone by decoding, for byte strings of any length |
| `Keymat.EncodedLength` | pkg/keymat/keymat.go:13-25 | five bytes take eight letters and a tail two, four, five or seven, so 32 bytes take 52 |
| `Keymat.LettersSpellBytes` | pkg/keymat/keymat.go:22-25 | five bits to a letter of the standard alphabet (table 3 of RFC 4648), most significant first, the letters spell the bits of the bytes in order, the last letter filled up with zero bits and nothing after it |
| `Keymat.PlaintextShape` | pkg/keymat/keymat.go:42-78 | a plaintext is its prefix and 52 letters, gives its random bytes back, and passes validation with and without the prefix |
| `Keymat.PlaintextInjective` | pkg/keymat/keymat.go:42-50 | prefix and random bytes together are determined by the plaintext, also between prefixes of different lengths |
| `Keymat.PlaintextSpells` | pkg/keymat/keymat.go:42-50 | the prefix, and 52 letters of that alphabet that spell the 32 random bytes |
| `Keymat.ValidateMeans` | pkg/keymat/keymat.go:71-79 | refused exactly when empty or without the prefix asked for |
| `Keymat.New` | pkg/keymat/keymat.go:42-50 | consumes 32 random bytes, encodes exactly those, hashes prefix and payload; when the source runs dry, an error and neither |
| `Pagination.SortStringsSorts` | keychainserver/store/memory/memory.go:195-195 | sorting distinct identifiers gives them in strictly increasing byte order |
| `Pagination.LessIsByteOrder` | keychainserver/store/memory/memory.go:195-195 | the order is byte by byte at the first difference, a shorter string before those it begins |
| `Pagination.SearchStrings` | keychainserver/store/memory/memory.go:199-204 | the insertion index: all before are below the token, the one there is not |
| `Pagination.PageShape` | keychainserver/store/memory/memory.go:181-227 | a page is the first matching identifiers strictly above the token, real identifier or not, and its token is empty exactly when nothing follows |
| `Pagination.PageHolds` | keychainserver/store/memory/memory.go:181-227 | in terms of fields: a page holds stored keys of the API asked for, and of the owner if one is given, above the token, in byte order, at most its size of them and 50 by default; with no next token it holds all of them, and otherwise it is full, ends at the next token and leaves out only keys above it |
| `Pagination.FixedStoreWalk` | keychainserver/store/memory/memory.go:181-227 | over a store that stands still, whatever the page sizes, the pages join to the matching keys in order |
| `Pagination.WalkCalls` | keychainserver/store/memory/memory.go:208-226 | with a constant size a walk over n keys takes exactly max(1, ceil(n / size)) calls, a non-positive size meaning 50 |
| `Pagination.WalkIsComplete` | keychainserver/store/memory/memory.go:181-227 | while the store evolves between pages, a walk that ends returns every key that matched at the start, none twice, and only matching ones |
| `Pagination.WalkHolds` | keychainserver/store/memory/memory.go:181-227 | the same in terms of fields: each key of the API and owner asked for that was stored when the walk began, none twice, and each as it was stored when some page was fetched |
| `Safety.WalkDuringRun` | keychainserver/server.go:237-258 | the same, in terms of fields, for pages fetched at any points of any run of concurrent calls |
| `Verdict.FailClosedConsume` | cmd/keychain/main.go:191-203 | one denied decision per limit reference, in order |
| `Verdict.CheckPermissions` | keychainserver/server.go:353-367 | true exactly when every required permission is held |
| `Handlers.NotFoundResponse` | keychainserver/server.go:342-344 | a fresh response with the NOT_FOUND verdict and nothing else filled in |
| `Handlers.Server.Lookup` | keychainserver/server.go:264-317 | validation, lookup and checks give an answer to stop with, or a response that describes the key found and its looked-up uses |
| `Handlers.Server.CheckLimits` | keychainserver/server.go:302-317 | no client, a failing client, a denial and a pass told apart, decisions put in the response before the verdict |
| `Handlers.Server.Check` | keychainserver/server.go:285-317 | the first failing check in source order decides the verdict; with none the response describes the key |
| `Handlers.Server.SpendAndTouch` | keychainserver/server.go:319-331 | a credit is spent only if the looked-up key had some, and the stamp set only if that succeeded |
| `Handlers.Server.Finish` | keychainserver/server.go:319-335 | DEPLETED, an internal error or VALID according to how the writes went, with the limiter's decisions kept |
| `Handlers.Server.VerifyKey` | keychainserver/server.go:263-336 | store contents and filled response equal the sequential meaning of the request |
| `Handlers.Server.CreateKey` | keychainserver/server.go:140-188 | the same: required fields, API lookup, key material, unlimited for a non-positive request, insertion |
| `Handlers.Server.RotateKey` | keychainserver/server.go:211-235 | the same for its three store calls |
| `Handlers.Server.RevokeKey` | keychainserver/server.go:201-209 | the same for revoke |
| `Handlers.Server.ListKeys` | keychainserver/server.go:237-258 | the page converted record by record in order, without hashes |
| `Contracts.VerifyUnknown` | keychainserver/server.go:264-275 | over any driver, an empty or unknown plaintext is told NOT_FOUND and nothing else |
| `Contracts.VerifyRefuses` | keychainserver/server.go:277-300 | over any driver, a key found is REVOKED if and only if disabled, EXPIRED if and only if enabled and the reading is at or past its expiry, DEPLETED when used up, FORBIDDEN if and only if it gets that far and lacks a permission; the response names the key and nothing is written |
| `Contracts.VerifyLimits` | keychainserver/server.go:302-317 | over any driver, a call that passes those and needs the limiter is stopped with its error, its denial or one denial per reference, unless an outside limiter allows all |
| `Contracts.VerifyUnlimited` | keychainserver/server.go:302-317 | over any driver, one that skips it or has no references is never stopped by it and carries no decisions |
| `Contracts.VerifyWrites` | keychainserver/server.go:319-335 | alone, VALID if and only if all of that lets it through; then one use less and the stamps, every other field, key and entry as before; otherwise nothing is written |
| `Contracts.RepliesHideHashes` | keychainserver/server.go:407-428 | over any driver, no reply to any request carries a hash |
| `Contracts.GetShows` | keychainserver/server.go:190-199 | over any driver, a read shows every other field of the record the driver returned, or the error it maps to |
| `Contracts.RotateShows` | keychainserver/server.go:211-235 | over any driver, a rotate shows every other field of the record handed back, with the plaintext made from the key's API prefix and the random bytes |
| `Contracts.ListShows` | keychainserver/server.go:237-258 | over any driver, a listing shows every other field of each record of the page, in order |
| `Contracts.CreateMakes` | keychainserver/server.go:140-188 | a create stores the key with each field as asked, stamped once, shows it, and touches nothing else; it is refused exactly when the hash is taken |
| `Contracts.CreateRefuses` | keychainserver/server.go:140-156 | over any driver, a missing field, a missing API and missing random bytes, in that order, are refused and write nothing |
| `Contracts.RotateMoves` | keychainserver/server.go:211-235 | a rotate writes one key's hash and update stamp and moves its index entry, every other field, key and entry as before; it is refused exactly when another key has the hash |
| `Contracts.RotateRefuses` | keychainserver/server.go:211-227 | over any driver, no identifier, no such key, no such API and no random bytes, in that order, are refused and write nothing |
| `Contracts.RevokeMarks` | keychainserver/server.go:201-209 | a revoke disables an enabled key and stamps it, and nothing else; of a revoked key it changes nothing; a missing key is an error |
| `Contracts.CreateWorkspaceMakes` | keychainserver/server.go:73-89 | a workspace is stored and returned with each field as asked, or refused for a missing field |
| `Contracts.CreateApiMakes` | keychainserver/server.go:106-123 | the same for an API, which also needs its workspace |
| `Contracts.TenantReads` | keychainserver/server.go:91-138 | both are read back as stored, or not found |
| `Postgres.OverFetch` | keychainserver/store/postgres/postgres.go:296-359 | fetching one row too many gives the page and the token that sorting, searching and slicing all matching identifiers gives |
| `Postgres.CollectPage` | keychainserver/store/postgres/postgres.go:319-358 | the loop over the fetched rows yields that very page |
| `Postgres.StatementsEvolve` | keychainserver/store/postgres/postgres.go:99-401 | over any sequence of statements keys only evolve and hashes stay unique |
| `Postgres.DecrementAtomicForExistingKey` | keychainserver/store/postgres/postgres.go:373-401 | for a key that exists, whatever statements run in between, the two-statement decrement answers as the in-memory one would at an instant inside the call |
| `Postgres.DecrementAtomicIff` | keychainserver/store/postgres/postgres.go:373-401 | in general it does so if and only if it is not the case that the key was absent at the update and has credit at the read |
| `Postgres.DecrementAnomaly` | keychainserver/store/postgres/postgres.go:373-401 | a run in which it does not |
| `Postgres.RotateAtomicIff` | keychainserver/store/postgres/postgres.go:283-294 | whatever runs in between, a rotate answers as it would at its update, with the record moved on by what ran since, if and only if the key was not absent there and present at the read; a success means the hash was written exactly when the key was there at the update |
| `Postgres.RotateAnomaly` | keychainserver/store/postgres/postgres.go:283-294 | a run in which a rotate returns an unrotated record as rotated |
| `Postgres.ServerRotateIsAtomic` | keychainserver/server.go:211-235 | on a key read before, as the server reads it, a rotate always looks atomic |
| `Postgres.ServerDecrementIsAtomic` | keychainserver/server.go:319-327 | on a key read before, as the server reads it, a decrement always looks atomic |
| `DriverEquivalence.CreateKeyAgrees` | keychainserver/store/postgres/postgres.go:182-216 | inserting under an existing API gives the same result and related stores in both drivers |
| `DriverEquivalence.RotateAgrees` | keychainserver/store/postgres/postgres.go:283-294 | rotating gives the same result and related stores |
| `DriverEquivalence.RevokeAgrees` | keychainserver/store/postgres/postgres.go:265-281 | revoking gives the same error; a first revoke gives equal records, a repeated one differs in the update stamp exactly when it reads another time than the stamp there |
| `DriverEquivalence.RepeatedRevoke` | keychainserver/store/postgres/postgres.go:265-281 | a repeated revoke changes the update stamp in Postgres and nothing in memory |
| `DriverEquivalence.RepeatedRevokeDiffers` | keychainserver/store/postgres/postgres.go:270-272 | right after one, in any run, the two records are equal if and only if the time read is the stamp already there |
| `DriverEquivalence.ListAgrees` | keychainserver/store/postgres/postgres.go:296-359 | over-fetching by one row gives the page that sorting, searching and slicing gives |
| `DriverEquivalence.VerifyAgrees` | keychainserver/server.go:263-336 | a verify call gives the same reply over both drivers and keeps the stores related |
| `DriverEquivalence.ServeAgrees` | keychainserver/store/store.go:1-5 | each request, reads included, gives the same reply over both drivers and keeps the stores related, with the stamps that differ afterwards computed exactly |
| `DriverEquivalence.DriversAgree` | keychainserver/store/store.go:1-5 | any sequential run of requests, given the same identifiers, random bytes, clock readings and limiter answers, leaves the same tables and gets the same replies over both drivers, but for the update stamps of exactly the keys in `Drift` |
| `DriverEquivalence.ExactAgreement` | keychainserver/store/store.go:1-5 | in a run in which no request revokes a key that is revoked already, replies and tables are equal, stamps included |
| `Invariants.VerifySpends` | keychainserver/server.go:319-331 | a step of a verify call lowers a credit by one exactly when it makes that call a spender, and never touches an unlimited key, though it branches on a stale snapshot |
| `Invariants.ReachableInv` | keychainserver/server.go:140-336 | the invariants hold in every reachable state of every interleaving |
| `Invariants.RunKeepsCalls` | keychainserver/server.go:140-336 | what each call in flight has established, snapshots included, stays true along any run |
| `Invariants.ApplyKeepsCredit` | keychainserver/server.go:319-331 | every step of every call keeps uses left plus spenders equal to the uses minted |
| `Invariants.MadeIsFresh` | keychainserver/server.go:153-156 | a plaintext generated in a run was never generated before in it |
| `Safety.CreditConserved` | keychainserver/server.go:319-335 | uses left plus calls past their decrement equal what the key was created with, as its create call asked; at most that many are VALID; unlimited keys stay unlimited |
| `Safety.ExactlyMinValid` | keychainserver/server.go:319-335 | once no call on the key is in flight, of the m calls told VALID or DEPLETED exactly min(N, m) were VALID |
| `Safety.TerminalVerdictsAbsorb` | keychainserver/server.go:285-335 | after REVOKED, DEPLETED, EXPIRED (clock not running back) or a completed revoke, no call begun later is VALID for the key, under any plaintext and through any other calls |
| `Safety.OneLivePlaintext` | keychainserver/server.go:211-235 | in every reachable state an issued plaintext finds its key if it is the last issued for it, and nothing otherwise |
| `Safety.ExactlyOneLive` | keychainserver/server.go:140-235 | every key has exactly one such plaintext |
| `Safety.SupersededNotFound` | keychainserver/server.go:263-276 | once a later plaintext was issued, every verify call begun from then on with the old one is told NOT_FOUND |
| `Safety.IssuedPlaintexts` | keychainserver/server.go:153-156 | every issued plaintext is non-empty and carries its API's prefix, and no two issues share one |
| `Safety.RejectionsWriteNothing` | keychainserver/server.go:260-335 | a step that changes the store is never followed by a rejection of its call |
| `Safety.StampedIffVerified` | keychainserver/server.go:328-335 | a key has a last-verified stamp exactly when some call was told VALID for it |
| `Safety.TenantsConsistent` | keychainserver/server.go:148-184 | key, API and workspace agree in every reachable state although creation reads and inserts in separate steps, and every verify response names the key's own |
| `Safety.FailClosedEndToEnd` | keychainserver/server.go:302-317 | VALID for a call that did not skip, on a key with references, means an outside limiter allowed every one, and otherwise it carries no decisions; RATE_LIMITED means no skip, references, and a denial, with the fail-closed limiter exactly one per reference in order |
| `Outcomes.CheckGoesOn` | keychainserver/server.go:285-327 | a call goes on from its check, to the limiter or to its writes, exactly when the record is enabled, not expired at that reading, not used up, permitted, and a limiter it needs is there |
| `Outcomes.VerdictsAreJudged` | keychainserver/server.go:263-336 | in any run, whatever a verify was told but NOT_FOUND was true of the record it had looked up, an earlier state of the key, judged at the clock reading of its own check: each verdict, its limiter decisions and each error, field by field |
| `Outcomes.ValidWasUnexpired` | keychainserver/server.go:289-292 | so a call told VALID made a step at a reading before the expiry of the key |
| `Outcomes.LimiterOnlyWhenNeeded` | keychainserver/server.go:302-317 | in any run, with skipping or without references a call is never stopped by the limiter and carries no decisions; an error says which limiter is missing or has failed |
| `Outcomes.CreatedAsAsked` | keychainserver/server.go:140-188 | in any run, a create call that answered with a key made it with the API, owner, name, permissions, limit references, expiry, metadata and uses its request asked for, enabled, never verified, stamped with one reading of its own step; the stored key keeps them and the uses minted are those asked for |
| `Safety.AloneVerify` | keychainserver/server.go:263-336 | a verify call stepped with nothing in between has the effect and answer of the sequential handler |
| `Safety.AloneCreate` | keychainserver/server.go:140-188 | the same for create |
| `Safety.AloneRotate` | keychainserver/server.go:211-235 | the same for rotate |
| `Safety.AloneRevoke` | keychainserver/server.go:201-209 | the same for revoke |
| `Safety.AloneRead` | keychainserver/server.go:190-199 | the same for a read, which writes nothing |
| `Linearizability.AloneDepletedIsBare` | keychainserver/server.go:293-296 | run alone, a DEPLETED reply carries no limiter decisions |
| `Replay.ReadingsExist` | keychainserver/server.go:140-336 | in any run of any calls each call reads the clock for its check, the limiter, random bytes, a new identifier and the store's clock at one step each at most, so one set of readings per call accounts for the whole run |
| `Linearizability.VerifyRevokeLinearizable` | keychainserver/server.go:263-336 | any complete concurrent run of verify and revoke calls on one key, expiring or not, has a sequential order that respects real time, gives every call its reply with the readings it took, and leaves the key with the same uses and enablement; a reply differs only, and always, when it is DEPLETED with limiter decisions |
| `Locality.AllKeysLinearizable` | keychainserver/server.go:201-336 | the same for verify and revoke calls on any number of keys, or on none: one sequential order for them all, that respects real time across keys and leaves every key with the uses and enablement it had |
| `Serializability.NoCreditSerializable` | keychainserver/server.go:73-336 | any complete run of calls of every kind on any keys, that neither verifies, rotates nor makes a key with credit, has a sequential order that respects real time, gives every call its reply with the readings it took, random bytes included, and ends in the same store, last-verified stamps aside |
| `SerialLimits.ReadsNotSerializable` | keychainserver/server.go:190-199 | from every reachable state at rest, for every key in it with credit, some complete run of a verify, a revoke and a read of it has no sequential order, whatever the calls are said to have read; replies are compared without a key's stamps |
| `SerialLimits.ReadsSerializeIff` | keychainserver/server.go:190-336 | complete runs of verify, revoke and read calls on a key always have a sequential order if and only if the key starts without credit: revoked, or with no uses left, or unlimited |
| `SerialLimits.OnKeySerializeIff` | keychainserver/server.go:190-336 | the same when rotations run as well |
| `SerialLimits.RotationsNotSerializable` | keychainserver/server.go:211-235 | likewise some complete run of verifies and one rotate, in which verifies of the new plaintext spend all the uses before a verify that had looked up the old one |
| `SerialLimits.RotationsSerializeIff` | keychainserver/server.go:211-336 | complete runs of verify and rotate calls on a key always have a sequential order if and only if the key starts without credit |
| `Anomalies.DepletedWithDecisions` | keychainserver/server.go:319-326 | a run from the start in which a DEPLETED reply carries the limiter's decisions |
| `Anomalies.StampFallsIff` | keychainserver/server.go:328-331 | a step moves a last-verified stamp back exactly when it is a touch with an earlier reading |
| `Anomalies.StampsGoBack` | keychainserver/server.go:328-331 | a run from the start in which one does |
| `PostgresMachine.StatementMatches` | keychainserver/store/postgres/postgres.go:99-371 | a step that is one statement, answered by the Postgres driver, has the effect and the answer of the step over memory, update stamps aside |
| `PostgresMachine.StepOverMemory` | keychainserver/server.go:140-336 | the step of a call written over any driver is, over memory, the step of the machine |
| `PostgresMachine.SpendUpdateMatches` | keychainserver/store/postgres/postgres.go:373-401 | with every statement a step, a decrement does at its first statement what it does in memory in one step |
| `PostgresMachine.CommitUpdateMatches` | keychainserver/store/postgres/postgres.go:283-294 | so does a rotate |
| `PostgresMachine.ReadMatches` | keychainserver/store/postgres/postgres.go:283-401 | the statement that follows only tells the call what was settled already |
| `PostgresMachine.RunMatches` | keychainserver/store/postgres/postgres.go:99-401 | every run of calls over Postgres, statements interleaved freely, is matched, call by call and reply by reply, by the run over memory without its second statements, update stamps aside; the record a rotate shows has evolved from the one written |
| `PostgresSafety.PgCreditConserved` | keychainserver/store/postgres/postgres.go:373-401 | credit is conserved in every state of every such run |
| `PostgresSafety.PgTerminalVerdictsAbsorb` | keychainserver/server.go:285-335 | terminal verdicts absorb over Postgres too |
| `PostgresSafety.PgOneLivePlaintext` | keychainserver/store/postgres/postgres.go:283-294 | of all plaintexts issued for a key exactly the last finds its row |
| `PostgresSafety.PgExactlyMinValid` | keychainserver/store/postgres/postgres.go:373-401 | over Postgres too, once no call on the key is in flight, of the m calls told VALID or DEPLETED exactly min(N, m) were VALID |
| `PostgresSafety.PgStampedIffVerified` | keychainserver/store/postgres/postgres.go:361-371 | a row has a last-verified stamp exactly when some call was told VALID for it |
| `PostgresSafety.PgSupersededNotFound` | keychainserver/store/postgres/postgres.go:222-263 | a superseded plaintext is told NOT_FOUND by every verify begun from then on |
| `PostgresSafety.PgRejectionsWriteNothing` | keychainserver/store/postgres/postgres.go:99-401 | a step that changes the tables, a repeated revoke included, is never followed by a rejection of its call |
| `PostgresSafety.PgTenantsConsistent` | keychainserver/store/postgres/postgres.go:182-216 | in every reachable state hashes are unique, rows stand under their own identifiers, and key, API and workspace agree |
| `PostgresSafety.PgVerdictsAreJudged` | keychainserver/server.go:263-336 | `VerdictsAreJudged` over Postgres |
| `PostgresSafety.PgCreatedAsAsked` | keychainserver/server.go:140-188 | `CreatedAsAsked` over Postgres |
| `PostgresLinearizability.PgAllKeysLinearizable` | keychainserver/store/postgres/postgres.go:218-401 | any complete run of verify and revoke calls over Postgres, on any keys, statements interleaved freely, has one sequential order that respects real time, replayed by the sequential server over Postgres, as in `AllKeysLinearizable` |

## Left out

- Linearizability.VerifyRevokeLinearizable: the sequential order does not promise that the clock readings increase along it, because each call keeps the reading it took in the run.
- Locality.AllKeysLinearizable: likewise.
- PostgresLinearizability.PgAllKeysLinearizable: likewise.
- Handlers.Server.CreateKey: the identifier is an input required to be non-empty and unused, because the UUID generator is not modelled.
- MemoryStore.Store.CreateKey: likewise; so are the identifiers of the other two create operations.
- DriverEquivalence.CreateKeyAgrees: only for keys drafted by the server, whose API and workspace exist, because which constraint Postgres reports first is otherwise not fixed by the code.
- DriverEquivalence.DriversAgree: sequential runs only; interleaved statements are the subject of `Postgres` and `PostgresMachine`.
- GetWorkspace, GetApi and ListKeys as calls of the step machine: they write nothing; listing during a run is `WalkDuringRun`.
- Handlers of CreateWorkspace, CreateApi and the three Get calls in imperative form: they are one store call each and appear in `Rpc.Serve`.
- SHA-256: an uninterpreted function, and constant-time comparison, which the verify path does not use.
- Randomness quality: random bytes are inputs.
- Integer widths: remaining uses are only ever compared with zero and decremented from a positive value, and start plus page size cannot overflow from a 32-bit page size, so unbounded integers behave the same.
- Nil against empty slices and maps: not told apart.
- Strings: sequences of characters whose order stands for byte order.
- The response's permissions alias the looked-up record in `Handlers`, as in the source; the converted key of a create, rotate or list reply is a value.
- The cost and request identifier passed to the rate limiter: its answer is an input.
- The wire form of a limiter decision: it has the same fields, so one datatype serves.
- Postgres connections, migrations, JSON encoding, timestamp precision and driver failures.
- gRPC transport, generated protobuf code, health and metrics servers, logging, configuration and shutdown.
