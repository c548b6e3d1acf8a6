# Nodus core engine: verified model

A Dafny model of the parts of the Nodus engine that are easy to get wrong, with
proofs that hold for every input, every run and every interleaving.

* **Idempotent payments** (`ClaimStore`, `RedisClaimStore`, `PaymentStore`, `PaymentBody`,
  `EngineProtocol`, `EngineSafety`, `EngineTheorems`, `EngineProgress`, `EngineExpiry`,
  `EngineTtl`, `EngineWitness`, `EngineOnRedis`, `Engine`). A key's claim
  record moves from InFlight through Submitting to Completed under leases,
  takeovers, stale tokens and crashes. The protocol is a step system in which
  any number of requests on any number of keys and engine instances interleave
  one atomic store call at a time, with arbitrary clock readings, records that
  may expire at any moment and instances that may restart. `EngineSafety` holds
  the inductive invariant, `EngineTheorems` what follows from it for all runs,
  `EngineProgress` when a claim is granted,
  `EngineExpiry` in which order marks, expiries and submissions come, and
  `EngineTtl` what the records' time to live adds; `EngineWitness` shows that
  the separation they promise is exact.
  `Engine` is the code's own order of calls, shown to be such a run whatever
  the others do while it awaits.
  `RedisClaimStore` holds the three Lua scripts and shows that no sequence of
  calls and expiries can tell them from the in-memory store; `EngineOnRedis`
  drives the protocol with them, shows that its runs are the same runs with the
  same log, and states the promises for it.
* **Canonical request text** (`Escapes`, `CanonicalJson`, `CanonicalWriter`,
  `IdempotencyKey`): the fingerprint's input determines the document and
  nothing else; when namespaced keys can meet.
* **AMM arithmetic** (`PoolMath`, `PoolLaws`, `PoolRuns`): quotes in checked
  128-bit arithmetic, floors included, and a pool driven by them.
* **Time-driven guards** (`NonceStore`, `Auth`, `AuthRuns`, `AuthReplay`,
  `CircuitBreaker`, `RateLimit`).
* **Transaction preparation** (`PoolAbi`, `PoolXdr`, `Prepare`) and exact
  prices (`RationalPrice`, `Decimal`).

`Common`, `Text` and `Arithmetic` are shared groundwork.

Owner ids and payment ids are fresh, as the UUIDs of the code are. Clock
readings, RPC answers, adapter answers, the strkey, XDR and JSON-text codecs and
the Unicode table of printable characters are parameters. Of the codecs only
this is asked: strkey text and 32-byte keys correspond one to one and no text is
of both kinds, an encoded envelope decodes to itself, and a recorded response
comes back from its JSON text as it was. HMAC is ideal: a signature verifies
under a key exactly when it is the code of that text under that key. Error texts are not
modelled, only the kind of error.

Some facts differ from the source's documentation, and the model follows the
code. `src/auth.rs:3-8` says that a captured request cannot be replayed. Four
things break that, each shown by a run in `AuthReplay`: the clock is read for the
skew check before the body is awaited and again when the nonce is looked up, and
nothing bounds how long a body may take (`SlowBodyAcceptsTwice`); the window may
be too short (`ShortWindowAcceptsTwice`); the key id is not signed, so a message
passes again under a second id that shares a scope and an HMAC key
(`TwinsAcceptTwice`); and the in-memory store does not outlive its process
(`RestartAcceptsAgain`). With bodies read within a bound, no signed message is
accepted twice in one life of the process exactly when the window lasts twice
the skew, plus a second, plus that bound, and no two ids with a common scope
share an HMAC key (`ReplayProtectedExactly`).
`src/idempotency.rs:27-30` says that keys collide only within one
environment, network and endpoint; the environment is free text, and with a
colon in it two environments can meet (`IdempotencyKey.NestedEnvironmentCollides`).
A failure threshold of zero acts as a threshold of one
(`CircuitBreaker.ClosedExactly`). `src/engine/mod.rs:53` and
`src/engine/mod.rs:128-135` disagree about the name of the asset parameter; the
model has one opaque asset.

## Model

| member | source | states |
|---|---|---|
| ClaimStore.MemoryClaimStore.Claim | src/idempotency.rs:362-419 | one atomic claim: a fresh record, a fingerprint conflict, a replay, an awaited result, a live lease, or the takeover of an expired InFlight record, and the whole new map |
| ClaimStore.MemoryClaimStore.MarkSubmitting | src/idempotency.rs:421-441 | only the current owner moves the record to Submitting and refreshes the lease; otherwise the map is unchanged and the error tells expired from taken over |
| ClaimStore.MemoryClaimStore.Complete | src/idempotency.rs:443-463 | only the current owner records the final response |
| ClaimStore.ClaimExactly | src/idempotency.rs:362-419 | each of the six outcomes of a claim if and only if its condition on the record holds; in particular an InFlight claim with this fingerprint is taken over if and only if its lease is over; and the record then stored, field by field |
| ClaimStore.MarkExactly | src/idempotency.rs:421-441 | accepted if and only if the token owns the record, gone or taken over otherwise; then Submitting with a fresh lease and nothing else changed |
| ClaimStore.CompleteExactly | src/idempotency.rs:443-463 | accepted if and only if the token owns the record; then Completed with this response and reference and nothing else changed |
| RedisClaimStore.Store.Claim | src/idempotency.rs:576-598 | the claim script and the decoding of its reply |
| RedisClaimStore.Store.MarkSubmitting | src/idempotency.rs:601-611 | the mark_submitting script and the decoding of its reply |
| RedisClaimStore.Store.Complete | src/idempotency.rs:614-624 | the complete script, which keeps an earlier execution_ref when it is given none |
| RedisClaimStore.CallSimulates | src/idempotency.rs:660-791 | one call (or expiry) on related stores gives the same answer and keeps the relation, whatever response it records that survives its own JSON text |
| RedisClaimStore.RedisAnswersLikeMemory | src/idempotency.rs:265-271 | for every sequence of claim, mark_submitting and complete calls with the same clock readings, any expiries between them and responses that survive their JSON text, the scripts answer as the in-memory store does |
| RedisClaimStore.CompletedReferenceDiffers | src/idempotency.rs:619-622 | inside, the two stores differ: a completed Redis record keeps the reference that the in-memory one drops |
| RedisClaimStore.CompletedReference | src/idempotency.rs:619-622 | a completed table carries the reference complete brings, or else the earlier one |
| PaymentStore.PaymentStore.Insert | src/store.rs:12-14 | the payment is stored under its own id and nothing else changes |
| PaymentStore.PaymentStore.Get | src/store.rs:16-21 | the stored payment, or NotFound |
| PaymentStore.PaymentStore.SetStatus | src/store.rs:36-42 | a known payment gets this status and update time, all its other fields and all other payments stay; an unknown id changes nothing |
| PaymentStore.PaymentStore.SetConfirmed | src/store.rs:44-51 | a known payment becomes Confirmed with this hash and update time, its error and order fields and all other payments stay |
| PaymentStore.PaymentStore.SetFailed | src/store.rs:53-60 | a known payment becomes Failed with this error and update time, its hash and order fields and all other payments stay |
| PaymentBody.ToValueInjective | src/utils/mod.rs:210-227 | a response body determines every field of the payment it was made from |
| PaymentBody.BodyTells | src/utils/mod.rs:192-227 | a response body has exactly the twelve named fields, and each reads back as the field it is named after |
| PaymentBody.StatusOf | src/utils/mod.rs:192-199 | the four status words, exactly |
| EngineSafety.StepKeeps | src/engine/mod.rs:65-216 | every step of every worker, every expiry and every restart keeps the invariant of the protocol and undoes nothing that was committed |
| EngineTheorems.RunKeeps | src/engine/mod.rs:65-216 | the invariant holds throughout every run |
| EngineTheorems.OneSubmissionPerLife | src/engine/mod.rs:186-198 | within one life of a key's record all submissions hand over one payment id of one owner |
| EngineTheorems.SubmissionsSeparatedByExpiry | src/idempotency.rs:144-149 | two payment ids submitted under one key belong to different lives, and the earlier life ended by the expiry of a record that was already Submitting or Completed |
| EngineExpiry.StepLives | src/idempotency.rs:586-622 | every step keeps: the expiries of a key name all of its past lives, each once, in order |
| EngineExpiry.ExpiryPrecedesSubmission | src/idempotency.rs:144-149 | of two payment ids submitted under one key, the one of the later life is submitted only after the expiry of the earlier life's record, which was past InFlight |
| EngineExpiry.MarkPrecedesSubmission | src/engine/mod.rs:186-198 | nothing is handed to the adapter before the claim was marked with that very payment, by that owner, in that life |
| EngineTtl.TimedStepKeeps | src/idempotency.rs:586-622 | with every accepted write setting the record's deadline to its time plus the request's ttl, every step keeps: each mark's ttl is still running while its record lives, and has passed once it is gone |
| EngineTtl.DeadlinesMove | src/idempotency.rs:586-622 | a grant and an accepted write set the deadline of their key to now plus the request's ttl, and nothing else moves a deadline |
| EngineTtl.SecondMarkWaits | src/idempotency.rs:609 | under one clock that never runs back, a second payment id under a key is marked no earlier than the ttl of the first mark after it |
| EngineTtl.SecondSubmissionWaits | src/engine/mod.rs:186-198 | two payment ids submitted under one key were marked at least a ttl apart |
| EngineWitness.SecondMarkAtTtl | src/idempotency.rs:586-622 | the bound is met: for any two requests under one key and any ttls, a run with one expiry marks and submits a second payment exactly the first one's ttl after the first |
| EngineWitness.OneExpiryTwoSubmissions | src/idempotency.rs:144-149 | a single expiry is enough for two payment ids to be submitted under one key |
| EngineOnRedis.StepMirrors | src/idempotency.rs:576-624 | on mirroring states the scripts and the in-memory store allow the same protocol steps, which lead to mirroring states |
| EngineOnRedis.RunsAlike | src/idempotency.rs:265-271 | the protocol's runs on the scripts are exactly its runs on the in-memory store, and leave the same workers, payments and log |
| EngineOnRedis.AtMostOneSubmission | src/engine/mod.rs:57-64 | on the scripts too, at most one payment id is ever handed to the adapter while the key does not expire |
| EngineOnRedis.AnswersAgree | src/engine/mod.rs:78-119 | on the scripts too, all answers of one life tell the same terminal payment, to one fingerprint |
| EngineOnRedis.SubmissionsSeparatedByExpiry | src/idempotency.rs:586-622 | on the scripts too, two payment ids under one key belong to different lives, the earlier one ended by the expiry of a record past InFlight |
| EngineOnRedis.ExpiryPrecedesSubmission | src/idempotency.rs:586-622 | on the scripts too, that expiry comes before the later life submits |
| EngineOnRedis.TimedRunsAlike | src/idempotency.rs:586-622 | with every writing script setting PX anew, the timed runs on the scripts are exactly the timed runs of the protocol, with the same deadlines |
| EngineOnRedis.SecondMarkWaits | src/idempotency.rs:609 | on the scripts, a second payment id under a key is marked no earlier than the ttl of the first mark after it |
| EngineTheorems.AtMostOneSubmission | src/engine/mod.rs:57-64 | in every interleaving in which the key's record does not expire, at most one payment id is ever handed to the adapter |
| EngineTheorems.AnswersAgree | src/engine/mod.rs:78-119 | all answers of one life of a key, executed or replayed by either path, tell the same terminal payment, and only to requests with the fingerprint of the one that ran |
| EngineTheorems.AnswerTellsSubmission | src/engine/mod.rs:82-97 | an answer and a submission of one life are about the same payment id |
| EngineTheorems.AtMostOneExecuted | src/engine/mod.rs:114-118 | at most one Executed answer is given in one life of a key |
| EngineTheorems.StepForward | src/idempotency.rs:142-165 | one step never moves a record's lifecycle back or changes its fingerprint or creation time |
| EngineTheorems.RecordForward | src/idempotency.rs:142-182 | over any run the lifecycle never moves back, fingerprint and creation time never change, and what was recorded past InFlight keeps its owner and content |
| EngineTheorems.OwnerChangesByTakeover | src/idempotency.rs:402-415 | an owner changes only by a claim on an InFlight record whose lease has expired |
| EngineTheorems.DisplacedNeverWrites | src/idempotency.rs:236-239 | a worker that no longer owns its key's record never owns it again, and every later write of it is refused |
| EngineTheorems.GrantsOneLeaseApart | src/engine/mod.rs:17-19 | two grants in one life of a key are at least one lease apart by their clock readings |
| EngineProgress.GrantedExactly | src/idempotency.rs:402-418 | over all runs, a claim is granted if and only if the key has no record, or an InFlight one with this fingerprint whose last grant is at least 30 seconds old; then the grant is logged and the claimer owns the record |
| EngineProgress.LeaseFromLastGrant | src/idempotency.rs:196-198 | over all runs, the lease of an InFlight record is over exactly 30 seconds after the last grant of its life |
| EngineProgress.RestartLoses | src/store.rs:5-10 | a restart loses exactly that instance's payments and requests |
| EngineTheorems.ClaimForward | src/idempotency.rs:362-419 | a claim moves no record back |
| EngineTheorems.MarkForwardExactly | src/idempotency.rs:421-441 | mark_submitting moves no record back if and only if the token does not own the record, or the record is InFlight or already Submitting this reference |
| EngineTheorems.CompleteForwardExactly | src/idempotency.rs:443-463 | complete moves no record back if and only if the token does not own the record, or the record is not Completed, or Completed with this very response and reference |
| EngineTheorems.StoreAloneCanRegress | src/idempotency.rs:432-440 | the store by itself lets an owner move a completed record back to Submitting; the engine's call order is what prevents it |
| Engine.Engine.InitiateIdempotent | src/engine/mod.rs:65-121 | whatever the rest of the deployment does at its awaits, the code's calls form a run of the protocol and the result is the one each claim outcome leads to: a granted valid request is executed if and only if it still owns its claim at the end, with the exact error otherwise. An executed payment is Confirmed with the hash of the first accepted attempt if and only if a route was found and some attempt was accepted, and otherwise Failed with the last reason or the routing error; its order, fee and stamps are those asked for. It is recorded, handed over under one id as often as the attempts take; a completed claim is replayed verbatim and nothing is handed over |
| Engine.FinalPaymentTells | src/engine/mod.rs:137-215 | the payment an initiation ends with tells its outcome in just that way, for every request and surroundings |
| Engine.Engine.Await | src/engine/mod.rs:113-117 | any steps of other workers, expiries and restarts of other instances leave the waiting worker, its hand-overs and its own payment alone |
| Engine.Engine.ClaimKey | src/engine/mod.rs:69-77 | where the worker stands after each outcome of the claim, and the logged answer of a replay; nothing is handed over |
| Engine.Engine.AwaitResult | src/engine/mod.rs:82-97 | a prior submission is replayed exactly when its payment is known here and terminal; the log grows by that answer or not at all, so nothing is submitted |
| Engine.Engine.Execute | src/engine/mod.rs:98-119 | an invalid request is refused as such; any other is executed and recorded if and only if its claim is still its own at the end; either all hand-overs were made, or there is an error and none was |
| Engine.Engine.CompleteClaim | src/engine/mod.rs:114-118 | the claim is completed under the request's own fingerprint exactly when this worker still owns it; a refused write leaves the records and the log as they were |
| Engine.Engine.RunInitiation | src/engine/mod.rs:123-216 | the payment returned is the failed one when routing fails, and otherwise the inserted, started and settled one; it fails only for an invalid request or because the claim was lost before it was marked |
| Engine.Engine.FailPayment | src/engine/mod.rs:137-157 | a routing failure stores and returns a failed payment, and the log is unchanged: no submission |
| Engine.Engine.StartPayment | src/engine/mod.rs:159-178 | the payment is inserted as pending and set to processing at a later reading; the log is unchanged |
| Engine.Engine.RecordSubmitting | src/engine/mod.rs:186-191 | accepted if and only if the worker owns the claim, which then carries the payment id as Submitting before anything is handed over; otherwise records and log are unchanged |
| Engine.Engine.Retry | src/retry.rs:33-55 | the first acceptance, or else the last rejection, after exactly that many hand-overs, all of them of the one payment under this key |
| Engine.AttemptsMade | src/retry.rs:41-52 | the attempts end at the first acceptance or when they are spent, all before it being rejections |
| Engine.Engine.SettlePayment | src/engine/mod.rs:198-215 | the adapter's outcome becomes the stored terminal payment, nothing else in the store changes, and that payment is returned; the log is unchanged |
| CanonicalWriter.WriteCanonical | src/idempotency.rs:71-99 | the loops append exactly the canonical text, whatever order the map yields its keys in |
| CanonicalWriter.KeysInOrder | src/idempotency.rs:74-75 | the keys of an object in ascending order, independent of the order they are met in |
| CanonicalJson.CanonExact | src/idempotency.rs:58-64 | two documents have the same canonical text if and only if they are equal with objects read as unordered maps |
| CanonicalJson.CanonUnique | src/idempotency.rs:71-99 | a canonical text followed by more text can be split back in one way only |
| CanonicalJson.CanonLayout | src/idempotency.rs:71-99 | the text of every kind of document: the literals, the quoted string, and brackets or braces around the parts joined by commas, keys quoted, followed by a colon, in ascending order |
| CanonicalJson.LessExactly | src/idempotency.rs:75 | that order: a proper beginning comes first, and otherwise the smaller character where two keys first differ |
| Escapes.JsonEscapeDecodable | src/idempotency.rs:97 | JSON string escapes decode uniquely |
| Escapes.JsonFormOf | src/idempotency.rs:97 | which characters are escaped by a letter, which by a number, and which stand for themselves |
| Escapes.DebugEscapeDecodable | src/idempotency.rs:81 | the Debug escapes of keys decode uniquely, whichever characters count as printable |
| Escapes.DebugFormOf | src/idempotency.rs:81 | the same for Debug escapes |
| IdempotencyKey.CollideWhenNested | src/idempotency.rs:49-55 | two namespaces can share a store key if and only if the prefix of one begins with that of the other |
| IdempotencyKey.KeyIsJoined | src/idempotency.rs:49-55 | the store key is its six segments in order, joined by colons |
| IdempotencyKey.KeyDeterminesSegments | src/idempotency.rs:25-30 | without colons in environment, network and endpoint, equal keys mean equal namespaces and equal client keys |
| IdempotencyKey.NestedEnvironmentCollides | src/idempotency.rs:17-23 | an environment that spells out another namespace collides with it |
| PoolMath.IntegerSqrt | src/pool/math.rs:137-148 | terminates with every intermediate value in 128 bits and returns the integer square root of every u128 |
| PoolLaws.AmountOutIsGreatest | src/pool/math.rs:31-54 | the quoted output is the greatest one that keeps the fee-adjusted reserve product, and less than the reserve |
| PoolLaws.AmountOutFailsWhen | src/pool/math.rs:36-51 | a quote fails with ZeroAmount, InsufficientLiquidity or Overflow, each if and only if its condition holds |
| PoolLaws.AmountInIsSufficientAndTight | src/pool/math.rs:56-84 | the quoted input suffices, one less suffices exactly when the division was exact, and nothing smaller does |
| PoolLaws.AmountInFailsWhen | src/pool/math.rs:61-83 | the inverse quote fails with ZeroAmount, InsufficientLiquidity or Overflow, each if and only if its condition holds, so every other request is quoted |
| PoolLaws.AmountInThenOut | src/pool/math.rs:31-84 | feeding the quoted input back yields at least the requested output, or overflows |
| PoolLaws.SmallerInputYieldsLess | src/pool/math.rs:31-84 | an input smaller by two or more yields strictly less than requested |
| PoolLaws.AmountOutThenIn | src/pool/math.rs:31-84 | the input quoted for a quoted output exceeds the original input by at most one |
| PoolLaws.SwapKeepsProduct | src/pool/math.rs:31-54 | the output is below the reserve and the reserve product does not fall |
| PoolLaws.SwapBackNeverGains | src/pool/math.rs:31-54 | swapping the whole output back returns at most the input |
| PoolLaws.SplittingNeverPays | src/pool/math.rs:31-54 | two successive swaps yield in total at most the single swap of the sum |
| PoolLaws.MintIsGreatestShare | src/pool/math.rs:109-117 | minting gives the greatest share that both deposits pay for |
| PoolLaws.MintFailsWhen | src/pool/math.rs:109-117 | a later deposit is refused, as Overflow, if and only if a product with the supply exceeds 128 bits |
| PoolLaws.FirstMintIsRoot | src/pool/math.rs:101-108 | the first mint plus the locked minimum is the integer square root of the product; it is refused if and only if the product is below 1001 squared or exceeds 128 bits, with the error for each |
| PoolLaws.WithdrawalIsGreatestShare | src/pool/math.rs:120-135 | a burn pays the greatest whole amounts that the share is worth |
| PoolLaws.WithdrawalFailsWhen | src/pool/math.rs:120-135 | a burn is refused, as Overflow, if and only if a product with a reserve exceeds 128 bits |
| PoolLaws.MintThenBurnNeverGains | src/pool/math.rs:94-135 | burning just-minted shares returns at most the deposit in each token |
| PoolRuns.ActKeeps | src/pool/math.rs:31-135 | a quoted swap, deposit or withdrawal leaves positive reserves and supply and does not lower the value of a share |
| PoolRuns.ActConserves | src/pool/math.rs:31-135 | conservation: an action is accepted if and only if its quoted flows fit, and moves reserves and supply by exactly those |
| PoolRuns.ShareValueNeverFalls | src/pool/math.rs:31-135 | over any run, between any two moments, reserves stay positive and product over squared supply never falls |
| NonceStore.MemoryNonceStore.CheckAndSet | src/nonce_store.rs:88-111 | whether the key was seen within the window by one clock reading, and the whole new map, stamped by a later one |
| NonceStore.MemoryNonceStore.EvictExpired | src/nonce_store.rs:81-83 | exactly the entries within the window remain |
| NonceStore.CheckExactly | src/nonce_store.rs:88-111 | seen if and only if stored less than the window ago; otherwise, and only then, stored anew |
| NonceStore.EvictExactly | src/nonce_store.rs:81-83 | an eviction takes exactly the entries whose window is over |
| NonceStore.EvictionUnobservable | src/nonce_store.rs:140-152 | any interleaving of evictions leaves every answer as a store that never evicts gives it |
| Auth.ParseScope | src/auth.rs:81-90 | the five scope words, exactly, and the inverse of the scope names |
| Auth.ParseServiceKeys | src/auth.rs:121-158 | accepted if and only if every piece between semicolons is blank or an entry; the registry then holds for each id exactly what the last entry for it gave, every key with a non-empty id without a colon, at least 16 secret bytes and a scope |
| Auth.HexExactly | src/auth.rs:138 | a text decodes to bytes if and only if it spells them in hex, high half first, in either case |
| Auth.HexDecodable | src/auth.rs:138 | a text can be decoded if and only if it is an even number of hex digits |
| Auth.EntryRoundTrip | src/auth.rs:115-116 | an entry in the documented form, its secret of at least 16 bytes written in hex, reads back as that id with those bytes and scopes |
| Auth.EntryExactly | src/auth.rs:124-155 | and nothing but such an entry is accepted |
| Auth.TrimTakesSpace | src/auth.rs:123 | trimming takes white space off both ends and nothing else |
| Auth.SignedTextExact | src/auth.rs:346-355 | the canonical string determines method, path, body digest, timestamp, nonce, scope and network |
| Auth.SignedTextLayout | src/auth.rs:346-355 | the canonical string is the seven parts in the documented order, one to a line |
| Auth.ReadTimestampExactly | src/auth.rs:303-312 | a timestamp is read as n if and only if it is decimal digits, with a sign or without, that denote n within i64 |
| Auth.ScreenReportsFirst | src/auth.rs:259-331 | a request is refused for the first of the eight header checks that fails, in their order, and for none if all hold |
| Auth.BodyVerdicts | src/auth.rs:334-379 | after the headers a request is refused for its size, its signature's encoding or its signature, each if and only if its condition holds |
| Auth.Authenticate | src/auth.rs:259-406 | headers checked at one clock reading, body, signature under the registered key and nonce at later ones with any use of the nonce store by others between them; unless the verdict is Accepted, the store is as the others left it |
| Auth.ReplayKeysDistinct | src/auth.rs:384 | distinct pairs of colon-free key id and nonce have distinct replay keys |
| AuthRuns.PassesEntitled | src/auth.rs:259-379 | whatever any run lets through has a registered key that holds the required scope, names it and this network, had its timestamp within the skew on arrival, a nonce of proper length, a body that fits, and the code of its own canonical string under that key |
| AuthRuns.AcceptedExactly | src/auth.rs:334-396 | over all runs, a waiting request is let through if and only if its body fits, it is signed with its own key and that key id has not stored its nonce within the window in this life of the process; it is called replayed if and only if only the last fails |
| AuthRuns.NothingSignedChanges | src/auth.rs:3-8 | a signature made for one message serves that message only: no run lets through anything it covers in altered form, for another scope or for another network |
| AuthRuns.ForgeriesUnobservable | src/auth.rs:381-383 | a run lets through exactly what it would if no wrongly signed request had ever been sent: who cannot sign cannot burn a nonce |
| AuthReplay.SlowBodyAcceptsTwice | src/auth.rs:313-334 | however long the window, some run accepts one request twice when a body may take any time |
| AuthReplay.TwinsAcceptTwice | src/auth.rs:346-355 | however long the window and prompt the bodies, a captured message passes again under a second id that shares a scope and an HMAC key |
| AuthReplay.RestartAcceptsAgain | src/nonce_store.rs:130-135 | however long the window and prompt the bodies, a captured request passes again after a restart of the in-memory store |
| AuthReplay.AcceptedAtMostOnce | src/auth.rs:313-396 | with bodies read within a bound, a window of at least 2 * skew + 1 seconds plus that bound and no two ids sharing scope and HMAC key, no run accepts one signed message twice in one life of the process, under whatever ids, evictions included |
| AuthReplay.ShortWindowAcceptsTwice | src/auth.rs:313-396 | with any shorter window there is a run, bodies within the bound, that does |
| AuthReplay.ReplayProtectedExactly | src/auth.rs:3-8 | for every bound on bodies: no run within it accepts one signed message twice in one life of the process if and only if the window is at least 2 * skew + 1 seconds plus the bound and no two ids with a common scope share an HMAC key |
| AuthRuns.ReplayMeansReuse | src/auth.rs:385-396 | a nonce is called replayed only when that very key id stored it within the window |
| CircuitBreaker.CircuitBreaker.CheckAndTransition | src/circuit_breaker.rs:47-61 | who is admitted, and the transition to half-open once the timeout has passed |
| CircuitBreaker.CircuitBreaker.OnSuccess | src/circuit_breaker.rs:63-69 | a success closes the breaker with no failures counted |
| CircuitBreaker.CircuitBreaker.OnFailure | src/circuit_breaker.rs:71-100 | a failure counts, opens, re-opens, or is ignored while open |
| CircuitBreaker.CircuitBreaker.Call | src/circuit_breaker.rs:105-131 | the wrapper reports to the breaker exactly the calls that were admitted |
| CircuitBreaker.CallIsEvents | src/circuit_breaker.rs:105-131 | a wrapped call is an admission followed, if admitted, by the report of how it ended |
| CircuitBreaker.ClosedExactly | src/circuit_breaker.rs:47-100 | in any interleaving the breaker is closed if and only if fewer failures than the threshold were reported since the last success, and it stores their number |
| CircuitBreaker.RefusedOnlyWhileFailing | src/circuit_breaker.rs:47-61 | a caller is refused only with a threshold of failures standing and before the timeout has passed |
| CircuitBreaker.OpenExactly | src/circuit_breaker.rs:71-100 | in any interleaving the breaker is open since t if and only if a failure at t met it closed at the threshold or half-open and nothing but stragglers' failures and callers inside the timeout came after |
| CircuitBreaker.RefusedExactly | src/circuit_breaker.rs:47-61 | a caller is refused if and only if the breaker has been open for less than the timeout, counted from the failure that opened it |
| CircuitBreaker.InnerCallsBounded | src/circuit_breaker.rs:103-117 | a sequential caller of an always-failing adapter reaches it at most threshold + floor(T / reset_timeout) times |
| RateLimit.RateLimiter.Allow | src/rate_limit.rs:66-86 | the window reset, the count and the answer for one key, each by its own clock reading, all other keys untouched |
| RateLimit.WindowBegins | src/rate_limit.rs:66-78 | a window runs on until it has elapsed, and then begins at the reading that restarts it |
| RateLimit.AtMostTwiceTheLimit | src/rate_limit.rs:66-86 | any half-open interval as long as the window holds at most twice the limit of allowed requests of one key, however calls under other keys interleave |
| RateLimit.TwiceTheLimitReached | src/rate_limit.rs:66-86 | for every limit and every window longer than one tick some run reaches exactly that number |
| RateLimit.RefusedExactlyWhenSpent | src/rate_limit.rs:75-85 | a request is refused if and only if the current fixed window, which is still running when it is checked, has already seen the limit of allowed requests of its key; with an empty window, if and only if the limit is zero |
| RationalPrice.PriceIsCanonical | src/utils/mod.rs:164-173 | for positive denominators two prices are written alike if and only if the ratios are equal |
| RationalPrice.PriceInLowestTerms | src/utils/mod.rs:167-172 | a price is written in lowest terms and keeps its value |
| RationalPrice.ZeroPrice | src/utils/mod.rs:175-181 | a zero numerator is always written 0/1 |
| RationalPrice.GcdBezout | src/utils/mod.rs:184-190 | the recursion computes a common divisor that is a combination of its arguments |
| PoolAbi.LookupInvertsWireName | src/pool/abi.rs:55-71 | the manifest knows each function by exactly its wire name |
| PoolAbi.KnownFunctionExactly | src/pool/abi.rs:177-191 | a name and argument count are accepted exactly for a manifest function of that arity |
| PoolAbi.KnownCalls | src/pool/abi.rs:98-142 | the three calls by their names and numbers of arguments |
| PoolAbi.EveryFunctionHasDeadline | src/pool/abi.rs:98-142 | a search by name finds the deadline, a u64, in last place for every function |
| PoolXdr.AddressRoundTrip | src/pool/xdr.rs:33-71 | parsing an address is exactly the inverse of printing one of the two accepted kinds |
| PoolXdr.AccountRoundTrip | src/pool/xdr.rs:49-57 | parsing an account is exactly the inverse of printing one, and what is no address is an invalid request |
| PoolXdr.I128RoundTrip | src/pool/xdr.rs:79-97 | an i128 survives the split into two halves |
| PoolXdr.PartsRoundTrip | src/pool/xdr.rs:79-97 | every pair of halves in range is the split of one i128 |
| PoolXdr.PartsValue | src/pool/xdr.rs:87-97 | two halves stand for hi * 2^64 + lo |
| PoolXdr.ApplySimulation | src/pool/xdr.rs:336-380 | the simulated envelope: fee within the ceiling, footprint and authorisation attached, everything else untouched, or the error |
| PoolXdr.SimulatedExactly | src/pool/xdr.rs:336-380 | applied if and only if it is a single host-function call whose total fee fits and stays within the ceiling, with the error for each refusal; fee, resource data and authorisation become the given ones and all else stays |
| Prepare.ConstructBuilds | src/pool/prepare.rs:83-176 | a built transaction decodes to exactly the requested call, source, sequence, time bound and simulated fee |
| Prepare.ConstructExactly | src/pool/prepare.rs:83-176 | a transaction is built if and only if the request is for this network and ahead of its deadline, the RPC gave this sequence number and a simulation of this very call that neither failed nor asks for a restore, and the fee is in range; footprint, minimum fee and authorisation are those of that simulation |
| Prepare.RequestRefusals | src/pool/prepare.rs:83-127 | the error of each refusal before the simulation |
| Prepare.SimulationRefusals | src/pool/prepare.rs:129-176 | a failed simulation or a required restore fails closed as PreconditionFailed whatever else came with it; the errors of the other refusals |
| Prepare.PreparedPassesOwnPolicy | src/pool/prepare.rs:178-207 | once built, a transaction with manifest-typed arguments is always accepted by the engine's own validation, the drift check holds, and the review reports contract, function, arguments, source, sequence, fee, resource fee, deadline and authorisation as requested |
| Prepare.ValidateExactly | src/pool/prepare.rs:216-301 | validation accepts a text as a call of a function if and only if it decodes to a transaction within the stated policy and the networks agree |
| Prepare.ValidateRefusals | src/pool/prepare.rs:216-301 | the error of each refusal |
| Prepare.ReviewTellsTransaction | src/pool/prepare.rs:303-344 | the review of any accepted text says of the decoded transaction what its contract, function, source, sequence, fee, resource fee, deadline and authorisations are |
| Prepare.FillArgs | src/pool/prepare.rs:362-374 | the loop fills in one field per argument |
| Prepare.ArgumentShown | src/pool/prepare.rs:376-393 | an argument of the declared type shows as its address or its value, any other as a diagnostic text |
| Prepare.ReviewPinsArguments | src/pool/prepare.rs:362-390 | manifest-typed arguments are shown alike if and only if they are alike |
| Prepare.SwapArgsShown | src/pool/prepare.rs:401-413 | swap arguments are encoded if and only if the recipient is an address and the amounts fit an i128; they have the manifest's types, and the review shows exactly to, amount_0_out, amount_1_out and deadline as asked for |
| Prepare.AddLiquidityArgsShown | src/pool/prepare.rs:416-440 | the same for adding liquidity |
| Prepare.RemoveLiquidityArgsShown | src/pool/prepare.rs:442-458 | the same for removing liquidity |

## Left out

- Engine.Engine.InitiateIdempotent: others act at its awaits; threads that act between two synchronous store calls are covered by the step system, in which each of these calls is a step of its own.
- RedisClaimStore.RedisAnswersLikeMemory: cjson's number precision and connection failures are not modelled; an expiry may come at any time (`EngineTtl` times it).
- EngineTtl.SecondMarkWaits: the clients' clocks and the database's are one clock that never runs back.
- Engine.Engine.Retry: a configured maximum of zero attempts, at which the code panics, is not modelled.
- AuthReplay.AcceptedAtMostOnce: header presence, SHA-256 and i64 wrap-around of the timestamp difference are not modelled; the wall clock and the monotone clock are one; it speaks of one process, and a second instance with an in-memory store of its own is to it what a restart is.
- CanonicalWriter.WriteCanonical: writes characters, not their UTF-8 bytes, and takes a number as its printed token; SHA-256 is not modelled.
- PoolRuns.ShareValueNeverFalls: starts from positive reserves and supply; the contract that moves the reserves is not part of this model, so a deposit adds exactly the quoted amounts.
- Prepare.PreparedPassesOwnPolicy: the length limits of XDR vectors and the encoding of the ledger key are not modelled.
- Clock readings plus a lease are unbounded integers; the i64 range is not modelled.
- `price_impact_bps`, and pool calls with zero reserves or supply where the code would divide by zero.
- The non-idempotent `initiate`, `simulate`, router scoring, retry delays, address and asset validation: easy members or I/O.
- `instance_lookup`, ledger keys, contract state decoding and the manifest hash.
- The Redis nonce store, HTTP handlers, configuration, metrics, webhooks, rates, batches and health checks.
