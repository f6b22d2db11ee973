# HermesChat: verified model

A Dafny model of the stateful protocols and codecs of a blind-relay messenger, with proofs. `dafny verify dfyconfig.toml`
checks everything. Classes and methods follow the code that changes state step by step; each is proved against a
specification function, and the theorems are about those functions, over every input, every history or every interleaving. Dafny's
automatic induction is switched off in every lemma, so each proof is the one in its body.

| Modules | What they model | Main results |
|---|---|---|
| ReplayRegistry | the in-memory claim / commit / reject / release registry with purge and capacity | ClaimsSeparated, RefusedMeansHeld, StaleTokenInert, EntryProvenance |
| Machines | runs of a state machine, shared by the modules below | ReachesNext |
| EnvelopeAcceptance, AcceptanceSteps, AcceptanceRuns | any number of decryption attempts interleaved with the clock, other traffic and server stops | AtMostOnceIffCoveredIn, ReturnsApartIff, AttemptTraced |
| RelayPath, RelaySteps, RelayRuns | REST and WebSocket hand-over of envelopes with server stops between any two steps | HandOversApart, OncePerGapIff, HandedIff, GoesOn |
| BlindRelay, RelayHistory, RelayReceipts | the RAM queue with real buffers, and whole runs of it | EveryBlobAccountedFor, DeliveredInArrivalOrder, ReceivedWasSubmitted |
| ByteCodec, EnvelopeCodec | the signed payload, its limits, the associated data | LayoutSpelled, ParseCanonical, SignedPayloadInjective |
| Disperser, Envelope, EnvelopeChecks | whitening, and the path from encryption to settled claim | MessageMask, RoundTripIff, AdmittedIff, DecryptIsAnAttempt |
| VectorClock, BackupMerge, ArrayMerge | the backup manager's clocks and merges | LatestByTimestamp, DevicesConverge, UnionKeepsFirst |
| RecoveryMerge | the recovery side's clocks, merge and resolver | ResolveKeepsAllUpdatesIff, MergeAssociatesIff |
| Vault, VaultHistory | the encrypted store over two backends, one call at a time, and whole histories of it | UnlockedMeansKeyOpensMarker, DurableIff |
| VaultFlights, VaultKeys, VaultAnswers, VaultStrays, VaultRaces | the same with overlapping calls: a step is what runs between two awaits | AlwaysOpensIff, OwnAnswerIff, NeverCurrentNeverTouched, OwnCallsOnlyIff |
| PasswordChange | the password-change dialog | ChangePreservesIff |
| RateLimiter, ConnectionLimiter | sliding window per key; connection cap and the endpoint that reports to it | LimitWithinLag, AlwaysCountedIff, NeverFasterThan |
| ImageStore, ImageHistory | ephemeral images with three zeroed buffers, and whole runs | PresentIff, AnswerIff, StrangerGetsNothing |
| SessionToken, LogoutRuns | bearer tokens, their verification, logout, and runs of both | VerifiesIff, LogoutsFinalIff |
| Mnemonic, Padding | 132-bit packing to twelve words; block padding | WordAt, UnpackedAfterPacked, PackedAfterUnpacked, UnpaddedAfterPadded |

## Where the code differs from its documentation or intent

The model follows the code; the exact condition under which the intended law holds is a lemma.

- Replay (`native_core.py:405`, `otp_registry.py:171`): the registry's 300 s do not outlast a past window of 300 s plus a
  future skew of 60 s. `AtMostOnceIffCovered` gives the exact relation. One second is needed for the truncated clock, and
  the longest time an attempt may stall between its freshness check and its claim counts too. The same holds for request
  signatures (`api.py:468`). A settlement that stalls for the whole time to live commits to nothing and still returns
  its plaintext (`ReturnsApartIff`). A registry in the memory of the process lets everything in again after a restart.
- Relay (`api.py:763-782` and `api.py:1244-1259`): the claim starts the 86 400 s, not the hand-over. Hand-overs of equal
  envelopes are apart by that time less the stall since the request's last word to the registry (`OncePerGapIff`).
- Recovery (`state_version_control.js:56-62`): `compare` answers "before" for the clock that is ahead, so the resolver
  keeps the stale side whenever one side is strictly ahead. Its comparison of missing timestamps also makes the merge
  non-associative, exactly as `MergeAssociatesIff` says.
- Backup merge of lists (`backup_manager.js:592-602`) keeps the first item of each key, not the latest.
- Password change (`auth_ui.js:938-950`): the answer of the second unlock is ignored. The writes then go through the
  default password or nowhere, and the new marker is written under whatever key the bridge holds.
- Load without IndexedDB (`storage_manager.js:322-323`): the migration saves back to local storage and then removes that
  very entry.
- Connections (`api.py:1187` and `api.py:1280`): a failed authentication is released twice. A handshake that raises at
  `api.py:1127`, before the `try`, is counted and never released.
- Logout (`api.py:624`): truncating the remaining time leaves up to one second in which the token works again, and so
  does a verification that reads the clock for the expiry (`api.py:119`) before and for the revocation list
  (`otp_registry.py:232`) after the expiry. A second logout of the same token overwrites the deadline of the first
  (`otp_registry.py:222`), with an earlier one if need be (`LogoutsFinalIff`, `SecondLogoutReopens`).
- Debugging endpoint (`api.py:724-731`): it shows and destroys any pending blob for anyone.
- Vault (`storage_manager.js:339-346`): before any user is set, a deletion can remove another user's marker.
- Vault, overlapping calls (`storage_manager.js:48-58`): a call that finds an unlock pending gets that one's answer, whatever
  its own password. The reload path does so: `privacy_settings.js:34` starts a load, which waits for the default password,
  and `auth_ui.js:158-159` joins it with the session's password (`RightPasswordRefused`, `OwnAnswerIff`). The user is read
  again after each await (`storage_manager.js:77` and `101`), so switches and locks in the gaps set the key, the marker and
  the user at odds; `AlwaysOpensIff`, `OrderlyMeansOpens` and `CalmMeansNoStray` say which do, `VaultRaces` shows each.
- Vault, migration (`storage_manager.js:322-323`): a lock between reading and moving a value loses it
  (`LockedWhileMoving`).
- Rate limits (`load_balancer.py:106-107`): the clock is read before the lock is taken. Every shipped caller runs on the
  event loop, where this makes no difference; with threads the window shrinks by the lag (`LimitWithinLag`).
- Padding (`domain/mod.rs:106-115`): plaintexts above 512 bytes are not padded, so their length shows, and a plaintext
  that ends in a zero byte loses it.
- `native_core.py:452-463`: the branch without a KEM ciphertext cannot be reached (`NoKemNeverClaims`).

## Assumptions

- Time is a real number that never decreases. A method that reads the clock takes the reading as a parameter. Readings
  under one lock are one reading; where they are not (a logout, the verification of a token, the check, claim and
  settlement of an attempt, the opening of a connection), each is a parameter of its own.
- Stalls are parameters too: how long an attempt may take from its freshness check to its claim, a request from its claim
  to its commit and from its last word to the registry to its hand-over, a verification from one reading to the next.
- Random values (uuid4 tokens, salts, nonces, coins) are parameters. In histories, tokens never repeat.
- Cryptography is a record of functions. What is assumed of them is written out in the predicates `Lawful`, `KemPair` and
  `SignaturePair`, and `LawsHaveAModel` shows that these can be met. In the vault a ciphertext opens under one key only.
  Digests used as cache keys are arbitrary functions: no theorem needs them to be injective.
- In runs of logouts no two issued tokens share a jti, and no header presents a MAC of fields that were never issued
  together, which takes the server's secret. That such a header does not verify is proved (`VerifiedWasIssued`).
- Text encoded as UTF-8, JSON or base64 is represented by the encoded value. The SVG carrier is represented by its payload
  attribute.
- The native registry and the native encryption back end are absent, as on a machine without that extension.
- Vault user identifiers are non-empty, contain no underscore and are not the word "vault"; they are hexadecimal digests.

## Model

| member | source | states |
|---|---|---|
| ReplayRegistry.Registry.constructor | hermes_backend/network_core/otp_registry.py:34-36 | a new registry holds no claim and no revocation |
| ReplayRegistry.Registry.TryClaim | hermes_backend/network_core/otp_registry.py:71-110 | expired entries of every key are purged; the claim is granted, with a fresh token and a pending entry, iff the key has no live entry and fewer than 100 000 entries are live |
| ReplayRegistry.Registry.DoCommit | hermes_backend/network_core/otp_registry.py:112-129 | only the holder of the pending token turns the entry consumed and restarts its time to live; otherwise nothing changes |
| ReplayRegistry.Registry.DoReject | hermes_backend/network_core/otp_registry.py:131-148 | only the holder of the pending token turns the entry rejected and restarts its time to live; otherwise nothing changes |
| ReplayRegistry.Registry.DoRelease | hermes_backend/network_core/otp_registry.py:150-166 | only the holder of the pending token removes the entry; otherwise nothing changes |
| ReplayRegistry.Registry.RevokeJti | hermes_backend/network_core/otp_registry.py:209-222 | the identifier is remembered until now plus the non-negative part of the time to live |
| ReplayRegistry.Registry.IsJtiRevoked | hermes_backend/network_core/otp_registry.py:224-235 | revoked iff remembered and its deadline has not passed; a passed entry is dropped |
| ReplayRegistry.ClaimsSeparated | hermes_backend/network_core/otp_registry.py:71-166 | in every history, two granted claims of one key are separated by a release that removed the first token's pending entry, or by the full time to live since the first token's last claim, commit or reject |
| ReplayRegistry.StaleTokenInert | hermes_backend/network_core/otp_registry.py:126-129 | once a key has been claimed again, no operation with the earlier token changes anything, in any history |
| ReplayRegistry.TokenGoneAfterReclaim | hermes_backend/network_core/otp_registry.py:98-110 | after a second granted claim of a key the first token never holds the entry again |
| ReplayRegistry.EntryProvenance | hermes_backend/network_core/otp_registry.py:104-148 | every entry owes its token, deadline and status to one granted claim, accepted commit or accepted reject |
| ReplayRegistry.RefusedMeansHeld | hermes_backend/network_core/otp_registry.py:94-102 | a claim is refused only if 100 000 entries are live or some earlier claim, commit or reject of that key has not run out |
| ReplayRegistry.ReleaseFrees | hermes_backend/network_core/otp_registry.py:150-166 | a release by the holder takes exactly its entry out; a claim of the key that comes next is granted iff there is room |
| ReplayRegistry.SettledStays | hermes_backend/network_core/otp_registry.py:76-82 | consumed and rejected entries stay exactly as they are until a claim purges them after their deadline |
| ReplayRegistry.OtherKeysUntouched | hermes_backend/network_core/otp_registry.py:71-166 | an operation leaves every other key and domain as it was, except that a claim drops what has expired |
| ReplayRegistry.SizeBounded | hermes_backend/network_core/otp_registry.py:100-102 | no history makes the cache larger than 100 000 entries |
| EnvelopeAcceptance.RunKeepsInv | hermes_backend/crypto_core/native_core.py:402-507 | what holds after every step of every interleaving, stops of the server included, while the registry outlasts the process: claims in hand are inside their window, carry distinct tokens, and bar their signature for a time to live from their last word to the registry |
| AcceptanceRuns.AcceptancesApart | hermes_backend/crypto_core/native_core.py:445-507 | with no hypothesis on the windows, any two acceptances of one signature claimed it at least one time to live apart, as long as the registry is not lost |
| AcceptanceRuns.PromptReturnsApart | hermes_backend/crypto_core/native_core.py:445-527 | when settlements come within less than the time to live of their claims, plaintext of one signature is returned at moments a time to live apart |
| AcceptanceRuns.StalledRun | hermes_backend/crypto_core/native_core.py:507-527 | in every deployment: a settlement that stalls until the claim has run out commits to nothing and returns its plaintext at the same moment as the next attempt |
| AcceptanceRuns.ReturnsApartIff | hermes_backend/crypto_core/native_core.py:445-527 | returns are a time to live apart in every run whose settlements come within `hold` iff the registry survives a stop of the server and hold < ttl or the windows are covered |
| AcceptanceRuns.CoveredMeansAtMostOnce | hermes_backend/crypto_core/native_core.py:402-507 | plaintext for one signature is returned at most once, over every interleaving, when the time to live covers the windows |
| AcceptanceRuns.UncoveredRun | hermes_backend/crypto_core/native_core.py:404-406 | for every configuration that does not cover its windows, every deployment and every signature that can be received in time, a run in which it is accepted twice |
| AcceptanceRuns.VolatileRun | hermes_backend/network_core/otp_registry.py:34-36 | in every deployment whose registry is lost with the process, a run with one stop in which one message is accepted twice at the same moment, however long entries live |
| AcceptanceRuns.AtMostOnceIffCoveredIn | hermes_backend/crypto_core/native_core.py:402-507 | in every single deployment that can receive some message in time, at-most-once in every run holds iff the registry survives a stop and ttl >= past + skew + 1 s + the longest stall between freshness check and claim |
| AcceptanceRuns.AtMostOnceIffCovered | hermes_backend/crypto_core/native_core.py:402-507 | the same over all deployments at once |
| AcceptanceRuns.ShippedWindowsNotCovered | hermes_backend/network_core/api.py:466-518 | neither the envelope numbers (300, 300, 60) nor those of request signatures (300, 300, 300) meet the condition, in any deployment, for any signature that can be received in time |
| AcceptanceSteps.CheckOrClaim | hermes_backend/crypto_core/native_core.py:402-448 | a check lets an attempt on iff its timestamp is the signed one and inside the window around the whole second; a claim lets it on iff no live entry has its signature digest and there is room |
| AcceptanceSteps.SettleEffect | hermes_backend/crypto_core/native_core.py:445-527 | plaintext is handed out iff the settlement opened; while the claim stands its entry becomes consumed or rejected for another time to live, or goes without a trace when the back end is down; otherwise the registry stays as it is |
| AcceptanceSteps.OtherSteps | hermes_backend/network_core/otp_registry.py:34-36 | a stop of the server loses every attempt that has not returned, and the registry unless it is durable; steps of others leave an attempt as it is |
| AcceptanceSteps.AttemptTraced | hermes_backend/crypto_core/native_core.py:402-527 | over every run: an attempt that stands anywhere was taken there by its own steps, in order, in time, its signature free when it claimed, with no stop of the server in between |
| AcceptanceSteps.SettledOnce | hermes_backend/crypto_core/native_core.py:445-527 | over every run: at most one step settles an attempt |
| RelayPath.RunKeepsInv | hermes_backend/network_core/api.py:754-782 | with a durable registry and commits within the time to live, every admitted request keeps its bytes barred for the relay time to live from its last word to the registry, through every interleaving and server stop |
| RelayRuns.HandOversApart | hermes_backend/network_core/api.py:763-782 | each request hands over at most once, and of two hand-overs of equal envelopes one comes 86 400 s after the other request's last word to the registry: the claim for a live hand-over from a WebSocket, the commit otherwise |
| RelayRuns.BoundedStallMeansApart | hermes_backend/network_core/api.py:1244-1259 | so hand-overs of equal envelopes are apart by 86 400 s less the longest stall between that word and the hand-over |
| RelayRuns.SlowSocketRun | hermes_backend/network_core/api.py:1244-1256 | that bound is reached: a WebSocket request that hands over as late as it may, and one admitted when the first claim runs out |
| RelayRuns.LateCommitRun | hermes_backend/network_core/api.py:763-772 | when a commit may come 86 400 s after its claim, two REST requests hand over equal envelopes at one moment |
| RelayRuns.VolatileRun | hermes_backend/network_core/api.py:1244-1254 | with a process-local registry, a stop between two equal requests lets the envelope through twice at one moment |
| RelayRuns.OncePerGapIff | hermes_backend/network_core/api.py:754-782 | every run of both paths with server stops hands over each request at most once and equal envelopes at most once in `gap` seconds iff the registry is durable, commits come within less than 86 400 s of their claims, and gap + stall <= 86 400 |
| RelaySteps.RequestOrigin | hermes_backend/network_core/api.py:754-759 | over every run: a request came from one arrival, with its route, bytes, token and time, and was admitted iff no live relay entry has the digest of its bytes and fewer than 100 000 entries are live |
| RelaySteps.HandedIff | hermes_backend/network_core/api.py:773-795 | over every run: a request has handed on at t iff a live socket took its envelope at t or it was queued at t; it is queued only after a live socket failed it |
| RelaySteps.HandsOnOnceOnly | hermes_backend/network_core/api.py:773-795 | over every run: at most one step of a request hands on |
| RelaySteps.GoesOn | hermes_backend/network_core/api.py:754-795 | no request is stuck: while the server is up and the time allowed has not passed, one that has not both committed and handed on can take the next step of its route |
| RelaySteps.InFlightIff | hermes_backend/network_core/api.py:754-759 | a request is in flight iff it was admitted and the server has not stopped since |
| BlindRelay.Relay.constructor | hermes_backend/network_core/blind_relay.py:20-24 | the queue starts empty, the counter at zero |
| BlindRelay.Relay.RelayBlob | hermes_backend/network_core/blind_relay.py:26-64 | the queue gains exactly this blob with its submitted bytes, its deadline from the given or the default time to live, in a buffer of its own |
| BlindRelay.Relay.DestroyBlob | hermes_backend/network_core/blind_relay.py:96-121 | exactly the named blob leaves; the stored buffer itself is all zero; every other blob keeps its bytes |
| BlindRelay.Relay.FetchBlobsForReceiver | hermes_backend/network_core/blind_relay.py:66-94 | hands over, in queue order, exactly the receiver's blobs that are in time, each with its own identifier, sender, bytes and creation time; everything of theirs leaves the queue zeroed, everything else stays |
| BlindRelay.Relay.ClearUserQueue | hermes_backend/network_core/blind_relay.py:131-145 | exactly the user's incoming blobs leave, zeroed |
| BlindRelay.Relay.DebugRead | hermes_backend/network_core/api.py:724-731 | shows the bytes of the named pending blob, whoever asks, and destroys it iff asked to; says so when there is none |
| BlindRelay.PutFresh | hermes_backend/network_core/blind_relay.py:52-59 | a new identifier goes to the end of the queue |
| BlindRelay.PutKnown | hermes_backend/network_core/blind_relay.py:52-59 | a known identifier is overwritten in place, as dictionary assignment does |
| BlindRelay.WithoutMembers | hermes_backend/network_core/blind_relay.py:91-92 | destroying a set of identifiers keeps exactly the other blobs |
| BlindRelay.DueForMembers | hermes_backend/network_core/blind_relay.py:76-87 | delivered are exactly the pending blobs of that receiver with now <= expires_at |
| BlindRelay.WithoutTwice | hermes_backend/network_core/blind_relay.py:91-92 | destroying one after the other is destroying all |
| RelayHistory.RunKeepsInv | hermes_backend/network_core/blind_relay.py:26-145 | conservation after every step of every run, whether or not identifiers collide |
| RelayHistory.PutConserves | hermes_backend/network_core/blind_relay.py:43-59 | storing a blob under a known identifier drops exactly the blob that was there, and under a new one drops none |
| RelayHistory.EveryBlobAccountedFor | hermes_backend/network_core/blind_relay.py:26-145 | every accepted blob is, as often as it was accepted, pending, delivered (to its receiver, in time), expired, cleared by its receiver, destroyed through the debugging endpoint, or overwritten by another with its identifier; nothing else is ever pending or gone |
| RelayHistory.DistinctAccountedFor | hermes_backend/network_core/blind_relay.py:41-64 | where no identifiers collide each is accounted for exactly once, none is overwritten, and none expires before its own deadline |
| RelayHistory.DeliveredInArrivalOrder | hermes_backend/network_core/blind_relay.py:76-94 | in every run in which no blob is overwritten, two blobs delivered to one receiver, in one batch or in different fetches, are delivered in the order they were accepted |
| RelayHistory.FetchTakesAll | hermes_backend/network_core/blind_relay.py:66-94 | a fetch leaves nothing of its receiver behind and delivers all of it that is in time |
| RelayReceipts.ReceivedWasSubmitted | hermes_backend/network_core/blind_relay.py:26-94 | over every run: the k-th thing a receiver is handed carries the identifier, sender, bytes and creation time of a blob that some step submitted for that receiver, the k-th to leave the queue for them, in time |
| RelayReceipts.FetchedIsReceived | hermes_backend/network_core/blind_relay.py:76-94 | over every run: a blob a fetch finds in time is, with those four fields, among what its receiver has been handed after it |
| RelayReceipts.StepMoves | hermes_backend/network_core/blind_relay.py:26-145 | over every run: a waiting blob leaves at a step iff the step is its receiver's fetch or clearing, a destruction of its identifier or a submission under it, and then in that way; a submission waits and counts as accepted |
| RelayReceipts.EveryWayOccurs | hermes_backend/network_core/blind_relay.py:26-145 | for any blob and each of the five ways out, a run in which it leaves that way: at its deadline if it expires, otherwise at the moment of its submission |
| VectorClock.JoinIsLeastUpperBound | frontend/src/js/backup_manager.js:508-515 | the merged clock is the least upper bound in the pointwise order |
| VectorClock.BumpAdvances | frontend/src/js/backup_manager.js:467-473 | counting on puts a clock strictly ahead; two devices counting on from one clock are concurrent |
| VectorClock.OrderReversed | frontend/src/js/state_version_control.js:46-64 | reading two clocks the other way round swaps before and after and nothing else |
| BackupMerge.CompareClocks | frontend/src/js/backup_manager.js:482-501 | the loop computes exactly the pointwise order with missing entries as 0: which side counts further for some device decides |
| BackupMerge.MergeClocks | frontend/src/js/backup_manager.js:508-515 | the loop computes exactly the join: per device the larger of the two counters |
| BackupMerge.ClockStore.IncrementClock | frontend/src/js/backup_manager.js:467-473 | the stored clock counts one further at this device, every other device stays, and it is returned |
| BackupMerge.MergeMapsLww | frontend/src/js/backup_manager.js:584-612 | the merged map has the keys of both; with both items present the remote one is taken iff its timestamp, a missing one counting as 0, is larger; a null local slot yields to anything; a missing side yields the other |
| BackupMerge.ResolveConflict | frontend/src/js/backup_manager.js:534-561 | which action and state each of the four comparisons yields; in all four the resulting clock is the join of both |
| BackupMerge.LwwAt | frontend/src/js/backup_manager.js:605-611 | per item: the remote one takes over iff the local one is missing or strictly older |
| BackupMerge.EvalHoldsNewest | frontend/src/js/backup_manager.js:566-612 | merging a family of states in any grouping gives, for each of the five parts and each id, the newest item of the family |
| BackupMerge.LeftmostNewestWins | frontend/src/js/backup_manager.js:605-611 | that item is the leftmost among the newest, and an id is present iff some state holds it |
| BackupMerge.LatestByTimestamp | frontend/src/js/backup_manager.js:605-611 | in timestamps alone: the item kept for an id is one member's, no member's item has a larger timestamp, and those of members further left have smaller ones, a missing timestamp counting as 0 |
| BackupMerge.NothingForgotten | frontend/src/js/backup_manager.js:569-573 | the merged contacts, groups, shared keys, images and audio each have every id that any member has in that field |
| BackupMerge.ClockIsMaximum | frontend/src/js/backup_manager.js:508-515 | the clock of a merged family counts, per device, exactly as far as the furthest member |
| BackupMerge.LargestTimestamp | frontend/src/js/backup_manager.js:575-575 | the merged timestamp is the largest of the family |
| BackupMerge.RegroupingIrrelevant | frontend/src/js/backup_manager.js:566-612 | the same states in the same order give the same items and clock in any grouping, ties included |
| BackupMerge.ClocksConverge | frontend/src/js/backup_manager.js:508-515 | any order, grouping or repetition of the same states gives the same clock |
| BackupMerge.DevicesConverge | frontend/src/js/backup_manager.js:566-612 | when competing items never tie, any order, grouping or repetition of the same states gives the same items, clock and timestamp |
| BackupMerge.TieDependsOnOrder | frontend/src/js/backup_manager.js:607-609 | with equal timestamps, missing ones as 0, on different items the two orders of merging differ |
| BackupMerge.MergeIdempotent | frontend/src/js/backup_manager.js:566-612 | merging a state with itself changes neither items nor clock |
| BackupMerge.OtherFieldsFromLeftmost | frontend/src/js/backup_manager.js:567-568 | every other field of a merged family is the leftmost state's; a merge writes version 7.2 |
| ArrayMerge.MergeArrays | frontend/src/js/backup_manager.js:591-602 | the loop with its seen set computes the union of the two lists |
| ArrayMerge.FirstItemStays | frontend/src/js/backup_manager.js:596-600 | for every key the item that comes first stays, local before remote, however old it is |
| ArrayMerge.KeyIsFirstGiven | frontend/src/js/backup_manager.js:597-597 | an item is known by the first of id, alias and pk that is present and not empty, or else by its whole text |
| ArrayMerge.UnionKeepsFirst | frontend/src/js/backup_manager.js:596-600 | the merged list holds exactly the items, local before remote, whose key no earlier item has, in the same order |
| ArrayMerge.UnionHasNoDuplicates | frontend/src/js/backup_manager.js:596-600 | no key occurs twice, and the local items come first in their own order |
| ArrayMerge.UnionAssociates | frontend/src/js/backup_manager.js:591-602 | grouping of list merges is irrelevant |
| ArrayMerge.UnionIdempotent | frontend/src/js/backup_manager.js:591-602 | a list without duplicate keys merged with itself is unchanged |
| RecoveryMerge.StateVersionControl.IncrementClock | frontend/src/js/state_version_control.js:32-39 | the own counter advances by one, every other stays |
| RecoveryMerge.Compare | frontend/src/js/state_version_control.js:46-64 | classifies (a, b) exactly as the pointwise order classifies (b, a): before and after are swapped |
| RecoveryMerge.MergeItems | frontend/src/js/state_version_control.js:83-123 | the merged map has the keys of both; with both items present the remote one is taken iff both have timestamps and its is larger |
| RecoveryMerge.MergeClocks | frontend/src/js/state_version_control.js:128-137 | the loop computes the join |
| RecoveryMerge.Resolve | frontend/src/js/conflict_resolution.js:18-54 | which action and state each answer of the comparison yields |
| RecoveryMerge.ResolveKeepsAllUpdatesIff | frontend/src/js/conflict_resolution.js:22-50 | resolving loses no update either side has seen iff neither clock is strictly ahead |
| RecoveryMerge.ResolvePicksTheStaleSide | frontend/src/js/conflict_resolution.js:29-35 | whenever one side is strictly ahead the other one is kept; equal clocks keep the local state, and exactly concurrent ones are merged |
| RecoveryMerge.NewerLocalStateReplaced | frontend/src/js/conflict_resolution.js:29-31 | a device that counted on since its upload is given back its own older state |
| RecoveryMerge.MergeAssociatesIff | frontend/src/js/state_version_control.js:83-93 | three merges agree on an item iff the middle one has a timestamp or the third would not beat the first |
| RecoveryMerge.MergeAssociatesElsewhere | frontend/src/js/state_version_control.js:83-93 | items held by fewer than three devices always agree |
| Vault.StorageManager.constructor | frontend/src/js/storage_manager.js:16-19 | a new manager is locked, has no user of its own and no key |
| Vault.StorageManager.SetUserId | frontend/src/js/storage_manager.js:21-40 | empty, "undefined" and "null" are ignored; any other identifier becomes the user, locks the vault if it is a different one, and leaves key and stores alone |
| Vault.StorageManager.Unlock | frontend/src/js/storage_manager.js:60-112 | a call that overlaps no other: salt drawn once, key derived, marker opened if there is one and written if there is none; every outcome and every store |
| Vault.StorageManager.Save | frontend/src/js/storage_manager.js:252-279 | unlocks with the default password if locked, then writes one entry to IndexedDB, or to local storage where it cannot be opened; a transaction that fails makes the save throw and stores nothing |
| Vault.StorageManager.Load | frontend/src/js/storage_manager.js:281-333 | IndexedDB first, then local storage with migration; what is returned, what the stores hold afterwards, and that it throws exactly when its unlock does; where the migration's save throws nothing is returned and the copy stays |
| Vault.StorageManager.Delete | frontend/src/js/storage_manager.js:335-362 | the entry leaves local storage, and IndexedDB if it works |
| Vault.StorageManager.Lock | frontend/src/js/storage_manager.js:364-369 | locked, and the bridge key dropped if the bridge is ready |
| Vault.UnlockedMeansKeyOpensMarker | frontend/src/js/storage_manager.js:21-112 | after every sequence of calls that do not overlap, an unlocked vault has a user whose marker exists and opens under the bridge key |
| Vault.UnlockSays | frontend/src/js/storage_manager.js:60-112 | a call that overlaps no other: the key is the one derived with the kept or drawn salt, or the old one where none can be derived; the call succeeds iff the key opens the marker, or there is a key and no marker; it is refused iff a marker does not open |
| Vault.UnlockWrites | frontend/src/js/storage_manager.js:68-108 | it leaves the salt kept or drawn under "vault_salt_" + user, a new marker under "_hermes_lock_test_" + user that is the lock text under the key iff there was none, and every other entry as it was |
| Vault.WrongPasswordRefused | frontend/src/js/storage_manager.js:77-95 | a call that overlaps no other: with a marker in place a password unlocks iff its key opens the marker; a refused one leaves the vault locked and both stores untouched |
| Vault.OtherUsersUntouchedIff | frontend/src/js/storage_manager.js:335-362 | no call changes the marker, salt or entries of another user, except that before any user is set a deletion of "hermes_lock_test_" + user removes that user's marker |
| Vault.EntryKeysApart | frontend/src/js/storage_manager.js:263-263 | entries of different users or names never share a key in the stores |
| Vault.EntryNeverMarkerOrSalt | frontend/src/js/storage_manager.js:263-263 | no entry's key is a marker's or a salt's |
| Vault.LoadAfterSaveIff | frontend/src/js/storage_manager.js:252-333 | load after save returns the saved value iff both find IndexedDB working or both absent, or the save fell back and a working database holds no copy, or the older copy the load finds already said the same |
| Vault.LoadTwiceIff | frontend/src/js/storage_manager.js:316-324 | what a load returned, the next load returns iff IndexedDB works: where it cannot be opened the migration deletes the only copy |
| Vault.LawsHaveAModel | frontend/src/js/storage_manager.js:60-112 | the laws assumed of derivation and encryption are satisfiable |
| VaultHistory.StepLosesIff | frontend/src/js/storage_manager.js:252-362 | a readable value stays readable under its key through any call of any user, except exactly the owner's deletion or other save of that entry that reaches the copy in use, and a load of the only copy from local storage while IndexedDB cannot be opened |
| VaultHistory.DurableIff | frontend/src/js/storage_manager.js:60-362 | through any sequence of calls of any users, the owner who comes back, unlocks with the password and loads gets the saved value at every moment iff no call of the sequence was one of those |
| VaultHistory.PasswordStillHolds | frontend/src/js/storage_manager.js:68-108 | the password whose key opens a user's marker under that user's salt goes on doing so through every call made once some user is set |
| VaultHistory.SavedIsReadable | frontend/src/js/storage_manager.js:252-279 | a save makes its value readable iff IndexedDB works, or it cannot be opened and holds no older copy, or what was there already said the same |
| VaultHistory.OtherUsersUntouchedThrough | frontend/src/js/storage_manager.js:21-362 | through any calls made while a user is not the current one, everything stored for that user stays, save for the one deletion named above |
| VaultFlights.RunKeepsInv | frontend/src/js/storage_manager.js:48-112 | after every step of every interleaving of unlocks, joins, switches, locks, saves, loads and deletions: what a pending unlock decrypted or encrypted is still so except that the key may have been dropped, and every entry in hand belongs to some user |
| VaultKeys.StepOpensIff | frontend/src/js/storage_manager.js:60-112 | with the key opening the marker before a step, it does so afterwards iff the step is harmless: not a new key for a vault that counts as unlocked, not an unlock that ends well after its key was dropped or after a switch to a user whose marker that key does not open |
| VaultKeys.AlwaysOpensIff | frontend/src/js/storage_manager.js:21-112 | in every run of overlapping calls an unlocked vault holds its user's key at every moment iff every step was harmless |
| VaultKeys.OrderlyMeansOpens | frontend/src/js/storage_manager.js:21-112 | it does so in particular when unlocks are begun on locked vaults only, the vault is not locked while a marker is decrypted or encrypted, and the user is not switched while one is decrypted; calls may overlap in any other way |
| VaultAnswers.AnswerIsTheFlights | frontend/src/js/storage_manager.js:48-58 | in every run a call is answered by the verdict on the password of the unlock it began or joined; without a user or a bridge everyone who joined gets the exception |
| VaultAnswers.OwnAnswerIff | frontend/src/js/storage_manager.js:48-112 | with no switch while the bridge starts: the answer is that of the call's own password if it began the unlock, and otherwise iff both passwords derive one key, or there is no marker, or neither key opens it |
| VaultAnswers.BridgeFailsAlone | frontend/src/js/storage_manager.js:60-66 | a call that finds the bridge unable to start throws and leaves the vault as it was |
| VaultAnswers.ReadyIff | frontend/src/js/storage_manager.js:364-369 | over every run: the bridge is ready, and a lock then drops the key, iff it was at the start or some unlock has started it |
| VaultStrays.TouchesIff | frontend/src/js/storage_manager.js:68-108 | for every step of overlapping calls, exactly when it changes a user's marker, salt or entries |
| VaultStrays.NeverCurrentNeverTouched | frontend/src/js/storage_manager.js:21-362 | however calls overlap and users are switched, nothing stored for a user changes while that user is never the current one, save for that one deletion |
| VaultStrays.OwnCallsOnlyIff | frontend/src/js/storage_manager.js:21-362 | in every run, only calls made as u change what is stored for u iff no step is a stray: a marker written after a switch, an entry composed after a switch, that one deletion |
| VaultStrays.CalmMeansNoStray | frontend/src/js/storage_manager.js:21-333 | no strays (but that deletion) when the user is not switched while an unlock waits for the bridge or for its new marker, nor before a save has composed its entry's name or a load has read; a switch while a marker is decrypted is harmless here |
| VaultRaces.UnlockAlone | frontend/src/js/storage_manager.js:48-112 | an unlock that nothing comes between does and answers what Vault.UnlockSpec says |
| VaultRaces.SaveAlone | frontend/src/js/storage_manager.js:252-279 | a save, with the unlock it may need, run without overlap does what Vault.SaveSpec says |
| VaultRaces.DeleteAlone | frontend/src/js/storage_manager.js:335-362 | a deletion run without overlap does what Vault.DeleteSpec says |
| VaultRaces.LoadAlone | frontend/src/js/storage_manager.js:281-333 | a load, with the unlock and the migration it may need, run without overlap does and returns what Vault.LoadSpec says |
| VaultRaces.WrongPasswordAccepted | frontend/src/js/storage_manager.js:49-51 | for every vault with a marker: a wrong password that joins the right one's unlock is answered true |
| VaultRaces.RightPasswordRefused | frontend/src/js/auth_ui.js:155-160 | for every vault whose password is not the default one: a page that loads its settings and then restores its session gets false for the right password |
| VaultRaces.SwitchedBeforeChecking | frontend/src/js/storage_manager.js:66-77 | a switch before the bridge is ready tries the first user's password on the second user's marker, and refuses it |
| VaultRaces.SwitchedBeforeMarking | frontend/src/js/storage_manager.js:66-101 | for a second user without a marker one is written under the first user's key, and the second user's own password is refused from then on |
| VaultRaces.SwitchedWhileChecking | frontend/src/js/storage_manager.js:81-83 | a switch while the marker is decrypted leaves the vault unlocked for a user whose marker its key does not open |
| VaultRaces.SwitchedWhileMarking | frontend/src/js/storage_manager.js:100-101 | a switch while the first marker is encrypted overwrites the new user's marker, and that user's password is refused from then on |
| VaultRaces.LockedWhileChecking | frontend/src/js/storage_manager.js:364-369 | a lock while the marker is decrypted leaves the vault unlocked without a key |
| VaultRaces.SavedUnderWrongKey | frontend/src/js/storage_manager.js:75-95 | a wrong password tried on an unlocked vault is refused, but a save in between is stored under the wrong password's key |
| VaultRaces.SavedForAnother | frontend/src/js/storage_manager.js:256-264 | a switch while a save waits for its unlock stores the value as the new user's, under the old user's key |
| VaultRaces.LockedWhileMoving | frontend/src/js/storage_manager.js:320-323 | a lock while a load moves a value out of local storage: the nested save is refused and the only copy removed all the same |
| PasswordChange.FlowOutcome | frontend/src/js/auth_ui.js:919-956 | which single key opens the vault after the flow; the values are unchanged under the old key and closed to every other, and where the writes went through, what was not there reads as its default |
| PasswordChange.ChangePreservesIff | frontend/src/js/auth_ui.js:938-953 | the flow always reports success; the new password then opens the vault with all values intact iff it derives the old key, or the default password's key with nothing stored |
| PasswordChange.OrdinaryChangeLocksOut | frontend/src/js/auth_ui.js:938-950 | with three different keys neither the old nor the new password unlocks afterwards; the built-in default does |
| PasswordChange.ShippedPlanSound | frontend/src/js/auth_ui.js:941-947 | the seven names and what is written for each when there was no value; the names are distinct |
| ByteCodec.BigEndianReadsBack | hermes_backend/crypto_core/native_core.py:171-173 | fixed-width big-endian numbers read back |
| ByteCodec.BigEndianCanonical | hermes_backend/crypto_core/native_core.py:171-173 | every byte string of that width is the encoding of the number it reads as |
| ByteCodec.LittleEndianInjective | hermes_backend/crypto_core/native_core.py:163-165 | fixed-width little-endian numbers determine the number |
| ByteCodec.LittleEndianAt | hermes_backend/crypto_core/native_core.py:163-165 | byte k holds the k-th digit of the number in base 256, lowest first |
| ByteCodec.BigEndianAt | hermes_backend/crypto_core/native_core.py:171-173 | counted from the end, byte k holds the k-th digit of the number in base 256 |
| ByteCodec.HexReadsBack | hermes_backend/crypto_core/native_core.py:307-309 | hexadecimal text reads back to the bytes |
| ByteCodec.ToHexAt | hermes_backend/crypto_core/native_core.py:307-309 | two lower-case digits for each byte, the high one first |
| ByteCodec.FromHexAt | hermes_backend/crypto_core/native_core.py:257-259 | text that is read is, without its white space, two digits of either case for each byte, the high one first |
| EnvelopeCodec.FieldReadsBack | hermes_backend/crypto_core/native_core.py:169-175 | one length-prefixed field reads back, leaving the rest of the input |
| EnvelopeCodec.FieldsReadBack | hermes_backend/crypto_core/native_core.py:169-175 | any list of fields reads back |
| EnvelopeCodec.FieldsCanonical | hermes_backend/crypto_core/native_core.py:169-175 | the reader accepts nothing but such lists |
| EnvelopeCodec.CanonicalSignedPayload | hermes_backend/crypto_core/native_core.py:185-249 | exactly which violation raises which error, with all limits in numbers (256, 256, 1568, 12, 10 MiB, 11 MiB in all, 64 bits) and in their order; otherwise the layout, whose size was computed ahead |
| EnvelopeCodec.LayoutSpelled | hermes_backend/crypto_core/native_core.py:237-249 | the payload written out: the prefix, a zero byte, and the ten fields under their names in order |
| EnvelopeCodec.FieldBytes | hermes_backend/crypto_core/native_core.py:169-175 | a field byte by byte: name length in two bytes, name, value length in eight, value |
| EnvelopeCodec.LayoutReadsBack | hermes_backend/crypto_core/native_core.py:237-249 | a left-inverse parser: parsing the payload returns all nine fields |
| EnvelopeCodec.ParseCanonical | hermes_backend/crypto_core/native_core.py:237-249 | nothing but a payload parses, so no two byte strings mean the same fields |
| EnvelopeCodec.SignedPayloadInjective | hermes_backend/crypto_core/native_core.py:185-249 | equal signed bytes come from equal fields, on everything accepted |
| EnvelopeCodec.LayoutSize | hermes_backend/crypto_core/native_core.py:220-232 | the real length of the output: 250 bytes of framing plus the eight variable fields |
| EnvelopeCodec.TotalLimitNeverFires | hermes_backend/crypto_core/native_core.py:234-235 | with algorithm names of at most a million bytes, the per-field limits alone decide: the total limit never fires |
| EnvelopeCodec.AadInjective | hermes_backend/crypto_core/native_core.py:159-166 | the associated data determines sender, receiver and the timestamp modulo 2^64 |
| EnvelopeCodec.AadBytes | hermes_backend/crypto_core/native_core.py:159-166 | the associated data byte by byte, and that it fails iff a name takes 2^32 bytes or more |
| Disperser.CsprngDisperser.constructor | hermes_backend/stego_engine/csprng_disperser.py:10-26 | the key is the first 32 derived bytes, the nonce base the other sixteen, the counter zero; the body zeroes the derived buffer |
| Disperser.CsprngDisperser.GenerateMask | hermes_backend/stego_engine/csprng_disperser.py:28-44 | the keystream for the derived key under the nonce of this counter; the counter advances by length/16 + 1; it fails iff the counter does not fit in four bytes |
| Disperser.CsprngDisperser.WhitenData | hermes_backend/stego_engine/csprng_disperser.py:46-60 | every bit of the output is one iff the bits of the input and of that keystream differ there; in a new buffer, the input unchanged |
| Disperser.XorTwice | hermes_backend/stego_engine/csprng_disperser.py:51-51 | XOR with the same byte twice restores it |
| Disperser.XorIff | hermes_backend/stego_engine/csprng_disperser.py:51-51 | a byte is the XOR of two others iff each of its eight bits, read by division and remainder, is one exactly where theirs differ |
| Disperser.NonceBytes | hermes_backend/stego_engine/csprng_disperser.py:29-34 | the nonce: the first twelve bytes are the base's, each of the last four is its own XOR with the counter's byte, highest first |
| Disperser.NoncesDiffer | hermes_backend/stego_engine/csprng_disperser.py:28-34 | on one nonce base, different counters below 2^32 give different nonces |
| Disperser.WhitenTwice | hermes_backend/stego_engine/csprng_disperser.py:59-60 | dewhitening from the same state restores the data and ends in the same state |
| Disperser.SequenceRestored | hermes_backend/stego_engine/csprng_disperser.py:28-60 | two dispersers from one state: every sequence of messages is restored, with equal counters after it |
| Disperser.MessageMask | hermes_backend/stego_engine/csprng_disperser.py:28-57 | the i-th message of a sequence is, bit by bit, XORed with the keystream of the nonce whose counter is past those of all messages before it |
| Disperser.MessageNoncesDiffer | hermes_backend/stego_engine/csprng_disperser.py:28-44 | no two messages of a sequence share a nonce |
| Disperser.SequenceFitsIff | hermes_backend/stego_engine/csprng_disperser.py:30-30 | a sequence goes through iff the counter still fits in four bytes where its last message starts |
| Envelope.CarrierRoundTripIff | hermes_backend/stego_engine/geometric_container.py:84-113 | the embedded payload is extracted again iff it is not empty |
| Envelope.DecryptEnvelope | hermes_backend/crypto_core/native_core.py:350-527 | the steps run on the registry object give the specified result and registry |
| Envelope.ClaimAlwaysSettled | hermes_backend/crypto_core/native_core.py:445-507 | no attempt leaves its claim pending: a granted one stays, consumed on success and rejected on failure; a refused one leaves no trace |
| Envelope.ReplayRefused | hermes_backend/crypto_core/native_core.py:446-448 | after a success every attempt with the same signature digest is refused within the time to live |
| Envelope.AdmittedWasSigned | hermes_backend/crypto_core/native_core.py:394-443 | whatever reaches the claim is within 300 s past and 60 s ahead, names the expected sender, and its verified payload, under the three fixed algorithm names, parses back to exactly its fields |
| EnvelopeChecks.AdmittedIff | hermes_backend/crypto_core/native_core.py:372-443 | an envelope reaches the claim iff its algorithms, sender and clock are as required, every part is readable and of its size, and the payload of the fields it shows, with the unmasked message, verifies |
| EnvelopeChecks.RefusalKinds | hermes_backend/crypto_core/native_core.py:372-406 | how an envelope is refused before it is unpacked: unreadable keys, algorithms, missing or foreign sender, clock, in this order |
| EnvelopeChecks.CarrierRefusalKinds | hermes_backend/crypto_core/native_core.py:408-419 | how it is refused for its names, its carrier or a missing nonce |
| EnvelopeChecks.LaterRefusalKinds | hermes_backend/crypto_core/native_core.py:419-443 | how it is refused for the parts of the signed payload, its limits and its signature |
| EnvelopeChecks.OpensIff | hermes_backend/crypto_core/native_core.py:479-494 | a claimed message opens iff the receiver's key is readable and undoes the encapsulation and the cipher accepts the message with that nonce and associated data; how it fails otherwise |
| EnvelopeChecks.PackageContents | hermes_backend/crypto_core/native_core.py:262-329 | what is sent, field by field: encapsulation, nonce and signature in hexadecimal text, the encrypted message masked bit by bit, names, whole second and algorithms; the signature is over exactly these |
| EnvelopeChecks.EncryptFailsAs | hermes_backend/crypto_core/native_core.py:257-298 | how a letter is refused: unreadable input, or a payload over its limits or out of time |
| Envelope.NoKemNeverClaims | hermes_backend/crypto_core/native_core.py:429-435 | an envelope without a KEM ciphertext is refused before any claim, so the branch that decrypts without one is never reached |
| Envelope.EncryptSucceedsIff | hermes_backend/crypto_core/native_core.py:262-298 | well-formed input is encrypted iff both names take at most 256 bytes, the clock fits in 64 bits and the plaintext plus its 16-byte tag takes at most 10 MiB |
| Envelope.RoundTripIff | hermes_backend/crypto_core/native_core.py:262-527 | what encryption made decrypts, with matching keys and the expected sender, to the original plaintext iff the sender's name is non-empty ASCII, the clock is within 300 s past and 60 s ahead and the registry grants the claim |
| Envelope.RoundTripOccurs | hermes_backend/crypto_core/native_core.py:262-527 | a concrete letter, keys and attempt that meet every condition of the round trip and decrypt to the plaintext |
| Envelope.DecryptIsAnAttempt | hermes_backend/crypto_core/native_core.py:402-507 | every decryption that reaches its claim is one attempt of the acceptance machine: the same steps enabled, the same registry afterwards, plaintext exactly when the machine accepts |
| Envelope.LawsHaveAModel | hermes_backend/crypto_core/native_core.py:262-527 | the laws assumed of the cryptographic library are satisfiable |
| RateLimiter.Limiter.constructor | hermes_backend/network_core/load_balancer.py:91-95 | three separate empty stores |
| RateLimiter.Limiter.Check | hermes_backend/network_core/load_balancer.py:97-116 | the key's list is pruned to the window, the request admitted and recorded iff fewer than the limit are left; other keys untouched |
| RateLimiter.PrunedListSeesHistory | hermes_backend/network_core/load_balancer.py:108-115 | the pruned list shows exactly what the full history of admissions would, at the next request and at every later moment |
| RateLimiter.RefusedIff | hermes_backend/network_core/load_balancer.py:112-113 | a request is refused iff the last `limit` admitted ones all lie inside the window |
| RateLimiter.NeverMoreThanLimit | hermes_backend/network_core/load_balancer.py:97-116 | processed in the order of their clock readings, as on one event loop, no interval shorter than the window ever holds more than the limit |
| RateLimiter.LimitWithinLag | hermes_backend/network_core/load_balancer.py:106-115 | processed in any order that is never more than a lag behind the clock, as on several threads, no interval shorter than the window less that lag holds more than the limit |
| RateLimiter.LateRequestExceedsLimit | hermes_backend/network_core/load_balancer.py:106-107 | the lag cannot be disregarded: limit 2 in 10 s, readings 10, 10, 20, 19 in this order are all admitted, three of them within 9 s |
| ConnectionLimiter.Limiter.CanAcceptNew | hermes_backend/network_core/load_balancer.py:44-59 | below the cap and below the rate of the last second; when the answer is decided by the cap the list is not pruned |
| ConnectionLimiter.Limiter.Accept | hermes_backend/network_core/load_balancer.py:61-65 | one more active connection, one more timestamp |
| ConnectionLimiter.Limiter.Release | hermes_backend/network_core/load_balancer.py:67-70 | one fewer active connection, never below zero |
| ConnectionLimiter.LetInIff | hermes_backend/network_core/api.py:1122-1127 | a new connection is let in iff the counter is below the cap and fewer than the permitted number on record are less than a second old; it is then counted, recorded and joining |
| ConnectionLimiter.StepMoves | hermes_backend/network_core/api.py:1126-1188 | which connections are open and which are still joining after each step |
| ConnectionLimiter.NeverFasterThan | hermes_backend/network_core/load_balancer.py:44-65 | over every run whose readings do not go back, leaks included: no interval shorter than a second sees more connections let in than are permitted |
| ConnectionLimiter.StepCountedIff | hermes_backend/network_core/api.py:1126-1188 | one step keeps the counter right iff it is neither a lost handshake nor a failed authentication beside other open connections |
| ConnectionLimiter.AlwaysCountedIff | hermes_backend/network_core/api.py:1122-1280 | the counter equals the number of open connections throughout a run iff no handshake is lost between accept and try and no connection fails to authenticate while another is open |
| ConnectionLimiter.BalanceOfCounter | hermes_backend/network_core/api.py:1122-1280 | at every moment of every run the counter is the open connections plus the lost handshakes minus the failed authentications plus the releases that found it at zero |
| ConnectionLimiter.CountedIffBalanced | hermes_backend/network_core/api.py:1122-1280 | at any one moment the counter is right iff failed authentications equal lost handshakes plus wasted releases |
| ConnectionLimiter.LeaksShrinkCapacity | hermes_backend/network_core/api.py:1126-1129 | without failed authentications every lost handshake takes one place away for good |
| ConnectionLimiter.CountedMeansCapped | hermes_backend/network_core/load_balancer.py:44-70 | the counter never passes the cap, and wherever it is right neither do the open connections |
| ConnectionLimiter.FailedAuthOverfills | hermes_backend/network_core/api.py:1276-1280 | from every full house of two or more, one failed authentication lets in one connection too many |
| ImageStore.EphemeralImageStore.Store | hermes_backend/network_core/ephemeral_media_store.py:57-98 | the entry holds fresh copies of the three buffers, the sender and group, exactly the members other than the sender as needed, nobody's mark, and its deadline; every other entry stays |
| ImageStore.EphemeralImageStore.Get | hermes_backend/network_core/ephemeral_media_store.py:100-130 | a copy is returned iff the identifier is stored, the clock is not past its deadline, and the requester is the sender or needed; its five fields are the stored ones; an expired entry is deleted and its buffers zeroed |
| ImageStore.EphemeralImageStore.MarkViewed | hermes_backend/network_core/ephemeral_media_store.py:132-156 | a non-sender's mark is added; the image goes, its buffers zeroed, iff every needed member has then marked it; nothing else changes |
| ImageStore.EphemeralImageStore.Delete | hermes_backend/network_core/ephemeral_media_store.py:166-173 | exactly this entry goes; its three stored buffers are zero; all others keep their bytes |
| ImageStore.EphemeralImageStore.Sweep | hermes_backend/network_core/ephemeral_media_store.py:179-188 | exactly the expired entries go, all their buffers zeroed |
| ImageHistory.PresentIff | hermes_backend/network_core/ephemeral_media_store.py:57-188 | a stored image is present until, and only until, a non-sender's mark completes the viewers or an access or sweep finds it expired; until then it holds what was stored and exactly the non-sender marks |
| ImageHistory.AnswerIff | hermes_backend/network_core/ephemeral_media_store.py:100-130 | over every run: a request for an image is answered iff it has not ended, is in time, and comes from the sender or a needed member, and then with exactly what was stored |
| ImageHistory.AnswerWasStored | hermes_backend/network_core/ephemeral_media_store.py:100-130 | in any run, whatever a request is answered was stored earlier under that identifier, for that requester |
| ImageHistory.StrangerGetsNothing | hermes_backend/network_core/ephemeral_media_store.py:117-122 | in any run, whoever is neither sender nor member of any image stored under the identifier never gets anything |
| ImageHistory.SenderMarksNeverCount | hermes_backend/network_core/ephemeral_media_store.py:144-146 | if only the sender marks an image, only time removes it |
| SessionToken.FourFields | hermes_backend/network_core/api.py:108-113 | four fields split back iff the identifier has no colon |
| SessionToken.TokenSplits | hermes_backend/network_core/api.py:83-91 | an issued token splits into identifier, expiry, jti and MAC, unless the identifier has a colon |
| SessionToken.DecimalReadsBack | hermes_backend/network_core/api.py:113-117 | the expiry reads back from its decimal text |
| SessionToken.ParseIntIff | hermes_backend/network_core/api.py:114-117 | integer text is read as a number iff it is an optional sign, any zeros and the digits of the number's size |
| SessionToken.VerifiesIff | hermes_backend/network_core/api.py:94-135 | for any header, forged ones included, and any MAC: the session let in is the one whose identifier, jti and expiry the header presents between three colons with an ASCII MAC of exactly these, in time at the first reading and not on the list at the second |
| SessionToken.PresentedVerdict | hermes_backend/network_core/api.py:108-133 | for four fields presented, exactly which of the six answers is given, in terms of the fields |
| SessionToken.TurnedAwayIff | hermes_backend/network_core/api.py:102-111 | a header is turned away for its form iff it does not present four fields, and for the missing word Bearer iff it does not begin with it |
| SessionToken.AcceptedIff | hermes_backend/network_core/api.py:94-135 | an issued token is accepted, and read back into its parts, iff its identifier has no colon, its expiry had not passed at the first clock reading and it is not revoked at the second |
| SessionToken.Logout | hermes_backend/network_core/api.py:620-626 | logout revokes the jti for the whole seconds left |
| SessionToken.RevocationReachesIff | hermes_backend/network_core/api.py:624-625 | the revocation lasts until expiry plus the stall of a verification iff the dropped fraction of a second plus that stall is no longer than the time between the two readings of the logout |
| SessionToken.LogoutFinalIff | hermes_backend/network_core/api.py:620-626 | right after one logout every verification that consults the list is refused iff that holds, and every verification that begins is refused iff that holds or the token had expired; nothing else happening in between |
| LogoutRuns.LogoutsFinalIff | hermes_backend/network_core/otp_registry.py:209-235 | over every run of verifications and logouts of any tokens, in the order in which they take the list's lock: at every moment after its first logout a token is refused iff every logout of it so far is covered |
| LogoutRuns.VerifiedWasIssued | hermes_backend/network_core/api.py:122-130 | a header that presents no MAC of fields never issued together verifies only as an issued session |
| LogoutRuns.VerifyForgetsIff | hermes_backend/network_core/otp_registry.py:224-235 | a verification drops the entry it consults iff its deadline has passed, and no other |
| LogoutRuns.NeverAcceptedAgain | hermes_backend/network_core/api.py:94-135 | in particular no verification in the run itself accepts the token again |
| LogoutRuns.SecondLogoutReopens | hermes_backend/network_core/api.py:620-626 | two logouts, both verified before the first revokes: the first is covered, and the second shortens its deadline and opens the token again |
| SessionToken.LogoutGap | hermes_backend/network_core/api.py:624-625 | where it fails, a verification that accepts began no later than the expiry and consulted the list less than a second before it or within the stall after it |
| Mnemonic.CollectBits | hermes_crypto_wasm/src/core_api.rs:853-862 | eight bits of every byte, most significant first, then the top four of the checksum: as one binary number, 16 times the entropy plus the nibble |
| Mnemonic.ChooseWords | hermes_crypto_wasm/src/core_api.rs:864-872 | chunks of eleven bits folded to the words of the base-2048 digits of the same number |
| Mnemonic.Generate | hermes_crypto_wasm/src/core_api.rs:846-875 | the phrase is the words of the twelve packed indices joined by spaces, and the entropy buffer is zero afterwards |
| Mnemonic.WordAt | hermes_crypto_wasm/src/core_api.rs:864-872 | the i-th word is the one at the i-th group of eleven bits, from the left, of the 132 bits read as one number |
| Mnemonic.JoinSplits | hermes_crypto_wasm/src/core_api.rs:875-875 | the words stay in order with one space between neighbours |
| Mnemonic.UnpackedAfterPacked | hermes_crypto_wasm/src/core_api.rs:853-872 | unpacking the indices returns the entropy and the checksum nibble |
| Mnemonic.PackedAfterUnpacked | hermes_crypto_wasm/src/core_api.rs:853-872 | every twelve indices below 2048 are the packing of exactly what they unpack to |
| Mnemonic.PhraseDeterminesEntropy | hermes_crypto_wasm/src/core_api.rs:864-875 | with distinct words free of spaces, equal phrases come from equal entropy and nibble |
| Padding.PadToFixedBlock | hermes_crypto_wasm/src/domain/mod.rs:107-115 | the plaintext followed by zeros only, 256 bytes for up to 200, 512 for up to 512, unchanged above |
| Padding.Unpad | hermes_crypto_wasm/src/domain/mod.rs:171-175 | the loop removes the trailing zeros |
| Padding.StrippedIff | hermes_crypto_wasm/src/domain/mod.rs:171-175 | the result is the one prefix that does not end in zero with only zeros after it |
| Padding.UnpaddedAfterPadded | hermes_crypto_wasm/src/domain/mod.rs:107-175 | unpadding after padding returns the plaintext without its trailing zeros: the plaintext itself iff it does not end in 0x00 |
| Padding.PaddedLength | hermes_crypto_wasm/src/domain/mod.rs:107-115 | 256 up to 200 bytes, 512 up to 512, the plaintext length above; two lengths are told apart exactly when they are not in one of those classes |

## Left out

- EnvelopeAcceptance.RunKeepsInv: signature checking appears only as the one timestamp each signature binds; `Envelope.AdmittedWasSigned` states what is verified, and unforgeability is not modelled. `Envelope.DecryptIsAnAttempt` ties decryption to the machine.
- Envelope.DecryptEnvelope: the zeroing of the Python buffers in the `finally` blocks and the native back end with its transient errors are not modelled here; the release branch is in the acceptance machine as `BackendDown`.
- Envelope.CarrierRoundTripIff: covers the payload attribute only, not XML parsing, the namespaced attribute or the regular-expression fallback.
- ReplayRegistry.Registry.TryClaim: tokens are idealised as never repeating; locks make each operation atomic, and threads are not modelled below that.
- RelayHistory.EveryBlobAccountedFor: bytes that the debugging endpoint shows without destroying are not counted as leaving.
- RelayRuns.HandOversApart: whether the live socket really delivered is a free choice of each step; socket management and the acknowledgement are left out.
- BackupMerge.ResolveConflict: the list of detected conflicts is not modelled; collections are maps here, and lists are in ArrayMerge. Timestamps and counters are natural numbers.
- ArrayMerge.MergeArrays: when one side is an object its values are taken as a list already in order.
- RecoveryMerge.Resolve: the notification of the user and the conflict list are not modelled.
- RecoveryMerge.MergeItems: items that are null, which the code replaces on the local side and fails on at the remote side, are not modelled; BackupMerge has them.
- Vault.StorageManager.Unlock: one call at a time; VaultFlights has the shared promise and the awaits. The legacy migration is left out, and so are the branches for an error that names NotImplemented, which neither cipher call of the bridge raises.
- VaultFlights.RunKeepsInv: steps may interleave in any order, which is more than the microtask queue allows; the page's own writes to the session storage entry are left out; jobs that end do not record whether they threw.
- VaultHistory.DurableIff: calls that do not overlap; LockedWhileMoving shows what else can be lost when they do.
- PasswordChange.FlowOutcome: calls that do not overlap; IndexedDB works and the bridge ready throughout; a reading error ends the flow and is not followed further.
- RateLimiter.LimitWithinLag: limit and window are fixed per key; endpoints that share a key with different limits are left out.
- SessionToken.ParseIntIff: integer text is an optional sign and ASCII digits; the surrounding white space, underscores and other digits that Python also accepts are left out.
- SessionToken.VerifiesIff: for expiry text, `ParseInt` stands for what Python reads, with that limitation.
- Disperser.MessageNoncesDiffer: speaks of the nonce each message starts from; how the cipher counts on from it block by block is inside the cipher, which is a parameter.
- ConnectionLimiter.NeverFasterThan: readings of the clock at opening do not go back, as on one event loop.
- ImageHistory.PresentIff: the image is stored once under its identifier; storing again replaces it without zeroing the earlier buffers.
- Mnemonic.Generate: SHA-256 is an arbitrary function, the word list a parameter of 2048 words, and a failing random generator is not modelled.
- Backup framing and one-time prekeys in `core_api.rs`: plain concatenation and map removal, only easy members.
- FastAPI routing, headers, origin checks, SQL, rate-limit keys, user lookup: no property beyond their guards.
- Double Ratchet, X3DH and the durable replay back ends are not part of this model.
- User interface, audio, icons, contact and chat lists, stubs that always fail: no hard property.
