# DropVoice: a verified model of its protocols

DropVoice pairs a phone with a PC through a small signalling server and then types, on the PC, the
text the phone sends over a WebRTC data channel. This project models the parts of it whose
guarantees span whole runs, interleavings and a moving clock, and proves those guarantees for every
input, every run and every schedule.

| file | what it models |
|---|---|
| SignalStore.dfy, SignalRuns.dfy | the server's store of sessions and tickets, as a class, and whole runs of it |
| Subscriptions.dfy | offer subscriptions, every line of an event-stream handler a separate step |
| LongPoll.dfy | the double-checked long poll, interleaved with answers, creation and clean-up |
| RateLimiter.dfy | the sliding window with its sweep and its overflow reset |
| DeviceRepo.dfy, TokenAuth.dfy, RegistrationRace.dfy, VerifyRace.dfy | the device table, the token cache in front of it, concurrent registrations statement by statement, and verifications whose lookup and cache write are apart |
| BatchWriter.dfy | the batching status writer against one-at-a-time application |
| ConnectionMachine.dfy | the phone's connection reducer and its backoff |
| Connections.dfy, ConnectionFailures.dfy, ConnectionUse.dfy, UseConnections.dfy | the hook that owns transports, timers and credentials: its specification, how failures are counted, what it is for, and the hook itself as a class |
| AnswerSessions.dfy, SessionLifetimes.dfy, SessionRuns.dfy, AnswerContexts.dfy | the desktop's answer sessions lock by lock and their clients, what a session may count on, runs that go wrong, and the context as a class |
| InjectionQueue.dfy, ConnectionTokens.dfy | the bounded injection queue and the capped token list |
| Unicode.dfy, QrPayload.dfy, TextInjection.dfy | UTF-8 and UTF-16, the QR payload printer and parser, newline normalisation and key emission |

Conventions. Time is an integer (milliseconds) handed to each step. Each lock-held section and each
SQL statement is one atomic step, with two exceptions: a data channel's callbacks (open, hello, close) are one step
each, and so are the request handlers of TokenAuth.dfy. Drawn session ids, tickets and tokens are inputs, and where a
property needs them never to repeat, that is a stated hypothesis on the run. The token hash is
injective (`Digest(token)`). State changed in place is a class; its methods are proved equal to
functions of the old state, and the run theorems are about those functions.

## What the code does not promise

These are results: runs in which a tempting claim fails, and for each such claim the exact condition
under which it holds.

- issue_ticket and redeem_ticket read the clock before they take the lock. For arbitrary clocks
  `SignalRuns.RedemptionExactly` says when a redemption differs from the store that never sweeps,
  and `SignalRuns.SweepVisibleOutOfOrder` gives a run. The theorems on sessions, whose calls read the
  clock under the lock, ask for order among those calls only.
- RateLimiter.check also reads its clock first. `RateLimiter.AllowedExactly` holds for any clocks: a call is weighed
  against the allowed calls that neither its own reading nor any reading of the address in between is a
  second past. `PlainWindowExactly` says exactly when forgetting the readings in between goes wrong, which it never does in
  clock order (`AllowedInClockOrder`); `OutOfOrderClocksMatter` is a run in which it does. With a limit of 0 nothing is
  ever swept: the number of keys is then exactly the number of addresses seen (`RateLimiter.ZeroLimitKeepsEveryKey`).
- A wake-up between the first peek and the registration is lost: comments in signaling.rs say the
  notifier keeps a permit, but `notify_waiters` keeps none (`LongPoll.MissedWakeUpExists`). No answer is lost by it;
  the reply waits for the end of the hold. A session that reaches 60 s during the hold is answered
  "not found", and by `LongPoll.RecheckRepliesExactly` that is the only way. It happens even to a poll begun before
  age 30 s, when it registers late (`LongPoll.EarlyPollNotFound`).
- An attempt is counted once when its transport reports an error and then its close. ICE state
  changes report a close each (`disconnected`, then `failed`), and these are counted each:
  `ConnectionFailures.FailuresFedExactly` gives the count for any errors and closes whatever, `DoubleCloseCountsTwice` the double close.
- A retry timer can be pending on a session that is not reconnecting. By `ConnectionFailures.OfflineHasNoTimer` this happens in
  a run exactly if some report from a current transport finds its session reconnecting and takes it elsewhere: it opens, it
  closes or fails once more with no retry left, or its credential is refused and there is a code to fall back to.
  Two runs of a freshly paired phone show what follows. In `RecoveryUndoneRun` ICE is lost for a moment before the channel opens:
  the session is connected, then the timer closes the live transport, and the session still calls itself
  connected over a transport that has not opened. In `DoubleCloseRun` three attempts that close twice each go offline, and
  the timer then starts over with a full budget.
- A client can stay behind without a session. `AnswerSessions.EveryClientOwned`: a run has such a ghost at some point exactly if some step closes
  a peer connection whose key is registered and shared with no other session. `SessionRuns` has four runs that end so,
  none of them a callback after the close: the channel opens between wiring and a refused insertion (`GhostByEarlyOpen`),
  between the refusal and the closing (`GhostAfterRefusal`), or between close_all's unregistering and its closing
  (`GhostAfterUnregister`), or the phone says hello between close_all's reading of the key and its unregistering (`GhostByLateHello`). Each ghost stays
  unless and until the close callback of that channel fires, which closing the peer connection may or may not cause. If
  channels open and say hello only while their session is in the registry, there is no ghost (`AnswerSessions.ClientsInService`).
- The converse fails too: a live session can lose its client. `SessionLifetimes.EverySessionRegistered`: every session that registered keeps its
  client throughout a run exactly if no session ever gives up a key by which another one is registered; in `SessionRuns.SharedClientVanishes` two
  sessions of one phone share a client and the first to end takes it away.
- The grace timer removes the session from the registry, which aborts the handle of that very timer. If its work is
  cut at a later await, the client is never unregistered and the connection not closed (`SessionRuns.CutTimerKeepsClient`). By
  `SessionLifetimes.AbandonedKeepsClient` the client then stays exactly until its channel closes or says hello, or another session gives up its key.
- A connection lost before the insertion starts a grace timer that no entry holds and nothing cancels: it removes the session
  although it came back (`SessionRuns.DetachedTimerShutsReconnected`). Coming back saves a session from its timers exactly when it has no such
  timer (`SessionLifetimes.GraceCancelledExactly`). A connection that fails before the insertion is inserted all the same, and stays
  until a shutdown (`SessionRuns.EarlyFailureForgotten`).
- verify_token can write a dead token back into the cache when its lookup straddles a rotation. `VerifyRace.CacheAgreesExactly`: the cache agrees with the
  table throughout a run exactly if no stale hit is written; by `StaleExactly` a hit is stale exactly if its token was rotated since the
  lookup. In `DeadTokenAcceptedAgain` the old token is accepted again.
- Two registrations that show the same token, both due for rotation, are both told a new one, and the first is dead
  (`RegistrationRace.BothRotate`). By `OnlyTheLastTokenCounts` exactly the token stored last is accepted.
- A token list loaded with more than 100 entries stays over-long until the next issue (`ConnectionTokens.CappedExactly`).
- The bound of the token cache is `max(1, max_tokens)`. A limit of 0 would still keep one entry, but only a `cfg(test)`
  constructor can set one; the running code uses a positive constant.
- A registered device that registers again under a new name is told the new name, while the table keeps the
  old one: `DeviceRepo.EchoedNameExactly` says exactly when the two agree.
- The comment on ConnectionEvent in connection.ts says FAIL goes offline at once, and comments in
  storage.ts speak of 8-digit pairing codes and UUID tokens. The code counts FAIL in the backoff and uses
  six digits and `dvct_` tokens; the model follows the code.

## Model

| member | source | states |
|---|---|---|
| SignalStore.Store.CreateSession | apps/pairing-server/src/api/signaling.rs:135-165 | a session is stored exactly when the device has fewer than ten unexpired ones; otherwise nothing changes |
| SignalStore.Store.SubmitAnswer | apps/pairing-server/src/api/signaling.rs:169-187 | stores the answer of a known, unexpired session; an expired one is removed and reported as not found |
| SignalStore.Store.PeekAnswer | apps/pairing-server/src/api/signaling.rs:195-205 | tells unknown or expired from "no answer yet" from an answer |
| SignalStore.Store.CleanupExpiredSessions | apps/pairing-server/src/api/signaling.rs:257-267 | removes exactly the expired sessions and counts them |
| SignalStore.Store.IssueTicket | apps/pairing-server/src/api/signaling.rs:107-120 | sweeps expired tickets and adds the new one for 60 s |
| SignalStore.Store.RedeemTicket | apps/pairing-server/src/api/signaling.rs:124-132 | consumes the ticket whatever the outcome; succeeds only for its own device before expiry |
| SignalStore.Store.SubscribeOffers | apps/pairing-server/src/api/signaling.rs:210-215 | takes the next id and replaces the device's subscription |
| SignalStore.Store.PushOffer | apps/pairing-server/src/api/signaling.rs:218-232 | appends to the channel of the current subscription unless nobody listens or it is full |
| SignalStore.Store.UnsubscribeOffers | apps/pairing-server/src/api/signaling.rs:234-243 | removes the entry only if it still carries this subscription's id |
| SignalRuns.LazyExpiryUnobservable | apps/pairing-server/src/api/signaling.rs:135-205 | in every run whose calls on sessions are in clock order, with clean-ups at any points and ticket calls in any order of clocks, every reply of create_session, submit_answer and peek_answer equals that of a store that never collects anything |
| SignalRuns.LazySweepUnobservable | apps/pairing-server/src/api/signaling.rs:107-132 | a redemption that no earlier issue is ahead of in its clock is answered as by the store that never sweeps |
| SignalRuns.SessionsStayCollected | apps/pairing-server/src/api/signaling.rs:135-187 | one call keeps the real sessions equal to the uncollected ones up to entries already expired |
| SignalRuns.RedemptionExactly | apps/pairing-server/src/api/signaling.rs:107-132 | for any clocks: a redemption differs from the never-sweeping store exactly when that store accepts and some later issue ran with a clock at or past the ticket's expiry |
| SignalRuns.SweptTicketsExactly | apps/pairing-server/src/api/signaling.rs:107-120 | a ticket is in the store exactly when the uncollected store has it and no issue since swept it |
| SignalRuns.SweepVisibleOutOfOrder | apps/pairing-server/src/api/signaling.rs:107-132 | a run out of clock order in which a still valid ticket is refused |
| SignalRuns.TicketRedeemedOnce | apps/pairing-server/src/api/signaling.rs:124-132 | a ticket issued once is redeemed at most once in a run, for any clocks |
| SignalRuns.RedeemedExactly | apps/pairing-server/src/api/signaling.rs:107-132 | from the calls of the run alone, for any clocks: a redemption succeeds exactly if the ticket was issued to that very device less than 60 s before, and no call since issued it anew, redeemed it, or swept it |
| SignalRuns.ElevenCreationsSpanTheTtl | apps/pairing-server/src/api/signaling.rs:135-165 | any eleven successful creations for one device span at least 60 seconds |
| SignalRuns.QuotaAlwaysHolds | apps/pairing-server/src/api/signaling.rs:135-165 | at every moment of every run a device has at most ten unexpired sessions |
| SignalRuns.CreatedExactly | apps/pairing-server/src/api/signaling.rs:135-165 | a creation succeeds exactly if fewer than ten creations for the device succeeded in the 60 s before |
| SignalRuns.CleanupLeavesTheYoung | apps/pairing-server/src/api/signaling.rs:257-267 | a clean-up leaves exactly the sessions younger than 60 s, so at most ten of a device |
| Subscriptions.EntryIsLastLiveSubscription | apps/pairing-server/src/api/signaling.rs:210-243 | with id allocation and insertion as separate steps: a device's entry is the last inserted subscription exactly while that one has not unsubscribed |
| Subscriptions.EntriesDistinct | apps/pairing-server/src/api/signaling.rs:210-215 | no two devices share a subscription id |
| Subscriptions.StaleUnsubscribeHarmless | apps/pairing-server/src/api/signaling_handlers.rs:429-483 | the late exit of a replaced event-stream task leaves the table unchanged |
| Subscriptions.OffersConserved | apps/pairing-server/src/api/signaling.rs:218-232 | offers accepted for a subscription are those received by its task followed by those buffered, in order and once, at most sixteen buffered |
| Subscriptions.PushAcceptedExactly | apps/pairing-server/src/api/signaling.rs:218-232 | an offer is taken exactly while the device's last subscription is live and has fewer than sixteen unreceived |
| Subscriptions.ReceivesExactly | apps/pairing-server/src/api/signaling_handlers.rs:455-463 | a live subscriber receives exactly while something it was sent is unreceived |
| Subscriptions.NewSubscriberListens | apps/pairing-server/src/api/signaling.rs:210-243 | a new subscriber replaces the old one, gets the next offer and leaves when it exits |
| LongPoll.RecheckRepliesExactly | apps/pairing-server/src/api/signaling_handlers.rs:256-271 | the re-check answers 404 exactly when the session is 60 s old, else 204 exactly when nothing was submitted before it, else the last submitted answer, over all interleavings |
| LongPoll.FirstPeekRepliesExactly | apps/pairing-server/src/api/signaling_handlers.rs:241-253 | the first peek answers what the history dictates, for known and unknown ids |
| LongPoll.EarlyPollFindsItsSession | apps/pairing-server/src/api/signaling_handlers.rs:256-263 | for any slack d, a poll begun before session age 30 s - d and re-checked within 30 s + d of its first peek is not answered 404 |
| LongPoll.EarlyPollNotFound | apps/pairing-server/src/api/signaling_handlers.rs:241-263 | a run in which a poll begun at age 29 s and registered 2 s later ends in 404 |
| LongPoll.HoldEndsExactly | apps/pairing-server/src/api/signaling_handlers.rs:256-257 | a waiter may go on exactly when an answer came since it registered or 30 s have passed, so a missed wake-up only delays |
| LongPoll.WokenExactly | apps/pairing-server/src/api/signaling.rs:169-187 | a registered waiter is woken exactly when an answer was stored since its registration |
| LongPoll.MissedWakeUpExists | apps/pairing-server/src/api/signaling_handlers.rs:241-257 | a run in which the answer is stored between peek and registration and the poll still holds |
| LongPoll.RunsMatchHistory | apps/pairing-server/src/api/signaling.rs:135-205 | presence, creation time and answer of a session are decided by the successful calls alone |
| LongPoll.SubmitAcceptedExactly | apps/pairing-server/src/api/signaling.rs:169-187 | an answer is taken exactly for a session created less than 60 s before |
| LongPoll.PollClocks | apps/pairing-server/src/api/signaling_handlers.rs:241-257 | the clocks a poll keeps are those of its first peek and of its registration |
| RateLimiter.Limiter.Check | apps/pairing-server/src/api/auth.rs:113-147 | the in-place check: purge, decide, record, and on an allowed call sweep or reset |
| RateLimiter.AllowedExactly | apps/pairing-server/src/api/auth.rs:113-147 | for any clocks, a call is allowed exactly when fewer than its limit of the address's allowed calls since the last reset are less than 1 s old by its reading and by every reading of the address in between |
| RateLimiter.PlainWindowExactly | apps/pairing-server/src/api/auth.rs:113-122 | exactly when the description without the readings in between is wrong |
| RateLimiter.AllowedInClockOrder | apps/pairing-server/src/api/auth.rs:113-122 | in clock order a call is allowed exactly when fewer than its limit of those calls are less than 1 s old |
| RateLimiter.BucketsHoldTheKept | apps/pairing-server/src/api/auth.rs:113-147 | after any run a bucket holds exactly the calls that stand and were never aged out |
| RateLimiter.ShortSpanBounded | apps/pairing-server/src/api/auth.rs:113-147 | any span in which the readings of an address lie within 1 s, in any order, and which holds r resets, lets through at most limit*(r+1) of its calls |
| RateLimiter.DeniedAddsNoKey | apps/pairing-server/src/api/auth.rs:117-122 | a denied call with a limit of at least one adds no key |
| RateLimiter.KeysBounded | apps/pairing-server/src/api/auth.rs:124-147 | after every call at most 50,000 keys remain, for any clocks, if no limit is zero |
| RateLimiter.ResetExactly | apps/pairing-server/src/api/auth.rs:129-144 | everything is forgotten exactly by an allowed call that leaves more than 50,000 addresses with standing calls |
| RateLimiter.KeysExactly | apps/pairing-server/src/api/auth.rs:129-144 | a call adds its own address and nothing else changes, unless it is allowed and a sweep is due, thirty seconds after the last or above 50,000 addresses; then those with standing calls remain, or none if more than 50,000 |
| RateLimiter.OverdueCallSweeps | apps/pairing-server/src/api/auth.rs:129-136 | an allowed call 30 s after all earlier ones leaves no empty bucket |
| RateLimiter.ZeroLimitKeepsEveryKey | apps/pairing-server/src/api/auth.rs:113-122 | with limit zero the keys are exactly the addresses seen, so the bound holds exactly while those are at most 50,000 |
| RateLimiter.OutOfOrderClocksMatter | apps/pairing-server/src/api/auth.rs:113-116 | a run out of clock order in which a call is let through over the limit |
| DeviceRepo.Repo.Upsert | apps/pairing-server/src/store/device_repo.rs:56-122 | select, insert-if-absent, second select and match, as one outcome and one new table |
| DeviceRepo.Repo.MatchExisting | apps/pairing-server/src/store/device_repo.rs:125-171 | unverified without the right bearer; otherwise reuse, or rotation when the stored token is older than a day |
| DeviceRepo.UpsertKeepsHashesDistinct | apps/pairing-server/src/store/device_repo.rs:56-122 | stored hashes stay pairwise distinct and at most the drawn token is added |
| DeviceRepo.UpsertTouchesOneRow | apps/pairing-server/src/store/device_repo.rs:56-215 | only the registering device's row changes, and only on success; then it is online at the request's address, holds the hash of the returned token, keeps creation time and name, and gets a new issue time exactly with a new token |
| DeviceRepo.RegistrationDecided | apps/pairing-server/src/store/device_repo.rs:125-171 | for a known device: Unverified exactly without its token, Reused exactly with it within 24 h of its issue, Rotated exactly with it later |
| DeviceRepo.EchoedNameExactly | apps/pairing-server/src/store/device_repo.rs:144-170 | when the returned device name is the stored one |
| DeviceRepo.StoredExactly | apps/pairing-server/src/store/device_repo.rs:252-269 | the lookup finds a device exactly for the stored tokens, and one that holds the token |
| TokenAuth.Cache.PutToken | apps/pairing-server/src/cache/mod.rs:43-52 | a full cache drops some one entry before the new one is written |
| TokenAuth.PutKeepsBound | apps/pairing-server/src/cache/mod.rs:43-52 | eviction keeps the size bound, drops at most one entry and never the token just written |
| TokenAuth.Server.RegisterDevice | apps/pairing-server/src/api/devices.rs:72-129 | the handler's effect on table and cache for each outcome of the upsert |
| TokenAuth.Server.VerifyToken | apps/pairing-server/src/api/auth.rs:56-69 | cache first, then table, warming the cache |
| TokenAuth.UpsertMovesOneToken | apps/pairing-server/src/store/device_repo.rs:125-171 | after a registration the returned token is the device's and every other token keeps its device, the rotated one excepted |
| TokenAuth.RunsStayGood | apps/pairing-server/src/api/devices.rs:92-119 | in every run each cached token hashes to the stored hash of its device, and the cache keeps its bound |
| TokenAuth.VerifyAgreesWithTable | apps/pairing-server/src/api/auth.rs:56-69 | in every run verify_token returns what find_id_by_token alone would |
| TokenAuth.RotationIsFinal | apps/pairing-server/src/store/device_repo.rs:194-215 | after a rotation the new token is accepted at once and the old one refused at every later point |
| TokenAuth.TokensLiveADay | apps/pairing-server/src/store/device_repo.rs:125-215 | in every run in clock order, between the issue of a device's token and any later rotation lie 24 h, short of the second to which issue times are cut |
| TokenAuth.HolderDecided | apps/pairing-server/src/store/device_repo.rs:125-215 | over whole runs: while no rotation comes in between, whoever shows an issued token is told the same token for a day and a new one later, and nobody else is told any |
| TokenAuth.CacheWarms | apps/pairing-server/src/api/auth.rs:56-69 | a token just verified or handed out is in the cache |
| TokenAuth.NothingEvicted | apps/pairing-server/src/cache/mod.rs:43-52 | a cache with room evicts nothing |
| TokenAuth.CacheNeverActsBack | apps/pairing-server/src/api/devices.rs:92-119 | the table evolves as if there were no cache |
| TokenAuth.DeadTokenStaysDead | apps/pairing-server/src/api/devices.rs:92-119 | a token that is nobody's never becomes anybody's again |
| VerifyRace.AgreesExactly | apps/pairing-server/src/api/auth.rs:56-69 | with lookup and cache write apart, a step keeps the cache in agreement exactly unless it writes a stale hit |
| VerifyRace.CacheAgreesExactly | apps/pairing-server/src/api/auth.rs:56-69 | at every point of a run the cache agrees with the table, if and only if no stale hit is ever written |
| VerifyRace.StaleExactly | apps/pairing-server/src/api/auth.rs:56-69 | a hit is stale exactly if its token was rotated away since its lookup, and then nobody holds it |
| VerifyRace.DeadTokenAcceptedAgain | apps/pairing-server/src/api/auth.rs:56-69 | a lookup, a rotation and the write: the dead token is accepted again |
| RegistrationRace.OneWinner | apps/pairing-server/src/store/device_repo.rs:56-122 | under any interleaving of the statements of any number of registrations of an unknown device, once one has finished exactly one is Created |
| RegistrationRace.LosersUnverified | apps/pairing-server/src/store/device_repo.rs:56-122 | without bearers the stored hash is the winner's and every other finished registration is Unverified |
| RegistrationRace.StoredIsTheLast | apps/pairing-server/src/store/device_repo.rs:56-215 | after any interleaving, for known and unknown devices and any bearers, the stored hash is that of the token stored last, or the one from before |
| RegistrationRace.OnlyTheLastTokenCounts | apps/pairing-server/src/store/device_repo.rs:56-215 | of the tokens the registrations of a device were told to be new, exactly the one stored last is accepted |
| RegistrationRace.BothRotate | apps/pairing-server/src/store/device_repo.rs:125-171 | two registrations with the same token due for rotation are both rotated, and the first is told a dead token |
| RegistrationRace.FourTurnsFinish | apps/pairing-server/src/store/device_repo.rs:56-122 | four turns finish any registration whatever the others do |
| RegistrationRace.SoloRunIsUpsert | apps/pairing-server/src/store/device_repo.rs:56-171 | an uninterrupted registration does exactly what the upsert does |
| RegistrationRace.ConflictIsUpsert | apps/pairing-server/src/store/device_repo.rs:100-116 | whoever finds the row there on inserting it is answered as if it had found it at once |
| BatchWriter.Writer.Enqueue | apps/pairing-server/src/batch/mod.rs:75-92 | never blocks; a full channel drops the update and says so |
| BatchWriter.Writer.Flush | apps/pairing-server/src/batch/mod.rs:96-120 | one transaction: all of the buffer reaches the table, or nothing does and the buffer is kept |
| BatchWriter.Writer.Tick | apps/pairing-server/src/batch/mod.rs:39-66 | drains the channel, then flushes; after a commit everything accepted is committed |
| BatchWriter.Writer.Receive | apps/pairing-server/src/batch/mod.rs:39-66 | takes one item and flushes at the 1000th |
| BatchWriter.ApplyAllRows | apps/pairing-server/src/batch/mod.rs:96-120 | updates applied in order leave in each existing row the last address and the last non-null name, and add no row |
| BatchWriter.BatchingIsImmediate | apps/pairing-server/src/batch/mod.rs:37-72 | whatever the ticks, thresholds and failing transactions: committed ++ buffer ++ channel is what was accepted, in order, and the table is the committed updates applied one at a time |
| BatchWriter.NothingWaitsLong | apps/pairing-server/src/batch/mod.rs:37-72 | while transactions commit at most 999 updates wait in the buffer, the thousandth flushes them, and a draining tick leaves nothing waiting |
| ConnectionMachine.RetriesBounded | packages/core/src/machines/connection.ts:71-138 | every reachable state keeps its retries in 0..5 |
| ConnectionMachine.FailuresDecide | packages/core/src/machines/connection.ts:93-125 | from connected, without OPEN or DISCONNECT, the state is decided by the number of failures, the seventh going offline with its own reason |
| ConnectionMachine.FirstOfflineAtSeventhFailure | packages/core/src/machines/connection.ts:93-125 | such a run is first offline exactly at its seventh failure, with that event's reason |
| ConnectionMachine.DelayMonotone | packages/core/src/machines/connection.ts:62-64 | the delay is nondecreasing, between 1 s and 30 s, for all inputs |
| ConnectionMachine.DelaysToOffline | packages/core/src/machines/connection.ts:62-125 | the delays scheduled from connected to offline sum to 61,000 ms on every such run |
| ConnectionMachine.DelayTable | packages/core/src/machines/connection.ts:62-64 | the six delays: 1, 2, 4, 8, 16 and 30 s |
| ConnectionMachine.LifeOfAConnection | packages/core/src/machines/connection.ts:71-138 | asked for, a connection connects when it opens; from idle and offline it starts over; told to, it ends |
| UseConnections.Manager.OpenTransport | apps/mobile/src/hooks/useConnections.ts:166-242 | closes the old transport, dispatches CONNECT, and makes a new transport current with its credential |
| UseConnections.Manager.OnOpened | apps/mobile/src/hooks/useConnections.ts:176-181 | releases the sending lock and dispatches OPEN |
| UseConnections.Manager.OnClosed | apps/mobile/src/hooks/useConnections.ts:203-213 | releases the sending lock, dispatches CLOSE unless idle, and arms the timer if reconnecting |
| UseConnections.Manager.OnSignal | apps/mobile/src/hooks/useConnections.ts:176-236 | the listeners behind the stale guard; keeps every session wired and alive |
| UseConnections.Manager.OnError | apps/mobile/src/hooks/useConnections.ts:215-236 | fallback for a credential error, FAIL and detach for a known code, nothing otherwise |
| UseConnections.Manager.TriggerAuthFallback | apps/mobile/src/hooks/useConnections.ts:127-150 | token to code once; else FAIL auth, a retry timer if reconnecting, and detach |
| UseConnections.Manager.ScheduleRetry | apps/mobile/src/hooks/useConnections.ts:154-163 | one timer per session, with the delay of the retries |
| UseConnections.Manager.StartSession | apps/mobile/src/hooks/useConnections.ts:261-294 | a fresh session in place of the old one; token before code; offline at once without a credential |
| UseConnections.Manager.ConnectDevice | apps/mobile/src/hooks/useConnections.ts:250-297 | idempotent while connecting or connected, else a fresh session; keeps every session wired and alive |
| UseConnections.Manager.DisconnectDevice | apps/mobile/src/hooks/useConnections.ts:299-313 | drops session, timer and stored credentials |
| UseConnections.Manager.RetryDevice | apps/mobile/src/hooks/useConnections.ts:315-332 | CONNECT and a new transport with the last or a stored credential, else FAIL |
| UseConnections.Manager.TimerFires | apps/mobile/src/hooks/useConnections.ts:158-162 | a new transport with the last credential, unless the session is gone or has none |
| UseConnections.Manager.SendToDevice | apps/mobile/src/hooks/useConnections.ts:334-339 | sends only when open, connected and not busy, and then is busy |
| Connections.StaleTransportsAreInert | apps/mobile/src/hooks/useConnections.ts:166-242 | a transport that is not current at some point never is again, and nothing it reports later changes anything |
| Connections.OneCurrentTransport | apps/mobile/src/hooks/useConnections.ts:166-175 | no two sessions share a transport |
| ConnectionUse.OpeningConnects | apps/mobile/src/hooks/useConnections.ts:176-181 | the opening of the current transport of a connecting or reconnecting session leaves it connected over that transport, and the next text goes out |
| ConnectionUse.FirstConnection | apps/mobile/src/hooks/useConnections.ts:250-297 | a run: scan a code, connect, the channel opens, and the phone can send |
| ConnectionUse.LockExactly | apps/mobile/src/hooks/useConnections.ts:176-213 | in every run the sending lock is held exactly while the last message is waiting for an acknowledgement, a close, an opening or a new session |
| ConnectionUse.SendableExactly | apps/mobile/src/hooks/useConnections.ts:334-339 | a text is let through exactly on an open channel of a connected session with no message waiting |
| ConnectionUse.ConnectChooses | apps/mobile/src/hooks/useConnections.ts:276-294 | a tap on connect uses the stored token, else the stored code, else gives up at once; empty strings do not count |
| ConnectionUse.RetryChooses | apps/mobile/src/hooks/useConnections.ts:315-332 | a retry uses the credential in use, else the stored token, else the stored code |
| ConnectionUse.IssuedTokenIsUsed | apps/mobile/src/hooks/useConnections.ts:190-192 | a token the desktop issues is stored and used by the next attempt |
| ConnectionUse.RemovalForgets | apps/mobile/src/hooks/useConnections.ts:299-313 | removing a device forgets its credentials |
| ConnectionUse.ErrorDecidesReason | apps/mobile/src/hooks/useConnections.ts:215-236 | which error code on the last attempt leaves which reason, and which codes have no effect |
| Connections.SessionsNeverStuck | apps/mobile/src/hooks/useConnections.ts:106-375 | in every run a connecting session has a transport, a reconnecting one has a timer, with the delay of its retries, exactly if it has held a credential, one that has not has neither timer nor transport, retries stay in budget |
| ConnectionFailures.RetryWithoutCredential | apps/mobile/src/hooks/useConnections.ts:315-332 | a run: connecting and retrying without a credential ends reconnecting with neither timer nor transport |
| Connections.RunsEvolve | apps/mobile/src/hooks/useConnections.ts:166-332 | over any stretch of a run the wiring is kept and no stale transport revives |
| ConnectionFailures.FailedAttemptCountsOnce | apps/mobile/src/hooks/useConnections.ts:203-236 | error followed by close feeds the reducer exactly one FAIL or CLOSE, or none when it falls back from token to code |
| ConnectionFailures.FailuresFedExactly | apps/mobile/src/lib/rtcTransport.ts:153-157 | for any sequence of errors and closes from the current transport, exactly how many failures are fed |
| ConnectionFailures.DoubleCloseCountsTwice | apps/mobile/src/lib/rtcTransport.ts:153-157 | two closes of one transport are counted as two failures |
| ConnectionFailures.RejectionEffect | apps/mobile/src/hooks/useConnections.ts:127-163 | what one rejection leaves: the code in place of the token, one retry fewer, or offline for good |
| ConnectionFailures.RejectionsRunOut | apps/mobile/src/hooks/useConnections.ts:127-163 | against a desktop that always rejects, a session ends offline with reason auth, no transport and no timer, after an exact number of transports |
| ConnectionFailures.AtMostSevenTransports | apps/mobile/src/hooks/useConnections.ts:250-297 | from the tap on connect, for a device with no session or one not under way: seven transports with token and code stored, six with one of them, then offline auth |
| ConnectionFailures.TimersSoundExactly | apps/mobile/src/hooks/useConnections.ts:154-332 | a step leaves a timer pending outside reconnecting exactly when it is one of four reports from the current transport of a reconnecting session |
| ConnectionFailures.OfflineHasNoTimer | apps/mobile/src/hooks/useConnections.ts:154-332 | at every point of a run timers are pending only while reconnecting, if and only if the run has no such report |
| ConnectionFailures.RecoveryIsUndone | apps/mobile/src/hooks/useConnections.ts:176-213 | a close followed by the opening leaves a timer on a connected session, which closes the live transport when it fires |
| ConnectionFailures.RecoveryUndoneRun | apps/mobile/src/lib/rtcTransport.ts:153-157 | that run, from a freshly paired phone |
| ConnectionFailures.DoubleCloseRestarts | apps/mobile/src/hooks/useConnections.ts:203-213 | a double close on the last retry goes offline with the timer still armed, which then restarts the session |
| ConnectionFailures.DoubleCloseRun | apps/mobile/src/lib/rtcTransport.ts:153-157 | a run of a freshly paired phone that goes offline after three attempts and starts over |
| AnswerSessions.GhostStepExactly | apps/desktop/src-tauri/src/webrtc/mod.rs:328-409 | from a ghost-free state a step leaves a ghost client exactly when it closes a connection whose key is registered and shared with no other session |
| AnswerSessions.EveryClientOwned | apps/desktop/src-tauri/src/webrtc/mod.rs:108-181 | at every point of a run each client id is the current key of a session whose connection is not closed, if and only if the run has no such step |
| AnswerSessions.RunsKeepCapacity | apps/desktop/src-tauri/src/connection.rs:95-111 | every run respects the capacity |
| AnswerSessions.OpenRegistersExactly | apps/desktop/src-tauri/src/connection.rs:95-111 | a channel that opens gets its client exactly if it has it already or there is room |
| AnswerSessions.FirstComeFirstServed | apps/desktop/src-tauri/src/connection.rs:95-111 | of any number of phones exactly the first ones are registered, as many as configured |
| AnswerSessions.ClosedForGood | apps/desktop/src-tauri/src/webrtc/mod.rs:108-127 | once closed, always closed, and no later insertion succeeds |
| AnswerSessions.DrainedForGood | apps/desktop/src-tauri/src/webrtc/mod.rs:165-170 | from the draining on the registry stays empty |
| AnswerSessions.NoClientAfterShutdown | apps/desktop/src-tauri/src/webrtc/mod.rs:165-181 | in a run without such a step, after the draining each client is that of a session that lingers outside the registry, and when all connections are closed there is none |
| AnswerSessions.ClientsInService | apps/desktop/src-tauri/src/webrtc/mod.rs:108-181 | if channels open and say hello only while their session is in the registry, each client's session is in service, there is no ghost, and no client is left once every session is unregistered |
| SessionLifetimes.KeptStepExactly | apps/desktop/src-tauri/src/webrtc/mod.rs:401-512 | a step takes the client from a registered session exactly when another session gives up the key they share |
| SessionLifetimes.EverySessionRegistered | apps/desktop/src-tauri/src/webrtc/mod.rs:401-512 | at every point of a run each session that registered has its client, if and only if no such step occurs |
| SessionLifetimes.StaysLiveExactly | apps/desktop/src-tauri/src/webrtc/mod.rs:373-409 | a session stays in the registry throughout exactly if it meets no failure, no draining and no pending timer of its own |
| SessionLifetimes.UntimedStaysLive | apps/desktop/src-tauri/src/webrtc/mod.rs:373-409 | without a pending timer, a new loss, a failure or a draining a session stays, whatever else happens |
| SessionLifetimes.GraceCancelledExactly | apps/desktop/src-tauri/src/webrtc/mod.rs:373-398 | coming back saves a session from its timers, under every further interleaving, exactly when none was started before its insertion |
| SessionLifetimes.AbandonedKeepsClient | apps/desktop/src-tauri/src/webrtc/mod.rs:129-141 | a session whose removal was cut stays so for good, and its client goes exactly with its own channel's close or hello or another session's giving up the key |
| SessionLifetimes.CutExactly | apps/desktop/src-tauri/src/webrtc/mod.rs:129-141 | the work of the entry's own timer can be cut at each of its awaits, and no other removal at any |
| SessionLifetimes.UntimedRemovalFinishes | apps/desktop/src-tauri/src/webrtc/mod.rs:401-409 | a removal by failure, draining or a detached timer is never cut short |
| SessionLifetimes.EveryEarlyLossCounts | apps/desktop/src-tauri/src/webrtc/mod.rs:383-391 | before the insertion every loss of connection starts a timer of its own |
| SessionRuns.GhostByEarlyOpen | apps/desktop/src-tauri/src/webrtc/mod.rs:328-370 | a run: the channel opens between wiring and refused insertion, and its client outlives the session until the channel's close |
| SessionRuns.GhostAfterRefusal | apps/desktop/src-tauri/src/webrtc/mod.rs:363-368 | a run: the channel opens between the refusal and the closing of the connection |
| SessionRuns.GhostAfterUnregister | apps/desktop/src-tauri/src/webrtc/mod.rs:165-181 | a run: the channel opens between the shutdown's unregistering and its closing |
| SessionRuns.GhostByLateHello | apps/desktop/src-tauri/src/webrtc/mod.rs:165-181 | a run: the phone says hello between the shutdown's reading of the key and its unregistering |
| SessionRuns.CutTimerKeepsClient | apps/desktop/src-tauri/src/webrtc/mod.rs:129-141 | a run: the work of the grace timer, aborted by its own removal, is cut, and the client stays through a shutdown |
| SessionRuns.DetachedTimerShutsReconnected | apps/desktop/src-tauri/src/webrtc/mod.rs:383-395 | a run in which a timer started before the insertion removes a session that came back |
| SessionRuns.EarlyFailureForgotten | apps/desktop/src-tauri/src/webrtc/mod.rs:373-382 | a failure before the insertion is forgotten: the session is inserted and stays |
| SessionRuns.SharedClientVanishes | apps/desktop/src-tauri/src/webrtc/mod.rs:401-409 | a run of two sessions with one phone's key in which the first to end removes the client of the other, which is live |
| AnswerContexts.AnswerContext.Register | apps/desktop/src-tauri/src/connection.rs:95-111 | refused when full, unless already registered |
| AnswerContexts.AnswerContext.WireSession | apps/desktop/src-tauri/src/webrtc/mod.rs:328-370 | callbacks, then insertion; refused and closed once the registry is closed |
| AnswerContexts.AnswerContext.HandleHello | apps/desktop/src-tauri/src/webrtc/mod.rs:501-512 | moves the client from the session's old key to the phone's id |
| AnswerContexts.AnswerContext.CloseSession | apps/desktop/src-tauri/src/webrtc/mod.rs:401-409 | removal, reading of the key, unregistering and closing when nothing comes in between; nothing if it was not in the registry |
| AnswerContexts.AnswerContext.CloseAll | apps/desktop/src-tauri/src/webrtc/mod.rs:165-181 | undisturbed: closes the registry, shuts every session in it and removes exactly their clients |
| InjectionQueue.QueueConserved | apps/desktop/src-tauri/src/connection.rs:126-217 | under any interleaving: accepted is injected ++ in hand ++ queued, in order; the bound holds; one report per processed text, in the same order |
| InjectionQueue.AcceptedExactly | apps/desktop/src-tauri/src/connection.rs:126-144 | a text is accepted exactly while fewer than the bound were accepted and not yet taken |
| InjectionQueue.ReportsTell | apps/desktop/src-tauri/src/connection.rs:158-217 | the i-th report is to the sender of the i-th accepted text, with the injector's i-th answer |
| InjectionQueue.TurnsEmptyTheQueue | apps/desktop/src-tauri/src/connection.rs:158-217 | as many turns as there are texts empty the queue and report every one |
| InjectionQueue.ConnectionManager.EnqueueInjection | apps/desktop/src-tauri/src/connection.rs:126-144 | appends unless the queue is full |
| InjectionQueue.ConnectionManager.ProcessNext | apps/desktop/src-tauri/src/connection.rs:158-217 | takes the front, injects it once, reports its result once |
| ConnectionTokens.ListIsNewestHundred | apps/desktop/src-tauri/src/connection.rs:349-367 | after any issues the list in memory and its copy in the configuration are the last hundred of loaded ++ issued |
| ConnectionTokens.CappedExactly | apps/desktop/src-tauri/src/connection.rs:349-367 | exactly when the list is the newest hundred: something was issued, or what was loaded already fits |
| ConnectionTokens.IssuedTokenValidExactly | apps/desktop/src-tauri/src/server/auth.rs:59-64 | an issued token validates as Token exactly when fewer than a hundred were issued after it and it is at most 30 days old (and is not also the pairing code) |
| ConnectionTokens.TokenValidExactly | apps/desktop/src-tauri/src/connection.rs:323-367 | the same for every token of the history, those loaded from the configuration included |
| ConnectionTokens.RestartKeepsTokens | apps/desktop/src-tauri/src/connection.rs:349-367 | what the configuration holds after any issues is what validated before |
| ConnectionTokens.CredentialDecided | apps/desktop/src-tauri/src/server/auth.rs:32-64 | a credential passes as the code exactly if it is the stored one and no older than the expiry, and is invalid exactly if besides no listed token of that name is at most 30 days old |
| ConnectionTokens.ConnectionState.RotatePairingCodeIfExpired | apps/desktop/src-tauri/src/connection.rs:295-318 | the code it returns validates at that moment; an unexpired code is kept |
| ConnectionTokens.ConnectionState.ValidateCredential | apps/desktop/src-tauri/src/connection.rs:323-346 | the stored code within its expiry, else a listed token at most 30 days old, else invalid |
| ConnectionTokens.ConnectionState.AddConnectionToken | apps/desktop/src-tauri/src/connection.rs:349-367 | appends, cuts to the cap from the front, and copies to the configuration |
| Unicode.DecodeEncoded | apps/desktop/src-tauri/src/commands/server.rs:241-267 | one UTF-8 encoded character followed by anything decodes to itself and the rest (section 3 of RFC 3629) |
| Unicode.Utf8RoundTrip | apps/mobile/src/lib/rtcTransport.ts:359-372 | decoding the UTF-8 of any text gives the text |
| Unicode.Utf16RoundTrip | apps/desktop/src-tauri/src/text/injector.rs:133-158 | decoding the UTF-16 of any text gives the text (section 2.2 of RFC 2781) |
| Unicode.Samples | apps/desktop/src-tauri/src/commands/server.rs:241-267 | the encodings of one character of each length |
| Unicode.MalformedSamples | apps/mobile/src/lib/rtcTransport.ts:359-372 | malformed stretches read as U+FFFD |
| QrPayload.QrRoundTrip | apps/mobile/src/lib/rtcTransport.ts:359-372 | parsing a printed payload gives back exactly its code, device and name, for every name of Unicode scalar values |
| QrPayload.NameComponent | apps/desktop/src-tauri/src/commands/server.rs:241-267 | form-decoding the percent-encoded name gives the name |
| QrPayload.NamePrinted | apps/desktop/src-tauri/src/commands/server.rs:241-267 | only unreserved characters, percent signs and hex digits are printed |
| QrPayload.NoCodeNoPairing | apps/desktop/src-tauri/src/commands/server.rs:241-267 | a payload printed before any code was issued is refused by the phone |
| QrPayload.NoDeviceNoPairing | apps/mobile/src/lib/rtcTransport.ts:359-372 | a payload with an empty device is refused |
| QrPayload.SchemeDecides | apps/mobile/src/lib/rtcTransport.ts:359-372 | only the application's scheme is read, in any case of its letters |
| QrPayload.DeviceIsRequired | apps/mobile/src/lib/rtcTransport.ts:359-372 | a payload without the device parameter is refused |
| QrPayload.NameIsOptional | apps/mobile/src/lib/rtcTransport.ts:359-372 | a payload without a name is read, with no name |
| QrPayload.FragmentIgnored | apps/mobile/src/lib/rtcTransport.ts:359-372 | a fragment is no part of what is read |
| QrPayload.UnescapedComponent | apps/mobile/src/lib/rtcTransport.ts:359-372 | a value without escapes reads as itself, each plus sign as a space |
| QrPayload.LowerCaseEscape | apps/mobile/src/lib/rtcTransport.ts:359-372 | escapes in lower case read like those in upper case |
| QrPayload.PlainNamePrintedPlain | apps/desktop/src-tauri/src/commands/server.rs:241-267 | letters, digits and the four unreserved marks are printed as they are |
| QrPayload.EscapeSample | apps/desktop/src-tauri/src/commands/server.rs:241-267 | other characters as upper-case escapes of their UTF-8 bytes |
| QrPayload.PayloadSample | apps/desktop/src-tauri/src/commands/server.rs:241-267 | one whole payload |
| QrPayload.PayloadInjective | apps/desktop/src-tauri/src/commands/server.rs:241-267 | different pairings never print the same payload |
| TextInjection.NormalizeIsOnePass | apps/desktop/src-tauri/src/text/injector.rs:78-80 | the two replacements equal one scan in which CR LF, CR and LF are each one newline |
| TextInjection.NormalizedHasNoCr | apps/desktop/src-tauri/src/text/injector.rs:78-80 | no carriage return is left and the text gets no longer |
| TextInjection.NormalizeIdempotent | apps/desktop/src-tauri/src/text/injector.rs:78-80 | normalising twice is normalising once |
| TextInjection.UnitsDecodeToTyped | apps/desktop/src-tauri/src/text/injector.rs:90-158 | the units of any text are well-formed UTF-16 and decode to it with newlines as U+000D, tabs kept, other controls dropped |
| TextInjection.TypedExactly | apps/desktop/src-tauri/src/text/injector.rs:90-158 | what arrives is the text without U+0000 to U+001F and U+007F to U+009F, tabs and newlines excepted, in order, each newline as U+000D |
| TextInjection.NoOtherControlArrives | apps/desktop/src-tauri/src/text/injector.rs:90-97 | of a normalised text no control character but CR and tab arrives |
| TextInjection.NewlinesArriveAsCr | apps/desktop/src-tauri/src/text/injector.rs:90-97 | of a normalised text every newline arrives as U+000D and every tab as itself |
| TextInjection.UnitsBounded | apps/desktop/src-tauri/src/text/injector.rs:133-158 | at most two units per character |
| TextInjection.SendUnits | apps/desktop/src-tauri/src/text/injector.rs:160-204 | sends in order up to the first call that does not take both its events |
| TextInjection.InjectUnicode | apps/desktop/src-tauri/src/text/injector.rs:133-158 | sends exactly the text's units, or the prefix before the first failing call |
| TextInjection.Inject | apps/desktop/src-tauri/src/text/injector.rs:66-72 | rejected exactly when empty or over-long; every call before the end took both events, and it fails only at one that did not; on success what was sent decodes to the one-pass normal form without the untypable characters, newlines as U+000D; never more than 2*max_text_length units |

## Left out

- HTTP, axum routing, SQL text, server-sent event framing, Tauri commands, WebRTC, ICE and SDP: only the events and calls they exchange with the modelled code appear.
- Cryptography and randomness: the token hash is injective, and drawn ids, tickets and tokens are inputs.
- The 64-bit wrap-around of the subscription counter, and the closing of an offer channel when its subscription is replaced (a replaced subscriber may still receive what was buffered).
- The caps on concurrent streams and polls: check and increment are separate steps, so no exact cap holds.
- get_session, which does not test expiry, is outside the theorem on lazy expiry; it would see the difference.
- TokenAuth.VerifyAgreesWithTable: handlers are atomic here; VerifyRace.dfy has lookups that straddle a rotation. A registration whose table and cache writes are apart, and delete_stale, which removes rows behind the cache's back, are not in the run sets.
- RegistrationRace.LosersUnverified: no row is deleted meanwhile, and the registrations show no bearer.
- mark_stale_offline, update counts, and the fallback for timestamps outside the calendar's range.
- BatchWriter.BatchingIsImmediate: a transaction commits or fails; a commit whose outcome is unknown to the writer is not modelled.
- ConnectionFailures.RejectionsRunOut: the transport's reports are an input; the steps of its connect and poll loop, apart from the error and close they end in, are not modelled.
- sendAll, unmounting, React state and toasts; coming to the foreground is a number of retries.
- AnswerSessions.EveryClientOwned: assumes the connection service is running, session ids fresh, each data channel callback one step, and none after the close of its peer connection other than the close of the channel. Lock by lock a hello would leave its old key unowned between rewriting the key and unregistering the old one.
- Queue metrics, and a failed save of the configuration, which the code only logs.
- QrPayload.QrRoundTrip: code and device are any non-empty unreserved strings, which covers six digits and UUIDs; the URL parser's treatment of host, port, surrounding blanks, tabs and newlines is not modelled, since no printed payload holds any.
- Text injection on macOS and Linux and the delay between characters; one SendInput call carries a key-down and a key-up of one unit.
