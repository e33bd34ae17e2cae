# godxfeed: a verified model

godxfeed keeps one dxLink market-data connection open, subscribes symbols on it,
publishes every event it receives to NATS, and reconnects when the connection drops.
Beside that Go service stand a mock dxLink gateway (`tools/synth`), an analytics worker
(`tools/analytics`) and a web page that draws what the worker publishes. This project
models the parts where those pieces have to agree with each other, and proves that they do,
or exactly when they do.

## The parts

| files | what they model |
|---|---|
| `Wire`, `Lockstep`, `WholeCalls`, `Exactness`, `Discipline`, `Duplicates`, `Accounting` | the subscription protocol as a step machine: concurrent Add/BulkAdd/Remove callers, Rebind, observers, the in-flight FEED_SUBSCRIPTION frames, the gateway's set, drops and reconnects |
| `Subscriptions`, `Service`, `Backoff` | the `SubscriptionManager`, the service's dial-and-reconnect path and the backoff, as classes, one call at a time |
| `Client` | the dxLink client: the egress rendezvous (`Egress`), the channel handshake (`Handshake`), the read loop's barrier (`Dispatch`) |
| `Gateway` | the mock gateway's session and its replay task |
| `OAuth` | the access-token cache: the class, and the interleavings of its callers |
| `Gemini`, `GeminiMeaning` | the schema normaliser, and what a schema accepts before and after it |
| `Resolver`, `Dates`, `Sorting` | filter resolution: filtering, sorting, fan-out |
| `Ingress` | byte-level NaN sanitising, feed parsing, publication and counting |
| `Picking` | what it means for one list to be the kept part of another, in order |
| `QuoteBuffer`, `Posterior` | the rolling window; the posterior density and the page's readout |

Where a specification function is only a way of computing, a lemma beside it says what it computes
without naming it: which positions of the input it keeps (`Picking.Picks`), which options a filter
wants (`Resolver.Filtered`), which whole call a run of small steps amounts to (`WholeCalls`).

A state machine's step is one atomic action of the source: a critical section of a mutex, an
unlocked field read, one frame written, one frame handled, one atomic counter update. A run is
any sequence of enabled steps, so every interleaving is covered. Time, randomness, the network,
the broker and the JSON decoder are parameters.

## What is proved

**Subscriptions stay in lockstep, and exactly when** (`service/subscriptions.go:53-56`). While the
connection is up, folding the in-flight frames over the gateway's set, and adding what a Rebind
still has to replay, gives the manager's keys plus the sent-but-uncommitted adds minus the
sent-but-uncommitted removes. The manager releases its lock around each send, so this is not true
of every run. `Lockstep.Admissible` is the exact condition, step by step: only a write and Rebind's
snapshot can err, and each has a guard on the state before it. It is exact in two senses.
A step from a state that satisfies the invariant keeps it if and only if the step is admissible
(`Lockstep.StepKeepsInvIff`). And the invariant is no stronger than lockstep needs: it holds if and
only if no completion of what is already under way (commits, give-ups, deliveries, drops, the
pending replay) can bring wire and map apart (`Exactness.InvIffSafe`). So a run from service start
is admissible if and only if it is safe at every point (`Exactness.LockstepExactly`).
The plain calling discipline, same-key operations do not overlap and none straddles a Rebind,
implies admissibility (`Discipline.DisciplineSuffices`). Five `…Diverges` lemmas give, for each way
of breaking it, the steps that leave wire and map in disagreement with nothing pending, and two
lemmas reach such a state from service start: one Add racing one reconnect is enough, and without a
reconnect two callers are. One whole call at a time, no hypothesis is needed (`InStep` is kept by
every method of `SubscriptionManager`).

**What is asked for twice, and exactly when.** A registered key is never sent again. But the check
and the commit are apart. On a live connection in step, an Add's frame names a key the gateway has,
or will have once the frames in flight and a pending replay are handled, exactly when that key is
registered by now, or written by an Add and not yet committed, and is not being removed; and it names
a key twice exactly when the caller listed an unregistered key twice (`Duplicates.DuplicateIff`,
`Duplicates.RepeatsIff`). Disciplined callers that list no unregistered key twice never do either; two
lemmas give runs that do, and the map still ends with one entry and one set of counters.

**Reconnecting loses and invents nothing**, after any run at all, with callers in flight, aborting
or none, and with no hypothesis: the attempt that succeeds writes one frame naming each registered
key exactly once, and touches neither the map nor a counter. Only a commit ever changes the map.

**Counts are conserved**, in every run at all and with no hypothesis: a key's `msgCount` plus the
observations still between lookup and increment equals the observations of that key since its
current registration. A first sighting, once stamped, stays, and a counted key lacks a timestamp
only while the observer that will set it is under way.

**The client is safe over whole traces**: what `Send`'s result says about the wire, which
handshake precedes every subscription frame, and which contiguous run of messages a `C()`
consumer has received. And it gets somewhere: an undisturbed send succeeds, a finished OpenFeed
leaves the feed on its own channel, an answered one finishes, and an update then sends exactly one
frame on that channel.

**Refreshes are spaced**: over every interleaving and whatever the clock does, at most one is in
flight, and one starts only at or past the expiry stored by the last success.

**The schema rewrite preserves meaning, exactly**: of the values a supported schema accepts, the
rewritten schema accepts precisely those with no `""` at a position whose enum survives. It
removes every construct Gemini rejects exactly when each surviving type union names a type, and
it is idempotent. For the shared filter schema, what is lost is exactly the equity-only filters.

**The byte rewrite of `"NaN"` agrees with the token rewrite** for a JSON token sequence, escapes
included, exactly when no string ends with an escaped quote followed by `NaN`.

**The rest**: filter resolution (which options, in which order, at which index, and when an
expiry window selects a slice), the rolling window as a refinement of the full history, unit
mass, a mean on the grid and a log-normal fall-off for the published density, the closed form of total backoff, and
replay that emits exactly the subscribed rows, in order, never early.

## Where the code and its own text disagree

- `service/llm/gemini.go:131-136` says the model "can still return" the empty kind because only
  the enum list loses it. The rewritten schema keeps the enum `["call", "put", "both"]`, and an
  enum admits only its members, so the equity-only filters are what the rewritten schema rejects
  (`GeminiMeaning.OnlyEquityOnlyFiltersAreLost`; `GeminiMeaning.EquityOnlyIsLost` is one).
- `service/subscriptions.go:53-56` promises lockstep outright; the code gives it exactly under
  `Lockstep.Admissible`, and `Discipline.TwoCallersReachDivergence` and
  `Discipline.OneCallerReachesDivergence` are runs without it.
- `service/ingress.go:62-64` calls the byte replacement correct. It is, except for strings that
  end with an escaped quote and `NaN`, which it damages (`Ingress.DeceptiveStringIsDamaged`).
- `service/subscriptions.go:137-140` says re-adding a registered key sends no duplicate frame, which
  is so, and gives as the reason that the server rejects duplicates. Two Adds of one key that both
  pass the check do send two frames (`Duplicates.TwoAddsSendTwice`), and one BulkAdd that lists an
  unregistered pair twice sends it twice in one frame (`Duplicates.RepeatedPairIsSentTwice`).

## Model

| member | source | states |
|---|---|---|
| Wire.FoldSnoc | tools/synth/src/synth/serve.py:227-230 | A frame queued last is handled last: the outcome of a longer queue is the outcome of the shorter one with the frame applied to it. |
| Wire.ApplyMeans | tools/synth/src/synth/serve.py:227-230 | A key is in the set after a frame unless removed by it, and gets there by being there before or being added. |
| Wire.MissingKeys | service/subscriptions.go:107-116 | The frame of a batch add names exactly the requested keys that are not registered yet. |
| Wire.MissingPicks | service/subscriptions.go:107-116 | They are the unregistered pairs themselves, repetitions included, in the order given. |
| Subscriptions.FeedController.constructor | dxclient/client.go:67-76 | A fresh client has no feed channel and has written nothing. |
| Subscriptions.FeedController.UpdateSubscription | dxclient/client.go:279-301 | Succeeds exactly when the feed is open and the connection stays up, and then writes exactly one frame; a connection that dies under the frame gives an error though the frame was written; otherwise nothing is written. |
| Subscriptions.SubscriptionManager.constructor | service/subscriptions.go:68-74 | A new manager has no keys, and is in step with a fresh wire. |
| Subscriptions.SubscriptionManager.Rebind | service/subscriptions.go:80-93 | Swaps the controller even when it fails, never touches the map, writes one frame covering exactly the keys (none for an empty map), and leaves the manager in step with a fresh wire. |
| Subscriptions.SubscriptionManager.ListKeys | service/subscriptions.go:83-86 | The snapshot under the lock lists every key once. |
| Subscriptions.SubscriptionManager.BulkAdd | service/subscriptions.go:103-135 | All or nothing for the map: on success the keys are old plus requested with old counters untouched; on failure the map is unchanged; at most one frame, of the missing pairs only; keeps the manager in step. |
| Subscriptions.SubscriptionManager.CollectMissing | service/subscriptions.go:107-116 | The check under the lock finds the unregistered pairs, in order. |
| Subscriptions.SubscriptionManager.CommitMissing | service/subscriptions.go:125-134 | The commit under the lock registers each missing key with zero counters and leaves keys registered meanwhile as they are. |
| Subscriptions.SubscriptionManager.Add | service/subscriptions.go:141-166 | Idempotent: a registered key sends nothing and keeps its counters; otherwise one frame and one fresh entry, or an error and no change; keeps the manager in step. |
| Subscriptions.SubscriptionManager.Remove | service/subscriptions.go:170-193 | An unknown key is a no-op, a refused remove keeps the entry, a sent one drops it; keeps the manager in step. |
| Subscriptions.SubscriptionManager.Observe | service/subscriptions.go:198-212 | The observed key alone changes: its count grows by one, its last sighting is now, and so is its first if it had none; an unregistered key changes nothing. |
| Subscriptions.SubscriptionManager.Snapshot | service/subscriptions.go:217-243 | Every key once, with its own counters, strictly ascending by event and then symbol. |
| Subscriptions.InfoOrder | service/subscriptions.go:236-241 | The snapshot's comparator is a strict weak order, as the sort requires. |
| Subscriptions.SeenKeepsOrder | service/subscriptions.go:206-211 | On a monotone positive clock the first sighting never comes after the last, and is set once. |
| Subscriptions.WithUnseenMeans | service/subscriptions.go:127-133 | What a commit leaves: registered keys as they were, every other key on its subject, uncounted and unseen. |
| Subscriptions.SubjectOfQuotes | service/ingress.go:27-36 | SPY quotes go to godxfeed.quote.SPY. |
| Subscriptions.LowerLetters | service/ingress.go:34-36 | Lower-casing turns capitals into their small letters and nothing else. |
| Subscriptions.SubjectsDistinct | service/ingress.go:27-36 | Two keys whose event types hold no dot share a subject exactly when their symbols agree and their event types do but for case. |
| Lockstep.RegisterEntries | service/subscriptions.go:127-133 | The locked commit loop adds exactly the missing keys and nothing else in the state changes but the map and its new objects. |
| Lockstep.WriteEffect | dxclient/client.go:279-301 | Writing an operation's frame moves the upcoming gateway set, if the session is the bound one, and the in-flight sets by exactly that frame. |
| Lockstep.WriteConsistentIff | service/subscriptions.go:121 | On a live connection a write leaves wire and map consistent if and only if no opposite frame for its keys is between write and commit, it removes nothing still to be replayed, and, on an abandoned session, it changes nothing. |
| Lockstep.WriteKeepsInvIff | service/subscriptions.go:121 | A write keeps the invariant if and only if it is admissible. |
| Lockstep.FinishKeepsInv | service/subscriptions.go:125-134 | A commit, whenever it comes, keeps the wire reconciled with the map. |
| Lockstep.UnwrittenKeepsInv | service/subscriptions.go:143-148 | Checking the map and reading the controller change nothing the other side can see. |
| Lockstep.AbortKeepsInv | service/subscriptions.go:182-187 | An operation that gives up because its connection died, before or after its frame was written, keeps the invariant. |
| Lockstep.SnapshotKeepsInvIff | service/subscriptions.go:81-87 | Rebind's locked part (swap the controller, list the keys) gives the invariant if and only if, when the new connection is up, every written effect is in the map. |
| Lockstep.ReplayKeepsInv | service/subscriptions.go:92 | Rebind's send reconciles the new connection with the map. |
| Lockstep.ConnectionKeepsInv | service/service.go:478-514 | Deliveries, drops, dials and failed replays keep the invariant. |
| Lockstep.StepKeepsInv | service/subscriptions.go:53-61 | Every admissible step keeps the reconciliation invariant. |
| Lockstep.StepKeepsInvIff | service/subscriptions.go:53-61 | And no other step does: from a state in step, admissible is exact. |
| Lockstep.RunKeepsWellFormed | service/subscriptions.go:80-87 | In every run at all, sessions beyond the bound one are fresh and no operation has read one of them. |
| Lockstep.RunKeepsInv | service/subscriptions.go:53-61 | Every admissible run keeps it: any interleaving of callers, drops, dials and rebinds. |
| Lockstep.DrainConverges | tools/synth/src/synth/serve.py:219-230 | With nothing pending on a live connection, handling the queued frames leaves the gateway subscribed to exactly the manager's keys. |
| WholeCalls.WholeAdd | service/subscriptions.go:103-166 | A call to BulkAdd or Add that finds something new, run alone, ends in the state AfterAdd describes. |
| WholeCalls.AfterAddMeans | service/subscriptions.go:103-166 | That is: one frame of the missing keys on the bound session, each registered with zero counters of its own, all others as they were. |
| WholeCalls.NothingToAdd | service/subscriptions.go:117-119 | With every pair registered, the call ends at its check. |
| WholeCalls.WholeRemove | service/subscriptions.go:170-193 | Remove, run alone: one frame and one entry less, or nothing at all for an unknown key. |
| WholeCalls.RefusedCall | service/subscriptions.go:182-187 | A call on a dead connection that writes nothing leaves no trace. |
| WholeCalls.WholeObserve | service/subscriptions.go:198-212 | Observe, run alone: count, first sighting if none, last sighting, on the one key's object. |
| WholeCalls.WholeRebind | service/subscriptions.go:80-93 | Rebind, run alone: one frame on the newest session, which is then the bound one. |
| Exactness.SafeMeansInv | service/subscriptions.go:53-61 | Where the invariant fails, some completion of what is under way ends with wire and map apart. |
| Exactness.InvIffSafe | service/subscriptions.go:53-61 | The invariant holds if and only if no completion of what is under way can bring wire and map apart. |
| Exactness.StepSafeIff | service/subscriptions.go:53-61 | A step is admissible if and only if it leaves no such completion. |
| Exactness.LockstepExactly | service/subscriptions.go:53-61 | A run from service start is admissible if and only if it is safe at every point. |
| Duplicates.RepeatsIff | service/subscriptions.go:107-116 | A batch's frame names a key twice if and only if the caller listed an unregistered key twice. |
| Duplicates.DuplicateIff | service/subscriptions.go:137-166 | On a live connection in step, an Add's frame is a duplicate if and only if it repeats a key or names one that is registered by now, or written by an Add and not yet committed, and not being removed. |
| Duplicates.CarefulCallersSendNoDuplicate | service/subscriptions.go:137-140 | From service start, disciplined callers that list no unregistered key twice never send a duplicate on a live connection. |
| Duplicates.TwoAddsSendTwice | service/subscriptions.go:141-166 | Two Adds of one key that both pass the check put two frames on the wire; one entry, one set of counters. |
| Duplicates.RepeatedPairIsSentTwice | service/subscriptions.go:103-123 | One BulkAdd listing an unregistered pair twice puts it twice in one frame. |
| Discipline.ApartIsAdmissible | service/subscriptions.go:141-193 | Callers that overlap neither on a key nor with a Rebind take only admissible steps. |
| Discipline.DisciplineSuffices | service/subscriptions.go:53-61 | Every disciplined run is admissible and ends reconciled. |
| Discipline.SettledMeansEqual | service/subscriptions.go:53-61 | From service start, under the discipline, a settled live connection holds exactly the manager's keys. |
| Discipline.OverlapDiverges | service/subscriptions.go:150-164 | Without the same-key clause: opposite frames whose commits cross leave wire and map in disagreement for good. |
| Discipline.LostAddDiverges | service/subscriptions.go:80-91 | Without the straddle clause, empty map: an Add written before the snapshot and committed after it never reaches the new connection. |
| Discipline.StraddleDiverges | service/subscriptions.go:80-93 | Without the straddle clause: a written Add is lost by the rebind, or a written Remove undone. |
| Discipline.OvertakenRemoveDiverges | service/subscriptions.go:89-92 | A Remove written between Rebind's snapshot and its replay is overtaken by the replay. |
| Discipline.StaleControllerDiverges | service/subscriptions.go:150-153 | An operation that read the controller before the swap writes to the abandoned connection and still commits. |
| Discipline.OneCallerReachesDivergence | service/subscriptions.go:80-166 | From service start, one Add racing one reconnect reaches such a disagreement. |
| Discipline.TwoCallersReachDivergence | service/subscriptions.go:141-193 | From service start, without a reconnect, two callers reach one: one adds a key and removes it while the other's Add of it, which missed, is under way. |
| Accounting.ReconnectsKeepTheMap | service/service.go:455-463 | No dial, drop, delivery or rebind changes the map, a counter, a pending operation or an observer. |
| Accounting.ReconnectsAreAdmissible | service/service.go:516-550 | Reconnecting with no operation pending needs no hypothesis at all. |
| Accounting.OnlyCommitsChangeTheMap | service/subscriptions.go:125-134 | In every run without a commit, whatever callers, observers and connections do, the map stays as it was. |
| Accounting.QuietRunsKeepTheCounters | service/subscriptions.go:76-79 | In every run without a commit or an observation taking effect, whatever callers begin, write or give up and connections do, map, counters and timestamps stay as they were. |
| Accounting.ReconnectReplaysExactly | service/service.go:406-474 | After any run at all, the attempt whose connection is up writes a single frame naming each registered key exactly once on its fresh session (nothing when there is no key), and changes no entry or counter; without a commit meanwhile the keys are those from before the outage. |
| Accounting.SnapshotIsReplayed | service/subscriptions.go:80-93 | Whatever callers do between Rebind's snapshot and its send, the frame it sends is the one it snapshotted. |
| Wire.CoveringFrameHasNoRepeats | service/subscriptions.go:83-86 | A frame with as many items as keys that covers them names none twice. |
| Accounting.StepBalances | service/subscriptions.go:198-212 | Each step keeps msgCount plus uncounted observations equal to the tally since registration. |
| Accounting.CountsAreConserved | service/subscriptions.go:198-212 | So does every run: across re-adds, failed removes and rebinds, under any interleaving of observers. |
| Accounting.SightingsSettle | service/subscriptions.go:206-211 | Over every run: counts never fall, a first sighting never changes once set, and when no observer is under way every counted key has both its timestamps. |
| Egress.RunKeepsInv | dxclient/client.go:326-349 | In every run the wire is the hand-off order, short at most of the payload in the writer's hands, and no payload is handed off twice. |
| Egress.SendAccounting | dxclient/client.go:538-560 | A Send returning nil was written exactly once; one that failed to marshal, never; one that failed otherwise, at most once, and then the connection is dead. |
| Egress.UndisturbedSendSucceeds | dxclient/client.go:538-560 | A send nothing disturbs returns nil, its frame the next on the wire, every other send where it was. |
| Egress.UnmarshallableIsRefused | dxclient/client.go:539-542 | A message that cannot be marshalled is refused and leaves no other trace. |
| Egress.DeathReleasesSends | dxclient/client.go:548-557 | However the connection dies, a blocked send can return, with an error, and the wire stays as it is. |
| Handshake.StepKeepsInv | dxclient/client.go:199-301 | Each step of any number of concurrent OpenFeed and UpdateSubscription calls keeps the handshake order. |
| Handshake.FeedChannelSafety | dxclient/client.go:199-301 | Every subscription frame is on a non-zero channel whose setup and configuration precede it, the setup itself following the request and the opening; no channel id is requested twice. |
| Handshake.FeedIsOnLastFinished | dxclient/client.go:265-267 | In every run the feed is on the channel of the last OpenFeed call that finished. |
| Handshake.FinishOpensTheFeed | dxclient/client.go:265-268 | From the client's start, once an OpenFeed call has finished the feed is open, on the channel of one that did. |
| Handshake.OpenFeedUpdates | dxclient/client.go:279-301 | With the feed open, an update sends exactly one subscription frame, on the feed's channel. |
| Handshake.RefusedCalls | dxclient/client.go:200-204 | Before the feed is open an update is refused and sends nothing; after, a further OpenFeed is. |
| Handshake.AnsweredOpenFeedSucceeds | dxclient/client.go:199-269 | A lone OpenFeed call whose request and setup are answered opens the feed on the next channel id, with exactly those four messages. |
| Dispatch.StepKeepsInv | dxclient/client.go:496-514 | The barrier keeps every consumer at most one message behind, the one being handed to it. |
| Dispatch.ConsumersSeeContiguousRuns | dxclient/client.go:309-324 | Until the connection dies a consumer has received exactly the contiguous run of messages since its registration, in wire order. |
| Dispatch.ConsumersFromStart | dxclient/client.go:309-324 | From the client's start: what a consumer has is a prefix of the messages since its registration, short at most of the one being handed over. |
| Dispatch.Registering | dxclient/client.go:309-324 | A new consumer has received nothing yet; a control handler is there until removed. |
| Dispatch.DispatchReaches | dxclient/client.go:496-514 | A message is dispatched to exactly the handlers registered then; each consumer is owed it and gets it. |
| Service.Service.constructor | service/service.go:133-141 | The service starts without a manager or a client. |
| Service.Service.DialAndSubscribe | service/service.go:406-474 | The old client is cancelled first; success binds a fresh client whose wire carries exactly the keys; failure keeps the previous client and status, though a failed rebind has already swapped the manager's controller for the dead client; an existing manager keeps its map either way. |
| Service.Service.ReconnectWithBackoff | service/service.go:518-550 | Stops at the first attempt that can succeed, or when the context is cancelled during a wait, each wait in its attempt's band; the map is untouched throughout and on success replayed exactly. |
| Backoff.Backoff.constructor | service/backoff.go:15-21 | A new backoff has made no attempt. |
| Backoff.Backoff.Next | service/backoff.go:23-34 | Each wait is the drawn point of the upper half of its attempt's delay, to the nanosecond below. |
| Backoff.Backoff.Reset | service/backoff.go:36-38 | The next attempt is the first again. |
| Backoff.CeilingsGrow | service/backoff.go:25-29 | The delays never shrink and never pass a minute. |
| Backoff.TotalCeilingClosed | service/backoff.go:23-34 | Total delay before jitter: 2^n - 1 seconds for up to six attempts, then a minute each. |
| Backoff.TotalWaitBounds | service/backoff.go:23-34 | n waits total between half the closed form and all of it. |
| Gateway.Session.constructor | tools/synth/src/synth/serve.py:42-47 | A new session has no channel, no subscription and no replay. |
| Gateway.Session.HandleSubscription | tools/synth/src/synth/serve.py:227-230 | Adds first, then removes. |
| Gateway.Session.Handle | tools/synth/src/synth/serve.py:163-257 | The reply to each message and its effect on channel, set and replay task; a cancel tells the task to stop, and until it is over no other starts. |
| Gateway.Protocol | tools/synth/src/synth/serve.py:168-257 | Message by message: what is answered, and what becomes of the channel, the set and the task. |
| Gateway.Session.Serve | tools/synth/src/synth/serve.py:157-268 | Over any sequence of messages, replay endings and an end of the connection, the set is the fold of the frames since the last cancel (with what a message that raised half-way applied), the channel the last requested, the replies one per request, and the task what TaskAfter says; the end tells it to stop. |
| Gateway.ReplayWasRequested | tools/synth/src/synth/serve.py:237-246 | Replay runs only on a channel that was requested before some subscription. |
| Gateway.OffsetsGrow | tools/synth/src/synth/serve.py:127-128 | With rows in time order the scheduled offsets start at zero or later and never go back. |
| Gateway.OffsetMeans | tools/synth/src/synth/serve.py:127 | A row's offset is its distance from the first shrunk by the speed, to the nanosecond below. |
| Gateway.VisitKeepsInv | tools/synth/src/synth/serve.py:120-152 | One row keeps the replay invariant, however late it is and however long the send takes; a new lap starts at the clock's reading after that. |
| Gateway.ReplayIsSafe | tools/synth/src/synth/serve.py:116-154 | Whatever the sleeps and subscription changes: every emitted row was subscribed at its check and not ahead of its lap's schedule, and emissions go forward in (lap, row) order with due times that never go back. |
| Gateway.EmitsWhatIsHeard | tools/synth/src/synth/serve.py:116-154 | The emitted places are exactly those of the rows, lap after lap, whose key is subscribed at its turn: none skipped, repeated or invented. |
| Gateway.HeardMeans | tools/synth/src/synth/serve.py:125-135 | Those places are exactly the visits whose row is subscribed when its turn comes, in order. |
| Gateway.PlaceOfVisit | tools/synth/src/synth/serve.py:119-126 | Visit v of n rows is row v mod n of lap v div n plus one. |
| Gateway.EmittedOnTime | tools/synth/src/synth/serve.py:127-131 | An emission comes at its due time, or at once if that has passed, but for how late the turn runs. |
| Gateway.ReplayFromStart | tools/synth/src/synth/serve.py:116-154 | Both, from the moment the replay starts. |
| OAuth.Ttl | service/oauth.go:149-152 | The lifetime is always positive: expires_in seconds while that fits 64 bits, 15 minutes when it is not positive. |
| OAuth.TtlWraps | service/oauth.go:149-152 | Otherwise it is what is left of the product after wrapping at 64 bits. |
| OAuth.TokenProvider.constructor | service/oauth.go:62 | A new provider has no cached token. |
| OAuth.TokenProvider.New | service/oauth.go:46-63 | Refuses exactly the configurations with a field missing; a new provider serves nothing from its cache. |
| OAuth.TokenProvider.CachedToken | service/oauth.go:87-97 | Serves the cached token exactly when there is one and the clock is strictly before its expiry. |
| OAuth.TokenProvider.Refresh | service/oauth.go:111-160 | Success exactly on a decoded non-empty token, which is then served until lifetime minus 30s; failure leaves the cache alone. |
| OAuth.TokenProvider.AccessToken | service/oauth.go:70-85 | The endpoint is asked only when both the check and the re-check miss; a good answer is the result and is served until its lifetime minus 30s; any other is an error and changes nothing. |
| OAuth.RunKeepsInv | service/oauth.go:70-97 | In every run the cache is the last success stored, and a request is pending exactly while the one flight refreshes. |
| OAuth.RefreshSpacing | service/oauth.go:70-97 | In every interleaving, whatever the clock: a refresh starts with no other in flight and at least lifetime minus 30s after the last success was stored; a token served from the cache is the last one stored, before its expiry. |
| OAuth.StoresAreSpaced | service/oauth.go:149-157 | In every lawful log n successes span at least n - 1 gaps, when each lifetime is at least the gap plus 30s. |
| OAuth.RefreshesAreRare | service/oauth.go:70-157 | On a monotone clock the same holds of every run of the cache. |
| OAuth.FreshTokenIsServed | service/oauth.go:70-73 | A caller that finds a fresh token is served it, and nothing else changes. |
| OAuth.StaleTokenIsRefreshed | service/oauth.go:74-84 | A caller that finds none, with no flight under way, makes one request and takes its answer; the flight is then over and the caller released. |
| OAuth.AnswerMeans | service/oauth.go:146-159 | A good answer is cached until its lifetime less the skew and handed to the flight; any other is a failure and leaves the cache. |
| OAuth.FlightIsShared | service/oauth.go:74-80 | A flight takes further callers on without a second request, and landing releases exactly those. |
| OAuth.RecheckServes | service/oauth.go:75-78 | A flight that finds the token fresh after all hands it over without a request. |
| Ingress.SanitizeIsClean | service/ingress.go:62-65 | For arbitrary bytes: no quoted NaN is left anywhere, and sanitising again changes nothing. |
| Ingress.SanitizeTokens | service/ingress.go:62-65 | What the byte rewrite makes of any JSON token sequence, token by token. |
| Ingress.SanitizeAgreesIff | service/ingress.go:62-65 | It equals the token rewrite exactly when no string ends with an escaped quote followed by NaN; in particular whenever no string has an escape. |
| Ingress.DeceptiveStringIsDamaged | service/ingress.go:62-65 | The shortest string it damages: an escaped quote, then NaN. |
| Ingress.ParseFeedData | service/ingress.go:58-92 | One malformed header spoils the message; otherwise the events are the elements with a symbol, in order, each on its subject with its bytes. |
| Ingress.RoutablePicks | service/ingress.go:72-91 | The events are exactly the elements that name a symbol, in order, each with its bytes, type and symbol. |
| Ingress.EventsOfOne | service/ingress.go:48-92 | What one message yields, case by case. |
| Ingress.EventsOfMany | service/service.go:564-576 | Messages yield their events one after the other. |
| Ingress.DecodesWhatIsIntended | service/ingress.go:62-70 | The decoder sees the intended tokens whenever no string ends deceptively. |
| Ingress.PublishBatch | service/service.go:569-575 | Published are exactly the events of the attempts the broker accepts, in order, at the clock's reading then; each registered key has observed its own and nothing else. |
| Ingress.AfterMeans | service/subscriptions.go:198-212 | Observing a key's own events adds their number to the count, keeps a first sighting once set, and leaves the last one's time as the last sighting. |
| Ingress.FirstSighting | service/subscriptions.go:208-210 | A key not seen before is first seen at its first own publication. |
| Ingress.RunIngressLoop | service/service.go:555-578 | The same over every message sequence: there is an increasing list of exactly the accepted attempts, and what is published is their events at their times; unparsable messages are skipped. |
| Gemini.ScanTypes | service/llm/gemini.go:153-164 | The scan finds the first member that is a non-empty string other than null, if there is one, and whether null is a member. |
| Gemini.CompactEnum | service/llm/gemini.go:176-183 | The in-place compaction keeps exactly the members other than "", in order. |
| Gemini.DropEmptyMembers | service/llm/gemini.go:176-183 | A value is a member afterwards exactly when it was one and is not "". |
| Gemini.DropEmptyPicks | service/llm/gemini.go:176-183 | The members kept are those other than "", in their order. |
| Gemini.RewriteThenChildren | service/llm/gemini.go:150-211 | Rewriting a node before its children, as the source does, or after gives the same tree. |
| Gemini.ListsInListsStay | service/llm/gemini.go:199-210 | The walk goes into the maps of a list and no further. |
| Gemini.MapsAreWalked | service/llm/gemini.go:199-210 | A map below a key, or in a list below one, is normalised like any other. |
| Gemini.NormalizeTwice | service/llm/gemini.go:150-211 | Normalising is idempotent on every JSON value. |
| Gemini.NormalizeAcceptableIff | service/llm/gemini.go:124-140 | No forbidden construct is left, at any depth the walk reaches, exactly when every surviving type union names a type besides null. |
| GeminiMeaning.AcceptedStaysAcceptedIff | service/llm/gemini.go:150-211 | Of the values a supported schema accepts, the rewritten schema accepts exactly those with no "" at a position whose enum survives. |
| GeminiMeaning.ExpressibleKeepsMeaning | service/llm/gemini.go:150-211 | A supported schema without additionalProperties, "" members or its own nullable accepts exactly the same values afterwards. |
| GeminiMeaning.SupportedBecomesAcceptable | service/llm/gemini.go:138-140 | The rewrite of any supported schema with scalar annotations holds nothing Gemini rejects. |
| GeminiMeaning.FilterSchemaSupported | service/llm/provider.go:109-154 | The shared filter schema is one of the supported ones. |
| GeminiMeaning.FilterSchemaBecomesAcceptable | service/llm/gemini.go:141-148 | Its rewrite holds nothing Gemini rejects. |
| GeminiMeaning.OnlyEquityOnlyFiltersAreLost | service/llm/gemini.go:131-136 | Of the filters the shared schema accepts, its rewrite rejects exactly those whose kind is the empty string. |
| GeminiMeaning.EquityOnlyIsLost | service/llm/gemini.go:131-136 | One of them, written out: accepted before, rejected after. |
| Sorting.SortSorts | service/llm/resolver.go:170-180 | For every strict weak order there is a sorted permutation, the contract of the library sort. |
| Sorting.StrLessMeans | service/llm/resolver.go:170-180 | The string order is that of dictionaries. |
| Dates.DateOrderIsStringOrder | service/llm/resolver.go:145-155 | For well-formed YYYY-MM-DD dates the string order of the sort is the calendar order of the window test. |
| Dates.ReadsBack | service/llm/resolver.go:124-131 | Every day of the calendar, written YYYY-MM-DD, reads as itself. |
| Dates.OnlyDatesRead | service/llm/resolver.go:124-131 | Nothing else reads as a date. |
| Resolver.OrderIsStrictWeak | service/llm/resolver.go:170-180 | The three-key comparator is a strict weak order, unreadable strikes included. |
| Resolver.KeepMatching | service/llm/resolver.go:140-169 | The loop keeps exactly the options matching kind, both inclusive windows and a non-empty streamer symbol. |
| Resolver.FilterOptions | service/llm/resolver.go:120-182 | An error exactly for an unreadable or inverted window; otherwise exactly the options of the wanted kind, inside both inclusive windows, with a symbol, each as often as listed, by expiry, then strike (0 when unreadable), then option type. |
| Resolver.KeepsIff | service/llm/resolver.go:141-169 | An option is kept exactly when its type spells the kind in any case, its expiry and strike are readable and inside the windows, and it has a symbol. |
| Resolver.LettersOfKinds | service/llm/resolver.go:186-196 | C, c and Call are calls and not puts, P, p and PUT puts and not calls; both and no kind take either. |
| Resolver.SortedFilterIsFiltered | service/llm/resolver.go:140-181 | The sorted filter is that result. |
| Resolver.BadWindowsIff | service/llm/resolver.go:122-138 | A window is refused exactly when a bound is no date or the bounds are the wrong way round. |
| Resolver.SortedSlice | service/llm/resolver.go:145-155 | In a sorted chain of well-formed dates the options inside a window are one slice. |
| Resolver.WindowIsASlice | service/llm/resolver.go:145-180 | Adding an expiry window to any filter selects a contiguous slice of the sorted chain, up to the order of ties. |
| Resolver.BlankRootIff | service/llm/resolver.go:53-56 | The root is refused exactly when it is all space, whatever the table of upper-case letters. |
| Resolver.NormalRootMeans | service/llm/resolver.go:53 | The root is the text without the space around it, letter by letter in upper case. |
| Resolver.ValidateEventTypes | service/llm/resolver.go:107-115 | Refuses exactly the lists with an event type outside the allowed four. |
| Resolver.Resolve | service/llm/resolver.go:52-105 | Refuses exactly on the listed conditions; otherwise the equity block followed by the fan-out of the chosen options. |
| Resolver.ResolvesMeans | service/llm/resolver.go:70-105 | With equity wanted, its symbol under every event first; then, unless only equity is asked for, every option of the filtered chain under every event. |
| Resolver.RefusedIff | service/llm/resolver.go:53-98 | When it is refused: a blank root, an unknown event type or kind, a lookup that is needed and fails, a bad window. |
| Resolver.AppendFan | service/llm/resolver.go:99-103 | The nested loop appends every option under every event, option by option. |
| Resolver.AppendRow | service/llm/resolver.go:82-84 | The inner loop appends one symbol under every event. |
| Resolver.FanAt | service/llm/resolver.go:99-103 | Element i*k + j of the fan-out is event j of option i. |
| Resolver.BlockStructure | service/llm/resolver.go:70-105 | After an equity block of size b, element b + i*k + j is event j of option i, and the total length is b + k*n. |
| Resolver.SubscribeResolved | http/handlers_nl.go:82-100 | Either all of the resolved set is registered with old counters untouched, or the map is unchanged, and then nothing was written unless the connection died under the frame. |
| QuoteBuffer.QuoteBuffer.constructor | tools/analytics/src/analytics/buffer.py:25-26 | A new window is empty. |
| QuoteBuffer.QuoteBuffer.Prune | tools/analytics/src/analytics/buffer.py:32-35 | The deque stays a suffix of the history, only older samples go, and the front is inside the window. |
| QuoteBuffer.QuoteBuffer.Append | tools/analytics/src/analytics/buffer.py:28-30 | The history grows by the sample and nothing as recent as the largest clock reading minus the window is gone, even if timestamps go back. |
| QuoteBuffer.QuoteBuffer.Window | tools/analytics/src/analytics/buffer.py:37-46 | A query no wider than the window at the largest reading seen is the filter of everything ever appended. |
| QuoteBuffer.SinceIsRecent | tools/analytics/src/analytics/buffer.py:46 | The filter is exactly the samples taken at or after the cutoff, in their order. |
| QuoteBuffer.LaterIsLargest | tools/analytics/src/analytics/buffer.py:32-33 | The reading the window is measured from is the largest seen. |
| Posterior.NormalizedHasUnitMass | tools/analytics/src/analytics/posterior.py:116-118 | A density of positive mass is normalised to mass exactly one. |
| Posterior.MomentBetween | http/static/js/symbol_detail.js:281-289 | The first moment of a non-negative density lies between the extreme grid points times the mass. |
| Posterior.UpdatePosteriorCard | http/static/js/symbol_detail.js:281-289 | The page's loop recomputes the trapezoid mass, and the mean it shows lies on the grid. |
| Posterior.MassOfLine | tools/analytics/src/analytics/posterior.py:116 | The trapezoid mass is exact on straight lines, whatever the grid. |
| Posterior.MomentOfConstant | http/static/js/symbol_detail.js:282-288 | The moment is exact on constants: a flat density balances at the middle of its range. |
| Posterior.GridAscends | tools/analytics/src/analytics/posterior.py:100-107 | The grid is positive and strictly ascending, the degenerate spread included. |
| Posterior.GridRuns | tools/analytics/src/analytics/posterior.py:104-107 | It runs in even steps from span below the latest price to span above, in log space. |
| Posterior.SpanMeans | tools/analytics/src/analytics/posterior.py:100-104 | The span is the given number of mean standard deviations, never less than a millionth. |
| Posterior.MeanIsCentral | tools/analytics/src/analytics/posterior.py:100 | A mean lies between the extremes; of equal values it is that value. |
| Posterior.KernelOrder | tools/analytics/src/analytics/posterior.py:109-113 | Nearer the latest price in log space there is more density per log price; at equal distance, the same. |
| Posterior.KernelHeights | tools/analytics/src/analytics/posterior.py:111-113 | At the latest price, and one standard deviation away, the kernel has the normal law's heights exp(0) and exp(-1/2) over its scale. |
| Posterior.KernelScales | tools/analytics/src/analytics/posterior.py:111-113 | Widening spread and distance alike changes the height only by the scale. |
| Posterior.RefusedInputs | tools/analytics/src/analytics/posterior.py:95-98 | Refused exactly for a latest price that is not positive or no samples. |
| Posterior.PublishedDensityIsProper | tools/analytics/src/analytics/posterior.py:95-119 | From valid inputs and two grid points or more, what is published is an ascending grid with non-negative values of mass exactly one, so the page's mean lies on the grid. |
| Posterior.PublishedDensityFallsOff | tools/analytics/src/analytics/posterior.py:109-119 | What is published falls off on either side of the latest price, per log price, and evenly. |

## Left out

- Lockstep.RunKeepsInv: assumes the run admissible, which is the exact condition (`Exactness.LockstepExactly`).
- Sorting.SortSorts: stands for the library's slice sort, whose algorithm and order of ties are open; the model fixes one algorithm, and the results that mention order are stated up to ties or as sortedness.
- Gemini.RewriteThenChildren: the schema tree is a value, so aliasing between its nodes and the in-place update of its maps are not modelled; the scan and the enum compaction are.
- GeminiMeaning.AcceptedStaysAcceptedIff: covers schemas built from type, properties, required, additionalProperties, enum and items with unions of one type and null; other keywords are not given a meaning.
- GeminiMeaning.FilterSchemaSupported: the descriptions of the shared schema are abbreviated, since no keyword reads them.
- Ingress.ParseFeedData: the JSON decoder is a parameter; below the token level JSON is not modelled.
- Subscriptions.SubscriptionManager.Observe: one uncontended call; interleaved observers are in `Accounting`. First sighting no later than last is claimed for sequential calls on a monotone clock only, because lastSeenAt is a plain store.
- Lockstep.WriteEffect: a whole `Send` is one write step; `Egress.SendAccounting` is what justifies that.
- Lockstep.StepKeepsInv: the load and compare-and-swap that set firstSeenAt are one step.
- Handshake.FeedChannelSafety: an OpenFeed call that times out or loses its connection simply stops; that OpenFeed succeeds at most once under concurrent callers is not claimed, because its guard is checked before the handshake.
- Dispatch.ConsumersSeeContiguousRuns: nothing is claimed about delivery once the connection is dead.
- Service.Service.ReconnectWithBackoff: a context cancelled while a dial is under way shows as that dial failing and the next wait being cut short; the surrounding teardown (`service/service.go:491-504`) is not modelled.
- Backoff.Backoff.Next: the jitter product is exact; a rounded one could reach the delay itself.
- Gateway.ReplayIsSafe: a sleep lasts at least as long as asked, and the offsets are computed without rounding.
- Resolver.FilterOptions: reading a decimal strike is a parameter with a finite result or none; NaN and infinite strikes are left out, so a strike too large for a float, which the source sorts as infinite, is not modelled.
- Subscriptions.SubscriptionManager.Add: the lower-casing of the event type in subjects, like the case-blind option kinds of `Resolver.FilterOptions`, is ASCII only.
- Posterior.PublishedDensityIsProper: over the reals, for positive samples, with exp positive and strictly increasing; floating-point rounding, overflow and a non-finite mean are left out.
- OAuth.RefreshSpacing: the HTTP exchange is one outcome: broken, or a body with its two fields.
- Liveness: that Wait returns, that every Send completes, that a reconnect eventually succeeds.
- At most one ingress loop under concurrent StartIngress calls: its guard is check-then-act.
- Dial, Authenticate and the keepalive of the client: how far a dial gets is a parameter.
- `mids_to_log_returns`, the sampler, the LLM providers and prompts, HTTP handlers, JWT, templates, charts, SQL, Kubernetes and scripts: plumbing or user interface.
