# Verified model of the platform's protocols

This project models the parts of the multi-tenant instance platform in which state, time and
interleaving decide whether it is correct, and proves what those parts promise. Times are
mathematical integers read from an explicit clock; regular expressions are string predicates.

- **Instance ownership** (`LeaseRows`, `InstanceLeases`, `LeaseProtocol`, `LeaseHistory`, `LeaseBooks`,
  `LeaseTiming`, `PostgresClaim`, `HostRouting`, `HostHistory`, `OperationCache`, `OperationHistory`):
  managers compete for one database row per user. Statements, lease books and answers in flight form a transition system with any number
  of managers; the epoch of a claim is the fencing token. The PostgreSQL backend is modelled
  statement by statement and refines the one-step SQLite claim. Workers answer repeated
  deliveries from a cache, and deliveries overlap.
- **Relay link** (`RelayLifecycle`, `RelayHistory`, `DialStreams`): the client's seven states, its one retry
  timer and its burst windows, with every event possible in every state, and the per-stream
  queues behind one flusher.
- **Configuration files** (`ConfigText`, `Credentials`, `CredentialsForm`, `Settings`,
  `SettingsForm`): the two reconcilers that edit a user's YAML line by line and own only the lines
  they wrote, and what their patterns accept.
- **Crashes and adoption** (`CrashSupervisor`, `CrashWindow`, `CrashOverlap`, `PluginHeal`, `PluginForm`,
  `ScopeAdoption`, `ScopeForm`): sliding window, backoff, plugin healing and circuit breaker of one user's instance, what launches that
  overlap break, and the take-over of scopes that a previous process left running.
- **Choosing** (`PortPool`, `PortHistory`, `Jitter`, `JitterForm`, `RelayDirectory`): the pool of local ports with eviction,
  the order of relay candidates, and the chain built from a signed directory.
- **Mail codes** (`EmailGuard`, `EmailOverlap`, `EmailRisk`): quotas computed from a table of events, codes with
  limited guesses, a purge nobody notices, and how far all this holds for calls that overlap.

What the code updates in place is a class here; its methods are tied by their contracts to
functions on values, and the lemmas are about all runs of those functions. `dafny verify
dfyconfig.toml` checks everything.

Some results are negative. Most say exactly where a promise ends, as a condition on the state or the
input that is both necessary and sufficient: a token is fenced off exactly by a larger epoch, so a pin
does not fence for good (`FencedExactly`); a retry that overlaps its first delivery can drive the
spawner twice (`OnceExactly`); two first file operations that overlap can part a user from the files
(`HomeIsExact`); where nobody intervenes, a launch that passes its checks while another waits for its
port, and nothing else, breaks the crash budget, the single process, the silence of an open circuit and the cooldown, which
otherwise never grows beyond the first (`CrashOverlap`; the comments in `src/supervisor/crash-policy.ts`
say it grows); a stream that outlives its socket can lose a chunk and send the next one (`FifoExactly`);
code requests and guesses under way are seen by no verdict, so they exceed a quota or the attempts
exactly if they are too many together (`QuotaExactly`, `GuessesExactly`; the comment in
`src/web/email-code.ts` says only one of two requests is mailed); a request that takes a slot under a
connection being dialled, and nothing else, leaves the connection on a slot of another key
(`AwayExactlyBy`); a new credentials section takes in the lines below it (`CredentialsRead`,
`CredentialsIdempotent`); a settings block inserted inside somebody's marker block is not found and is
inserted again (`SettingsLanded`, `SettingsIdempotent`); and disabling the first route leaves an empty
section (`DisablingUndoesEnabling`).

## Model

| member | source | states |
|---|---|---|
| `LeaseRows.InstanceTable.ClaimInstance` | src/db/repo.ts:767-798 | A claim succeeds exactly on an unowned row or a lapsed lease, adds one to the epoch and sets the lease; otherwise the row stays and the answer names holder and expiry |
| `LeaseRows.InstanceTable.RenewInstanceLease` | src/db/repo.ts:801-814 | A renewal changes a row exactly if host and epoch match, and then only its heartbeat and expiry |
| `LeaseRows.InstanceTable.ReleaseInstanceLease` | src/db/repo.ts:824-830 | A release ends the lease and changes no other column, and only with a matching token; `LeaseHistory.ReleaseFrees` says what that is for |
| `LeaseRows.InstanceTable.PinInstanceHost` | src/db/repo.ts:839-851 | A pin creates the row or sets the host of a row that is unpinned or whose lease lapsed, never the epoch |
| `InstanceLeases.InstanceLease.Create` | src/supervisor/lease.ts:68-90 | The book starts empty, and only with a time to live above twice the renewal interval |
| `InstanceLeases.InstanceLease.Acquire` | src/supervisor/lease.ts:102-112 | A won claim is booked with the host it claimed and the epoch granted; a lost one leaves the book alone |
| `InstanceLeases.InstanceLease.Renew` | src/supervisor/lease.ts:118-124 | A renewal that hits no row drops the booking, so the manager stops acting as holder |
| `InstanceLeases.InstanceLease.RenewAll` | src/supervisor/lease.ts:127-133 | One pass renews exactly the matching bookings, drops exactly the lost ones and reports each of those once |
| `InstanceLeases.InstanceLease.Release` | src/supervisor/lease.ts:136-142 | A release forgets the booking exactly if the row still matched it |
| `InstanceLeases.InstanceLease.Refresh` | src/supervisor/lease.ts:145-150 | A reread row that no longer matches the booking drops it |
| `LeaseProtocol.NextKeepsInv` | src/supervisor/lease.ts:102-142 | Every step of any manager, request or answer keeps: epochs count claims, and every token known to a manager is one it won |
| `LeaseProtocol.KnowledgeIsOld` | src/supervisor/lease.ts:102-142 | A manager learns a token only by winning the claim that grants it |
| `LeaseProtocol.RunKeepsInv` | src/db/repo.ts:767-851 | The invariant holds after every interleaving of claims, renewals, releases, rereads and pins by any number of managers |
| `LeaseProtocol.AtMostOneWriter` | src/db/repo.ts:801-830 | In every reachable state at most one manager knows a token that matches a row, so at most one can renew or release it |
| `LeaseProtocol.OnlyLatestWinnerServes` | src/db/repo.ts:801-830 | A renewal or release that changes a row carries the token of the latest claim, and changes neither host nor epoch nor another row |
| `LeaseProtocol.ClaimEpochsIncrease` | src/db/repo.ts:785-797 | Of two successful claims of one user the later has the larger epoch, in every run |
| `LeaseProtocol.FencedForever` | src/supervisor/lease.ts:118-142 | Once a later claim won, no renewal or release with the older token ever changes the row again |
| `LeaseProtocol.FencedExactly` | src/db/repo.ts:767-851 | Fencing is exactly the epoch: in every reachable state a token some claim granted can never match its row again, whatever follows, if and only if the epoch of the row is larger |
| `LeaseProtocol.KnownTokenFencedExactly` | src/supervisor/lease.ts:102-150 | In particular for every token a manager has booked or under way |
| `LeaseProtocol.PinFenceIsNotPermanent` | src/db/repo.ts:839-851 | An instance: a pin moves a row without a new epoch, and the token it stopped matches again after a second pin |
| `LeaseProtocol.HostChangesOnlyByClaimOrPin` | src/db/repo.ts:767-851 | A recorded host changes only by a successful claim or by a pin that finds no live lease |
| `LeaseHistory.RowStep` | src/db/repo.ts:767-851 | Column by column, what a won claim, a renewal, a release and a pin that take effect write, and that nothing else writes to a row |
| `LeaseHistory.RowIsHistory` | src/db/repo.ts:767-851 | In every run the lease end is that of the last claim or renewal, or zero after a release; heartbeat, host and launch parameters are likewise those of the last event that sets them, parameters not given staying as they were; the epoch counts the claims |
| `LeaseHistory.ClaimedExactly` | src/db/repo.ts:785-797 | A claim succeeds if and only if by that history nobody owns the row or its last lease ended before now |
| `LeaseHistory.ReleaseFrees` | src/db/repo.ts:824-830 | After a release that takes effect host, epoch, heartbeat and parameters are as before, and every later claim and every pin of the user succeeds, without waiting for the lease to run out, until a claim or renewal takes effect |
| `LeaseBooks.BookIsHistory` | src/supervisor/lease.ts:102-150 | In every run a manager holds a user exactly by the answers it received last: a grant books the token, a refused renewal, a release that took effect and a reread row with another host or epoch drop it, a reread row with its own keeps it |
| `LeaseBooks.MailAddsUp` | src/supervisor/lease.ts:102-150 | Requests and answers on their way are exactly those sent and not yet taken: each request carries the booked token and is served at most once, and a manager hears exactly of its own grants, with host and new epoch, its failed renewals, its releases that took effect and its rereads |
| `LeaseBooks.HeartbeatIsRenewals` | src/supervisor/lease.ts:127-133 | Renewing all bookings in one pass leaves each row as renewing that user alone |
| `LeaseTiming.TenureIsExclusive` | src/supervisor/lease.ts:68-81 | As long as a holder renews at least every twice the interval, its token matches the row in every state and no claim or pin of anyone succeeds, with clocks apart by up to the skew if the time to live allows for it |
| `LeaseTiming.MarginIsTight` | src/supervisor/lease.ts:74-81 | With any smaller time to live there is a run in which another manager takes a diligent holder's row |
| `PostgresClaim.ClaimRefines` | src/db/pg.ts:785-799 | The conditional UPDATE after the INSERT leaves the rows an atomic claim leaves |
| `PostgresClaim.RowsRefine` | src/db/pg.ts:778-848 | Whatever statements of other calls run in between, the rows are those of the atomic operations in the order they took effect |
| `PostgresClaim.CallsRefine` | src/db/pg.ts:778-807 | Every finished call took effect once and answers what the atomic operation answers there; a lost claim may report a later holder |
| `PostgresClaim.AloneIsAtomic` | src/db/pg.ts:778-848 | A call nothing interrupts finishes within three statements, with the answer and the rows of the atomic call |
| `HostRouting.SelectHost` | src/web/server.ts:885-898 | The choice is the user's own host if eligible, else the first eligible host with room that has the least memory in use |
| `HostRouting.SelectionIsUnique` | src/web/server.ts:885-898 | The rule leaves no freedom: two results that satisfy it are equal, even in ties |
| `HostRouting.FirstFileOpPins` | src/web/server.ts:868-875 | A first file operation records the host it went to, if nobody owns the user when it does |
| `HostRouting.StaysHome` | src/web/server.ts:868-898 | With no operation about to record another host, every file operation and launch of the user goes to the recorded one as long as it stays eligible, whatever overlaps |
| `HostRouting.HomeIsExact` | src/web/server.ts:868-898 | That holds for every continuation if and only if no pending operation of the user has another target |
| `HostRouting.FilesAndInstancesAgree` | src/supervisor/leased-spawner.ts:202-203 | A new user's first file operation and every later launch and file operation use the same host, as long as that host stays eligible and no other operation of the user begins before the first has recorded it |
| `HostRouting.FirstOpsMaySplit` | src/web/server.ts:868-875 | Concretely: two first file operations that overlap leave the first one's files on a host the user does not live on |
| `HostHistory.SelectsExactly` | src/web/server.ts:885-898 | On the fields of the workers: the owner's worker exactly if it is up and carries instances, else the first of the least used that are up, carry instances and have declared no limit or have the reserve left, and none exactly if there is no such worker |
| `HostHistory.BeginsExactly` | src/web/server.ts:868-898 | A file operation of an owned user goes to the owner and records nothing; any other goes to the selected worker, else to the configured one, else nowhere, and has exactly that to record |
| `HostHistory.PendingAfter` | src/web/server.ts:868-898 | An operation under way is one that began with a worker to record and has not recorded it |
| `HostHistory.HomeIsHistory` | src/web/server.ts:868-898 | After any run a user lives where the last operation that found nobody or a lapsed lease recorded it, the lease ends by the last launch, renewal or release that took effect, and the epoch counts the launches that did |
| `OperationCache.OpCache.Remember` | src/worker/agent.ts:322-330 | Remembering adds the answer and forgets the oldest ones beyond the limit |
| `OperationCache.RememberedValid` | src/worker/agent.ts:322-330 | Order list and result map always hold the same identifiers, without repetition, never more than the limit |
| `OperationCache.LimitIsExact` | src/worker/agent.ts:322-330 | At the limit a new identifier evicts the oldest and nothing else |
| `OperationCache.Call` | src/supervisor/remote-spawner.ts:209-246 | The retry loop returns the first success or the last failure and makes as many attempts as it needed, never more than the delays allow |
| `OperationCache.CacheValidAlways` | src/worker/agent.ts:318-330 | In every run the cache holds exactly the newest 512 remembered answers, their operations distinct |
| `OperationCache.StaysAnswered` | src/worker/agent.ts:359-429 | An operation whose answer is among the newest 512 is answered with it at once, and nothing else happens |
| `OperationCache.EffectsAreAccounted` | src/worker/agent.ts:391-428 | In every run, overlapping deliveries included, each time the spawner was driven belongs to a delivery that was answered, failed afterwards or is still pending |
| `OperationCache.SameReply` | src/worker/agent.ts:370-429 | All successful replies to an operation are alike as long as no two of its deliveries overlap unless both are stops and none comes 512 answers late; and from a run so far safe a differing reply can follow if and only if two such deliveries overlap now |
| `OperationCache.ExactlyOneEffect` | src/supervisor/remote-spawner.ts:248-267 | As long as no delivery of an operation waits to act while another acts or waits too, and none comes 512 answers late, the spawner is driven for it at most once, not counting deliveries that failed after driving it |
| `OperationCache.OnceExactly` | src/supervisor/remote-spawner.ts:209-267 | The condition is exact: from a run so far safe the spawner can be driven twice without a further delivery if and only if the operation is at risk now |
| `OperationCache.SerialIsSafe` | src/supervisor/remote-spawner.ts:209-246 | With each delivery beginning after the one before is finished there is one effect and one answer |
| `OperationCache.TwoStopsDriveTwice` | src/worker/agent.ts:412-429 | Concretely: a stop retried while the first is being finished drives the spawner again |
| `OperationCache.TwoLaunchesSpawnTwice` | src/supervisor/orchestrator.ts:780-796 | Concretely: a launch retried during the port search of the first spawns a second instance |
| `OperationCache.NeverDriven` | src/worker/agent.ts:359-429 | An operation that was never answered, and whose deliveries never failed after acting nor are acting now, had no effect |
| `OperationHistory.WorkerKnows` | src/worker/agent.ts:366-457 | In every run, deliveries overlapping or not: the epoch a worker knows of a user is that of the last launch not answered from the cache, until a stop or a newer fence; and an instance is there from the launch or restart until a stop, an end or a newer fence |
| `OperationHistory.FenceExactly` | src/worker/agent.ts:447-457 | A fence ends the user's instance if and only if its epoch is newer than the one so known, and touches no other user, answer or delivery |
| `RelayLifecycle.NeverStuck` | src/net/relay/client.ts:760-956 | In every run of events, late ones included, a client that is not stopped has a socket or exactly one pending retry timer; a stopped one has neither |
| `RelayLifecycle.StoppedNeverDials` | src/net/relay/client.ts:464-502 | While stopped nothing but a start opens a socket or arms a timer |
| `RelayLifecycle.HealthIsFirstFailure` | src/net/relay/client.ts:760-772 | The unhealthy mark is set exactly when backoff was entered since the last time up, at the first such moment; the attempt counter counts the ordinary retries since it was last forgiven |
| `RelayLifecycle.BurstAlways` | src/net/relay/client.ts:885-944 | With a clock that does not go back, an open burst window and a counted retry exclude each other |
| `RelayLifecycle.BurstWindowForgives` | src/net/relay/client.ts:1741-1743 | Inside a burst window no retry is counted and no failure is reported; `PlannedEndIsForgiven` says when a window is open |
| `RelayLifecycle.EndExactly` | src/net/relay/client.ts:803-932 | When the link of a running client ends with no retry pending it is reported as failed at once if and only if the end was neither planned (close codes 1000 and 1001, a goodbye, a corrected clock) nor a full relay, and no burst window is open; the retry is due after the delay each case has |
| `RelayLifecycle.PlannedEndIsForgiven` | src/net/relay/client.ts:803-932 | After a planned end nothing that follows inside the window, stops and starts included, makes the client fail terminally, and every retry planned there is due after the short delay or when a full relay asked for; only a link that came up again ends this |
| `RelayLifecycle.WindowIsReported` | src/net/relay/client.ts:530 | A planned end is reported as a burst window from then on for exactly as long as configured |
| `RelayHistory.DialsExactly` | src/net/relay/client.ts:934-996 | In every run the client dials when it is started, when its pending retry is due and when the network changed while it is not up, and at no other moment; each time it opens one socket or plans a retry |
| `RelayHistory.HelloForgets` | src/net/relay/client.ts:1090-1120 | In every run an acknowledged hello leaves nothing of earlier failures: the next unplanned end is followed by the first step of the backoff |
| `RelayHistory.FatalExactly` | src/net/relay/client.ts:885-932 | In every run a refusal counts as final from a final one on until a hello is acknowledged |
| `RelayHistory.DueMeansPending` | src/net/relay/client.ts:885-956 | In every run a time for the next retry is announced only while a retry is pending |
| `RelayHistory.BackoffDoubles` | src/net/relay/client.ts:919-921 | The step doubles with each ordinary retry up to the seventh and the cap, starting from the configured minimum |
| `RelayHistory.OrdinaryDelayIs` | src/net/relay/client.ts:919-925 | An ordinary retry waits a quarter more or less than its step at most, never under 200 ms; after a final refusal it waits the cap |
| `RelayHistory.PortsAreAskedWhenUp` | src/net/relay/client.ts:1190-1230 | A port is asked for exactly while the link is up, and a request that cannot be sent is answered at once |
| `RelayLifecycle.OrdinaryDelayBounds` | src/net/relay/client.ts:919-926 | An ordinary retry waits at least 200 ms and at most a quarter over the cap; a fatal refusal waits the cap |
| `RelayLifecycle.RetriesAreBounded` | src/net/relay/client.ts:885-944 | Every retry that is planned is due within a fixed bound, a graceful one after the graceful delay |
| `RelayLifecycle.RequestsResolveOnce` | src/net/relay/client.ts:1190-1236 | Every port request is in flight or resolved, never both, never twice; none survives a stop or a lost link |
| `RelayLifecycle.RelayClient.PlanRetry` | src/net/relay/client.ts:885-944 | The imperative retry planner does what the state machine says |
| `RelayLifecycle.RelayClient.OpenSocket` | src/net/relay/client.ts:774-813 | Dialling opens a socket or plans an ordinary retry if the constructor throws |
| `RelayLifecycle.RelayClient.FailPortWaiters` | src/net/relay/client.ts:1230-1236 | Every request in flight is failed exactly once |
| `RelayLifecycle.RelayClient.LinkDown` | src/net/relay/client.ts:855-883 | A lost link fails what is in flight, drops the socket and plans one retry, once |
| `RelayLifecycle.RelayClient.Start` | src/net/relay/client.ts:464-474 | Starting dials only a stopped client |
| `RelayLifecycle.RelayClient.Stop` | src/net/relay/client.ts:476-502 | Stopping cancels the timer, fails what is in flight and gives the socket up |
| `RelayLifecycle.RelayClient.OnSocketClose` | src/net/relay/client.ts:805-812 | Close codes 1000 and 1001 (section 7.4.1 of RFC 6455) take the graceful path, all others the ordinary one |
| `RelayLifecycle.RelayClient.OnHello` | src/net/relay/client.ts:1090-1144 | An acknowledged hello forgives earlier retries and brings the link up; a malformed one takes it down |
| `RelayLifecycle.RelayClient.OnHelloRefused` | src/net/relay/client.ts:1243-1278 | A full relay queues the client after the delay it asked for; other refusals back off, and a final one is remembered |
| `RelayLifecycle.RelayClient.OnRetryTimer` | src/net/relay/client.ts:933-937 | A retry timer that fires dials, unless the client was stopped |
| `RelayLifecycle.RelayClient.OnNetTick` | src/net/relay/client.ts:947-999 | A changed network cancels the pending retry and dials at once |
| `DialStreams.StreamsAreFifo` | src/net/relay/client.ts:1360-1409 | As long as no socket opens while a stream is there: on every stream ever opened the data sent is a prefix of what was written, while the socket is open the rest is the queue, and then a paused stream has the flush timer running |
| `DialStreams.QueuesAreCounted` | src/net/relay/client.ts:1360-1376 | In every run, sockets replaced or not, a stream is paused exactly while its queue is not empty, and its byte count is exact and within the limit |
| `DialStreams.FifoExactly` | src/net/relay/client.ts:464-502 | The condition is exact: from a run so far safe the order of a stream can be broken without a further socket or stream if and only if a socket is connecting while a stream is there |
| `DialStreams.ExposedExactlyBy` | src/net/relay/client.ts:774-813 | That comes from replacing the socket while a stream is open, or from opening a stream while a socket is connecting, and from nothing else |
| `DialStreams.RestartLosesAChunk` | src/net/relay/client.ts:476-502 | Concretely: after a stop and a start a chunk of an open stream is lost and the next one goes out |
| `DialStreams.RestartStalls` | src/net/relay/client.ts:1499-1549 | Concretely: a chunk queued between them stays queued on the new socket, with no timer to flush it |
| `DialStreams.FlushProgress` | src/net/relay/client.ts:1499-1544 | A flush that starts below the high-water mark either empties every queue and stops the timer, or fills the socket above the mark and goes on |
| `DialStreams.PumpKeepsInv` | src/net/relay/client.ts:1360-1376 | A write keeps the counters exact, the queue bounded and the order |
| `DialStreams.WriteExactly` | src/net/relay/client.ts:1360-1376 | In every run a write ends its stream if and only if it has to wait and the queue would exceed the limit with it; otherwise everything written stays, at the end of the queue with the timer running, or in a frame at once; no other stream changes |
| `DialStreams.LeavesExactlyBy` | src/net/relay/client.ts:1360-1392 | In every run a stream goes by being closed, with its link, or by such a write, and by nothing else |
| `DialStreams.GoneIsRemembered` | src/net/relay/client.ts:1378-1392 | The record of a stream that goes holds everything written to it and sent for it, so the order is promised of closed streams too |
| `DialStreams.NothingIsForgotten` | src/net/relay/client.ts:1354-1376 | In every run an open stream has got every byte written to it since it was opened |
| `DialStreams.DrainExactly` | src/net/relay/client.ts:1521-1534 | A flush sends chunks from the front exactly as long as the buffer is not above the mark, and resumes the stream when none is left |
| `DialStreams.TimerExactly` | src/net/relay/client.ts:1499-1549 | In every run the flush timer starts with a write that has to wait and ends with a tick that finds nothing paused or no socket, the link or a stop |
| `DialStreams.SocketExactly` | src/net/relay/client.ts:464-502 | What dialling, opening, shutting, losing and stopping do to the socket and its buffer |
| `DialStreams.NothingBeforeDial` | src/net/relay/client.ts:464-502 | Before the first dial there is no socket, nothing in its buffer, and no flush timer |
| `DialStreams.DrainKeeps` | src/net/relay/client.ts:1499-1544 | Draining keeps it and takes from the front of the queue only |
| `DialStreams.StreamMux.PumpDial` | src/net/relay/client.ts:1360-1376 | A chunk goes out directly exactly if the stream is not paused and the socket is below the mark |
| `DialStreams.StreamMux.FlushAll` | src/net/relay/client.ts:1499-1544 | One tick of the shared flusher drains the streams in turn until the socket is full |
| `Credentials.RefsAreNames` | src/web/model-landing.ts:75-94 | Whatever the route, and however upper-casing works, its ref is a name the credentials file accepts |
| `Credentials.DoubleRoundTrip` | src/web/model-landing.ts:97-99 | Doubling quotes in a single-quoted YAML scalar (section 7.3.2 of YAML 1.2.2) is undone by reading |
| `Credentials.PrintedReads` | src/web/model-landing.ts:97-99 | A printed line is recognised as its ref and reads back as its value |
| `Credentials.ReadRefValue` | src/web/model-landing.ts:338-355 | The reader returns the first readable value of the ref inside a `refs:` section |
| `Credentials.ScanLayout` | src/web/model-landing.ts:128-147 | The first pass finds the sections and the line that defines each ref |
| `Credentials.PlanOwned` | src/web/model-landing.ts:149-161 | Owned refs no longer wanted are dropped, the others stay owned |
| `Credentials.PlanWanted` | src/web/model-landing.ts:162-172 | Owned wanted refs are rewritten, absent ones added, refs of others left alone |
| `Credentials.EmitLines` | src/web/model-landing.ts:182-191 | The output is the planned lines with the insertion after its anchor |
| `Credentials.ReconcileCredentials` | src/web/model-landing.ts:113-192 | The method computes the reconciliation the lemmas below are about |
| `Credentials.EmittedByName` | src/web/model-landing.ts:174-191 | Line numbers do not matter: the output is the old lines rewritten by ref name, with one insertion |
| `Credentials.ResultReads` | src/web/model-landing.ts:113-192 | On lines: what every ref reads as after a run |
| `Credentials.CredentialsRead` | src/web/model-landing.ts:113-192 | After a run every wanted ref that was owned or absent reads as its wanted value, every owned ref no longer wanted as absent, every other ref as before: if and only if the file is blank, nothing is added, there is a `refs:` line, or the section added after `version: 1` takes in no line of a foreign ref |
| `Credentials.NewSectionSwallows` | src/web/model-landing.ts:174-190 | Without a `refs:` line the new section takes in the indented lines after its anchor |
| `Credentials.ResultIsSettled` | src/web/model-landing.ts:113-192 | After a run there is nothing left to drop, rewrite or add |
| `Credentials.SettledStays` | src/web/model-landing.ts:113-192 | A settled file is emitted unchanged |
| `Credentials.StaysExactly` | src/web/model-landing.ts:149-191 | A file in which nothing is to be added or dropped is emitted unchanged if and only if every owned ref is last defined by the line a run prints for it |
| `Credentials.CredentialsIdempotent` | src/web/model-landing.ts:113-192 | A second run changes neither the text nor the owned refs if and only if no new section took in a line that defines a wanted ref last and in another form than a run prints |
| `CredentialsForm.LinesLand` | src/web/model-landing.ts:174-191 | Added lines come first in the first `refs:` section, else in a new one below the first `version: 1` line; without either the file stays as it is; every other line keeps its place |
| `CredentialsForm.HeadsAre` | src/web/model-landing.ts:133-136 | The two heads, as the texts they are |
| `CredentialsForm.EntriesAre` | src/web/model-landing.ts:131-138 | A line is an entry if and only if it is indented and so is every line since the last `refs:` line at top level |
| `CredentialsForm.ParseIs` | src/web/model-landing.ts:142-146 | A line defines a ref if and only if it is indentation, an identifier, blanks, a colon and anything |
| `CredentialsForm.UnquotedIs` | src/web/model-landing.ts:350-353 | Quotes of either kind around a value are taken off, and two single quotes inside read as one |
| `CredentialsForm.BareIs` | src/web/model-landing.ts:350-353 | A value that does not begin and end with the same quote is read as it stands |
| `CredentialsForm.RouteRefIs` | src/web/model-landing.ts:75-94 | The ref of a route is its upper-case letters and digits, everything else an underscore, none at the ends, made to begin with a letter; without a route it is the built-in one |
| `Settings.MarksRecognised` | src/web/model-landing.ts:209-210 | Printed markers are recognised as the markers of their route |
| `Settings.EndNamesRoute` | src/web/model-landing.ts:246-246 | An end marker ends the block of its own route and of no other |
| `Settings.FieldsAreNoEnds` | src/web/model-landing.ts:299-311 | No field the platform writes can be mistaken for an end marker |
| `Settings.ParseIsFaithful` | src/web/model-landing.ts:236-266 | Reading a file as lines and marker blocks loses nothing |
| `Settings.ParseAgain` | src/web/model-landing.ts:236-266 | Items written out are read back as the same items |
| `Settings.FirstPass` | src/web/model-landing.ts:232-266 | The first pass keeps every line but the owned blocks no longer wanted, and knows which routes are present |
| `Settings.FindPlace` | src/web/model-landing.ts:276-297 | The place of insertion: after `providers:`, after the section head, or at the end |
| `Settings.RenderBlocks` | src/web/model-landing.ts:299-311 | The blocks written for the missing routes, with only the fields given |
| `Settings.ReconcileSettings` | src/web/model-landing.ts:224-324 | The method computes the reconciliation the lemmas below are about |
| `Settings.BlocksLand` | src/web/model-landing.ts:268-324 | Missing blocks go below the first indented `providers:` line of the first `llm-pi-ai:` section; below the head of the section with such a line before them if there is none; and to the end with both lines without a section; everything kept keeps its place |
| `Settings.OutputBetween` | src/web/model-landing.ts:313-324 | Blocks inserted between items are read back as blocks, everything else as before |
| `Settings.OutputInside` | src/web/model-landing.ts:313-324 | Blocks inserted inside a marker block are swallowed by it |
| `Settings.SettingsIdempotent` | src/web/model-landing.ts:224-324 | A second run changes nothing exactly if the first had nothing to insert or inserted between items |
| `Settings.DisablingUndoesEnabling` | src/web/model-landing.ts:224-324 | Enabling new routes and disabling them restores the text of a run that never enabled them if and only if nothing was inserted, or it was inserted between items where the section has a `providers:` line or needs one anyway |
| `Settings.OnlyOwnedBlocksGo` | src/web/model-landing.ts:232-324 | Only whole blocks of owned, unwanted routes go; all that comes is inserted at one place |
| `Settings.SettingsLanded` | src/web/model-landing.ts:224-324 | After every run no block is left of an owned route that is no longer wanted; and every wanted route is found in the text if and only if the run had nothing to insert or inserted between items |
| `Settings.BlockReadsBack` | src/web/model-landing.ts:299-311 | Read back, a written block says exactly what the declaration says: the key, the URL and protocol if given, the models in order |
| `Settings.AddedBlocksAreFound` | src/web/model-landing.ts:268-324 | A missing declaration is found in the text as its block if and only if the run inserted between items |
| `Settings.EndIsBetween` | src/web/model-landing.ts:318-322 | Without a section the place is the end of the file, never inside a block |
| `Settings.EmptySectionStays` | src/web/model-landing.ts:318-322 | Concretely: in an empty file, enabling and disabling one route leaves an empty section |
| `Settings.BlockInBlockRepeats` | src/web/model-landing.ts:254-262 | An instance of the other case: a section inside a foreign marker block gets the same route again on every run |
| `SettingsForm.BeginIs` | src/web/model-landing.ts:237-237 | A line begins a block of a route if and only if it is the begin marker of the route, blanks around it aside |
| `SettingsForm.EndIs` | src/web/model-landing.ts:246-246 | And ends it if and only if it is its end marker |
| `SettingsForm.KeyIs` | src/web/model-landing.ts:240-240 | A line opens the mapping of a key if and only if it is four blanks, the key, which is no comment and holds neither white space nor colons, and a colon |
| `SettingsForm.PresentExactly` | src/web/model-landing.ts:238-264 | A route counts as there if and only if a block kept names it or a line outside blocks opens its mapping |
| `CrashSupervisor.CrashesAreBudgeted` | src/supervisor/orchestrator.ts:1331-1403 | In every orderly run (nobody intervenes, and no launch passes its checks while another waits for its port) any half-open interval of the crash window or the first cooldown, whichever is shorter, holds at most one budget of restarts, and one more per plugin taken out in it |
| `CrashSupervisor.HealsUsePluginsUp` | src/supervisor/orchestrator.ts:1279-1325 | Each heal takes a plugin out, so a run has no more heals than plugins |
| `CrashSupervisor.CrashesAreBudgetedByPlugins` | src/supervisor/orchestrator.ts:1331-1403 | The bound over all intervals of an orderly run without new plugins |
| `CrashSupervisor.NextKeepsInv` | src/supervisor/orchestrator.ts:1184-1202 | What every step of an orderly run keeps: restarts that still count are in the history or paid for by a heal; at most one process, timer or spawn |
| `CrashSupervisor.OneProcessAtATime` | src/supervisor/orchestrator.ts:1331-1403 | In every orderly run the user never has two of a process, a pending restart and a spawn waiting for its port |
| `CrashSupervisor.CooldownNeverGrows` | src/supervisor/crash-policy.ts:93-112 | In every orderly run the breaker never counts past one opening, so the cooldown is always the first |
| `CrashSupervisor.SilentWhileOpen` | src/supervisor/orchestrator.ts:1184-1202 | In every orderly run, after the circuit opened no restart is decided before the cooldown is over |
| `CrashSupervisor.BackoffDoublesToTheCap` | src/supervisor/crash-policy.ts:39-42 | The delay doubles with each consecutive crash up to the cap |
| `CrashSupervisor.PruneCounts` | src/supervisor/crash-policy.ts:34-36 | Pruning loses no restart inside the window |
| `CrashWindow.PruneIsRecent` | src/supervisor/crash-policy.ts:34-36 | Pruning leaves exactly as many restarts as were decided less than a window ago, now and later |
| `CrashWindow.OpensExactly` | src/supervisor/orchestrator.ts:1331-1403 | In every run whose clock does not go back, attended or not: a crash opens the circuit if and only if as many restarts as the budget were decided less than a window ago and since the counters were cleared, a plugin taken out clearing them first; otherwise one restart is decided, due after a delay doubled with each restart since the backoff started anew |
| `CrashWindow.PassesExactly` | src/supervisor/orchestrator.ts:433-454 | A launch passes if and only if no instance is there and it is forced, the circuit is closed or the cooldown is over; it starts with nothing counted |
| `CrashWindow.CooldownDoubles` | src/supervisor/crash-policy.ts:93-96 | The cooldown doubles with each opening in a row up to the cap |
| `CrashWindow.DecisionReports` | src/supervisor/crash-policy.ts:54-67 | A decision reports which restart in a row it is and how many the window then holds |
| `CrashWindow.CleanExit` | src/supervisor/orchestrator.ts:1103-1133 | An exit that was asked for, or of an instance that is not current, restarts nothing |
| `CrashWindow.SpawnsAddUp` | src/supervisor/orchestrator.ts:1397-1402 | In every run each spawn waits for its port, was refused one or took the place, and each that took it lives or has exited |
| `CrashWindow.StopCancels` | src/supervisor/orchestrator.ts:609-640 | After an orderly run a stop leaves no instance current and no restart pending or counted |
| `CrashWindow.ProfileIsHistory` | src/supervisor/orchestrator.ts:1279-1324 | In every run, attended or not, a plugin is in the profile from the start or since it was added until a crash blames it, and the patch is as last written without the entries of plugins blamed since; a file that cannot be read or written leaves what the code leaves |
| `CrashOverlap.OneProcessExactly` | src/supervisor/orchestrator.ts:433-454 | After an orderly run and any unattended event the user has at most one of a process, a pending restart and a spawn if and only if the event is not a launch that passes its checks while another waits for its port |
| `CrashOverlap.BudgetExactly` | src/supervisor/orchestrator.ts:433-454 | The crash budget holds in every orderly continuation of such an event under the same condition, for every policy that fits: its crashes and backoffs take less time than the interval |
| `CrashOverlap.CooldownExactly` | src/supervisor/crash-policy.ts:93-112 | Under the same condition, and for the same policies, the cooldown stays the first in every orderly continuation; otherwise a continuation makes it grow |
| `CrashOverlap.SilenceExactly` | src/supervisor/orchestrator.ts:1184-1202 | Under the same condition, and for the same policies, no restart is decided inside the cooldown of an open circuit in any orderly continuation; otherwise one continuation has one |
| `CrashOverlap.OverlapBreaksTheBudget` | src/supervisor/orchestrator.ts:1397-1402 | From every state in which nothing lives and two spawns wait, crashes and timers that fire when due are enough for more restarts than the budget |
| `CrashOverlap.CooldownGrows` | src/supervisor/crash-policy.ts:93-112 | And for a second opening of the circuit with the longer cooldown |
| `CrashOverlap.DefaultsFit` | src/config.ts:336-346 | The default policy fits, even if every instance lives for eighty seconds |
| `CrashSupervisor.LocalSpawner.Launch` | src/supervisor/orchestrator.ts:433-454 | A launch is refused exactly while an instance is there or, unless forced, the cooldown runs; no other user is affected |
| `CrashSupervisor.LocalSpawner.PortFound` | src/supervisor/orchestrator.ts:780-796 | A spawn under way, by a launch, a restart timer or by hand, takes the user's place when its port is known |
| `CrashSupervisor.LocalSpawner.TryHealPluginFailure` | src/supervisor/orchestrator.ts:1279-1325 | A plugin the error names is taken out of the bundle list and the patch if it is there |
| `CrashSupervisor.HealedIsGone` | src/supervisor/orchestrator.ts:1292-1318 | After a heal neither the bundle list nor the patch names the plugin, and healing it again leaves the patch as it is |
| `PluginHeal.ReportIsUnderstood` | src/supervisor/orchestrator.ts:1280-1285 | What the loader writes when an entry of a package fails is read back as that package |
| `PluginHeal.CleanPatch` | src/supervisor/orchestrator.ts:1301-1316 | The loop computes the patch the lemmas are about |
| `PluginHeal.PatchedForgets` | src/supervisor/orchestrator.ts:1301-1316 | Every line left is an old one, and none names the package |
| `PluginHeal.PatchedKeepsOthers` | src/supervisor/orchestrator.ts:1301-1316 | Lines that neither name it nor are `- id:` lines stay, in their order |
| `PluginHeal.PatchedCounts` | src/supervisor/orchestrator.ts:1308-1314 | With each line that names it goes itself and at most one `- id:` line |
| `PluginHeal.PatchedTwice` | src/supervisor/orchestrator.ts:1301-1316 | Taking a plugin out of a patch twice is taking it out once |
| `PluginForm.CulpritExactly` | src/supervisor/orchestrator.ts:1280-1285 | A crash blames a package exactly if the first place of its error that reports a failed entry names it in parentheses and the name is that of a package, of letters, digits, dots, underscores and dashes, with a scope or without |
| `PluginForm.NamesExactly` | src/supervisor/orchestrator.ts:1304-1308 | A line names a package exactly if it is `name: ` and the package, in double, single or no quotes, with any white space around |
| `PluginForm.IdLineExactly` | src/supervisor/orchestrator.ts:1310 | A line begins an entry exactly if it is a dash and `id:` with any white space before and between |
| `PluginForm.EntryGoes` | src/supervisor/orchestrator.ts:1301-1316 | A line that names the package goes, and the line before it exactly if that begins an entry; taken again and again from the first such line this decides the whole result |
| `CrashSupervisor.LocalSpawner.ScheduleCrashRestart` | src/supervisor/orchestrator.ts:1331-1403 | A crash heals first, then opens the circuit or arms one restart |
| `CrashSupervisor.LocalSpawner.OnExit` | src/supervisor/orchestrator.ts:1103-1133 | An exit matters only for the current instance |
| `CrashSupervisor.LocalSpawner.OnTimer` | src/supervisor/orchestrator.ts:1397-1402 | A restart timer, not before it is due, begins one spawn |
| `CrashSupervisor.LocalSpawner.OnStable` | src/supervisor/orchestrator.ts:1248-1261 | A stable instance resets the backoff but not the window |
| `CrashSupervisor.LocalSpawner.StopUser` | src/supervisor/orchestrator.ts:609-623 | Stopping cancels the armed restart and clears the counters |
| `CrashSupervisor.LocalSpawner.RestartMainOf` | src/supervisor/orchestrator.ts:481-491 | A restart by hand clears the counters and begins a spawn |
| `ScopeAdoption.SpawnedIsRecognised` | src/supervisor/orchestrator.ts:226-259 | The command line a spawn records is read back as its user, role, port and folder |
| `ScopeAdoption.RecognisedMain` | src/supervisor/orchestrator.ts:226-259 | A recognised main has a port from 1 to 65535, a watchdog none |
| `ScopeForm.ParseExactly` | src/supervisor/orchestrator.ts:226-259 | A scope is recognised as exactly the instance its words describe: its uid, a role, an absolute folder of the user, a port from 1 to 65535 for a main and no port for a watchdog; the word after the first occurrence of a flag counts |
| `ScopeForm.UserExactly` | src/supervisor/orchestrator.ts:240-248 | A folder belongs to the name between its first `/users/` and the next slash or the end, if that is not empty and holds no blank |
| `ScopeForm.DecisionExactly` | src/supervisor/orchestrator.ts:275-280 | A scope is adopted exactly if no other has its uid and it is a main; otherwise it is stopped as shared, else as not recognised, else as a watchdog |
| `ScopeAdoption.SettlesExactlyOnce` | src/supervisor/orchestrator.ts:1459-1511 | For every scan and every order of ticks, probe results and spawns the callback is called once when all is handled and no probe is pending, and never again; later only spawns change anything, by what they clean away |
| `ScopeAdoption.SettledCountsAddUp` | src/supervisor/orchestrator.ts:1548-1612 | Then adopted is probes passed plus failed, and scanned is stopped plus passed |
| `ScopeAdoption.SettledKeepsTheLiving` | src/supervisor/orchestrator.ts:1570-1646 | What stays adopted is exactly the scopes found alive and not cleaned away by a spawn for their user since, each a recognised main, alone under its uid |
| `ScopeForm.StopsExactly` | src/supervisor/orchestrator.ts:1497-1646 | In every round the units told to stop are exactly the scopes not adopted, those whose probe failed and those a spawn cleaned away, in the order of these events, and each tick handles the next scope |
| `ScopeAdoption.CleaningIsByUid` | src/supervisor/orchestrator.ts:1623-1646 | A spawn for a uid cleans away exactly the units of that uid, whatever digits uids share |
| `ScopeAdoption.AlwaysProgress` | src/supervisor/orchestrator.ts:1487-1511 | Until it settles some event is due, and every due event brings it closer |
| `ScopeAdoption.AdoptedIsAlone` | src/supervisor/orchestrator.ts:275-280 | An adopted scope shares its uid, hence its unit, with no other |
| `ScopeAdoption.ScopeAdopter.constructor` | src/supervisor/orchestrator.ts:1487-1495 | A round starts with the scanned scopes counted per uid, and settles at once if there are none |
| `ScopeAdoption.ScopeAdopter.OnTick` | src/supervisor/orchestrator.ts:1497-1509 | A tick handles the next scope, and settles after the last |
| `ScopeAdoption.ScopeAdopter.TakeOne` | src/supervisor/orchestrator.ts:1548-1567 | A scope is stopped, or registered and probed |
| `ScopeAdoption.ScopeAdopter.OnProbe` | src/supervisor/orchestrator.ts:1581-1612 | A probe result keeps or stops its scope and may settle the round |
| `ScopeAdoption.ScopeAdopter.CleanStaleScopes` | src/supervisor/orchestrator.ts:1623-1648 | The listed units of the uid are stopped in order and no longer adopted |
| `ScopeAdoption.ScopeAdopter.MaybeRehydrateSettled` | src/supervisor/orchestrator.ts:1465-1475 | The callback comes exactly when all is scheduled and nothing is pending |
| `PortPool.KeyRoundTrip` | src/net/relay/dialer.ts:158-160 | A key gives back its name and port, so two targets never share a key |
| `PortPool.BindPool` | src/net/relay/dialer.ts:89-125 | The pool is the first bindable ports of the range, in order |
| `PortPool.PoolIsLowest` | src/net/relay/dialer.ts:89-125 | Those ports are distinct, bindable and in the range; a bindable port is left out only if the pool is full of lower ones |
| `PortPool.FindLruIdle` | src/net/relay/dialer.ts:193-202 | The loop finds the idle listening slot used longest ago |
| `PortPool.LruIsLeast` | src/net/relay/dialer.ts:193-202 | That slot has the least time stamp of all idle listening slots, the first of equals |
| `PortPool.SlotsAreDistinct` | src/net/relay/dialer.ts:139-191 | In every run keys are distinct across slots and counters equal the open connections |
| `PortPool.PortsStay` | src/net/relay/dialer.ts:139-191 | The ports of the pool never change until it is closed |
| `PortPool.AnswerIsRight` | src/net/relay/dialer.ts:139-191 | An answered port belongs to a slot that now holds the asked key, no other slot changes, and it is listening unless the key already had a slot that stopped |
| `PortPool.AnsweredPortListens` | src/net/relay/dialer.ts:139-191 | As long as no server of the pool stops by itself, somebody listens on every answered port |
| `PortPool.RefusedExactlyWhenFull` | src/net/relay/dialer.ts:160-184 | A request is refused exactly if nothing holds its key and every slot is in use or not listening |
| `PortHistory.RequestExactly` | src/net/relay/dialer.ts:139-191 | In every run a request gets a port if and only if it is well formed, of this network and there is room; a well-formed one that gets none is counted and changes nothing else |
| `PortHistory.ConnectionExactly` | src/net/relay/dialer.ts:211-273 | A connection is dialled when it comes in, open once its stream is ready, and gone when dialling fails, it was destroyed meanwhile or it is closed; it keeps its slot and the key the slot had |
| `PortHistory.ConnectionsAddUp` | src/net/relay/dialer.ts:211-273 | In every run the connections are those that came in, and each slot counts its open ones |
| `PortPool.ActiveKeepsKey` | src/net/relay/dialer.ts:139-273 | In every run a slot with open connections never changes its key |
| `PortPool.AwayExactlyBy` | src/net/relay/dialer.ts:139-273 | As long as every connection dialled or open is on a slot of its own key, a step changes that if and only if it is a request that takes a slot under a connection being dialled |
| `PortPool.ConnectionsAreAtHome` | src/net/relay/dialer.ts:139-273 | A run keeps every connection on a slot of its own key throughout if and only if no request does that |
| `PortPool.MisroutedExactly` | src/net/relay/dialer.ts:211-273 | After any run an open connection can be on a slot of another key without a further request if and only if one dialled or open is not at home |
| `PortPool.LeastRecentlyAskedGoes` | src/net/relay/dialer.ts:174-202 | In every run, a key loses its slot only if no other idle listening slot is free or was asked for earlier; of those asked for in the same millisecond the first slot goes, and with a strictly increasing clock there is no such tie |
| `PortPool.DeadPortIsAnswered` | src/net/relay/dialer.ts:160-164 | Concretely: a key whose server stopped by itself, which no code path asks for, is still answered with that port |
| `PortPool.DialingDoesNotProtect` | src/net/relay/dialer.ts:211-273 | An instance: a connection still being dialled does not protect its slot, and ends up open on a slot of another key |
| `PortPool.RelayDialer.Start` | src/net/relay/dialer.ts:89-125 | After the start the pool holds exactly the bound ports |
| `PortPool.RelayDialer.LocalPortFor` | src/net/relay/dialer.ts:139-191 | The method answers and changes the pool as the lemmas say |
| `PortPool.RelayDialer.OnConn` | src/net/relay/dialer.ts:211-250 | A connection to an unused slot is only dropped and counted |
| `PortPool.RelayDialer.OnOpened` | src/net/relay/dialer.ts:250-256 | An opened stream counts on its slot |
| `PortPool.RelayDialer.OnClosed` | src/net/relay/dialer.ts:256-263 | A closed connection is released once |
| `Jitter.ComputeAbsDeltas` | src/net/relay/jitter.ts:102-109 | The steps between neighbouring samples |
| `Jitter.StepAt` | src/net/relay/jitter.ts:102-109 | Each step is the distance of two neighbouring samples |
| `Jitter.PercentileSplits` | src/net/relay/jitter.ts:116-120 | The percentile is one of the values, with at most its rank of them below and the rest above |
| `Jitter.SplitIsUnique` | src/net/relay/jitter.ts:116-120 | No other value has that property |
| `Jitter.Histogram` | src/net/relay/jitter.ts:123-132 | Every step is counted in exactly one bucket, and each bucket counts its steps |
| `JitterForm.BucketExactly` | src/net/relay/jitter.ts:123-132 | Buckets are equally wide, a step counts in the one it lies in, and what lies beyond the last in the last |
| `JitterForm.RankExactly` | src/net/relay/jitter.ts:116-121 | The rank of a percentile is the whole part of the count times the share, or the last |
| `Jitter.JitterTracker.Record` | src/net/relay/jitter.ts:196-205 | A ring holds exactly the newest samples accepted for its url |
| `Jitter.JitterTracker.JitterMs` | src/net/relay/jitter.ts:208-219 | A url has a jitter exactly if it has at least two samples and one more than the least number of steps; it is the 95th percentile of the steps between neighbours, to the hundredth |
| `Jitter.JitterIsUnique` | src/net/relay/jitter.ts:160-162 | That determines the number |
| `Jitter.JitterTracker.OrderUrls` | src/net/relay/jitter.ts:257-277 | By the tracker's own jitters the result is sorted, stable and a permutation; switched off it is the list itself |
| `Jitter.JitterTracker.PickTarget` | src/net/relay/jitter.ts:289-313 | The pick is the first eligible url of the list ordered by the tracker's own jitters |
| `Jitter.KnownMeans` | src/net/relay/jitter.ts:264-271 | In both, a url counts as measured exactly if it has samples for the steps asked for, and then by that percentile |
| `Jitter.OrderByJitter` | src/net/relay/jitter.ts:257-277 | The loops compute the ordering the lemmas are about |
| `Jitter.OrderIsPermutation` | src/net/relay/jitter.ts:257-277 | Ordering loses and adds no candidate |
| `Jitter.OrderIsStable` | src/net/relay/jitter.ts:257-277 | Candidates of one jitter, and unmeasured ones, keep their order |
| `Jitter.OrderIsSorted` | src/net/relay/jitter.ts:257-277 | Measured ones come first, by ascending jitter |
| `Jitter.StableOrderIsUnique` | src/net/relay/jitter.ts:274-276 | Sorted and stable leaves one ordering only |
| `Jitter.NothingMeasuredNothingMoves` | src/net/relay/jitter.ts:262-273 | With nothing measured the list stays as it was |
| `Jitter.PickJitterTarget` | src/net/relay/jitter.ts:289-313 | The loop picks the best eligible candidate, none below the limit |
| `Jitter.PickAgreesWithOrder` | src/net/relay/jitter.ts:257-313 | The pick is the first candidate of the ordered list that is measured, not current, not blocked and strictly better; none exactly if there is none |
| `JitterForm.PickExactly` | src/net/relay/jitter.ts:289-313 | On the candidates themselves: the pick is the best of those that are measured, not current, not blocked and strictly better, the first of equals, and none exactly if there is none |
| `RelayDirectory.ListCandidatesFromDoc` | src/net/relay/directory.ts:372-385 | The loop lists one candidate per host, the first in document order |
| `RelayDirectory.SameOriginRelayUrl` | src/net/relay/directory.ts:423-432 | The loop finds the first entry of the origin's host |
| `RelayDirectory.ListedFacts` | src/net/relay/directory.ts:372-385 | No two candidates have the same host |
| `RelayDirectory.ListedIsFirst` | src/net/relay/directory.ts:372-432 | The candidate of a host is its first entry, so the same-origin entry is a candidate |
| `RelayDirectory.ChainIsPermutation` | src/net/relay/directory.ts:733-753 | Same origin first and jitter order lose and add nothing |
| `RelayDirectory.ChainHasEachHostOnce` | src/net/relay/directory.ts:733-753 | Every host of the document is in the chain exactly once |
| `RelayDirectory.SameOriginFirst` | src/net/relay/directory.ts:735-737 | With nothing measured the answering origin comes first |
| `RelayDirectory.ResolveOverlayRelayChain` | src/net/relay/directory.ts:646-786 | The stages in order: override, fresh cache, origins, stale cache, first seed; with jitter switched off nothing counts as measured |
| `RelayDirectory.OffIsUnmeasured` | src/net/relay/directory.ts:668-678 | Then every list stays as it was |
| `RelayDirectory.TryOrigins` | src/net/relay/directory.ts:717-758 | The first origin whose directory verifies and lists a relay decides |
| `RelayDirectory.SourceTells` | src/net/relay/directory.ts:646-786 | Each source is reported if and only if everything that comes before it gave nothing: the override, a fresh cache that lists a relay, every origin asked, a stale cache that lists one, the first seed |
| `RelayDirectory.DirectoryIsFirst` | src/net/relay/directory.ts:705-758 | A directory reported as the source is that of the first origin that answers among those the cached directory names and then the seeds, and the chain is the one of its document |
| `RelayDirectory.OriginsExactly` | src/net/relay/directory.ts:717-758 | Asking the origins in order takes the first whose directory verifies and lists a relay, and finds none exactly if there is none |
| `RelayDirectory.NothingIsNoSource` | src/net/relay/directory.ts:759-786 | No address is resolved exactly if no source is reported |
| `RelayDirectory.ResolvedAddressesAreTrusted` | src/net/relay/directory.ts:646-786 | Every address of the chain comes from the override, a seed, or a verified directory |
| `RelayDirectory.ResolveOverlayRelay` | src/net/relay/directory.ts:807-845 | The first address not excluded, empty if none |
| `RelayDirectory.ExcludeIsRespected` | src/net/relay/directory.ts:807-845 | The choice is in the chain and not excluded, and empty exactly if all are excluded |
| `EmailGuard.QuotasHold` | src/web/register-guard.ts:71-103 | In every run every closed hour holds at most the allowed requests let through per address, per IP and overall, and every closed day at most the allowed codes per address |
| `EmailGuard.NextKeepsQuota` | src/web/email-code.ts:207-306 | Each request, refused or not, and each verification keeps the quotas |
| `EmailGuard.AllowedExactly` | src/web/register-guard.ts:71-103 | A request is let through exactly if it is under every quota and no earlier request of its address, refused ones included, is younger than the step of the ladder reached |
| `EmailGuard.AllowedIsUnderQuota` | src/web/register-guard.ts:71-103 | A request let through was under every quota it counts towards |
| `EmailGuard.RefusedExactly` | src/web/register-guard.ts:66-100 | The reason for a refusal is the first quota in this order that is used up, or else the cooldown; the time to wait is counted from the latest request and rounded up |
| `EmailGuard.LadderSteps` | src/web/register-guard.ts:90-91 | The cooldown is the step of the ladder the hour has reached, the last one beyond it |
| `EmailGuard.CodesAreUsedOnce` | src/web/email-code.ts:312-356 | Each code is accepted at most once, before it expires, after fewer wrong guesses than allowed, and no code takes more guesses than that |
| `EmailGuard.AcceptedIsTheCode` | src/web/email-code.ts:312-356 | A verification is accepted if and only if it is the latest code mailed, usable and for its name, however often it was mistyped; then and only then the code is closed as used; a wrong code is counted, and closes it with the last attempt; everything else changes nothing |
| `EmailGuard.AcceptedWasMailed` | src/web/email-code.ts:207-356 | From every run: what is accepted is the code of a request that was let through, mailed to the address and made under the same name, no longer ago than a code lives |
| `EmailGuard.MailedIsAccepted` | src/web/email-code.ts:249-356 | From every run: a code just mailed is accepted for its name as long as it lives |
| `EmailGuard.RefusalsExactly` | src/web/email-code.ts:329-350 | The reasons for refusing a code without looking at it, each exactly when it applies |
| `EmailGuard.PurgeExactly` | src/web/email-code.ts:192-205 | A purge is due once an hour, marked as done even if it fails, and leaves exactly the rows of the last thirty days |
| `EmailGuard.PurgeIsInvisible` | src/db/repo.ts:166-168 | Deleting rows older than 30 days changes no verdict, whatever the table, if and only if the guard cannot see it: everything is refused anyway, or the first cooldown is no longer than that, and a quota of nothing is asked later than an hour after the epoch |
| `EmailGuard.PurgeStaysInvisible` | src/db/repo.ts:166-168 | Under that condition an earlier purge is not seen either |
| `EmailGuard.PurgingRunsAgree` | src/web/email-code.ts:194-236 | A run that purges gives every request the answer of the run that never does |
| `EmailGuard.PurgeIsSeen` | src/web/register-guard.ts:77-102 | Otherwise one old row shows it: with a longer cooldown a refusal becomes a permission, with a quota of nothing the time to wait changes |
| `EmailGuard.VerdictSeesRecent` | src/db/repo.ts:127-143 | The verdict depends on the recent part of the table only |
| `EmailGuard.EmailCodes.RecordEmailCode` | src/db/repo.ts:111-125 | A request adds one row |
| `EmailGuard.EmailCodes.BumpAttempts` | src/db/repo.ts:153-159 | A wrong guess counts only on a code that is not closed |
| `EmailGuard.EmailCodes.Consume` | src/db/repo.ts:161-164 | A code is closed once |
| `EmailGuard.EmailCodes.PurgeIfDue` | src/web/email-code.ts:194-202 | Old rows go at most once an hour, failed attempts included |
| `EmailGuard.EmailCodes.RequestRegisterCode` | src/web/email-code.ts:207-306 | The method records refusals, failures and sent codes as the model says |
| `EmailGuard.EmailCodes.ConsumeRegisterCode` | src/web/email-code.ts:312-356 | The method checks, counts and closes codes as the model says |
| `EmailOverlap.RequestInHalves` | src/web/email-code.ts:207-306 | A request whose verdict and recording nothing comes between is the one step of the atomic model |
| `EmailOverlap.VerificationInHalves` | src/web/email-code.ts:312-356 | And so is a verification whose reading and closing nothing comes between |
| `EmailOverlap.QuotasWithOverlap` | src/web/email-code.ts:236-306 | In every run in which at most m requests of a scope are let through and not yet recorded at a time, every closed window holds at most the quota plus m - 1 of them |
| `EmailOverlap.OverlapIsMailed` | src/web/email-code.ts:176-189 | Any number of requests of one address made at the same time are all mailed, whatever the quota; the comment on the lock promises one |
| `EmailOverlap.CodesWithOverlap` | src/web/email-code.ts:312-356 | In every run each code is accepted at most once, read before it expired; with at most g wrong guesses of a code pending at a time it takes at most g - 1 more than allowed |
| `EmailOverlap.OverlapIsGuessed` | src/db/repo.ts:153-159 | Any number of wrong guesses of an open code made at the same time are all taken and leave it open |
| `EmailRisk.QuotaExactly` | src/web/email-code.ts:236-306 | From every state: without a further verdict a window stays within its quota, whatever is recorded in whatever order, if and only if what it holds and the requests let through in it are together within the quota |
| `EmailRisk.QuotaExposedExactlyBy` | src/web/email-code.ts:236-262 | A window leaves that safe state by exactly one kind of step: a verdict that lets a request of the scope through when what is recorded and under way fills the quota already |
| `EmailRisk.TwiceLetThrough` | src/web/email-code.ts:176-189 | No verdict sees the requests under way: a request that is let through is let through again before it is recorded, so two at a time exceed a quota with room for one |
| `EmailRisk.GuessesExactly` | src/web/email-code.ts:312-356 | From every reachable state: without a further reading a code takes no more wrong guesses than allowed if and only if those it took, the pending ones that do not close it and one that does are no more; none count once it is closed or gone |
| `EmailRisk.GuessesExposedExactlyBy` | src/web/email-code.ts:312-356 | A code leaves that safe state exactly by the reading of a wrong guess that can still be counted when those fill its attempts |
| `EmailRisk.CourseIsSound` | src/db/repo.ts:110-163 | Row identifiers are distinct in every course, and a pending guess is of a row that was written |

## Left out

- Notifying workers of a new epoch after a lost lease: the message is sent with an epoch computed from the row, and may reach the new holder.
- Deleting rows of the ownership table: it restarts the epoch, so rows are never deleted here.
- `InstanceLeases.InstanceLease.RenewAll`: the order in which the held map is walked is not fixed.
- `PostgresClaim.CallsRefine`: the row a losing claim reports is read after the attempt and may be newer than the row it lost to.
- `OperationCache.ExactlyOneEffect`: a launch acts when it takes the user's place, a stop when it kills; credentials, accounts and the tunnel port are not modelled.
- `OperationCache.Call`: an answer in the 400 range is retried like a network error, as the code does; its comment says otherwise.
- The leased spawner's launch, stop and tick are sequences of the protocol's steps here; what the inner spawner does between a claim and the release after a failure is not modelled.
- `HostRouting.FilesAndInstancesAgree`: reading owner and hosts and selecting is one step, recording the choice another; memory figures of the hosts are inputs.
- Relay client: identity and signatures, presence, heartbeats, dial and acknowledgement waiters and dynamic ports; half-open detection is an input of the event.
- Relay client: frames are events; stream number wrap-around and the order of close frames are not modelled.
- Worker-side local streams: both directions share one queue and one paused flag, so there is no order to state per direction.
- `Credentials.ReadRefValue`: the ref is a valid name, as at every call; the code builds a regular expression from it.
- `Credentials.CredentialsRead`: needs unique refs and values without line breaks.
- `Credentials.CredentialsIdempotent`: needs unique refs and values without line breaks, as above.
- `Settings.SettingsIdempotent`: routes hold no white space and fields no line break, which `src/web/routes/auth.ts:525` and the other callers guarantee.
- Refreshing the content of a settings block that already exists: the code does not do it.
- `CrashSupervisor.CrashesAreBudgeted`: a restart counts when it is decided; launches do not overlap (`CrashOverlap` says what happens if they do), nobody forces, stops or restarts by hand, a spawn that got its port does start a process, and idle reaping does not stop the instance.
- `CrashSupervisor.OneProcessAtATime`: of orderly runs, like `CrashSupervisor.CooldownNeverGrows` and `CrashSupervisor.SilentWhileOpen`; a forced launch, a stop or a restart by hand during a spawn may leave a second process, and is not decided here.
- `CrashOverlap.BudgetExactly`: of policies that fit; for one whose backoffs are longer than the interval it is not decided whether overlapping launches exceed the budget.
- `CrashSupervisor.LocalSpawner.TryHealPluginFailure`: files are lists of bundles and of lines; their reading and writing as JSON and text may fail but is not modelled further.
- Watchdogs, port guards, sandbox arguments and the wait for launch tokens.
- `ScopeAdoption.SpawnedIsRecognised`: the other arguments hold no white space and none of the four flags; a folder with white space is not recognised.
- `ScopeAdoption.ScopeAdopter.OnProbe`: only the first event of a probe's socket reaches it.
- `PortPool.RelayDialer.OnConn`: the dialled stream is an event; bytes are piped elsewhere. Slots are values in a list, so a connection closing after the pool was closed no longer updates its slot.
- `Jitter.JitterTracker.Record`: samples are real numbers; the check for numbers that are not finite is the caller's.
- Directory signatures, caching files, timeouts and URL parsing are functions of their inputs; a fetched document is one whose signature holds.
- `EmailGuard.QuotasHold`: each request is one step; `EmailOverlap` and `EmailRisk` have the steps in between.
- `EmailGuard.CodesAreUsedOnce`: as above; and of codes sent in the same millisecond the latest is any of them.
- `EmailOverlap.QuotasWithOverlap`: the two counts of a request are read in one step, and so is the purge before them.
- Hashing of codes and lower-casing of names are uninterpreted functions; mail, captcha and the other registration checks are outside.
- SQL drivers, HTTP and WebSocket libraries, service manager, tunnels, static pages and translations.
