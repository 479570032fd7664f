# gcit: durable state, mail spool, pacing, monitoring and configuration

gcit is a daemon that watches git references, dispatches GitHub workflows, follows the runs and
notifies people. This project models the parts of it where order, failure and concurrency matter,
and proves what they promise over every run.

| Component | Modules | Source |
|---|---|---|
| State log, state file, atomic replacement, writer | `StateLog`, `StateFile`, `AtomicFile`, `Writer` | `src/state/*`, `src/util.rs` |
| Mail spool | `Mbox`, `Spool`, `Delivery` | `src/mail/*` |
| Request pacing and quota | `RateBucket`, `Quota` | `src/git/rate_bucket.rs`, `src/github/rate_limit.rs` |
| Run monitor, producer and consumer | `Paging`, `RunMonitor`, `FlowMonitor` | `src/github/monitor.rs`, `src/flow/monitor.rs` |
| Run correlation | `Paging`, `Correlator` | `src/github/correlator.rs` |
| Configuration validator | `CredentialId`, `Index`, `ConfigModel`, `ConfigRules`, `ConfigValidator`, `ConfigSpec`, `ConfigCheck`, `ConfigReports`, `ConfigDue` | `src/config/*` |

`Prelude` holds options, sequence functions and text splitting. Check everything with `dafny verify dfyconfig.toml`.

## How it is modelled

Objects whose methods change fields are classes (`StateStore`, `FileSystem`, `StateWriter`,
`SpoolFile`, `RateBucket`, `RateLimitState`, `Monitor`, `Validator`); loops are loops. Each method is
proved equal to a function of its inputs and the old state, and the theorems are lemmas about those
functions. Which outcome, report or answer is given is stated apart from them, as a condition on the inputs
that holds if and only if it is. Whatever the program does not choose is an input: which system call of a persist fails,
how updates fall into batches, how many bytes a write takes, how appenders interleave, clock
readings, pages the server returns, when a token is cancelled, what the URL, duration and template
libraries answer. A theorem quantifies over all of them.

Protocols with several parties (`Spool`, `Delivery`, `RateBucket`) are state machines whose steps are
the program's critical sections and system calls; every interleaving is a run.

A crash, of the machine or of the process alone, may strike between any two steps of a file replacement.
A disk is what processes see plus the set of directory entries a power loss could leave; renaming a file whose bytes were not synced would
expose torn content, so the order of the steps is what the proofs rest on.

## Where the code does less than its comments say

The model follows the code. Each of these is proved with the exact condition under which the comment
holds, or with a family of runs in which it does not.

- `src/util.rs:45-47` says a failed write leaves the destination unchanged. Content and mode stay exactly
  when the failing step comes no later than the rename, or both were already what the failure leaves
  (`AtomicFile.FailureLeavesDestination`).
- `src/state/writer.rs:88-89` says the mirror is at most one batch behind the disk. It is after every batch
  exactly when no batch that replaces the file without reaching the mirror comes right after another that
  did not reach it (`Writer.MirrorLagBound`), and at every instant exactly when every batch that replaces
  the file, the first aside, follows one that reached the mirror (`Writer.MirrorLagAlways`); otherwise it
  can be any number behind (`Writer.MirrorLagUnbounded`). It is never ahead.
- `src/mail/notifier.rs:417-419` says cancellation wins only while the lock is not acquired. There is a
  window after the lock is taken and before it is signalled (`Delivery.GiveUpWhileLocked`). Giving up, there
  or earlier, settles nothing: the message may still be delivered in full or not at all
  (`Delivery.GivingUpSettlesNothing`); what settles it is `Delivery.SettledIff`.
- `src/git/rate_bucket.rs:70-90` reads as if requests themselves were spaced. Reservations are. Starts lose
  spacing to lateness (`RateBucket.LatenessBoundsSpacing`), and from every state two more callers can start
  at the same instant (`RateBucket.SpacingNeverGuaranteed`). What always holds is the count of
  `RateBucket.PacingBound`.
- An appender that fails leaves a torn piece in the spool. A whole message is then lost to a reader in two
  ways: the bytes before it stop in mid-line, or the first bytes after it are fewer than the separator's
  five. Apart from these it is always found (`Spool.WholeIsRecordIff`, over the whole file), and both
  ways occur (`Spool.TornBeforeLoses`, `Spool.TornAfterLoses`).
- A duration of a flow's `[flow.poll]` that does not parse is reported without the flow
  (`src/config/validate/cadence.rs:165-169` and `249-253`): its kind of error has no place for one
  (`src/config/error.rs:24-28`), although the flow is handed to both functions. Every other report of a flow
  but that of an empty name has it (`ConfigReports.FlowReportsLocated`, `ConfigReports.UnparsableNamesNoFlow`).
- `src/github/correlator.rs:310-315` gives the fallback as the path for workflows without a run name. A name
  scan that fails for the moment leads there too, and another run can be picked although a marked one is
  listed (`Correlator.MarkedPassedOver`); after a scan that came through that never happens
  (`Correlator.MarkedShutsOutAge`).
- "Exactly once per (run, job)" (`src/flow/monitor.rs:331-332`) needs summaries that list a concluded job
  at most once; `FlowMonitor.RepeatedIff` says exactly when a job is notified more often, and
  `FlowMonitor.ListedTwiceHeardTwice` is such a stream.

## Model

| member | source | states |
|---|---|---|
| StateLog.StateStore.ApplyUpdate | src/state/apply.rs:208-239 | one update changes the store as the specification of its kind says, and nothing else |
| StateLog.StateStore.ApplyPollObservation | src/state/apply.rs:246-263 | last writer wins on sha and poll time; an absent dispatch or cooldown time keeps the old one; the entry is created if missing |
| StateLog.StateStore.ApplyPollTimestamp | src/state/apply.rs:268-271 | only the poll time moves; the entry is created if missing |
| StateLog.StateStore.ApplyRunStarted | src/state/apply.rs:280-302 | a run id already active is dropped, otherwise the run is appended |
| StateLog.StateStore.ApplyRunFinished | src/state/apply.rs:310-343 | the first active run with the id moves, completed, to a list capped to its last 100; an unknown flow or run changes nothing |
| StateLog.StateStore.ApplyFlowRemoved | src/state/apply.rs:349-357 | the entry disappears, the other flows stay |
| StateLog.Position | src/state/apply.rs:326-330 | the search loop finds the first run with the id, or none exists |
| StateLog.FlowIsolation | src/state/apply.rs:208-357 | a flow's state is the fold of that flow's own updates, whatever else the log holds |
| StateLog.InterleavingIrrelevant | src/state/apply.rs:132-134 | two logs that agree flow by flow lead to the same state |
| StateLog.UpdatesCommute | src/state/apply.rs:208-239 | updates to different flows commute |
| StateLog.RemovalForgets | src/state/apply.rs:154-156 | after a removal nothing earlier is visible: the state is the fold of the later updates from an empty entry |
| StateLog.StateSinceRemoval | src/state/apply.rs:349-357 | over any log, a flow's state depends only on its updates after its last removal |
| StateLog.BoundedHistory | src/state/apply.rs:310-343 | the capped list is the last 100 of the unbounded history of accepted finishes, in order, and the active list is the ledger's |
| StateLog.RunsConserved | src/state/apply.rs:280-343 | as multisets of run id and start time, runs active at first plus accepted starts equal runs active now plus accepted finishes |
| StateLog.ActiveIdsDistinct | src/state/apply.rs:280-302 | ids of active runs stay pairwise distinct |
| StateLog.RunHistory | src/state/apply.rs:280-343 | all three of the above for any whole log, counted since the flow's last removal |
| StateLog.LastWriterWins | src/state/apply.rs:135-148 | for any log over many flows, each scalar of a flow is the last value written to it since the flow's last removal, on top of what it began with |
| Prelude.LastSeenIsLast | src/state/apply.rs:135-148 | the value so chosen is supplied by some update with none supplying that field after it |
| StateLog.EntryExists | src/state/apply.rs:135-156 | for any log, a flow has an entry exactly when some poll or start named it after its last removal, or it had one and was never removed |
| StateLog.FoldKeepsSchema | src/state/apply.rs:208-239 | no update changes the schema number |
| StateFile.StateRoundTrip | src/state/mod.rs:284-356 | loading the encoding of any schema-1 state gives that state back |
| StateFile.EncodeInjective | src/state/apply.rs:51-130 | different states are written differently |
| StateFile.AcceptedIsStrict | src/state/mod.rs:342-348 | a document that loads has schema 1 and no unknown field at any level |
| StateFile.SchemaGate | src/state/mod.rs:310-340 | every other schema value is refused by the probe, whatever the rest of the document holds |
| StateFile.LoadedIff | src/state/mod.rs:284-356 | exactly what a file loads as: nothing there is a fresh state, a document is the state it shows field by field, with absent and null read as the source reads them |
| StateFile.RefusedIff | src/state/mod.rs:284-356 | exactly when each error is given |
| StateFile.EncodeOmits | src/state/apply.rs:72-128 | missing values and empty lists are not written |
| AtomicFile.FileSystem.AtomicWrite | src/util.rs:48-66 | the attempt ends as the fault dictates, and its crash points are exactly the intermediate disks |
| AtomicFile.FileSystem.StageTemp | src/util.rs:54-60 | the temp file is written, given its mode and synced before anything else, or the attempt stops at the failing step |
| AtomicFile.FileSystem.Publish | src/util.rs:61-64 | rename, mode, directory sync, in that order, stopping at the failing step |
| AtomicFile.TempIsPrivate | src/util.rs:51-60 | the temp file exists only before the rename, private until it is whole and in the requested mode before it is synced |
| AtomicFile.CrashSafe | src/util.rs:40-66 | after any number of steps a power loss leaves an entry possible before or the complete new content, never torn bytes; which of them, by step |
| AtomicFile.AcknowledgedIsDurable | src/util.rs:48-66 | success means the new content with its mode is all a power loss can leave |
| AtomicFile.FailureOutcome | src/util.rs:45-64 | a failed attempt leaves the old file or installs the new one, content and mode, according to the failing step, and no temp file |
| AtomicFile.FailureLeavesDestination | src/util.rs:45-47 | exactly when a failed attempt leaves the destination's content and mode as they were |
| AtomicFile.FailureCanReplaceDestination | src/util.rs:61-63 | a failure after the rename that replaces content and mode |
| Writer.MemoryIsFold | src/state/writer.rs:215-224 | the memory is the fold of every update drained, in order |
| Writer.BatchingIrrelevant | src/state/writer.rs:215-224 | batching does not change the memory |
| Writer.DiskAndMirror | src/state/writer.rs:202-252 | disk and mirror are images of prefixes of the log, of the last renamed and the last mirrored round; the mirror never covers more than the disk |
| Writer.CleanMeansSaved | src/state/writer.rs:126-132 | not dirty after a batch means the disk holds the memory, in mode 0600, only that survives a power loss, and no temp file is left |
| Writer.IdleNeverWrites | src/state/writer.rs:172-192 | with no update nothing is ever written |
| Writer.ShutdownSaves | src/state/writer.rs:253-271 | after a run whose last batch or final persist succeeded, the file alone survives and is the image of everything drained, and the mirror shows the same unless its lock was poisoned then |
| Writer.CrashRecovery | src/state/writer.rs:133-165 | over every batching, failure pattern and crash point, every entry a power loss may leave is a file from before the run (only if nothing was acknowledged) or the image of a log prefix covering everything acknowledged |
| Writer.KilledIsCovered | src/state/writer.rs:133-165 | what processes see at any step is one of those entries, so a killed writer is covered by the same statement |
| Writer.TraceCoversCrashes | src/state/writer.rs:202-252 | every disk the running writer passes through is one of those crash points |
| Writer.TraceIsCrashes | src/state/writer.rs:202-271 | the trace of a whole run, final persist included, is exactly the set of those crash points |
| Writer.RestartAfterCrash | src/state/mod.rs:284-356 | after a crash the loader succeeds and returns the fold of such a prefix |
| Writer.ManyLives | src/state/writer.rs:202-271 | over any number of power losses, kills and restarts: every life loads, its memory is the first state folded over what each earlier life kept, no life loses an update it acknowledged, and the same holds of everything still durable |
| Writer.MirrorLagBound | src/state/writer.rs:84-89 | on a run whose states differ, the mirror is at most one batch behind the disk after every round exactly when no round that replaces the file without reaching the mirror follows a round that did not reach it either |
| Writer.MirrorLagAlways | src/state/writer.rs:84-89 | the same at every instant, also between a rename and the mirror update of its round: exactly when every round that replaces the file, but the first, follows a round that reached the mirror |
| Writer.StrandsAloneKeepsUp | src/state/writer.rs:84-89 | under the first condition, on faults and poisonings only, the bound holds after every round of every run, whatever it carries |
| Writer.RenamesAloneKeepsUp | src/state/writer.rs:224-251 | under the second condition it holds at every instant of every run, the final persist included |
| Writer.DifferingRun | src/state/writer.rs:224-251 | every pattern of faults and poisonings occurs on a run whose states differ |
| Writer.MirrorLagUnbounded | src/state/writer.rs:233-251 | for every n there is a run of n batches that leaves the mirror n batches behind the file, and no reading of the two makes it fewer |
| Writer.StateWriter.constructor | src/state/writer.rs:90-104 | the mirror starts as the initial state |
| Writer.StateWriter.ServeRound | src/state/writer.rs:216-251 | one pass of the loop: apply, mark dirty, persist, mirror |
| Writer.StateWriter.RunMirrored | src/state/writer.rs:202-271 | the whole loop with its final persist: memory is the fold of all updates, file and mirror are those of the last round, final persist included, that renamed and that reached the mirror, what a power loss leaves covers everything acknowledged, and the file-system trace is the one the crash theorem covers |
| Mbox.SanitizeHeader | src/mail/mbox.rs:86-111 | bytes below space become spaces, everything else is copied, over the byte loop of the source |
| Mbox.SanitizedIsOneLine | src/mail/mbox.rs:80-85 | a sanitised value has the input's length and no byte below space, so no line end; a value without such bytes is unchanged |
| Mbox.NeedsQuoteIsPattern | src/mail/mbox.rs:137-142 | trimming and testing a prefix is the same as matching some number of `>` followed by `From ` |
| Mbox.QuotedExactly | src/mail/mbox.rs:113-142 | one mark is put in front of exactly the lines that are some number of `>` and `From `; other lines stay |
| Mbox.LineRoundTrip | src/mail/mbox.rs:115-119 | unquoting a quoted line gives it back, and no quoted line is a separator line |
| Mbox.EscapeMboxrd | src/mail/mbox.rs:123-135 | the loop over lines equals quoting every line |
| Mbox.EscapeRoundTrip | src/mail/mbox.rs:115-122 | unquoting inverts quoting for every body and keeps the number of lines |
| Mbox.EscapeInjective | src/mail/mbox.rs:117-119 | two bodies quoted alike are equal |
| Mbox.EscapeImage | src/mail/mbox.rs:137-142 | a text is the quoting of some body exactly when none of its lines is a separator line |
| Mbox.FormatMessage | src/mail/mbox.rs:164-212 | the pushes produce exactly the reference layout, one terminated line after another |
| Mbox.MessageRoundTrip | src/mail/mbox.rs:144-212 | whatever subject, user, host and body contain, a reader finds exactly the seven intended header lines, spelled out, and the body, completed by at most one newline |
| Mbox.FormattedIsRecord | src/mail/mbox.rs:164-212 | a formatted message begins with a separator line and holds no other |
| Mbox.AppendRecovered | src/mail/mbox.rs:205-209 | appended at a line start, a message is exactly one more record |
| Mbox.SpoolRecovered | src/mail/mbox.rs:205-209 | any number of whole messages are recovered in order |
| Mbox.GluedRecordLost | src/mail/mbox.rs:205-209 | appended in the middle of a line, a message adds no record |
| Mbox.RecoveredIffLineStart | src/mail/mbox.rs:205-209 | exactly when an appended message is recovered |
| Mbox.RecordsJoin | src/mail/mbox.rs:205-209 | text appended at a line start keeps all records apart exactly when it begins with a separator, and otherwise merges two into one |
| Mbox.RecordInPlaceIff | src/mail/mbox.rs:205-209 | exactly when a reader of a whole text finds a message in it as a record of its own, given any text before and behind |
| Spool.StepKeeps | src/mail/notifier.rs:646-675 | every step of every appender keeps: one lock holder, the last in lock order, and a file made of what each appender wrote, in that order |
| Spool.SpoolIntegrity | src/mail/notifier.rs:646-675 | with partial writes, failures and any interleaving, whenever every message is out as a whole or not at all (a failed sync included), the spool is the old text plus the whole messages, in lock order, each at most once, no finished one missing, and a reader recovers exactly those |
| Spool.WholeIsRecordIff | src/mail/notifier.rs:670-674 | with writers failing anywhere, exactly when a reader of the whole file finds a message that is out as a whole, synced or not, as a record of its own: the last bytes before it end a line, and the first later appender that wrote anything wrote more than 4 bytes; otherwise the file has fewer records than its parts |
| Spool.ShortIsUnfinished | src/mail/notifier.rs:671 | an appender with only 1 to 4 bytes in the file is mid-write or failed there |
| Spool.TornBeforeLoses | src/mail/notifier.rs:671 | for any two messages, a run in which the first stops in mid-line and the second, written whole, adds no record |
| Spool.TornAfterLoses | src/mail/notifier.rs:671 | for any two messages, a run in which the second fails within its separator and the first, written whole, is read glued to it |
| Spool.SpoolFile.WriteAll | src/mail/notifier.rs:671 | partial writes until everything is out or one fails; it succeeds exactly when none fails before everything is out, and otherwise what is out is the total of the writes before the failing one |
| Spool.SpoolFile.WriteWithLock | src/mail/notifier.rs:646-675 | lock, write, sync, unlock is a legal schedule; it succeeds exactly when the sync does and no write fails before everything is out, with the whole message; otherwise exactly the writes before the failing one are out, or everything if only the sync failed; the lock is free afterwards |
| Delivery.StepKeeps | src/mail/notifier.rs:304-465 | the invariant tying caller, worker, signal and bytes written is kept by every step |
| Delivery.DeliveryGuarantees | src/mail/notifier.rs:304-465 | at every moment of every run what is in the spool is a prefix of the message, so it is appended at most once; sent means all of it, synced before unlock; the inconsistent outcome never occurs |
| Delivery.OutcomeIff | src/mail/notifier.rs:304-529 | over every run, a step ends the call with an outcome exactly when its own condition holds: which of the checks before the spool failed, what the poll found, how the worker ended |
| Delivery.GoesOnIff | src/mail/notifier.rs:316-465 | the worker is spawned exactly for a wanted, uncancelled, rendered call with a body within 64 KiB; a poll follows the signal, sent or dropped, or waits |
| Delivery.EarlyCancelWritesNothing | src/mail/notifier.rs:316-333 | a token cancelled before the call means no spool byte, ever, whatever follows |
| Delivery.GivesUpOnlyUnsignalled | src/mail/notifier.rs:420-440 | the caller gives up exactly in a poll that finds no signal with the deadline past or the token cancelled, and nothing is written by then |
| Delivery.SignalledNeverGivesUp | src/mail/notifier.rs:442-453 | once the lock signal is received no continuation ends in a cancel or lock-deadline outcome |
| Delivery.SettledIff | src/mail/notifier.rs:420-464 | once the call has returned, whatever it reported, no continuation adds to the spool exactly when the worker was never spawned, has ended, or has everything out |
| Delivery.GivingUpSettlesNothing | src/mail/notifier.rs:423-440 | at every cancellation or lock-deadline outcome the worker is live and nothing written; one continuation delivers and syncs the whole message, and in another its open, lock or first write fails, with any error, and nothing is written, then or ever |
| Delivery.GiveUpWhileLocked | src/mail/notifier.rs:417-419 | over every run ending in a poll that gives up: no signal was sent and no byte written; the lock had been acquired exactly when the worker still holds it then, which cannot be if every acquisition is followed at once by its signal |
| Delivery.CancelledYetDelivered | src/mail/notifier.rs:411-440 | for every message, a run in which the call reports cancellation and the message is delivered in full |
| RateBucket.RateBucket.Reserve | src/git/rate_bucket.rs:91-111 | the slot taken is the later of now and one interval after the last |
| RateBucket.RateBucket.Finish | src/git/rate_bucket.rs:116-128 | a late wake moves the slot up, never down |
| RateBucket.RateBucket.TryAcquire | src/git/rate_bucket.rs:140-158 | permitted exactly when a reservation would be immediate; otherwise the exact wait and no change |
| RateBucket.PacingBound | src/git/rate_bucket.rs:70-158 | under any interleaving and late wakes: reservations an interval apart, no early start, and at most floor((t - first)/interval) + 1 starts by t |
| RateBucket.EarliestIsGiven | src/git/rate_bucket.rs:91-158 | after any run a caller is given the earliest instant a full interval after every reservation and every start, and one that will not wait proceeds exactly when that is now |
| RateBucket.AnchoredAtWake | src/git/rate_bucket.rs:85-90 | whoever reserves after a wake is placed a full interval after that wake |
| RateBucket.CloseWakesAreLate | src/git/rate_bucket.rs:75-90 | two starts less than an interval apart mean the first woke late |
| RateBucket.LatenessCosts | src/git/rate_bucket.rs:75-90 | a later caller starts at least the interval, less the earlier one's lateness, after it |
| RateBucket.LatenessBoundsSpacing | src/git/rate_bucket.rs:75-90 | over any run, wakes late by at most L leave all starts at least the interval less L apart |
| RateBucket.SpacingNeverGuaranteed | src/git/rate_bucket.rs:112-128 | after any run, every continuation keeps the starts an interval apart exactly when the interval is zero |
| RateBucket.SpacingGuaranteedIff | src/git/rate_bucket.rs:112-128 | after any run, exactly when a sleeping caller is bound to start an interval after one that already has, in every continuation |
| RateBucket.WakesCanCluster | src/git/rate_bucket.rs:112-128 | a run whose starts are one unit apart with interval ten |
| Quota.RateLimitState.ObserveFull | src/github/rate_limit.rs:123-136 | every field is replaced |
| Quota.RateLimitState.ObserveHeaders | src/github/rate_limit.rs:143-162 | only the fields present are replaced; with none present nothing changes |
| Quota.RateLimitState.ClampPessimistic | src/github/rate_limit.rs:169-186 | zero quota until a poll interval from now, unless something was observed |
| Quota.SnapshotIsLastObserved | src/github/rate_limit.rs:123-186 | over any history each field is the last value observed for it, over the one clamp that could take effect |
| Quota.GateExact | src/github/rate_limit.rs:188-226 | a request is permitted exactly when the last observation is at most 120 s old, the quota known, and positive or with no reset ahead |
| Quota.DeferralExact | src/github/rate_limit.rs:188-226 | exactly how long any other request waits: a poll interval, or until the recorded reset |
| Quota.FirstFailureWaits | src/github/rate_limit.rs:169-226 | while nothing but failures came, no request is sent until a minute after the first, and then one may be |
| Quota.DeferralReachesReset | src/github/rate_limit.rs:218-222 | sleeping out an exhausted-quota deferral ends at the recorded reset |
| Quota.ClampOnlyFirst | src/github/rate_limit.rs:169-177 | failed polls after an observation change nothing |
| RunMonitor.ListAllJobs | src/github/monitor.rs:212-266 | the page loop with its two caps equals the recursive listing, errors included |
| RunMonitor.ListingIsPrefix | src/github/monitor.rs:209-266 | a complete listing gives the first 1000 jobs of its first ten pages |
| RunMonitor.ListIff | src/github/monitor.rs:232-266 | exactly which jobs are listed: the first 1000 of whole linked pages up to the one that ends the list; and exactly when it fails: at a page that had to be fetched, with its failure |
| RunMonitor.Attempt | src/github/monitor.rs:195-203 | the highest attempt of the jobs, 1 without jobs |
| RunMonitor.PollOne | src/github/monitor.rs:172-207 | the run first, then its jobs; the first failure is the answer |
| RunMonitor.PollIff | src/github/monitor.rs:172-207 | exactly what a poll shows, at the highest attempt of its jobs, and exactly when it fails and how |
| RunMonitor.PollAndSend | src/github/monitor.rs:124-155 | one poll sends its event exactly if it succeeds with the receiver there; the monitor goes on exactly after a transient failure or a sent update, and otherwise ends as the poll dictates |
| RunMonitor.MonitorRun | src/github/monitor.rs:106-168 | every pass before the last goes on (no drain, and a transient failure or a sent update), the last ends the monitor with its own outcome; the stream is what the passes sent, in order, with a terminal event at its end exactly if it terminated |
| RunMonitor.EndsOnce | src/github/monitor.rs:115-166 | every pass either goes on or ends the monitor, with exactly one outcome |
| FlowMonitor.Monitor.FanOutJobCompletes | src/flow/monitor.rs:339-377 | filter, mark, notify every pair, wait, as specified |
| FlowMonitor.Monitor.RunMonitorWithSource | src/flow/monitor.rs:187-273 | the event loop equals the fold that stops at the terminal event |
| FlowMonitor.NotificationCounts | src/flow/monitor.rs:187-273 | for every stream: each notifier hears of a job as often as the first summary listing it as concluded lists it, of the run once if a terminal event arrived and never otherwise, and as many finishes are recorded |
| FlowMonitor.NotesAreTrue | src/flow/monitor.rs:187-243 | no notifier is told of a job that was not reported concluded, or of a run other than as its terminal event shows it |
| FlowMonitor.ExactlyOnce | src/flow/monitor.rs:328-332 | with job ids distinct in each summary, every job concluded in some received summary is notified exactly once per notifier |
| FlowMonitor.RepeatedIff | src/flow/monitor.rs:349-360 | exactly when a job is notified more than once |
| FlowMonitor.ListedTwiceHeardTwice | src/flow/monitor.rs:349-360 | a stream on which a notifier hears of one job twice |
| FlowMonitor.CompletionOrder | src/flow/monitor.rs:221-243 | all job notifications are awaited before the first run notification starts |
| FlowMonitor.MonitorLifecycle | src/flow/monitor.rs:172-273 | producer and consumer together: one run notification per notifier if the producer terminated and none otherwise; exactly then, with the state writer still there, one finish is recorded, with the conclusion and completion time of the last poll or their defaults |
| Correlator.ScanRunsForMatch | src/github/correlator.rs:389-431 | the name scan equals judging the marked entries of the pages it may look at |
| Correlator.ScanRunsForFallback | src/github/correlator.rs:443-480 | the fallback scan equals picking the newest over the pages it may look at |
| Correlator.ScanIff | src/github/correlator.rs:396-480 | exactly what a scan sees and exactly when it fails, and with which failure |
| Correlator.SingleIsOnly | src/github/correlator.rs:425-427 | a single match is the only marked entry, counted with repetition |
| Correlator.OnlyIsSingle | src/github/correlator.rs:425-427 | an only marked entry is a single match |
| Correlator.NewestIsEarliest | src/github/correlator.rs:454-463 | the pick is the earliest-listed of the newest entries not older than the cutoff, and there is none exactly when all are older |
| Correlator.ComputeEffectiveDeadline | src/github/correlator.rs:252-263 | the drain onset is captured once; the deadline is the lesser of the normal one and onset plus 30 s |
| Correlator.Correlate | src/github/correlator.rs:184-244 | the loop ends at the first pass with a verdict, with that verdict |
| Correlator.FoundIff | src/github/correlator.rs:217-240 | exactly when a pass ends with a run, and which: before the deadline, the only marked entry of the name scan; or, if the run name is not known to be configured and the name scan saw no marked entry or failed for the moment, the earliest-listed newest entry since dispatch minus 120 s |
| Correlator.MarkedIff | src/github/correlator.rs:389-423 | a run is marked exactly when `gcit-` and the id are a contiguous part of its name |
| Correlator.ApiErrorIff | src/github/correlator.rs:298-345 | exactly when a pass ends in an error, and which: in time, a scan it made failed for good |
| Correlator.TimeoutIff | src/github/correlator.rs:217-229 | exactly when a pass ends in a timeout: at or past its deadline, reporting 30 s once cancelled and 300 s otherwise |
| Correlator.DuplicateIff | src/github/correlator.rs:287-296 | exactly when a pass ends in a duplicate report: in time, with two or more entries marked |
| Correlator.GoesOnIff | src/github/correlator.rs:213-243 | exactly when a pass goes on: in time, nothing marked or the scan failed for the moment, and the fallback not tried, without a recent run, or failed for the moment |
| Correlator.MarkedShutsOutAge | src/github/correlator.rs:278-296 | where a name scan that came through saw a marked entry, a run found is that entry and no other is marked |
| Correlator.MarkedPassedOver | src/github/correlator.rs:298-306 | after a name scan whose second page fails for the moment, another run is the answer although a marked entry is listed on the first |
| Correlator.OnlyMatchIsFound | src/github/correlator.rs:277-286 | a lone marked entry is always the answer of its pass |
| Correlator.DuplicatesAlwaysReported | src/github/correlator.rs:287-295 | a pass ends in a duplicate report exactly when two or more entries are marked, listing the ids of all of them in order |
| Correlator.DeadlineOnlyShrinks | src/github/correlator.rs:246-263 | the deadline never moves later, and from the first pass that sees cancellation it is fixed |
| Correlator.DeadlineExact | src/github/correlator.rs:246-263 | the deadline is the start plus 300 s, or, once cancelled, no later than 30 s after the first pass that saw it |
| Correlator.ScansBeforeDeadline | src/github/correlator.rs:213-225 | no pass that goes past its deadline check is at or past the deadline; once some pass has seen cancellation, all later ones are within 30 s of that onset |
| Correlator.AttemptsBounded | src/github/correlator.rs:193-244 | without cancellation only the first eight passes can go on past their scans |
| Correlator.EarlySleeps | src/github/correlator.rs:63-65 | the doubling delays, capped at a minute, stay within five minutes for fewer than eight sleeps exactly |
| Correlator.BackoffIs | src/github/correlator.rs:63-65 | the delays are 5, 10, 20 and 40 seconds and a minute from then on |
| CredentialId.AcceptedIsValid | src/config/credential.rs:143-172 | the ordered checks accept exactly short ids of token characters without a leading hyphen; the path checks shut out nothing more |
| CredentialId.RefusalIff | src/config/credential.rs:143-172 | an id is refused with a reason exactly when that is the first rule it breaks |
| CredentialId.SameVariableIff | src/config/credential.rs:182-187 | two ids name the same variable exactly when, place by place, they have the same char, one letter in two cases, or `-` against `_` |
| CredentialId.VariableIs | src/config/credential.rs:182-187 | the variable of a legal id is `GCIT_CREDENTIAL_` and the id upper-cased with `_` for `-`, all of it `A`-`Z`, `0`-`9` and `_` |
| ConfigModel.ByteOffsetToLine | src/config/validate/mod.rs:84-94 | the counting loop gives one plus the newlines before the offset, clamped |
| ConfigModel.LineMonotone | src/config/validate/mod.rs:82-94 | later offsets are never on earlier lines or past the last |
| ConfigModel.LineCounts | src/config/validate/mod.rs:82-94 | the line is one plus the number of newline characters in front of the offset |
| ConfigModel.CollectRefs | src/config/mod.rs:60-97 | source, action, then webhooks, in order |
| ConfigModel.WalkedIffNamed | src/config/mod.rs:60-97 | a credential is walked, with its flow and use, exactly when that flow names it for that use |
| ConfigModel.RefsRanked | src/config/mod.rs:60-97 | within a flow the source comes before the action and the action before the webhooks |
| ConfigRules.RepoAcceptedIffOwnerRepo | src/config/validate/flow.rs:252-269 | splitting into two nonempty pieces is the same as exactly one `/` with something on both sides |
| ConfigRules.RepeatsIff | src/config/validate/credential.rs:82-107 | no repeat is reported exactly when no event is repeated |
| ConfigRules.DedupedKeeps | src/config/validate/credential.rs:82-107 | without repeats nothing is dropped |
| ConfigRules.SourceCleanIffValid | src/config/validate/flow.rs:129-214 | a source is reported for nothing exactly when scheme, ref and credential satisfy the rules |
| ConfigRules.ActionCleanIffValid | src/config/validate/flow.rs:217-396 | the same for an action, including the refused injected input |
| ConfigRules.DestinationCleanIffValid | src/config/validate/destination.rs:19-384 | the same for a destination of either kind, including fields of the other kind |
| ConfigRules.FlowCleanIffValid | src/config/validate/flow.rs:22-127 | the same for a whole flow |
| ConfigValidator.Validator.ValidateCredentialId | src/config/validate/credential.rs:22-49 | a valid id enters both tables, an invalid one is reported and enters neither |
| ConfigValidator.Validator.CollectFireOn | src/config/validate/credential.rs:74-109 | first occurrences in order, one report per repeat |
| ConfigValidator.Validator.ValidateFlow | src/config/validate/flow.rs:80-127 | reports, table entries and typed flow are those of source, action, destinations and cadence in this order |
| ConfigValidator.Validator.ValidateDestinations | src/config/validate/destination.rs:19-68 | the loop pushes each destination's reports and result; one of unknown kind is dropped |
| ConfigValidator.Validator.VisitFlows | src/config/validate/mod.rs:173-195 | the loop over flows: reports, both tables, the name table, typed flows |
| ConfigValidator.Validator.ReportDuplicateNames | src/config/validate/mod.rs:197-210 | one report per repeated name, in byte order of the names |
| ConfigValidator.Validator.ReportCollisions | src/config/validate/mod.rs:212-242 | one report per variable with two distinct ids, in byte order of the variables, with the ids in byte order and the lines increasing |
| ConfigValidator.ManyIdsIff | src/config/validate/mod.rs:215-218 | counting distinct ids beyond one is the same as two occurrences differing |
| ConfigCheck.CleanIffValid | src/config/validate/mod.rs:136-261 | nothing is reported exactly for a valid configuration |
| ConfigDue.FlowReportedIff | src/config/validate/flow.rs:22-127 | a flow gets exactly the reports that are due: for each rule on its own, what breaks it, the field, the rule and the line it is told at, whatever else is wrong |
| ConfigDue.OwnReportedIff | src/config/validate/mod.rs:136-195 | the same for the whole configuration before flows are compared |
| ConfigDue.DuplicateReportedIff | src/config/validate/mod.rs:197-210 | exactly which repeated names are reported, each with all its lines in order |
| ConfigDue.CollisionIsTrue | src/config/validate/mod.rs:212-242 | a reported collision names all ids of the variable in byte order and all lines that name one, in order, and nothing else |
| ConfigDue.SharedIsReported | src/config/validate/mod.rs:212-242 | every variable that two legal ids use is reported |
| ConfigCheck.FlowReportsStand | src/config/validate/mod.rs:173-195 | a flow's own reports stand together and depend on its own text only: wherever that text stands in a source, and whatever the other flows and the rest hold, they are those of the text alone, moved by the newlines in front |
| ConfigReports.FlowReportsLocated | src/config/validate/flow.rs:22-127 | every report of a flow stands at one line, that of one of the flow's own spans, and names the flow exactly when it is about neither an empty name nor a duration that does not parse; those name none |
| ConfigReports.UnparsableNamesNoFlow | src/config/validate/cadence.rs:165-169 | each duration of a flow that does not parse is reported at its line without the flow |
| ConfigReports.FlowReportsMove | src/config/validate/mod.rs:82-94 | with any text in front of and behind a flow, its whole list of reports stays the same, every line moved by exactly the newlines in front |
| ConfigReports.LineShifts | src/config/validate/mod.rs:82-94 | a span's line moves by exactly the newlines in front of the stretch of text it is in, whatever follows |
| ConfigCheck.TypedAsWritten | src/config/validate/flow.rs:118-126 | for valid parts every typed field is the one written or its documented default; no placeholder survives |
| ConfigCheck.LinesKept | src/config/validate/mod.rs:244-250 | the ids in the line table are exactly those referenced, each with exactly the lines that name it, increasing |
| ConfigCheck.ValidIsUnambiguous | src/config/validate/mod.rs:136-261 | flow names unique, distinct walked ids never share a variable, line table keyed by exactly the walked ids |
| ConfigCheck.Validate | src/config/validate/mod.rs:136-261 | accepts exactly the valid configurations, as written and unambiguous; otherwise returns every report in order |
| ConfigSpec.WalkedIffReferenced | src/config/mod.rs:60-97 | an id is walked exactly when the configuration text refers to it |
| Index.SortDedupIs | src/config/validate/mod.rs:247-250 | sorting and removing repeats gives the same lines, each once, increasing |
| Index.SortKeys | src/config/validate/mod.rs:214-216 | taking the least key again and again gives the keys in byte order |
| Index.InOrderAscends | src/config/validate/mod.rs:214-216 | that order ascends strictly |
| Index.ByteOrder | src/config/validate/mod.rs:214-216 | byte order itself: a prefix first, otherwise the lesser byte where two strings first differ |

## Left out

- The unmirrored writer loop (`src/state/writer.rs:119-192`): the mirrored one without its mirror lines.
- Serialization failure before a persist: the encoder of the state is total in the model.
- JSON and TOML text, duplicate keys and the array form of structures: documents are trees of named fields.
- RFC 3339 text of instants: a pair of functions of which only the round trip is required.
- Lock poisoning of the mirror is an input of each round; how it arises is not modelled.
- Lock waiting inside the spool writer is one step that succeeds or fails; fairness is not modelled.
- Text of errors, hints and log lines: reports carry lines, flow, field and rule. Their order inside a flow is the validator's own.
- Correlator.ScansBeforeDeadline: the scans begin at the deadline check; the instant between the two is not modelled.
- Deprecated `http.max_concurrent`: accepted and ignored, with a warning outside the model.
- URL, duration and template libraries: functions the theorems quantify over.
- Spool probe, template rendering, conclusion tables, name-based defaults of messages: outside the properties.
- The retry loop around dispatch, the poll loop, the supervisor and reload: their parts are not part of this model.
- Number of passes after cancellation in the correlator: a cancelled sleep returns at once, so only the deadline bounds them.
- Command line, installation, systemd and HTTP plumbing.
