# vm-agent: verified model of the agent's concurrent core

A Dafny model of the parts of the KVM agent that keep state, interleave, crash or run against a deadline, with proofs
of what they promise over every run.

| module | models | main results |
|---|---|---|
| `Ledger`, `CommandProtocol`, `CommandGuarantees` | the durable command ledger and the command arm of the message handler, as a step system with redelivery, interleaved handlers, failing statements and sends, crashes and restarts | at most one execution per command id, sticky replies, a write-once table |
| `CommandHandler`, `Registration` | the executor as shipped; the handler, the inventory retry and the heartbeat as sequential code | exact replays for the shipped executor; the sequential handler is a schedule of the step system |
| `SessionSequence` | the sequence counter and the channel shared by the session and the heartbeat | conservation and order of sequence numbers |
| `PoolSystem`, `WorkerPool` | the lock-free worker pool, one step per atomic access, and the same code as loops under interference, with its dispatcher | conservation, capacity, bounded late starts, lock freedom |
| `Registry`, `ConnectLoop`, `ConnectGuarantees`, `Connector` | assignments, the target selector and the reconnect loop | closed form of the backoff, order and duration of a pass, freshness, cancellation bound, termination after cancellation |
| `Lifecycle`, `GrpcServer`, `Quiescence` | the deadline-budgeted shutdown, and the whole process while it shuts down | failure cascade, exact meaning of a clean result, quiescence |
| `IdentityStore`, `Enrollment` | identity files written through temporary files, with a failure or crash at any operation | all-or-nothing files, certificate and key stay matched under an exact condition |
| `Endpoint`, `Text`, `Results` | address normalisation; trimming; result types | idempotence and the exact condition under which TLS server names agree |

How to read it. Each protocol is a total function `Next(state, action)` with `Run` folding it over any sequence of
actions, so a statement about `Run` from the initial state holds for every interleaving and every environment. Code
that the agent runs as a loop over variables appears again as a method with that loop; its contract says that it
computes what the step system or the specification function says. Values from outside (clock readings, outcomes of
awaits, replies, faults, what other threads do meanwhile) are parameters. `dafny verify dfyconfig.toml` verifies all.

## What turned out not to hold as one might read it

- A job can start after `stop_accepting`, because the flag is read before the compare-exchange loop
  (`PoolSystem.JobStartsAfterStop`). It can do so exactly when some thread is already past that read
  (`PoolSystem.LateStartIffSomeAttempt`), and no more jobs than such threads do.
- The channel to the hypervisor need not be sorted by sequence number (`SessionSequence.ChannelNeedNotBeSorted`); each
  producer's numbers rise. It is sorted exactly if no overtaken number gets into it; a number is overtaken when a frame is
  enqueued while another producer holds a smaller one (`SessionSequence.SortedIffOvertakenStayOut`).
- A row marked `agent_restart_before_completion` does not say whether its command ran: at every moment at which a command
  has been claimed, both are possible with the same table (`CommandGuarantees.RestartMarkIsSilentAboutExecution`).
- The ledger's update has no guard on the status. It is the handler's protocol that makes the table write-once; on its own
  the update is write-once only under the condition of `Ledger.UpdateIsWriteOnceIffUnfinished`.
- `ensure_private_key` treats a key file that cannot be read like a missing one and replaces it. If the process then stops
  before the new certificate is stored, the old certificate and the new key are loaded as a usable pair at the next start:
  `Enrollment.UnreadableKeyBreaksMatch` is such a disk, and `Enrollment.LoseMatch` runs the code into it wherever it can
  happen. `Enrollment.MatchIsKeptIff` says exactly when no fault can part certificate and key, and
  `Enrollment.MatchIsLostIff` exactly which faults do.
- A timeout's deadline can lie after the original one, by the time between reading the clock and arming the timeout; the
  second wait of the drain adds the time between reading the clock and entering `drain_tasks`
  (`Lifecycle.DeadlinesComeFromTheFirst`, `Lifecycle.DeadlineWithinTheFirstIff`).
- A clean shutdown does not mean that every task has ended: sessions spawn tasks that nobody tracks
  (`Quiescence.SessionTaskOutlivesCleanShutdown`). It means so for the three tracked ones. Every clean end leaves no
  session task exactly if, before the shutdown, the connector has ended and no such task is left
  (`Quiescence.CleanLeavesNoSessionTaskIff`).
- For an address that repeats `http://` at its front, the TLS server name is `http` while the endpoint loses all
  repetitions (`Endpoint.ServerNamesDisagree`, `Endpoint.ServerNameAgreesIff`).
- An exhausted pass is not followed by a sleep before the next resolve (`ConnectGuarantees.ExhaustedPassResolvesAtOnce`),
  and a changed assignment advances within the old candidates (`ConnectGuarantees.ChangedAssignmentStaysInPass`).

## Model

| member | source | states |
|---|---|---|
| Text.TrimRemovesOuterWhitespace | src/agent/command_ledger.rs:64-68 | trimming takes away the white space at both ends, all of it and nothing else |
| Ledger.CommandLedger.Open | src/agent/command_ledger.rs:26-57 | opening fails on a blank path or a failing statement and then changes nothing; otherwise exactly the rows left running are marked failed |
| Ledger.CommandLedger.BeginOrGet | src/agent/command_ledger.rs:59-91 | table and answer for every fault: an error without an id or a readable table; a row under the trimmed id handed out as it stands, as existing exactly if trimmed type and hash agree; else a running row with its resource and times, new if the insertion is verified |
| Ledger.CommandLedger.CompleteCommand | src/agent/command_ledger.rs:93-110 | the row under the trimmed id keeps its identity and gets status, normalised output, trimmed error and times; all other rows stay; no outcome is overwritten if the row was running; nothing changes if the statement fails |
| Ledger.CommandLedger.MarkStaleRunningFailed | src/agent/command_ledger.rs:112-123 | exactly the running rows get the restart mark, keeping identity and output; finished rows stay, in write-once order, and no row is left running |
| Ledger.MarkStale | src/agent/command_ledger.rs:118-121 | no row is lost, exactly the running ones are marked with the restart error and the time, and none is left running |
| Ledger.NormalizeResultJson | src/agent/command_ledger.rs:171-176 | never blank; a non-blank value is kept as it is and a blank one becomes the empty object |
| Ledger.FirstNonBlankWins | src/agent/command_ledger.rs:158-169 | the value is the trimmed text of the first listed field that holds a non-blank string; there is none if no listed field does |
| Ledger.ResourceIsNamedByFirstField | src/agent/command_ledger.rs:158-169 | the resource of a command is the trimmed text of the first of the five fields that holds a non-blank string, if any |
| Ledger.UnparsedPayloadNamesNothing | src/agent/command_ledger.rs:158-159 | a payload that does not parse names no resource |
| Ledger.BeginKeepsTable | src/agent/command_ledger.rs:77-90 | beginning keeps the table valid and write-once; it answers at all exactly with an id, a readable table and either a row or no fault, New exactly for an unused id, Existing exactly for the same command |
| Ledger.CompleteKeepsTable | src/agent/command_ledger.rs:105-108 | completing a running row keeps the table valid and write-once |
| Ledger.MarkStaleKeepsTable | src/agent/command_ledger.rs:118-121 | the sweep keeps the table valid and write-once, and stores the restart mark in exactly the running rows |
| Ledger.UpdateIsWriteOnceIffUnfinished | src/agent/command_ledger.rs:105-108 | the unguarded update is write-once if and only if it meets no finished row or changes nothing in it |
| CommandProtocol.NextKeepsInv | src/agent/registration.rs:46-122 | every delivery, invocation, return, completion, send, crash and restart keeps the protocol invariant and extends the table in write-once order |
| CommandProtocol.OutcomeMeans | src/agent/registration.rs:62-83 | an outcome is answered with its value or its error text, and kept with the value made non-blank and the error trimmed |
| CommandProtocol.DeliverKeepsInv | src/agent/registration.rs:55-102 | a delivery, whatever its key and fault, keeps claims unique and decided replies in agreement with the table |
| CommandProtocol.FinishKeepsInv | src/agent/registration.rs:63-83 | a stored completion keeps the invariant, although the update would overwrite a finished row |
| CommandProtocol.ReopenKeepsInv | src/agent/command_ledger.rs:52-57 | a restart over any crashed state keeps the invariant |
| CommandGuarantees.ExecutedAtMostOnce | src/agent/registration.rs:55-83 | over every run the executor is invoked at most once per trimmed command id, and only by the handler that got New |
| CommandGuarantees.RepliesAreSticky | src/agent/registration.rs:84-102 | in ledger order, replies to one command are running any number of times and then one outcome for good, across restarts, up to the ledger's normalisation of the first |
| CommandGuarantees.VerbatimRepliesAreConstant | src/agent/registration.rs:64-83 | if outcomes survive normalisation, the first outcome and every replay are the same reply |
| CommandGuarantees.ShippedRepliesAreConstant | src/agent/command_handler.rs:19-40 | with the executor as shipped, replies to one command never change once they carry an outcome |
| CommandGuarantees.MismatchIsRefused | src/agent/registration.rs:97-101 | a request that reuses an id for another command is always answered with the mismatch error |
| CommandGuarantees.SentWasDecided | src/agent/registration.rs:103-121 | a frame carries the reply that the ledger decided for its handler |
| CommandGuarantees.TableIsWriteOnce | src/agent/command_ledger.rs:93-110 | between any two moments of any run no row is lost, no identity column changes and no outcome is overwritten |
| CommandGuarantees.SuccessWasReturned | src/agent/registration.rs:64-72 | a row says succeeded only if its command ran exactly once and returned the stored value |
| CommandGuarantees.FailureWasReturned | src/agent/registration.rs:73-81 | a row says failed without the mark of a restart only if its command ran exactly once and returned the error whose trimmed text it keeps |
| CommandGuarantees.FreshReplyTellsOutcome | src/agent/registration.rs:62-83 | a reply that is no replay is the outcome that the executor returned to this handler |
| CommandGuarantees.RedeliveryIsAnswered | src/agent/registration.rs:84-102 | a faultless redelivery to a live agent is answered with the recorded reply, or with the mismatch error for another command, over an unchanged table |
| CommandGuarantees.NewCommandIsClaimed | src/agent/command_ledger.rs:84-90 | a faultless delivery under an unused id is claimed with a running row of its own key, resource and time |
| CommandGuarantees.OutcomeIsDecided | src/agent/registration.rs:62-83 | a stored completion decides the outcome that the handler holds and keeps it normalised |
| CommandGuarantees.OpenLeavesNothingRunning | src/agent/command_ledger.rs:52-57 | after a successful open no row is running |
| CommandGuarantees.KeysIdentifyCommands | src/agent/command_ledger.rs:65-71 | for a collision-free digest two requests are the same command if and only if trimmed id, type and payload agree |
| CommandGuarantees.DeliveryUsesRequestKey | src/agent/registration.rs:55-59 | a delivery is recorded, if at all, under the key of its own request |
| CommandGuarantees.RestartMarkIsSilentAboutExecution | src/agent/command_ledger.rs:112-123 | in any run and for any claimed command, a crash before and a crash after the executor was invoked leave the same table with the restart mark, the executions being none and one |
| CommandGuarantees.FirstCommandIsClaimed | src/agent/registration.rs:55-63 | a first request with an id, delivered to a fresh agent, is claimed |
| CommandHandler.ExecutorFailsVerbatim | src/agent/command_handler.rs:19-47 | every command fails with an error text that trimming leaves alone |
| CommandHandler.ExecutorAnswers | src/agent/command_handler.rs:19-40 | which error goes with which command: blank type, unparsable payload, unsupported type, or not implemented for its target |
| CommandHandler.TargetIsNamedByFirstField | src/agent/command_handler.rs:49-59 | the target is the trimmed text of the first of the five fields that holds a non-blank string, else unknown |
| Registration.HandleServerMessage | src/agent/registration.rs:16-126 | for each kind of message: table, counter, channel and result afterwards; a new command is answered with its outcome and its row keeps that, a redelivery with what its row holds, another command under its id with the mismatch error, and nothing is sent if the ledger fails |
| Registration.DecideReply | src/agent/registration.rs:55-102 | the reply of the command arm and the table it leaves, for every outcome and fault |
| Registration.SendHostInventoryWithRetry | src/agent/registration.rs:128-175 | three attempts, one number each; the frame is enqueued once, with the number of the first attempt that gets through |
| Registration.HandlerIsASchedule | src/agent/registration.rs:46-122 | the sequential handler takes the step system from table to table, and what it enqueues is the one frame that the system logs as sent by this handler under its key |
| Registration.RunHeartbeatLoop | src/agent/heartbeat.rs:14-67 | one heartbeat per tick up to the first cancellation or closed channel, each with the next number that the others leave to it, in the channel among the frames that the others enqueue before a tick or between number and send |
| SessionSequence.NumbersAreConserved | src/agent/registry.rs:165-199 | in any interleaving the numbers handed out are the disjoint union of sent, held and lost; sent ones are distinct, rise per producer, and start with the session's register frame under 1, the only one of its kind |
| SessionSequence.NextKeepsInv | src/agent/heartbeat.rs:47-67 | stamping, enqueueing, failing, retrying, spawning and aborting keep conservation and order |
| SessionSequence.ChannelNeedNotBeSorted | src/agent/registration.rs:103-121 | a run in which a heartbeat overtakes a lower number of the session |
| SessionSequence.SortedIffOvertakenStayOut | src/agent/registration.rs:103-121 | over any run the channel is sorted if and only if every number overtaken in it stays out of it |
| SessionSequence.EnqueueKeepsSorted | src/agent/heartbeat.rs:47-67 | an enqueue keeps the channel sorted if and only if it was, and the number has not been overtaken before |
| PoolSystem.InFlightCountsHolders | src/worker/pool.rs:34-72 | in every interleaving the counter is the number of threads holding a job, at most the capacity, and no finish meets zero |
| PoolSystem.LossesBoundedByWins | src/worker/pool.rs:39-71 | over any run of n threads, lost compare-exchanges are at most n-1 times the won ones |
| PoolSystem.NextKeepsLossesPaid | src/worker/pool.rs:39-71 | every lost exchange and every stale load is paid for by a win of another thread |
| PoolSystem.LateStartsAreBounded | src/worker/pool.rs:74-75 | after the stop, late starts are bounded by the attempts under way, the load never grows, and a zero load is final |
| PoolSystem.LateStartIffSomeAttempt | src/worker/pool.rs:34-52 | a stopped pool can still start a job if and only if some thread is past the look at the accepting flag |
| PoolSystem.JobStartsAfterStop | src/worker/pool.rs:34-52 | a run in which one thread starts its job after the stop |
| WorkerPool.WorkerPool.TryStartJob | src/worker/pool.rs:34-52 | under any interference the loop ends, is a run of the step system with the others' steps in their order, and has started one job, which the caller holds, or none, after the caller has been turned away |
| WorkerPool.WorkerPool.FinishJob | src/worker/pool.rs:54-72 | under any interference the loop ends, is a run of the step system, and gives the job back |
| WorkerPool.WorkerPool.Drain | src/worker/pool.rs:85-107 | stops at the first poll that reads zero or when the time is used up, and tells which; if nobody can start a job any more, a zero is final |
| WorkerPool.WorkerDispatcher.Run | src/worker/dispatcher.rs:36-87 | in every turn up to the first that is cancelled or finds polling stopped, the loop starts and finishes one job or is turned away; it is a run of the step system whose other steps are those of the turns; undisturbed, it does as many jobs as turns exactly if the pool accepts and has room |
| WorkerPool.LegTellsAt | src/worker/dispatcher.rs:57-76 | in each of those turns the thread starts one job, if the turn is reported as worked, else none and it is turned away in it |
| Registry.ResolveAssignment | src/agent/registry.rs:346-369 | fails exactly if all addresses are blank; else period of at least five seconds, expiry after two of them, the response's names and epoch, and the non-blank addresses trimmed in order or else the preferred one |
| Registry.UsableIsDrawn | src/agent/registry.rs:346-352 | the candidates are all the non-blank addresses, trimmed, each once, in the response's order |
| Registry.RefusedIffAllBlank | src/agent/registry.rs:353-360 | a response is refused if and only if all its addresses are blank; candidates are non-empty and trimmed |
| Registry.BackoffClosedForm | src/agent/registry.rs:70 | doubling with a cap at each step equals min(base * 2^k, max), and is positive |
| Registry.FailoverDelayBounds | src/agent/registry.rs:431-439 | the delay is the backoff plus the clock's milliseconds modulo a fifth of it, at most six fifths of it |
| Registry.RuntimeTargetSelector.Current | src/agent/registry.rs:411-418 | the target at the index, which is never wrapped |
| Registry.RuntimeTargetSelector.Advance | src/agent/registry.rs:420-429 | next target with doubled capped backoff, or no target left |
| ConnectLoop.NextKeepsInv | src/agent/registry.rs:45-144 | every step of the loop keeps its variables in agreement with what it has done, and does only admissible things |
| ConnectGuarantees.BackoffHasClosedForm | src/agent/registry.rs:43-86 | the outer backoff is min(base * 2^f, max) for f failed rounds since the start or the last ended session, and each retry sleep lasts exactly that long |
| ConnectGuarantees.FailoverSleepIsBounded | src/agent/registry.rs:118-140 | the k-th failover sleeps at least min(base * 2^k, max) and the outer backoff, at most 6/5 of max |
| ConnectGuarantees.PassFollowsCandidates | src/agent/registry.rs:89-143 | sessions of a pass go to the candidates in order, each at most once |
| ConnectGuarantees.ExhaustedPassTriedAll | src/agent/registry.rs:131-136 | an exhausted pass over n candidates has tried each once and slept n-1 times, at most (n-1) * 6/5 * max in total |
| ConnectGuarantees.PassOverNEndsWithin2N | src/agent/registry.rs:89-143 | a pass over n candidates is over within 2n-1 steps, for all inputs |
| ConnectGuarantees.ExhaustedPassResolvesAtOnce | src/agent/registry.rs:131-136 | the failure that exhausts a pass leads to the next resolve without a sleep, exactly if nothing is cancelled and there is an identity |
| ConnectGuarantees.ChangedAssignmentStaysInPass | src/agent/registry.rs:271-277 | a changed assignment moves on to the next old candidate; only after the last one is the cache dropped for a new resolve |
| ConnectGuarantees.AdoptionsAreFresh | src/agent/registry.rs:51-88 | an adopted assignment comes from a response, its candidates included; it is newly resolved, or the cached one before its expiry, which is two refresh periods after it was last resolved |
| ConnectGuarantees.AdoptionAfterExhaustionIsRenewed | src/agent/registry.rs:132-134 | after an exhausted pass the next adoption is newly resolved |
| ConnectGuarantees.CancellationBeginsAtMostOne | src/agent/registry.rs:45-141 | after the cancellation at most one session or one retry sleep begins, not both |
| ConnectGuarantees.CancelledLoopEnds | src/agent/registry.rs:45-141 | a cancelled loop ends within five further steps |
| ConnectGuarantees.LoopEndsIff | src/agent/bootstrap.rs:222-226 | the loop ends exactly if cancelled at its top or in a failover's wait, without an identity, or on a session that fails as unauthenticated or with an invalid argument |
| ConnectGuarantees.ResolveRenews | src/agent/registry.rs:51-94 | a response with a candidate is adopted as it came, and the pass begins with its first candidate |
| ConnectGuarantees.ResolveFallsBack | src/agent/registry.rs:56-86 | without one the cached assignment is used while it lasts, and only without either the loop sleeps for the outer backoff |
| ConnectGuarantees.SessionEndDecides | src/agent/registry.rs:107-141 | an orderly end resets the backoff; a failure sleeps for the larger of outer and jittered own backoff with the next target up, or drops the cache and doubles the outer backoff after the last |
| ConnectGuarantees.SleepEndDecides | src/agent/registry.rs:69-70 | after a retry sleep the outer backoff is doubled up to its cap; after a failover's wait the session goes to the target that is up |
| Connector.RunPass | src/agent/registry.rs:89-143 | the inner loop with its selector object is a run of the state machine |
| Connector.ChooseAssignment | src/agent/registry.rs:51-87 | newly resolved, else cached and unexpired, else none |
| Connector.BeginRound | src/agent/registry.rs:45-50 | leave on cancellation, fail on a failed identity, else resolve |
| Connector.ConnectHypervisor | src/agent/registry.rs:38-147 | the nested loops show exactly the log and the exit of the state machine, for every input |
| Lifecycle.DeadlinesComeFromTheFirst | src/app/lifecycle.rs:95-105 | each timeout can fire at the original deadline, later only by the time from reading the clock to arming it, and for the second wait of the drain by the time to entering it |
| Lifecycle.DeadlineWithinTheFirstIff | src/app/lifecycle.rs:95-105 | a deadline lies within the original one if and only if the clock was read in time and the timeout armed at that moment |
| Lifecycle.FailuresCascade | src/app/lifecycle.rs:95-106 | a failed phase leaves no budget to the later ones, which fail, or overrun by the clean-up time |
| Lifecycle.CleanIffDependenciesClosedInTime | src/app/lifecycle.rs:107-116 | clean if and only if the dependencies closed and the elapsed time is within the timeout |
| Lifecycle.EndsByDeadlinePlusLateness | src/app/lifecycle.rs:66-136 | the sequence ends by start plus timeout plus what is spent past the deadline: code that runs there, and overruns and stale budgets of awaits that return there |
| Lifecycle.PunctualEndsByDeadline | src/app/lifecycle.rs:66-136 | if late awaits were armed as read and fired on time, and no code runs past the deadline, the sequence ends by the deadline |
| Lifecycle.LastPhaseDecides | src/app/lifecycle.rs:104-107 | the overrun is that of the last phase, whose budget is read anew whatever the earlier ones took |
| Lifecycle.AppContext.Shutdown | src/app/lifecycle.rs:66-136 | the result, stated by its meaning, every flag flipped, and the pool drained as far as its callers let it; the server may end during the drain or the wait |
| Lifecycle.AppContext.DrainTasks | src/app/lifecycle.rs:138-183 | drained if and only if budget was left for the wait and the tracked tasks ended in it; the pool is polled meanwhile, and a zero seen with no attempt under way is final |
| Lifecycle.AppContext.CloseTransports | src/app/lifecycle.rs:185-223 | closed if and only if budget was left and the server was seen stopped |
| GrpcServer.GrpcServer.Shutdown | src/transport/grpc/server.rs:124-163 | stopped if and only if some look at the running flag saw it down; a stopped server is not waited for |
| GrpcServer.GrpcServer.Run | src/transport/grpc/server.rs:51-99 | with a bad address nothing happens; else the server is down in the end and has seen one signal at most, exactly if it was stopped while serving |
| GrpcServer.EachRunIsSignalledOnce | src/transport/grpc/server.rs:33-41 | however often it is stopped, one run is signalled once, if its sender was stored, and not at all otherwise |
| GrpcServer.SignalsNeverExceedRuns | src/transport/grpc/server.rs:66-70 | over any calls there are no more signals than runs to be stopped |
| Quiescence.CleanMeansQuiescent | src/app/lifecycle.rs:66-136 | a clean result means that all tracked tasks have ended, no job is in flight or can start, all flags are down, and nothing of that can change any more |
| Quiescence.ConcludesCleanIff | src/app/lifecycle.rs:110-135 | the result is clean exactly if drain, transports and dependencies all succeeded in time |
| Quiescence.SessionTaskOutlivesCleanShutdown | src/agent/registry.rs:189-203 | a run with a clean result in which a task spawned by a session is still there |
| Quiescence.CleanLeavesNoSessionTaskIff | src/agent/registry.rs:189-203 | from any moment before the shutdown, every clean end leaves no session task if and only if the connector has ended by then and none is left |
| Quiescence.CleanEndIsPossible | src/app/lifecycle.rs:66-136 | from every moment before the shutdown there is a clean end: the dispatcher, the server and the connector can always come to their end once told to stop |
| Quiescence.TransportsCloseAfterDrain | src/transport/grpc/server.rs:134-141 | after a successful drain the server's wait ends at its first look; the gap before waiting for the notification is not entered |
| Quiescence.NextKeepsInv | src/main.rs:59-93 | every step of the server, the dispatcher, the connector with its sessions' tasks and the shutdown keeps the process invariant |
| IdentityStore.IdentityStore.WriteFile | src/repository/vm.rs:164-194 | succeeds exactly if all its four operations work; with a failure or crash at any of them, final paths hold whole old or whole new content, new files under their restricted mode |
| IdentityStore.IdentityStore.EnsurePrivateKey | src/repository/vm.rs:34-50 | a readable non-empty key is kept; in every other case a generated one takes its place if it can be made and written |
| IdentityStore.IdentityStore.LoadIdentity | src/repository/vm.rs:76-98 | an identity exactly if the three files can be read, made of them as they stand, with the trimmed target exactly if that is readable and not blank |
| IdentityStore.IdentityStore.HasUsableClientCertificate | src/repository/vm.rs:140-162 | usable exactly if the three files can be read, are not empty and the certificate is unexpired |
| IdentityStore.IdentityStore.SaveIdentity | src/repository/vm.rs:100-118 | certificate, CA and trimmed target are written whole, each under its mode, up to the first write that does not work; all of them on success, and nothing else changes |
| Enrollment.BootstrapEnroll | src/agent/bootstrap.rs:28-89 | the files it leaves and whether it succeeds, exactly, for every fault; on success certificate, CA and trimmed target of the reply are on disk and returned, for the key on disk; without a token it touches nothing |
| Enrollment.EnrollLeavesPrefix | src/agent/bootstrap.rs:28-78 | wherever it stops, the files are the old ones, those with a new key, or these with the first of certificate, CA and target of the reply |
| Enrollment.QuietEnrollSucceeds | src/agent/bootstrap.rs:28-78 | without faults it succeeds exactly with a token, a key, a request for it, and a reply that names an agent and a target |
| Enrollment.EnsureIdentity | src/agent/bootstrap.rs:13-23 | a usable identity is loaded untouched, otherwise the agent enrolls; files and success are exact for every fault, what is returned is what is on disk, and after an enrollment that is the reply |
| Enrollment.MatchIsKeptIff | src/repository/vm.rs:34-50 | an attempt keeps certificate and key matched for all faults if and only if it has no token, or no key can be made, or the certificate on disk does not parse or fits the new key |
| Enrollment.MatchIsLostIff | src/repository/vm.rs:34-50 | for given faults certificate and key part if and only if an unreadable key is replaced by one that the old certificate does not fit, and no new certificate is stored |
| Enrollment.LoseMatch | src/agent/bootstrap.rs:13-78 | for every attempt outside that condition, the code run on a disk whose key cannot be read ends with an unmatched pair, which the next start loads if it was usable |
| Enrollment.UnreadableKeyBreaksMatch | src/repository/vm.rs:34-50 | a disk and an attempt for which an unreadable key is replaced and a mismatched pair stays usable |
| Enrollment.HistoryKeepsMatch | src/agent/bootstrap.rs:13-78 | over any history of starts in which the key can be read, certificate and key match at every moment and a key is never replaced |
| Enrollment.StartAfter | src/agent/bootstrap.rs:13-23 | a quiet start after any such history loads a matched pair with a CA exactly if the disk is usable, else enrolls, with success exactly if it is given what it needs |
| Endpoint.NormalizedIsHttpsAndFixed | src/agent/bootstrap.rs:189-198 | every address becomes an https one, and normalising is idempotent |
| Endpoint.NormalizedAddress | src/agent/bootstrap.rs:189-198 | an https address stays, the plain scheme becomes https, and a bare address gets it |
| Endpoint.ServerNameAgreesIff | src/agent/bootstrap.rs:202-218 | the server names for raw and normalised address agree if and only if one is configured, or the plain scheme is not repeated, or the host is called http |
| Endpoint.ServerNamesDisagree | src/agent/bootstrap.rs:202-218 | an address whose server name is `http` while the connection goes to `node` |
| Endpoint.ConfiguredNameWins | src/agent/bootstrap.rs:203-206 | a configured name is used, trimmed |
| Endpoint.HostNameIsDerived | src/agent/bootstrap.rs:208-217 | without one it is what follows the scheme, up to a port or a path |
| Endpoint.BootstrapKeepsScheme | src/agent/bootstrap.rs:176-185 | bootstrap refuses only blank addresses, keeps a given scheme and is idempotent |
| Endpoint.BootstrapAddress | src/agent/bootstrap.rs:176-185 | an address with a scheme is taken as given, any other gets the plain scheme |

## Left out

- Ledger.CommandLedger.CompleteCommand: the status is one of the three texts the handler passes, not a text to be trimmed.
- Registry.ResolveAssignment: doubling the refresh period is over unbounded integers; the code needs it to fit 64 bits.
- Registration.SendHostInventoryWithRetry: the 200 ms pause between attempts has no effect in the model.
- Registration.HandleServerMessage: the sequence counter is unbounded; the code's wraps at 2^64.
- WorkerPool.WorkerPool.Drain: wake-ups by notification and by the 100 ms poll are not told apart.
- Quiescence.TransportsCloseAfterDrain: time is not part of that module; that the wait is not reached after a failed drain either follows from `Lifecycle.FailuresCascade`.
- Quiescence.CleanMeansQuiescent: tasks that sessions spawn outside the tracker are counted, not told apart; that they see the cancelled token themselves is not modelled.
- Quiescence.NextKeepsInv: the server may leave its serving state on the flags alone; the one-shot sender is in `GrpcServer` only.
- Connector.ConnectHypervisor: opening the ledger and collecting host facts before the loop; a session is its result and its error code.
- SessionSequence.NumbersAreConserved: the channel's capacity of 100 only delays a send, which the model allows at any time.
- Enrollment.BootstrapEnroll: building the channel and the remote call are one step with any answer, which covers a failed read of the CA file there; certificates are texts with an expiry and a relation to keys.
- Enrollment.LoseMatch: the file system's reasons for a failing read are not modelled; any operation may fail.
- Registration.RunHeartbeatLoop: which numbers the frames of the other producers carry is left to `SessionSequence`.
- GrpcServer.EachRunIsSignalledOnce: the sender is taken in the call, where the code does so in a task spawned by it.
- SQLite is a table whose statements are atomic and durable or fail; one process owns the database.
- Durability below rename is left to the file system; the four files and their temporary names are distinct.
- SHA-256 (section 6.2 of FIPS 180-4), lower-casing and the JSON parser are arbitrary functions; parser messages are taken to end in a position, hence not in white space.
- Durations of the reconnect loop are whole milliseconds, as the configuration makes them, and unbounded.
- TLS, gRPC transport, certificate parsing, key generation, host facts, telemetry, logging, environment loading and protobuf are not part of this model.
