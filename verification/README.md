# Verified models of the protocol and tooling cores

This project models six parts of the repository in Dafny and proves what they are for.

| part | modules |
|---|---|
| the distributed lock ring | `LockRing` |
| the Raft step interpreter of the etcd schedules | `RaftMajority`, `RaftInterpreter`, `RaftElection`, `RaftGuards`, `RaftLogs`, `RaftReplication`, `RaftCommits`, `RaftLogRuns`, `RaftLogGuards`, `RaftEffects` |
| the I/O scheduler: framing, send pipeline, routing | `Framing`, `SendPipeline`, `SendRouting`, `SendOrder` |
| the TLC value parser and canonicaliser | `TlcOrder`, `TlcCanonical`, `TlcValueOrder`, `TlcJson`, `TlcRepresents`, `TlcReorder`, `TlcParser`, `TlcPrinting`, `TlcRoundTrip`, `TlcDump` |
| the acceptor's log window and checkpoint vector | `VoteWindow`, `Checkpoints` |
| the comment blanker and the batch annotator | `CommentBlanker`, `BatchEdits` |

`Common` holds the helpers the parts share. `dafny verify dfyconfig.toml` checks everything.

**Lock ring.** The exec operations are methods proved against the per-host contracts. Those contracts
are then put on a network of n hosts that may delay, duplicate and reorder packets but not forge
them: `sent` is the set of all packets ever sent, and a receive takes any of them addressed to the
host. Mutual exclusion, the single token going round the ring, and the refinement of an append-only
history of holders are theorems about every run.

**Raft.** `Interpreter.Run` mutates the global state in place; `Apply` says what each action does to
the whole state. The interpreter checks little by itself. The election rule (section 5.2 of the Raft
paper, Ongaro and Ousterhout, 2014) holds in every run exactly when whoever drives it respects four
guards, and each guard is shown to be needed by a run that breaks the rule without it. Logs, commit
indices and the ballot ledger only grow in every run, whatever the guards. With safe elections, log
matching (section 5.3 of the same paper) holds in every run exactly under four further guards on client
requests and appends, and state machine safety (section 5.4.3), that no two nodes ever commit conflicting
entries, exactly under those and a fifth on finishing a request. A commit moves exactly to the largest index
that more than half of the voters have matched, provided its entry is of the leader's own term; `RaftEffects` says
what the bookkeeping and the messages mean over whole runs.

**I/O scheduler.** The threads' atomic actions are steps that interleave arbitrarily. One weighing
lemma (`StepMovesOneTask`) carries conservation, bounded retry and termination. Every queue is first in, first
out over whole runs, and a destination's tasks are sent in the order they were accepted exactly under the guard
that it has one sender. The framing codec is proved as loops over streams with short reads and 8 MB pieces.

**TLC values.** The parser is written with its position-advancing loops and proved to compute a
recursive specification; that specification inverts printing under any layout, TLC's own separators among
them. The canonical order is said of the values themselves, and sort keys compare in exactly that order. What a
JSON must be to represent a value is said independently, and the normaliser gives the one JSON that does; it does
not depend on the order in which a value's parts were printed.

**Acceptor.** The two vote-map operations are functions that satisfy the source's relations; the
heartbeat handler is a method with the source's loops.

**Scanners.** The comment blanker and the batch insertion are methods proved against definitions that
do not scan with flags and do not insert in any order.

## What turned out not to hold

Each of these is stated as an exact condition, with an input, or a way to build one, for the failing side.

- `strip_comments` sets its block-comment flag and never clears it, so it blanks everything after the
  first block comment, although its documentation speaks of blanking comments only. It does what is
  documented exactly when no code follows the first block comment
  (`CommentBlanker.DocumentedIffNoCodeAfterBlock`, `CommentBlanker.CodeAfterBlockIsLost`).
- The step interpreter alone does not guarantee election safety; it does exactly under all four
  guards (`RaftGuards.ElectionSafetyIffAllGuards`).
- Extending a log that is shorter than the request's starting point slices the entries at a negative
  index, so entries from the wrong end are appended (`RaftLogs.ExtendInstallsIff`). It happens in a run
  of two voters under all election guards (`RaftGuards.ShortLogMisextended`).
- Safe elections alone do not make logs match. They match in every run exactly when only leaders take
  client requests and a log is extended only by a request that reaches it, carries the term before it and
  agrees with it on the overlap (`RaftLogGuards.LogMatchingIffGuards`).
- Nor does that make commits safe: a request may be finished by a node that does not hold what it quotes.
  Committed entries never conflict exactly when finishing is guarded too
  (`RaftLogGuards.CommitSafetyIffAllGuards`).
- A task can be left for good in the queue of a sender that has finished: the dispatch thread may look
  the sender up before it unregisters and post after it has drained. A task is in such a queue exactly
  when a post found its sender finished (`SendRouting.StrandedIffLatePost`), and it never leaves
  (`SendRouting.LatePostStrandsForGood`); that every accepted task is sent or dropped in the end holds
  exactly for the tasks without such a post (`SendRouting.DoneIffNoLatePost`,
  `SendRouting.StrandingHappens`).
- A destination's tasks need not be sent in the order they were accepted, even if nothing ever fails: once a
  second connection is registered, later packets go through it and overtake those waiting at the first. Sending is
  in order in every run exactly under the guard that a destination has one sender
  (`SendOrder.InOrderIffOneSender`, `SendOrder.SecondSenderOvertakes`).
- Different values of one shape need not get different JSON, because two tags may be mapped to one name. They do
  exactly when the tag map is injective (`TlcRepresents.TellsApartIffInjective`).
- A model value is not read back when its name starts with `TRUE` or `FALSE`, which is read as a boolean,
  or with a digit, which is read as an integer (`TlcPrinting.ModelValueReadBack`,
  `TlcPrinting.MisreadNames`).
- For a function printed with a repeated argument the canonical form depends on the printing order;
  it does not exactly when a repeated argument repeats its value
  (`TlcReorder.EntryOrderIrrelevantIffConsistent`).
- An unsafe operation, such as a stored vote that lowers the truncation point by more than one, makes
  some window that agreed with its history disagree (`VoteWindow.KeepsAgreementIffSafe`).
- With repeated replica ids the heartbeat handler misses its specification for some choice of index,
  and the vector is not the join (`Checkpoints.SpecificationIffUnique`, `Checkpoints.JoinIffUnique`).

## Model

| member | source | states |
|---|---|---|
| `LockRing.Contains` | transpiler/verus_examples/lock_node_accept_complete.rs:149-178 | the loop returns true exactly when the endpoint is in the configuration |
| `LockRing.GrantLock` | transpiler/verus_examples/lock_node_grant_complete.rs:284-403 | satisfies the grant contract; a holder sends exactly one Transfer, with the next epoch, to its successor on the ring |
| `LockRing.AcceptTimeout` | transpiler/verus_examples/lock_node_accept_complete.rs:373-400 | satisfies the accept contract with a single timeout and no change |
| `LockRing.AcceptLock` | transpiler/verus_examples/lock_node_accept_complete.rs:403-463 | satisfies the accept contract for a fresh Transfer and announces the epoch with a Locked packet from its own address |
| `LockRing.AcceptIgnore` | transpiler/verus_examples/lock_node_accept_complete.rs:466-507 | satisfies the accept contract by consuming the packet and changing nothing |
| `LockRing.StepKeepsInv` | transpiler/verus_examples/lock_node_accept_complete.rs:68-98 | every step of every host keeps the system invariant, the history growing only by accepts |
| `LockRing.FreshIsNewest` | transpiler/verus_examples/lock_node_accept_complete.rs:77 | only the newest Transfer can be accepted, only at its ring position, and only while nobody holds the lock |
| `LockRing.RunInv` | transpiler/verus_examples/simple_spec.rs:13-16 | from one holder and epoch 0 everywhere, the invariant holds in every state of every run |
| `LockRing.MutualExclusion` | transpiler/verus_examples/lock_node_accept_complete.rs:403-463 | at most one host holds the lock in every state of every run |
| `LockRing.OneTokenRoundTheRing` | transpiler/verus_examples/lock_node_grant_complete.rs:284-372 | with latest epoch E the lock is at position (start + E) mod n, held there or carried by the only acceptable packet; older Transfers are stale |
| `LockRing.AlwaysOneToken` | transpiler/verus_examples/lock_node_grant_complete.rs:284-372 | every state of every run has exactly one latest epoch E; its one token is at position (start + E) mod n, and older Transfers are stale |
| `LockRing.RefinesService` | transpiler/verus_examples/lock_node_accept_complete.rs:417-439 | every run refines an append-only history of holders: an accept appends the acceptor, every other step stutters |
| `LockRing.LockedEpochHasOneSource` | transpiler/verus_examples/lock_node_accept_complete.rs:420-424 | all Locked packets of one epoch, anywhere in a run, come from one host |
| `RaftInterpreter.Interpreter.constructor` | scripts/build_tlaps_bench_etcd_uptodate_counterexample.py:16-17 | the initial nodes, with nothing pending, in flight or cast, for any number of voters |
| `RaftInterpreter.Interpreter.Run` | scripts/build_tlaps_bench_etcd_uptodate_counterexample.py:20-69 | changes the whole state as the action says, or raises and changes nothing |
| `RaftInterpreter.Interpreter.RunReceive` | scripts/build_tlaps_bench_etcd_counterexample.py:23-43 | the six ways of receiving a message in flight, including which of them consume it |
| `RaftInterpreter.Interpreter.AgreedIndex` | scripts/build_tlaps_bench_etcd_counterexample.py:64 | the loop finds the largest index up to the given one that more than half of the slots have reached, as a cardinality, or 0 |
| `RaftMajority.AgreedIsMajority` | scripts/build_tlaps_bench_etcd_uptodate_counterexample.py:66 | an index is agreed exactly when the set of slots that have reached it is more than half of all slots |
| `RaftElection.StepKeepsElectionInv` | scripts/build_tlaps_bench_etcd_counterexample.py:23-56 | every guarded action keeps the election invariant over ledger, pending votes, roles and granted sets |
| `RaftElection.RunElectionInv` | scripts/build_tlaps_bench_etcd_counterexample.py:73-77 | the election invariant in every state of every guarded run |
| `RaftElection.MajoritiesMeet` | scripts/build_tlaps_bench_etcd_counterexample.py:64 | two majorities of the voters share a voter |
| `RaftElection.OneLeader` | scripts/build_tlaps_bench_etcd_counterexample.py:56 | two nodes leading one term, at any two moments of a guarded run, are the same node |
| `RaftElection.SafetyFromGuards` | scripts/build_tlaps_bench_etcd_counterexample.py:23-56 | one vote per voter and term and one leader per term over every guarded run |
| `RaftElection.RunGrows` | scripts/build_tlaps_bench_etcd_uptodate_counterexample.py:35-41 | in every run, snapshots included, an earlier log is a prefix of a later one, commit indices never fall and ballots are never withdrawn |
| `RaftElection.StepGrows` | scripts/build_tlaps_bench_etcd_uptodate_counterexample.py:57-67 | the same for one action |
| `RaftElection.RunLedger` | scripts/build_tlaps_bench_etcd_counterexample.py:51-55 | in every run each granted response in flight is in the ledger and each member of a granted set has a ballot there for that candidate |
| `RaftElection.StepCounts` | scripts/build_tlaps_bench_etcd_counterexample.py:27-29 | a voter newly counted as granted sent a granted response that was in flight |
| `RaftElection.RunDurable` | scripts/build_tlaps_bench_etcd_counterexample.py:52-55 | in every guarded run each counted vote and each granted response in flight is remembered on its voter's disk |
| `RaftGuards.WithoutNewerTerm` | scripts/build_tlaps_bench_etcd_counterexample.py:25 | a reachable state with two votes of one voter in one term when a term may be taken over that is not larger |
| `RaftGuards.WithoutCandidateSelfVote` | scripts/build_tlaps_bench_etcd_counterexample.py:50 | the same when a non-candidate may vote for itself |
| `RaftGuards.WithoutCurrentResponse` | scripts/build_tlaps_bench_etcd_counterexample.py:27-29 | two leaders of one term when responses of an old term count |
| `RaftGuards.WithoutMajorityLeader` | scripts/build_tlaps_bench_etcd_counterexample.py:56 | two leaders of one term when a node may lead without a majority |
| `RaftGuards.ElectionSafetyIffAllGuards` | scripts/build_tlaps_bench_etcd_counterexample.py:73-77 | elections are safe in every run of any number of voters if and only if all four guards are respected |
| `RaftLogs.ExtendInstallsIff` | scripts/build_tlaps_bench_etcd_counterexample.py:35-37 | extending installs the request's entries exactly when the log reaches the request and agrees with it on the overlap |
| `RaftGuards.ShortLogMisextended` | scripts/build_tlaps_bench_etcd_counterexample.py:35-37 | a reachable state of two voters in which a shorter log took the second entry of a request's sender as its first |
| `RaftLogs.ReplicaFollowsLeader` | scripts/build_tlaps_bench_etcd_uptodate_counterexample.py:60-64 | a replica holding a prefix of the sender's log ends with exactly the longer prefix the request covers |
| `RaftLogs.CommitMovesToAgreed` | scripts/build_tlaps_bench_etcd_counterexample.py:63-65 | the commit index moves only to the largest index that more than half have matched, and only if its entry is of the node's own term; it never falls |
| `RaftLogs.CommitReachesMajority` | scripts/build_tlaps_bench_etcd_uptodate_counterexample.py:65-67 | for any number of voters the commit index does move up to the largest index that more than half have matched when its entry is of the node's own term |
| `RaftLogs.CommitWaitsForOwnTerm` | scripts/build_tlaps_bench_etcd_uptodate_counterexample.py:65-67 | and nothing changes when that entry is of another term |
| `RaftLogs.AgreedPrefix` | scripts/build_tlaps_bench_etcd_counterexample.py:64 | the agreed indices are exactly those up to the largest one |
| `RaftReplication.RunQuotes` | scripts/build_tlaps_bench_etcd_uptodate_counterexample.py:60-64 | in every run each append request pending or in flight quotes its sender's log, previous term included |
| `RaftReplication.RunFromLeaders` | scripts/build_tlaps_bench_etcd_counterexample.py:57 | every entry, with all entries before it, is in the log of a node that has led the entry's term |
| `RaftReplication.ExtendedIsQuoted` | scripts/build_tlaps_bench_etcd_counterexample.py:35-40 | a request once extended under its guards is from then on held by the receiver's log, so it may be finished |
| `RaftReplication.LogMatching` | scripts/build_tlaps_bench_etcd_counterexample.py:35-37 | two logs with the same entry at an index agree up to it, in every run in which only leaders take requests and appends follow on from the log |
| `RaftCommits.StepKeepsCommitInv` | scripts/build_tlaps_bench_etcd_counterexample.py:34-41 | every action keeps matched and acknowledged entries shared and committed ones held by more than half of the voters |
| `RaftCommits.FinishedShares` | scripts/build_tlaps_bench_etcd_counterexample.py:38-41 | a request finished under its guard leaves sender and receiver with the same entries up to its last one |
| `RaftCommits.RunCommitInv` | scripts/build_tlaps_bench_etcd_uptodate_counterexample.py:34-41 | the same in every state of every run under all guards |
| `RaftCommits.CommittedStaysHeld` | scripts/build_tlaps_bench_etcd_uptodate_counterexample.py:65-67 | the entries a node has committed are from then on the start of more than half of the logs |
| `RaftCommits.StateMachineSafety` | scripts/build_tlaps_bench_etcd_uptodate_counterexample.py:65-67 | what two nodes have committed, at any two moments of a run, is one a prefix of the other |
| `RaftLogRuns.Elect` | scripts/build_tlaps_bench_etcd_counterexample.py:73-77 | the schedules' election respects all guards: with an up-to-date log and one other vote a node leads its next term, and no log changes |
| `RaftLogRuns.WithoutLeaderAppends` | scripts/build_tlaps_bench_etcd_counterexample.py:57 | mismatched logs when any node takes client requests |
| `RaftLogRuns.WithoutReach` | scripts/build_tlaps_bench_etcd_counterexample.py:35-37 | mismatched logs when a request may start beyond the log |
| `RaftLogRuns.WithoutPreviousTerm` | scripts/build_tlaps_bench_etcd_counterexample.py:35-37 | mismatched logs when the previous term is not compared |
| `RaftLogRuns.WithoutOverlap` | scripts/build_tlaps_bench_etcd_counterexample.py:35-37 | mismatched logs when the overlap is not compared |
| `RaftLogRuns.WithoutQuotes` | scripts/build_tlaps_bench_etcd_counterexample.py:38-41 | logs under the other four guards that conflict once a request may be finished unheld |
| `RaftLogRuns.ConflictCommits` | scripts/build_tlaps_bench_etcd_counterexample.py:63-65 | where two logs conflict, both nodes can come to commit theirs in full |
| `RaftLogGuards.LogMatchingIffGuards` | scripts/build_tlaps_bench_etcd_counterexample.py:35-57 | with safe elections logs match in every run if and only if the first four log guards are respected |
| `RaftLogGuards.CommitSafetyIffAllGuards` | scripts/build_tlaps_bench_etcd_counterexample.py:34-65 | with safe elections committed entries never conflict in any run if and only if all five log guards are respected |
| `RaftEffects.RespondedIff` | scripts/build_tlaps_bench_etcd_counterexample.py:27-29 | in every run a node's responded and granted sets are exactly the voters whose responses it took since its last timeout |
| `RaftEffects.RunAsks` | scripts/build_tlaps_bench_etcd_counterexample.py:48-50 | in every run each vote request pending or in flight tells the length and last term of a prefix of its sender's log |
| `RaftEffects.VoteGrantedIff` | scripts/build_tlaps_bench_etcd_counterexample.py:30-33 | a vote is granted exactly in the voter's own term, to its first choice, and to a log at least as up to date |
| `RaftEffects.RunAcksDurable` | scripts/build_tlaps_bench_etcd_counterexample.py:51-55 | in every fully guarded run an acknowledgement in flight covers only entries on its sender's disk, and disks hold prefixes of logs |
| `RaftEffects.CommitTravels` | scripts/build_tlaps_bench_etcd_counterexample.py:38-40 | a request that covers its sender's commit index brings the receiver's up to it |
| `RaftEffects.FinishAnswers` | scripts/build_tlaps_bench_etcd_counterexample.py:41 | a finished request is answered in its mode with the index it goes up to |
| `RaftEffects.ReceiveConsumes` | scripts/build_tlaps_bench_etcd_counterexample.py:43 | a receive consumes one copy of its message, except where a term is taken over or a log extended |
| `RaftEffects.ReadyDelivers` | scripts/build_tlaps_bench_etcd_counterexample.py:53-55 | a completed write delivers exactly the node's own pending messages and loses none |
| `RaftEffects.SnapshotCarriesPrefix` | scripts/build_tlaps_bench_etcd_uptodate_counterexample.py:60-64 | a snapshot carries the log from its start up to the index, and as much of the commit index |
| `RaftEffects.LeaderStartsCounting` | scripts/build_tlaps_bench_etcd_counterexample.py:56 | a new leader counts its own log and nobody else's |
| `RaftEffects.StepDownAndReady` | scripts/build_tlaps_bench_etcd_counterexample.py:51-58 | stepping down changes a role; a completed write puts term, vote, log and commit index on disk |
| `Framing.BigEndianRoundTrip` | csharp/Common/IoFramework.cs:312-319 | decoding the big-endian bytes of a number that fits gives the number |
| `Framing.FirstByteWeighsMost` | csharp/Common/IoFramework.cs:312-319 | the first byte of n weighs 256 to the power n - 1 |
| `Framing.FrameFormat` | csharp/Common/IoFramework.cs:736-746 | a frame is eight bytes that encode the length, most significant first, and the message unchanged |
| `Framing.InStream.Read` | csharp/Common/IoFramework.cs:256 | a short read: some non-empty part of what was asked for, or nothing at the end of the stream |
| `Framing.ReadBytes` | csharp/Common/IoFramework.cs:250-263 | succeeds exactly when the stream holds enough bytes, whatever the read sizes, and fills the buffer with exactly those |
| `Framing.WriteBytes` | csharp/Common/IoFramework.cs:265-274 | the pieces written add up to the requested part of the buffer |
| `Framing.WriteUInt64` | csharp/Common/IoFramework.cs:312-319 | the same eight bytes on machines of either byte order |
| `Framing.ReadUInt64` | csharp/Common/IoFramework.cs:339-353 | the number in the next eight bytes on machines of either byte order, or failure when there are fewer |
| `Framing.SendLoop` | csharp/Common/IoFramework.cs:724-756 | appends the frames of the queued messages in order |
| `Framing.ReceiveLoop` | csharp/Common/IoFramework.cs:608-658 | delivers the decoding of whatever is left in the stream |
| `Framing.DecodeCut` | csharp/Common/IoFramework.cs:608-658 | a stream cut after any number of bytes yields exactly the messages whose frames are complete |
| `Framing.CompleteFramesUnique` | csharp/Common/IoFramework.cs:608-658 | the number of complete frames is determined by the cut |
| `Framing.SendCutReceive` | csharp/Common/IoFramework.cs:724-756 | send, cut anywhere, receive: the messages with complete frames arrive unchanged and in order, and all of them without a cut |
| `SendPipeline.StepMovesOneTask` | csharp/Common/IoFramework.cs:692-756 | under any weighing of places and tasks, a step changes the total only by moving one task |
| `SendPipeline.RunConserves` | csharp/Common/IoFramework.cs:1340-1357 | under every interleaving each accepted task is in exactly one place, unaltered, and nothing else is anywhere |
| `SendPipeline.EntriesAreStamped` | csharp/Common/IoFramework.cs:485-503 | a task's own counter accounts for every time it entered the dispatch queue |
| `SendPipeline.BoundedRetry` | csharp/Common/IoFramework.cs:1359-1364 | no task enters the dispatch queue more than max(1, maxSendTries) times |
| `SendPipeline.DroppedAfterAllTries` | csharp/Common/IoFramework.cs:1359-1364 | a dropped task entered the dispatch queue exactly max(1, maxSendTries) times, so nothing is dropped early |
| `SendPipeline.WorkFalls` | csharp/Common/IoFramework.cs:1359-1364 | moving a task lowers its tries left or, with the same tries, its stage |
| `SendPipeline.MeasureFalls` | csharp/Common/IoFramework.cs:1008-1031 | every internal step lowers a measure of tries left, pipeline stage and sender phases |
| `SendPipeline.QuietRunIsBounded` | csharp/Common/IoFramework.cs:692-722 | once nothing new comes in, the number of further steps is bounded by the measure |
| `SendRouting.StepKeepsRegistry` | csharp/Common/IoFramework.cs:1190-1209 | the registry lists exactly the running senders of each destination, newest first |
| `SendRouting.LookupIsNewestRunning` | csharp/Common/IoFramework.cs:1211-1222 | lookup returns the most recently registered sender that has not unregistered, or none when there is none |
| `SendRouting.RunRoutes` | csharp/Common/IoFramework.cs:1008-1031 | in every reachable state senders hold only tasks for their own destination and the registry is exact |
| `SendRouting.FoundEarlier` | csharp/Common/IoFramework.cs:1022-1026 | a sender in the dispatcher's hand was registered when it was found |
| `SendRouting.StrandedOnlyByLatePost` | csharp/Common/IoFramework.cs:692-722 | a task is in a finished sender's queue only if the sender was found before unregistering and the post came after its drain |
| `SendRouting.LatePostStrandsForGood` | csharp/Common/IoFramework.cs:1029 | a task posted to a finished sender is in that sender's queue in every later state, whatever happens |
| `SendRouting.StrandedIffLatePost` | csharp/Common/IoFramework.cs:692-722 | a task is in a finished sender's queue exactly when a post found that sender finished |
| `SendRouting.DoneIffNoLatePost` | csharp/Common/IoFramework.cs:692-756 | at rest an accepted task was sent or dropped exactly when no post of it found its sender finished |
| `SendRouting.StrandingHappens` | csharp/Common/IoFramework.cs:1018-1028 | that race is real for the first packet to any destination |
| `SendRouting.RestingPlaces` | csharp/Common/IoFramework.cs:692-756 | when the pipeline has come to rest every accepted task was sent, was dropped or is stranded |
| `SendOrder.DispatchIsFifo` | csharp/Common/IoFramework.cs:1033-1036 | over every run the tasks that entered the dispatch queue are, in order, those taken from it and then those in it |
| `SendOrder.SenderIsFifo` | csharp/Common/IoFramework.cs:718-734 | the same for what was posted to each sender and what it took, draining included |
| `SendOrder.RunInOrder` | csharp/Common/IoFramework.cs:1340-1357 | while a destination has had one sender, what was sent to it is a prefix of what was accepted for it, and before a failure what is under way is the rest in order |
| `SendOrder.SecondSenderOvertakes` | csharp/Common/IoFramework.cs:1190-1201 | a run without failures in which the second packet is sent and the first is not |
| `SendOrder.InOrderIffOneSender` | csharp/Common/IoFramework.cs:1211-1222 | sending is in order in every run if and only if a destination has one sender; that none fails is not enough |
| `SendRouting.IoScheduler.constructor` | csharp/Common/IoFramework.cs:1054-1063 | starts with nothing accepted, queued or registered |
| `SendRouting.IoScheduler.SendPacket` | csharp/Common/IoFramework.cs:1340-1357 | accepts the task and puts it on the dispatch queue, changing nothing else |
| `SendRouting.IoScheduler.RegisterSender` | csharp/Common/IoFramework.cs:1190-1201 | a new running sender at the front of its destination's list |
| `SendRouting.IoScheduler.UnregisterSender` | csharp/Common/IoFramework.cs:1203-1209 | takes the sender out of its list; it then drains |
| `SendRouting.IoScheduler.FindSender` | csharp/Common/IoFramework.cs:1211-1222 | the newest running sender for the destination, or none exactly when there is none |
| `SendRouting.IoScheduler.TakeNext` | csharp/Common/IoFramework.cs:1016 | the dispatcher takes the head of its queue |
| `SendRouting.IoScheduler.FindOrCreate` | csharp/Common/IoFramework.cs:1023-1027 | the dispatcher looks the sender up, or creates one after a lookup found none |
| `SendRouting.IoScheduler.EnqueueSendTask` | csharp/Common/IoFramework.cs:758-761 | the task in hand goes to the end of the found sender's queue |
| `SendRouting.IoScheduler.ReceiveTask` | csharp/Common/IoFramework.cs:718-734 | a sender takes the head of its queue into its current slot, in its loop or while draining |
| `SendRouting.IoScheduler.FinishTask` | csharp/Common/IoFramework.cs:734-754 | a sent task leaves the current slot |
| `SendRouting.IoScheduler.ResendPacket` | csharp/Common/IoFramework.cs:1359-1364 | counts the try and re-queues the task only while the count stays below the limit |
| `SendRouting.IoScheduler.EndDrain` | csharp/Common/IoFramework.cs:718-722 | a sender with an empty queue and nothing in hand is over |
| `TlcOrder.Order` | scripts/tlc_dump_to_parity_jsonl.py:181-199 | the order on sort keys is a strict total order |
| `TlcOrder.SortBySorted` | scripts/tlc_dump_to_parity_jsonl.py:72 | sorting by key gives ascending keys |
| `TlcOrder.SortStable` | scripts/tlc_dump_to_parity_jsonl.py:153 | elements with equal keys keep their order |
| `TlcOrder.SortedUnique` | scripts/tlc_dump_to_parity_jsonl.py:72 | a sorted list is determined by its elements and their multiplicities |
| `TlcCanonical.SortKeysComparable` | scripts/tlc_dump_to_parity_jsonl.py:181-199 | comparing two sort keys never compares values of different kinds, so sorting never raises |
| `TlcCanonical.KeyInjective` | scripts/tlc_dump_to_parity_jsonl.py:181-199 | two values have the same sort key exactly when they differ only in the order of record fields |
| `TlcValueOrder.KeyOrder` | scripts/tlc_dump_to_parity_jsonl.py:181-199 | sort keys compare exactly as the values do: by kind, FALSE before TRUE, integers by size, strings by character, compounds by the first part that differs |
| `TlcValueOrder.CanonAscends` | scripts/tlc_dump_to_parity_jsonl.py:72 | the elements of a canonical set and the arguments of a canonical function ascend in that order, and none is lost or added |
| `TlcValueOrder.IntegersAscend` | scripts/tlc_dump_to_parity_jsonl.py:185-186 | a set of two integers is put in numeric order |
| `TlcRepresents.OnlyToJsonRepresents` | scripts/tlc_dump_to_parity_jsonl.py:226-259 | a JSON represents a value under the tag map if and only if it is the one the normaliser gives |
| `TlcRepresents.TellsApartIffInjective` | scripts/tlc_dump_to_parity_jsonl.py:231-236 | values of one shape with the same JSON are the same up to field order, for all values, if and only if the tag map is injective |
| `TlcJson.FieldOrderIrrelevant` | scripts/tlc_dump_to_parity_jsonl.py:226-259 | the JSON does not depend on the order of record fields at any depth |
| `TlcReorder.ReorderedSameKey` | scripts/tlc_dump_to_parity_jsonl.py:181-199 | reordering elements, entries and fields at any depth keeps the canonical sort key |
| `TlcReorder.ReorderedSameJson` | scripts/tlc_dump_to_parity_jsonl.py:226-259 | reordering elements, entries and fields at any depth keeps the canonical JSON |
| `TlcReorder.EntryOrderIrrelevantIffConsistent` | scripts/tlc_dump_to_parity_jsonl.py:152-153 | the order of a function's entries is irrelevant exactly when a repeated argument repeats its value |
| `TlcReorder.RepeatedArgumentMatters` | scripts/tlc_dump_to_parity_jsonl.py:152-153 | with a repeated argument the JSON can depend on the order |
| `TlcParser.ReadValue` | scripts/tlc_dump_to_parity_jsonl.py:31-178 | the position-advancing parser computes the specified value and end position, or the specified error |
| `TlcParser.ReadOther` | scripts/tlc_dump_to_parity_jsonl.py:48-178 | the branches after the booleans, chosen by the first character |
| `TlcParser.ReadInteger` | scripts/tlc_dump_to_parity_jsonl.py:49-53 | the digits after an optional minus sign; an error when there are none |
| `TlcParser.StringLoop` | scripts/tlc_dump_to_parity_jsonl.py:56-62 | the end of a string with escapes skipped, possibly past the end of the text |
| `TlcParser.ReadItems` | scripts/tlc_dump_to_parity_jsonl.py:65-96 | the loop over set and sequence elements with optional commas |
| `TlcParser.ReadFields` | scripts/tlc_dump_to_parity_jsonl.py:99-125 | the loop over record fields; a repeated name keeps its place and takes the new value |
| `TlcParser.ReadField` | scripts/tlc_dump_to_parity_jsonl.py:108-121 | one field name, arrow and value |
| `TlcParser.PutNew` | scripts/tlc_dump_to_parity_jsonl.py:121 | a new field name is put at the end |
| `TlcParser.PutAgain` | scripts/tlc_dump_to_parity_jsonl.py:121 | a repeated field name keeps its place and takes the new value |
| `TlcParser.StripTrims` | scripts/tlc_dump_to_parity_jsonl.py:110 | stripping takes off exactly the white space around a name |
| `TlcParser.ReadParenthesized` | scripts/tlc_dump_to_parity_jsonl.py:128-169 | an empty function, a function, or a value in parentheses |
| `TlcParser.ReadEntries` | scripts/tlc_dump_to_parity_jsonl.py:141-162 | the loop over function entries |
| `TlcRoundTrip.ParseInvertsPrint` | scripts/tlc_dump_to_parity_jsonl.py:31-178 | parsing any printed value, values in parentheses and repeated field names included, in any layout and any text that does not continue it, gives its canonical form and the position just after it |
| `TlcRoundTrip.PrintingsAgree` | scripts/tlc_dump_to_parity_jsonl.py:342-351 | two printings of one value, in any layout and any order, have the same canonical JSON |
| `TlcDump.TlcPrintIsRead` | scripts/tlc_dump_to_parity_jsonl.py:31-178 | every value printed with TLC's own separators is parsed back to its canonical form, up to the last character |
| `TlcDump.ReadsSet` | scripts/tlc_dump_to_parity_jsonl.py:65-79 | the text {1, 2} is read as the set of 1 and 2 |
| `TlcDump.ReadsFunction` | scripts/tlc_dump_to_parity_jsonl.py:141-162 | the text (1 :> 2) is read as the function from 1 to 2 |
| `TlcDump.ItemsAreClosed` | scripts/tlc_dump_to_parity_jsonl.py:65-96 | a list of elements is read only up to its closing bracket: nothing unterminated is accepted |
| `TlcDump.FieldsAreClosed` | scripts/tlc_dump_to_parity_jsonl.py:99-125 | the same for records |
| `TlcDump.EntriesAreClosed` | scripts/tlc_dump_to_parity_jsonl.py:141-162 | the same for functions, which have at least one entry |
| `TlcDump.NothingToRead` | scripts/tlc_dump_to_parity_jsonl.py:33-37 | a text of white space is an error |
| `TlcDump.NoSuchStart` | scripts/tlc_dump_to_parity_jsonl.py:171-178 | a value with any other first character is an error |
| `TlcDump.UnterminatedString` | scripts/tlc_dump_to_parity_jsonl.py:56-62 | a string without a closing quote takes in the rest of the text and ends one past it |
| `TlcPrinting.ModelValueReadBack` | scripts/tlc_dump_to_parity_jsonl.py:43-53 | a model value is read back exactly when its name starts with no digit and with neither TRUE nor FALSE |
| `TlcPrinting.MisreadNames` | scripts/tlc_dump_to_parity_jsonl.py:43-53 | the names TRUEish and 1a are read as true and 1 |
| `VoteWindow.Process2a` | transpiler/verus_examples/acceptor_process2a_complete.rs:155-182 | satisfies the vote-update relation |
| `VoteWindow.Truncate` | transpiler/verus_examples/acceptor_truncate_complete.rs:146-167 | satisfies the truncation relation |
| `VoteWindow.RelationsAreExact` | transpiler/verus_examples/acceptor_process2a_complete.rs:36-69 | both relations leave no freedom: they allow exactly what the operations return |
| `VoteWindow.KeepsAgreementIffSafe` | transpiler/verus_examples/acceptor_process2a_complete.rs:53-69 | an operation keeps every window in agreement with its history exactly when a condition on the truncation point holds that the caller can check |
| `VoteWindow.WindowIsHistory` | transpiler/verus_examples/acceptor_process2a_complete.rs:36-69 | after every safe run the kept map is the full vote history at or above the truncation point |
| `VoteWindow.DisciplinedRunIsSafe` | transpiler/verus_examples/acceptor_process2a_complete.rs:59 | runs whose point never falls and which skip exactly the votes below it, without moving it, are safe |
| `VoteWindow.PointIsHighest` | transpiler/verus_examples/acceptor_truncate_complete.rs:45-63 | in a disciplined run the truncation point is the highest one ever given |
| `VoteWindow.CutsMayMove` | transpiler/verus_examples/acceptor_truncate_complete.rs:45-63 | when the log is cut makes no difference to the votes kept in the end |
| `Checkpoints.Contains` | transpiler/verus_examples/acceptor_heartbeat_complete.rs:162-187 | the loop returns true exactly when the replica is in the configuration |
| `Checkpoints.FindIndex` | transpiler/verus_examples/acceptor_heartbeat_complete.rs:189-221 | the first place of the replica |
| `Checkpoints.Update` | transpiler/verus_examples/acceptor_heartbeat_complete.rs:319-360 | the vector with one slot replaced |
| `Checkpoints.ProcessHeartbeat` | transpiler/verus_examples/acceptor_heartbeat_complete.rs:499-554 | raises the sender's slot when the checkpoint is larger, and changes nothing else |
| `Checkpoints.SpecificationIffUnique` | transpiler/verus_examples/acceptor_heartbeat_complete.rs:68-89 | the handler meets its specification for every index that may be chosen exactly when replica ids are unique |
| `Checkpoints.JoinIsMaximum` | transpiler/verus_examples/acceptor_heartbeat_complete.rs:75-80 | a replica's join is the least bound of the start and its checkpoints |
| `Checkpoints.SlotIsJoin` | transpiler/verus_examples/acceptor_heartbeat_complete.rs:499-554 | after any heartbeats a slot found by lookup is its replica's join, and any other slot is untouched |
| `Checkpoints.OrderIrrelevant` | transpiler/verus_examples/acceptor_heartbeat_complete.rs:499-554 | neither the order nor the repetition of heartbeats matters |
| `Checkpoints.JoinIffUnique` | transpiler/verus_examples/acceptor_heartbeat_complete.rs:492-497 | every slot is its replica's join after all heartbeats exactly when replica ids are unique |
| `CommentBlanker.StripComments` | scripts/trigger_sites.py:55-98 | the one-pass scanner blanks exactly what is not code when a block comment is read as running to the end |
| `CommentBlanker.StringCloses` | scripts/trigger_sites.py:77-86 | a string ends at the first quote after complete escapes |
| `CommentBlanker.KeepsPlaces` | scripts/trigger_sites.py:55-98 | same length, same newlines, code untouched, and no `"`, `//` or `/*` in the output |
| `CommentBlanker.UnchangedIffClean` | scripts/trigger_sites.py:55-98 | a text is unchanged exactly when it has no `"`, `//` or `/*`, and a second pass changes nothing |
| `CommentBlanker.ScannerOutput` | scripts/trigger_sites.py:69-76 | the scanner's output is the documented one up to the end of the first block comment and blank after it |
| `CommentBlanker.DocumentedIffNoCodeAfterBlock` | scripts/trigger_sites.py:55-76 | the scanner does what it documents exactly when no code follows the first block comment |
| `CommentBlanker.CodeAfterBlockIsLost` | scripts/trigger_sites.py:89-93 | an input on which it does not |
| `BatchEdits.SortedKeepsFirst` | scripts/apply_triggers.py:200 | sorting by falling offset loses nothing and keeps the first of equal offsets first |
| `BatchEdits.PlanEdits` | scripts/apply_triggers.py:198-206 | keeps the first edit of every offset in strictly falling order; the kept and the skipped are together the given ones |
| `BatchEdits.InsertBelow` | scripts/apply_triggers.py:219 | an insertion below all earlier ones lands at its original offset |
| `BatchEdits.ApplyPlan` | scripts/apply_triggers.py:218-221 | the loop gives the text with each annotation at its original offset |
| `BatchEdits.Annotate` | scripts/apply_triggers.py:198-221 | planning and applying give the text with the first annotation of every offset at that offset |
| `BatchEdits.CharsKept` | scripts/apply_triggers.py:218-221 | every character is kept at its shifted position, right after the annotation of its offset |
| `BatchEdits.InsertionsUndone` | scripts/apply_triggers.py:218-221 | deleting the insertions gives the original text back |

## Left out

- Fixed-width integers: epochs, ids and indices are unbounded, with the lock ring's bounds stated where its operations demand them.
- Cloning loops (`clone_for_view`): entities that the source copies are values here.
- The lock ring's free choices: the destination of a Locked packet is an argument, and the `true` branch of the accept contract for an io list that starts with a send is never taken by an exec operation.
- The fixed 47 and 72 step schedules and the proof text the etcd scripts print: only the step function is modelled.
- RaftInterpreter.Interpreter.Run: `begin` and `end` of an Append are at least 1, because positions in logs start at 1; the source would index from the end of the log for 0.
- `recv`'s search for the first matching message: any message in flight may be received.
- RaftInterpreter.Interpreter.RunReceive: a message from sender 0, which no node has, would update the last entry of `matched` instead of raising.
- The dispatch thread's restart after an exception, and a failure between taking a task and posting it.
- Thread memory effects: posting a task and clearing the local current slot around it are one atomic step; a task's counter travels with the task.
- TLS, certificates, sockets, DNS and logging in the I/O framework, the other integer widths of the encoder, and everything in `IoNative.cs`.
- Buffer allocation is a size limit: a receiver that cannot allocate ends its loop.
- Framing.WriteUInt64: the source's 64-bit value is unbounded here; message lengths are 32-bit, so nothing is cut off.
- TlcParser.ReadValue: letters, digits and white space are the ASCII ones; the source's classes are Unicode's.
- TlcParser.ReadOther: its branches are chosen by the ASCII classes.
- TlcParser.ReadInteger: digits are the ASCII ones.
- TlcDump.NoSuchStart: letters and digits beyond ASCII, which the source accepts as first characters, are refused here.
- TlcParser.ReadField: the white space stripped from a name is ASCII's.
- The parser's error texts: an error is one value.
- JSON objects are maps and JSON text is not produced; the dump sorts keys, so the text is determined by the object.
- `remove_excluded_fields`, splitting a dump into states, and the JSONL output.
- The acceptors' other message handlers; the two vote-map examples' acceptors are one datatype, and each operation leaves alone the fields its own example does not have.
- Finding binders and building annotations in `apply_triggers.py`; offsets are within the text, as a match in it gives them.
- The quantifier scan of `trigger_sites.py` beyond `strip_comments`.
- The Verus library lemmas, the witness files, the native runtime, configuration and report scripts: each is settled by reading one body.
