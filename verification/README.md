# Verification of the receipt daemon

A Dafny model of the daemon that produces receipt chains, and of the tools that check them:

- the chain allocator and the per-frame pipeline, with any number of concurrent frames,
- the checkpoint emitter, the reader of its log, and the out-of-band anchor check,
- startup, shutdown and restarts, and the listener's shutdown protocol,
- offline key rotation as a sequence of writes that may fail or be cut off by a crash, and the
  verifier's resolution of a rotated chain's key lineage,
- the codecs beside them: frames, the bounded line reader, chain-id succession, disclosure policies
  and JSON key redaction.

`dafny verify dfyconfig.toml` checks everything.

## How the model is built

Hashing is ideal: `Receipts.Hash` wraps the receipt it is the hash of. Signing is ideal: a receipt
names the key that signed it. A store insert either appends or changes nothing.

Concurrent code is an interleaving machine: one step per atomic action of a goroutine, in any order,
with any outcome of every call that can fail. A step that waits is a step that is not enabled.
`PipelineMachine` is `Process` over mutexes, the agent map and the store; `EmitterMachine` is
`Observe`, `Flush`, `FlushAll`, the worker and `Close`; `DaemonRun` runs the two side by side and adds
the shutdown order, including the errors that cut it short; `Listener` is the accept loop, the
connection goroutines and `Close`. Every theorem about a machine is about every reachable state of
every schedule.

The same code also appears as the objects it is: `ChainState.State` with its allocations,
`Pipeline.Pipeline`, `CheckpointEmitter.Emitter` (whose ghost history is a run of the machine),
`Rotate.Host` (whose ghost trace is the list of states a crash could leave), the readers and writers of
`Frames` and `LineReader`, and the loops of `Startup`, `Lineage`, `AnchorReader`, `Policy` and
`RedactPass`. What fails, and how much a reader or writer takes at once, is a parameter. Where a method
is proved against a function, there are theorems beside it that say what the function's value is
without calling it: places in a chain, bytes of a header, files on a disk, positions in a text.

Where the code does less than its documentation says, the code is kept and the exact condition is
proved:

- A strictly increasing checkpoint log needs non-overlapping `Observe` calls per chain:
  `EmitterOverlap.DisorderIff`, with `EmitterOverlap.OverlapHappens`.
- A new emitter does not know what earlier ones have anchored. A chain that gets no receipt in a run is
  flushed again at the same head, and the readers reject the log of an untouched store:
  `AnchoredRestart.RestartedLogIncreasesIff` and `AnchoredRestart.CleanRunPassesIff`, with
  `AnchoredRestart.IdleRestartIsRejected`.
- A job that loses against `Close` is not always counted as dropped: `EmitterTheorems.StrandedIffPastCheck`,
  with `EmitterOverlap.StrandingHappens`.
- A Flush of a head that is marked already returns at once, even while that head is still queued:
  `EmitterTheorems.FlushGuaranteesIff`, with `EmitterOverlap.QueuedHeadIsNotAwaited`.
- A checkpoint signed before a key rotation makes the whole anchor check fail with an error, because
  every checkpoint is verified against the published key: `AnchoredRun.IntactPassesIff` has the exact
  condition for any mixture of keys, `AnchoredRotation.VerdictAfterRotation` what a rotation does to it.
- A rotation is recorded on one chain, and archiving the outgoing key keeps only that chain verifiable:
  every other chain that had receipts is rejected from then on,
  `LineageChains.AcceptedIffNotLeftBehind`.
- A connection that breaks off right after a frame header ends like a clean one, without a log line:
  `Frames.SilentIff`, with `Frames.HeaderOnlyIsSilent`.
- "Terminal is last" is kept for chains that are only served as roots; the terminated chains that can
  be appended to are exactly the agent chains under the served root: `Lifecycle.CanResumeIff`.
  `RotateKey` does not look at the terminal flag: `Rotate.RotationContinuesChain`.
- A day of the month from 10 on is taken for a counter by `advanceChainID`:
  `ChainId.DateIsACounterIffNoLeadingZero`.
- A failed rotation puts the key files back unless a roll-back write fails: `Rotate.Host.RotateKey`.
  A crash inside one leaves a chain that verifies exactly as `Lineage.CrashVerdict` says.
- When the transcript breaks off with an I/O error inside a line that is too long, the part of it in
  memory is still matched: `LineReader.ScanIsFirstMatchIff`, with `LineReader.CutLineIsMatched`.

## Model

| member | source | states |
|---|---|---|
| Receipts.HeadCommits | sdk/go/receipt/chain.go:281-302 | two well-linked chains with the same head hash are the same chain |
| Receipts.ChainIdInjective | daemon/internal/pipeline/build.go:322-326 | the chain id determines root and agent: for all roots once it is known whether there is an agent, for roots without '/' in any case; agent ids are those that frame validation admits |
| Receipts.OneParent | daemon/internal/pipeline/build.go:326 | a chain is an agent chain of at most one root, whatever the roots are called |
| Receipts.UnderIsChainId | daemon/internal/pipeline/build.go:606-609 | every chain under a root is the chain of an agent id that frame validation admits |
| ChainState.FirstReleaseWins | daemon/internal/chain/state.go:106-138 | of any mixture of Commit and Rollback calls on one allocation the first decides, and the mutex is released exactly once |
| ChainState.LoadedIsTail | daemon/internal/chain/state.go:42-63 | the state loaded from the store is (n + 1, hash of the tail) of a well-linked chain |
| ChainState.AdvancedIsTail | daemon/internal/chain/state.go:115-125 | committing the receipt just appended makes the in-memory tail the stored tail |
| ChainState.State.NewFromTail | daemon/internal/chain/state.go:42-54 | resumes behind the stored tail, or at sequence 1 without one |
| ChainState.State.Allocate | daemon/internal/chain/state.go:97-104 | takes a free mutex and hands out the next slot with a release of its own |
| ChainState.State.AllocatePair | daemon/internal/chain/state.go:171-180 | the same for two slots under one acquisition |
| ChainState.Allocation.Commit | daemon/internal/chain/state.go:115-125 | the whole state after a commit, first or repeated |
| ChainState.Allocation.Rollback | daemon/internal/chain/state.go:131-138 | the whole state after a rollback; after a release it changes nothing |
| ChainState.PairAlloc.CommitFirst | daemon/internal/chain/state.go:189-200 | advances past the first slot, keeps the mutex, and the second slot shares the release |
| ChainState.PairAlloc.Rollback | daemon/internal/chain/state.go:207-212 | releases an unused pair; a no-op after the pair's release |
| PipelineTheorems.ChainsStayLinked | daemon/internal/pipeline/build.go:411-507 | over every schedule with faults anywhere: sequences 1..n, every link intact, and a free mutex guards exactly the stored tail |
| PipelineTheorems.OneStatePerChain | daemon/internal/pipeline/build.go:296-352 | a call that allocates now and one that allocates at any later moment of the run use the same State exactly if they are on the same chain |
| PipelineTheorems.OneHolderPerChain | daemon/internal/chain/state.go:97-104 | two calls are never inside the critical section of one chain |
| PipelineTheorems.InstalledStateIsCurrent | daemon/internal/pipeline/build.go:319-352 | a state loaded outside the map lock agrees with the stored tail whenever its chain is not installed yet |
| PipelineTheorems.MutexDiscipline | daemon/internal/pipeline/build.go:411-507 | a call holds a chain mutex exactly between its allocation and its release, and none when it allocates |
| PipelineTheorems.SomebodyCanGo | daemon/internal/pipeline/build.go:296-352 | no deadlock between chain mutexes and the map lock |
| PipelineTheorems.NilIffStoredOnce | daemon/internal/pipeline/build.go:373-398 | nil is returned exactly when the live receipt is stored, and it is stored in one place |
| PipelineTheorems.PairsAreAdjacent | daemon/internal/pipeline/build.go:400-472 | synthetic and live receipt of a frame are adjacent under any concurrency |
| PipelineTheorems.DelegationsBacklink | daemon/internal/pipeline/build.go:304-370 | a delegation stands on sequence 1 only, of an agent chain, and names a stored receipt of the root that this is an agent chain of; a chain's first receipt carries one exactly if the root chain had receipts when it was computed |
| PipelineTheorems.OpenedChainsCovered | daemon/internal/pipeline/build.go:322-352 | every agent chain begun in the run is covered by that |
| PipelineTheorems.ServingOnlyAppends | daemon/internal/pipeline/build.go:425-507 | serving only appends non-terminal receipts, only to the root's own chains, and delegations only on agent chains, to the root |
| PipelineFrames.FaultFreeRun | daemon/internal/pipeline/build.go:411-507 | in any schedule without faults every valid frame that has returned is stored, directly behind its synthetic receipt exactly if it reports drops |
| PipelineFrames.FallbackStores | daemon/internal/pipeline/build.go:430-447 | if only synthetic receipts fail, every valid frame still gets its live receipt |
| PipelineFrames.BacklinkIsRecent | daemon/internal/pipeline/build.go:354-370 | the backlink on a chain that a frame begins names a root receipt that is not older than the root tail at any moment before the frame arrived |
| Pipeline.Pipeline.Process | daemon/internal/pipeline/build.go:384-398 | the store and result of one frame for every combination of faults, all mutexes free and all tails current afterwards |
| Pipeline.Pipeline.ProcessWithDrop | daemon/internal/pipeline/build.go:411-472 | the same for a frame that reports drops, with the fallback and the deferred rollbacks |
| Pipeline.Pipeline.ProcessLive | daemon/internal/pipeline/build.go:477-507 | the same for a live frame |
| Pipeline.Pipeline.GetOrCreateAgentState | daemon/internal/pipeline/build.go:296-352 | the state of the agent's chain, the backlink due, and exactly when it fails |
| Pipeline.ProcessMeaning | daemon/internal/pipeline/build.go:373-398 | for every combination of faults: exactly when nil is returned, exactly when the synthetic receipt is stored, what the new receipts say and where they stand, and that nothing else changes |
| Pipeline.FaultFreeFrame | daemon/internal/pipeline/build.go:411-507 | without faults every frame is stored, with the synthetic receipt in front exactly if it reports drops |
| Pipeline.BacklinkDueIs | daemon/internal/pipeline/build.go:354-370 | the backlink is due on the first receipt of an agent chain exactly if the root chain has receipts, and names the last of them |
| Pipeline.Pipeline.EmitTerminatorForChain | daemon/internal/pipeline/build.go:1201-1279 | one terminator for an open chain with receipts, none for an empty or terminated one; a failure before or after the slot is taken leaves the chain as it was and its mutex free |
| Pipeline.Pipeline.EmitTerminator | daemon/internal/pipeline/build.go:1142-1165 | every opened chain is attempted and the call fails if one of them does |
| Pipeline.AfterAllAt | daemon/internal/pipeline/build.go:1133-1165 | each chain ends with exactly one more receipt if it was open and its own attempt succeeded, and is left alone otherwise |
| Pipeline.AllOkIff | daemon/internal/pipeline/build.go:1154-1165 | an error is returned exactly when some chain's own attempt failed |
| Pipeline.ShutdownEndsChains | daemon/internal/pipeline/build.go:1201-1279 | an attempted open chain without trouble ends with one more receipt that continues it and is its terminal interrupted one; every other chain stays as it is; links and terminal-last are kept |
| Pipeline.SecondShutdownIsIdle | daemon/internal/pipeline/build.go:1208-1227 | after a shutdown without trouble a second one changes nothing |
| Pipeline.ShutdownSucceedsIff | daemon/internal/pipeline/build.go:1154-1165 | success in terms of what went wrong at which chain |
| Pipeline.Pipeline.FlushCheckpoints | daemon/internal/pipeline/build.go:1173-1197 | the heads handed to the emitter |
| Pipeline.HeadsOfAt | daemon/internal/pipeline/build.go:1187-1196 | they are exactly the stored heads of the opened, readable chains |
| Pipeline.HeadsFollowTheWalk | daemon/internal/pipeline/build.go:1173-1197 | each chain is flushed at most once, in the order of the walk |
| EmitterTheorems.EveryMarkIsInOnePlace | daemon/internal/checkpoint/emitter.go:156-268 | no head is marked twice, and each marked one is in exactly one place: in the hand of one call, queued, in the worker, handled, emitted inline or dropped |
| EmitterTheorems.MarksStrictlyIncrease | daemon/internal/checkpoint/emitter.go:262-268 | marks of a chain strictly increase within a lifetime |
| EmitterTheorems.CloseDrains | daemon/internal/checkpoint/emitter.go:123-149 | jobs are handled in queue order, and all that were sent before the stop signal are handled when the worker exits |
| EmitterTheorems.SentGrows | daemon/internal/checkpoint/emitter.go:239-252 | what was sent or handled stays so |
| EmitterTheorems.FlushIsSynchronous | daemon/internal/checkpoint/emitter.go:184-212 | when a Flush that marked its head has returned, that head has been written or lost to a fault, exactly once; only if the worker is gone can it be stranded in the queue instead |
| EmitterTheorems.FlushGuaranteesIff | daemon/internal/checkpoint/emitter.go:170-212 | while the worker lives, a Flush returns with its head at the sinks exactly when the head is beyond the last mark of its chain, or was at the sinks already; a marked head is there exactly if it is in no hand, not queued, not in the worker and not dropped |
| EmitterTheorems.FlushCoversTheQueue | daemon/internal/checkpoint/emitter.go:220-237 | a Flush or FlushAll that returns while the worker lives leaves its own job and everything sent before it handled |
| EmitterTheorems.StrandedIffPastCheck | daemon/internal/checkpoint/emitter.go:326-351 | after Close, a job can be left in the queue exactly when a call had passed the closed check |
| EmitterTheorems.SerialLogIncreases | daemon/internal/checkpoint/emitter.go:156-212 | without overlapping calls per chain the log of every chain strictly increases |
| EmitterTheorems.NothingLost | daemon/internal/checkpoint/emitter.go:283-318 | without drops, faults and work in progress what was marked is what was written |
| EmitterCadence.ObserveMarksIff | daemon/internal/checkpoint/emitter.go:156-168 | an Observe call marks its head exactly if it completes a round of cadence observations since the last flush of the chain and the head is beyond all marked ones |
| EmitterCadence.FlushMarksIff | daemon/internal/checkpoint/emitter.go:184-192 | a Flush marks its head exactly if it is beyond all marked ones |
| EmitterCadence.DropIff | daemon/internal/checkpoint/emitter.go:239-252 | only an Observe call drops its head, exactly if the emitter is closed or the queue is full when it looks |
| EmitterOverlap.DisorderIff | daemon/internal/checkpoint/emitter.go:156-168 | before Close the calls in progress can get the log out of order exactly when the heads in log, queue and hands are not in order or two hands hold heads of one chain |
| EmitterOverlap.OverlapHappens | daemon/internal/checkpoint/emitter.go:156-168 | two overlapping Observe calls get there |
| EmitterOverlap.StrandingHappens | daemon/internal/checkpoint/emitter.go:239-252 | an Observe call past the closed check when Close ends gets there |
| EmitterOverlap.QueuedHeadIsNotAwaited | daemon/internal/checkpoint/emitter.go:184-191 | a Flush of a head that an Observe call has just queued returns at once, with nothing written |
| CheckpointEmitter.Emitter.Observe | daemon/internal/checkpoint/emitter.go:156-168 | counting, marking and queueing of one head, as a run of the machine |
| CheckpointEmitter.Emitter.Flush | daemon/internal/checkpoint/emitter.go:184-212 | a head not marked yet reaches the sink after everything queued before it; after Close it is emitted inline or stays in the queue, whichever the select picks |
| CheckpointEmitter.Emitter.Enqueue | daemon/internal/checkpoint/emitter.go:239-252 | queued, or counted as dropped if closed or full |
| CheckpointEmitter.Emitter.MarkEmitLocked | daemon/internal/checkpoint/emitter.go:262-268 | reports and records a head beyond the last one |
| CheckpointEmitter.Emitter.Close | daemon/internal/checkpoint/emitter.go:332-351 | the queue is drained into the sink before the worker exits, and a second Close changes nothing |
| CheckpointEmitter.NoFaultNoLoss | daemon/internal/checkpoint/emitter.go:283-318 | with sinks that work every queued head is written as often as it was queued |
| AnchorReader.ReadVerifiedCheckpoints | daemon/internal/checkpoint/reader.go:19-68 | all checkpoints of the chain in file order, or an error if a line is bad |
| AnchorReader.ReadLatestVerifiedCheckpoint | daemon/internal/checkpoint/reader.go:80-132 | accepts exactly the logs without a bad line whose checkpoints strictly increase, and returns the last element of the other reader's list |
| AnchorReader.AcceptedIff | daemon/internal/checkpoint/reader.go:80-132 | what each reader accepts, line by line: every line decodes, every checkpoint of the chain is signed with the key, and for the single pass they go up |
| AnchorReader.LatestIs | daemon/internal/checkpoint/reader.go:80-132 | what the single pass returns is the last checkpoint of the chain in the log, and nothing only if there is none |
| AnchorReader.LatestIsMaximum | daemon/internal/checkpoint/reader.go:70-79 | of an accepted log that is the maximum |
| AnchorReader.CollectMembers | daemon/internal/checkpoint/reader.go:40-66 | collected are exactly the signed heads of the chain in the log |
| AnchorReader.ConcatIncreasesIff | daemon/internal/checkpoint/reader.go:112-121 | two logs in a row are in order exactly when each is and the second begins beyond the first |
| AnchorReader.VerdictIs | daemon/internal/verifycli/anchor.go:37-79 | exactly when the check passes, when it reports truncation, whatever the hashes, and when it fails for lack of a checkpoint |
| AnchorReader.TruncationIsReported | daemon/internal/verifycli/anchor.go:37-79 | once the head is anchored, removing any k >= 1 receipts is reported truncated and the intact chain passes |
| AnchorReader.OnlyTheAnchoredChainPasses | daemon/internal/verifycli/anchor.go:62-79 | no other well-linked chain passes |
| AnchorReader.StaleAnchorAccusesNobody | daemon/internal/verifycli/anchor.go:54-79 | an anchor that is only behind never reports truncation, and passes exactly when it is not behind |
| AnchorReader.OutgoingKeyCheckpointRejects | daemon/internal/verifycli/anchor.go:37-48 | one checkpoint of the chain under another key makes the check fail with an error, for every chain |
| DaemonRun.StepInv | daemon/daemon.go:670-700 | serving, terminators, flushes made or skipped, an abandoned shutdown and Close keep the pipeline's and the emitter's invariants, and every marked head is a stored receipt |
| DaemonRun.AbandonInv | daemon/daemon.go:676-693 | when an error ends the shutdown early, no emitter call is in progress any more |
| DaemonRun.ReachedInv | daemon/daemon.go:661-700 | so at every moment of every run, crashed or not |
| AnchoredRun.UntouchedStoreIsNeverAccused | daemon/internal/verifycli/anchor.go:37-79 | with any drops, faults, overlap and crash, an untouched store is never reported truncated or mismatched |
| AnchoredRun.IntactPassesIff | daemon/internal/verifycli/anchor.go:37-79 | at every moment of every run, for any published key and any earlier lines: an intact chain passes exactly when its checkpoints in the whole log are signed with the published key and strictly increase, and its head is among them |
| AnchoredRestart.RestartedLogIncreasesIff | daemon/internal/checkpoint/emitter.go:179-192 | behind any log of earlier lifetimes, a run's log is in order exactly when both parts are and the chain was not anchored twice at its length at startup |
| AnchoredRestart.AnchoredTwiceIff | daemon/internal/pipeline/build.go:1173-1197 | in a clean run a chain is anchored twice at that length exactly if it was anchored there before and got no receipt |
| AnchoredRestart.CleanRunPassesIff | daemon/daemon.go:676-698 | after a clean run, flush and close the intact chain passes exactly unless it was anchored at its head before the run and got no receipt in it |
| AnchoredRestart.IdleRestartIsRejected | daemon/internal/pipeline/build.go:1173-1197 | two clean runs without a frame on one store: its log passes after the first and is rejected after the second |
| AnchoredRestart.TruncationDetection | daemon/daemon.go:676-698 | after a clean run, flush and close, and but for that exception: removing the last j receipts of any opened chain is reported for every j >= 1, and the intact chain passes |
| AnchoredRestart.AlterationDetection | daemon/internal/verifycli/anchor.go:62-79 | after such a run the stored chain is the only well-linked one that passes |
| AnchoredRotation.VerdictAfterRotation | daemon/internal/verifycli/anchor.go:37-48 | after a key rotation, for any chain and whatever is anchored later: the check fails with an error if the outgoing key signed a checkpoint of that chain, and otherwise ignores the lines of that run |
| AnchoredRotation.CleanRunIsLostByRotation | daemon/rotate.go:65-80 | after a clean run and a rotation none of the chains of that run ever passes the anchor check again |
| AnchoredRotation.RotatedLogPassesIff | daemon/internal/verifycli/anchor.go:37-79 | a run, a rotation, a run under the new key: an intact chain passes exactly when the first run anchored nothing of it and the rest of the log makes it pass |
| ChainId.AdvanceInjective | daemon/daemon.go:939-947 | two ids never continue under the same id, with 64-bit counters |
| ChainId.CounterIsIncreased | daemon/daemon.go:939-947 | an id that ends in a dash and the numeral of n, 2 <= n below the largest int, goes to the same stem with the numeral of n + 1 |
| ChainId.LargestCounterWraps | daemon/daemon.go:939-947 | the largest int goes to the smallest |
| ChainId.OtherIdsGetTwo | daemon/daemon.go:939-947 | every other id gets the suffix -2 |
| ChainId.RetreatUndoes | daemon/daemon.go:939-947 | the id before an advance can be computed from the one after it |
| ChainId.NeverRepeats | daemon/daemon.go:535-556 | iterating from any id never repeats one |
| ChainId.AdvanceKeepsNoSlash | daemon/daemon.go:939-947 | an advanced root id is a root id |
| ChainId.DateIsACounterIffNoLeadingZero | daemon/daemon.go:930-938 | a two-digit day is incremented exactly when it has no leading zero |
| Startup.ResolveChain | daemon/daemon.go:524-576 | serves the first id, of at most 33, whose chain is not terminal; refuses only if all are; an error only if a query failed |
| Startup.ResolveWithin | daemon/daemon.go:535-576 | the same for any cap |
| Startup.ResolutionIsDetermined | daemon/daemon.go:535-576 | at most one id is served, and none when all are terminal |
| Startup.RefusalMeansManyChains | daemon/daemon.go:560-576 | for any cap, the ids refused are different stored chains |
| Startup.RefusalMeans33 | daemon/daemon.go:535-576 | a refusal is about 33 different stored chains, each the successor of the one before, each with a terminal receipt at its end |
| Startup.ServedIsOpen | daemon/daemon.go:535-576 | the served root chain is not terminal, for every configured id |
| Lifecycle.TerminalStaysLast | daemon/daemon.go:535-576 | over any sequence of starts, stops and crashes a terminal receipt on a chain that is only served as a root is its last, and nothing stored is lost |
| Lifecycle.TerminatedRootIsFinal | daemon/daemon.go:535-576 | a terminated root chain and every agent chain that is only its own never change again |
| Lifecycle.SlashFreeRootsAreApart | daemon/internal/pipeline/build.go:322-326 | that is every agent chain under it, when the served ids contain no '/' |
| Lifecycle.LifetimeKeepsTerminalLastIff | daemon/internal/pipeline/build.go:1201-1279 | for any chain: a lifetime keeps terminal-last exactly if the chain was open at its start or is left alone |
| Lifecycle.CanResumeIff | daemon/internal/pipeline/build.go:322-334 | in the stores that lifetimes from an empty store leave, the terminated chains a daemon can append to are exactly the agent chains under the root it serves, those once served as roots included |
| Lifecycle.AgentChainIsResumed | daemon/internal/pipeline/build.go:1201-1279 | two lifetimes from an empty store, for any root and agent: the first stores a receipt of the agent and at shutdown its terminator, the second appends behind it |
| Listener.CountIsExact | daemon/internal/socket/listener.go:155-167 | the wait-group count is the number of tracked handlers that have not finished |
| Listener.ClosedRunTracksNothing | daemon/internal/socket/listener.go:155-167 | once closed no connection is tracked and no handler begins |
| Listener.NoHandlerAfterShutdown | daemon/internal/socket/listener.go:235-266 | when Serve has returned nil or Close has returned, no handler runs or will ever start |
| Listener.CloseCanReturn | daemon/internal/socket/listener.go:235-266 | from every reachable state forced steps alone, however idle the peers, lead to the return of a pending Close with every handler finished |
| Listener.WayOutIsForced | daemon/internal/socket/listener.go:258-262 | after the closing pass, whichever contexts are cancelled, the next step of every unfinished handler is forced and brings it nearer to its end |
| Listener.HandlerFinishes | daemon/internal/socket/listener.go:258-262 | so forced steps alone finish any handler, and no other handler has to move |
| Listener.AcceptedIsServed | daemon/internal/socket/listener.go:191-231 | while the listener is open an accepted connection is tracked and read from, and its frames are handled one after the other |
| Frames.WriteAll | daemon/internal/socket/listener.go:357-371 | what was taken is a prefix of the buffer, all of it on success, and success if every write takes something |
| Frames.WriteFrame | daemon/internal/socket/listener.go:339-355 | header and payload, or a prefix of them; refused without writing if empty or too large |
| Frames.ReadFull | daemon/internal/socket/listener.go:309-330 | independent of how the reader cuts the stream |
| Frames.ReadFrame | daemon/internal/socket/listener.go:309-330 | exactly the first frame of the stream, or which of the ends io.ReadFull tells apart |
| Frames.ReadFrames | daemon/internal/socket/listener.go:268-298 | all frames up to the first that cannot be read, and whether that is logged |
| Frames.BigEndianRoundTrip | daemon/internal/socket/listener.go:346-347 | the header encodes and decodes every length |
| Frames.HeaderIsNetworkOrder | daemon/internal/socket/listener.go:346-347 | the weights of the four header bytes |
| Frames.HeaderDecides | daemon/internal/socket/listener.go:309-330 | a length of 0 and one beyond 2^20 are refused whatever follows, and any other is a frame exactly if its bytes are there |
| Frames.RoundTrip | daemon/internal/socket/listener.go:309-371 | any list of payloads of 1 to 2^20 bytes is read back exactly |
| Frames.Truncation | daemon/internal/socket/listener.go:309-330 | a cut stream yields a prefix of what was written; end of stream exactly at a frame boundary, missing body exactly right after a header, a frame cut in two anywhere else |
| Frames.SilentIff | daemon/internal/socket/listener.go:277-292 | serveConn ends without logging exactly at a frame boundary or right after a header |
| Frames.HeaderOnlyIsSilent | daemon/internal/socket/listener.go:277-292 | a stream that breaks off after a header loses that frame without a word |
| Frames.Transfer | daemon/internal/socket/listener.go:309-371 | both ends together, for every pattern of short writes and reads |
| LineReader.DiscardRestOfLine | hook/cmd/obsigna-hook/claude_transcript.go:150-161 | stops at the next line start; fails only on an I/O error |
| LineReader.ReadBoundedLine | hook/cmd/obsigna-hook/claude_transcript.go:120-141 | a short line whole, of a long one never more than the limit, and always at the next line start |
| LineReader.Lookup | hook/cmd/obsigna-hook/claude_transcript.go:78-111 | terminates with the result of the scan for every buffer size |
| LineReader.ScanIsFirstMatchIff | hook/cmd/obsigna-hook/claude_transcript.go:89-111 | on the lines of any stream that is the first match among the short lines, exactly unless none matches and a cut-off long line matches by its held front |
| LineReader.CutLineIsMatched | hook/cmd/obsigna-hook/claude_transcript.go:120-141 | a stream on which the two differ |
| LineReader.ReadableFilesScanExactly | hook/cmd/obsigna-hook/claude_transcript.go:78-111 | for a readable file without exception |
| LineReader.FirstMatchIsFirst | hook/cmd/obsigna-hook/claude_transcript.go:89-111 | every earlier line is too long or does not match |
| LineReader.LinesAreTheText | hook/cmd/obsigna-hook/claude_transcript.go:120-141 | splitting loses and adds nothing |
| LineReader.LinesAreLines | hook/cmd/obsigna-hook/claude_transcript.go:120-141 | every line ends at its first newline, the last one perhaps without |
| Policy.ParseDisclosurePolicy | daemon/internal/pipeline/disclosure_policy.go:51-80 | keywords, the set of entries, or the first refused entry |
| Policy.ParseIs | daemon/internal/pipeline/disclosure_policy.go:51-80 | a text that spells a keyword is that policy; any other is the set of its entries between commas, or refused for its first empty or reserved one |
| Policy.KeywordIff | daemon/internal/pipeline/disclosure_policy.go:51-60 | a text is one of the three keyword policies exactly if it is one of the words in any case with white space around |
| Policy.LowerIff | daemon/internal/pipeline/disclosure_policy.go:52-52 | lower-casing position by position, with the two letters outside ASCII that have an ASCII lower case |
| Policy.SplitIff | daemon/internal/pipeline/disclosure_policy.go:63-63 | the entries are the pieces between commas |
| Policy.TrimIs | daemon/internal/pipeline/disclosure_policy.go:64-64 | trimming removes the white space at both ends and nothing else |
| Policy.DisclosedIff | daemon/internal/pipeline/disclosure_policy.go:83-95 | the actions and risks each policy discloses |
| Policy.LessIff | daemon/internal/pipeline/disclosure_policy.go:116-119 | the order of the rendered types: the first difference decides, a proper prefix comes first |
| Policy.String | daemon/internal/pipeline/disclosure_policy.go:105-123 | keyword or sorted list |
| Policy.RenderingIsStable | daemon/internal/pipeline/disclosure_policy.go:116-119 | the rendering does not depend on map order |
| Policy.RenderThenParse | daemon/internal/pipeline/disclosure_policy.go:103-123 | rendering then parsing gives a policy back exactly when it is one that can be parsed |
| Policy.RoundTrip | daemon/internal/pipeline/disclosure_policy.go:51-123 | every parsed policy survives, and decides all actions and risks alike |
| Policy.ParseGivesParsable | daemon/internal/pipeline/disclosure_policy.go:62-79 | allowlists are non-empty sets of trimmed, comma-free, unreserved entries |
| Policy.EnabledIffSomethingDisclosed | daemon/internal/pipeline/disclosure_policy.go:83-101 | enabled means that something would be disclosed |
| Json.PrintThenParse | daemon/internal/pipeline/redact.go:140-157 | the text of a document parses to that document |
| Json.ParseThenPrint | daemon/internal/pipeline/redact.go:140-157 | a text that parses is the text of the document it parses to |
| Json.EncodeThenDecode | daemon/internal/pipeline/redact.go:287-294 | an encoded key decodes to itself |
| Json.WrittenTextIsDecoded | daemon/internal/pipeline/redact.go:228-238 | a key means the text it writes, in any mixture of plain characters, short escapes, hexadecimal escapes of either case and surrogate pairs |
| Json.LoneSurrogate | daemon/internal/pipeline/redact.go:228-238 | half a surrogate pair is read as the replacement character |
| Json.EscapedIff | daemon/internal/pipeline/redact.go:287-294 | the encoder escapes control characters, quote, backslash and the two line separators only |
| Json.NumberAccepted | daemon/internal/pipeline/redact.go:151-151 | every number of the JSON grammar is accepted as one |
| Json.NumberIs | daemon/internal/pipeline/redact.go:151-151 | and nothing else is |
| Redact.RedactionKeepsTheTree | daemon/internal/pipeline/redact.go:186-196 | the result parses to the same tree with exactly the outermost sensitive values replaced; without a sensitive key it is the same text |
| Redact.RedactedTextAt | daemon/internal/pipeline/redact.go:186-285 | place by place: where no sensitive key lies on the way, scalars, keys and lengths are as before; behind the first one stands the placeholder text and nothing further |
| Redact.SensitiveIff | daemon/internal/pipeline/redact.go:251-251 | a key is sensitive exactly if it spells one of the set up to case |
| Redact.BuiltInKeysInAnyCase | daemon/internal/pipeline/redact.go:15-47 | any ASCII case of a built-in key is sensitive |
| Redact.EscapesDoNotMatter | daemon/internal/pipeline/redact.go:228-251 | and so is any way to write it with escapes |
| Redact.HasIff | daemon/internal/pipeline/redact.go:197-212 | the traversal reports a change exactly if some place lies behind a sensitive key |
| Redact.OtherTextPasses | daemon/internal/pipeline/redact.go:144-158 | text that is not JSON, or has no sensitive key at any depth, passes byte for byte |
| Redact.RedactionIsIdempotent | daemon/internal/pipeline/redact.go:197-285 | a second pass is byte-identical, for every text |
| Redact.MemberAt | daemon/internal/pipeline/redact.go:245-284 | in a rewritten object untouched values keep their bytes, keys their meaning, members their place |
| Redact.RedactedIsHidden | daemon/internal/pipeline/redact.go:245-262 | no sensitive key keeps a value at any depth |
| RedactPass.RedactJsonBytes | daemon/internal/pipeline/redact.go:197-212 | the recursive pass computes that text and whether it changed |
| RedactPass.RedactJsonObject | daemon/internal/pipeline/redact.go:214-285 | the same for an object's raw bytes |
| RedactPass.RedactJsonArray | daemon/internal/pipeline/redact.go:296-341 | the same for an array's raw bytes |
| RedactPass.RedactKeys | daemon/internal/pipeline/redact.go:140-157 | the first pass of Redact with the built-in keys; text that is not JSON passes |
| Rotate.Host.RotateKey | daemon/rotate.go:83-218 | succeeds exactly when nothing needed fails and no leftover is in the way; every crash point is ordered behind the anchor; every file on return: after success two new keys, one archive and no backup, after failure all as before, but for removals and roll-back writes that fail |
| Rotate.RefusedIff | daemon/rotate.go:83-207 | what stops a rotation, one by one |
| Rotate.RotationLeavesNothingElse | daemon/rotate.go:352-355 | after a rotation that can remove its backups the files are the old ones with the two keys replaced and one archive added |
| Rotate.FailureLeavesFiles | daemon/rotate.go:189-207 | after a failure that can put back and remove everything every file is as before, and the next attempt stands as before |
| Rotate.RotatesAgainIff | daemon/rotate.go:307-356 | after a rotation the next one goes through exactly if both backups could be removed and the new key has no archive yet |
| Rotate.Host.Prepare | daemon/rotate.go:175-187 | event anchored, then the outgoing key archived, before anything else changes |
| Rotate.Host.SwapAndInsert | daemon/rotate.go:189-207 | both new keys and the receipt, or everything put back, backups and archive removed, as far as the roll-back writes and removals succeed |
| Rotate.Host.SwapKeyFiles | daemon/rotate.go:307-356 | every intermediate state only mixes old and new key files, exactly when it succeeds, and the backups are gone on return unless their removal fails |
| Rotate.Host.Restore | daemon/rotate.go:330-340 | puts both originals back and removes the backups, or fails with the published key still new |
| Rotate.Host.AnchorEvent | daemon/rotate.go:224-244 | one event in the log on success; nothing else is touched |
| Rotate.Host.ArchivePublicKey | daemon/rotate.go:286-301 | the outgoing public key under its fingerprint, never over an existing archive |
| Rotate.RotationContinuesChain | daemon/rotate.go:138-165 | the receipt continues the chain; terminal-last survives exactly on a tail that is not terminal |
| Rotate.SwapIsCrashOk | daemon/rotate.go:76-82 | every state of the key swap is a good crash point once event and archive are in place |
| Lineage.VerifyChain | sdk/go/receipt/chain.go:199-420 | valid exactly if every receipt checks out under the key active at it, all share the chain id and a terminal receipt is last; and where it first breaks |
| Lineage.ValidIff | sdk/go/receipt/chain.go:199-420 | validity without the traversal: sequences count up, every link is the hash of the predecessor, every receipt is signed with the key the last rotation before it handed over, one id, terminal last |
| Lineage.ValidIsLinked | sdk/go/receipt/chain.go:281-314 | a valid chain that begins at sequence 1 is well linked |
| Lineage.BreaksAtIff | sdk/go/receipt/chain.go:314-335 | on a chain with one id the reported index is where the longest valid prefix ends |
| Lineage.BrokenLinkIsReported | sdk/go/receipt/chain.go:281-314 | a chain valid up to a broken link or a gap is rejected at that index, whatever follows |
| Lineage.CurrentChainKeyFingerprint | daemon/internal/verifycli/verify.go:436-443 | the field of the last rotation |
| Lineage.LastRotationIsKeyAfter | daemon/internal/verifycli/verify.go:430-443 | on a valid chain that field is the fingerprint of the key the traversal ends at |
| Lineage.ResolveGenesisKey | daemon/internal/verifycli/verify.go:464-503 | the first candidate that signed receipt 1, else the published key |
| Lineage.GenesisIsSigner | daemon/internal/verifycli/verify.go:452-463 | the published key wins, then any archive that signed receipt 1 |
| Lineage.Verify | daemon/internal/verifycli/verify.go:177-254 | accepts exactly the chains that verify from the signer of receipt 1, which is published, or archived with rotations that lead to the published key |
| Lineage.AcceptedHeadCommits | daemon/internal/verifycli/verify.go:177-254 | two accepted chains of one id that begin at sequence 1 and agree on the head hash are the same chain |
| Lineage.HistoriesVerify | daemon/internal/verifycli/verify.go:187-254 | after any appends, rotations and cleanly failed rotations on one open chain the verifier accepts at every point, starting from the right key |
| Lineage.ArchiveAcceptanceIsPinned | daemon/internal/verifycli/verify.go:219-254 | acceptance through an archive means the last rotation installs the published key |
| Lineage.RotateKeyIsAnEvent | daemon/rotate.go:189-207 | RotateKey is a rotation of such a history on success and a cleanly failed one on failure; with a new key that was never used, the latter exactly unless a roll-back write failed |
| Lineage.CrashVerdict | daemon/rotate.go:76-82 | after a crash inside a rotation the verifier accepts exactly if the receipt was inserted, or the published key not yet replaced, or the chain empty |
| LineageChains.AcceptedIffNotLeftBehind | daemon/internal/verifycli/verify.go:187-254 | with any number of chains in the store, at every point of any history: a chain is accepted exactly if no rotation was recorded on another chain since it got its first receipt |

## Left out

- Ed25519, SHA-256, HPKE and RFC 8785 canonicalisation: ideal, as said above. A receipt's content other than its chain position, kind, delegation, rotation and terminal flag is not modelled.
- chain.status, response hashes, idempotency warnings and the advisory flags of VerifyChain: they do not interact with the lineage.
- Regular-expression passes of the redactor, and custom patterns: library behaviour.
- Lower-casing outside ASCII: only the two other characters with an ASCII lower case matter to comparisons with ASCII keywords and keys.
- Nesting limits of encoding/json, and strings with invalid UTF-8: texts are sequences of Unicode characters.
- bufio's error for a reader that never makes progress: a read returns at least one byte or the end.
- Several sinks at once: one sink is modelled, whose write may fail; log files are lists of complete lines.
- Wall-clock deadlines: a terminator may fail at any chain, before or after its slot is taken.
- File permissions, symbolic links, temporary files of replaceFile, and key PEM syntax beyond "is a key": operating-system facts.
- Fingerprint suffixes in archive names: an archive is named by the whole fingerprint.
- Fairness of goroutine scheduling: proved is that somebody can take a step, not that they do.
- Length limits of agent ids and other frame fields: of frame validation only the characters of agent ids matter here.
- Integer width of sequence numbers; ids are drawn from outside.
- CLI flags and rendering, doctor, list, show and disclose commands, collectors, launchers and the TypeScript parts.
- Pipeline.Pipeline.GetOrCreateAgentState: the lost creation race has no place in a single-goroutine run; it is a step of PipelineMachine. The root state and the agent map are one map keyed by chain id there, and the walk over the map is a parameter.
- CheckpointEmitter.Emitter.Flush: states what one undisturbed call does; interleavings are in EmitterTheorems.
- AnchoredRestart.TruncationDetection: needs a run without drops, faults or overlapping calls for a chain, because the code gives no more; what holds without is in AnchoredRun.IntactPassesIff.
- Lineage.HistoriesVerify: all events are recorded on one chain, several chains are in LineageChains; receipts of the daemon carry no rotation.
- LineageChains.AcceptedIffNotLeftBehind: every rotation installs a key that was not published before, and is recorded on a chain whose tail is not terminal.
