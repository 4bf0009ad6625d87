# Verified model of a filesystem workflow engine

The engine keeps every job as a directory and a *marker*: an empty file whose path states the job's
kind, generation and newest journal record. Nothing is shared but a filesystem. Any number of
managers, on any hosts, move jobs forward by renaming markers, may die at any instant, and must
never run a job twice at once, lose a request, exceed a budget or import a transfer twice. This
project models the protocols that promise this and proves the promises, over every run of the
protocol rather than for chosen inputs.

| files | what they model |
|---|---|
| `Receipts`, `Allocator`, `AllocatorPeers`, `Transfer` | sequenced-transfer replay protection: a sender whose allocator files an adversary may replace between any two calls, a receiver that keeps merged intervals, and the two together |
| `Job`, `JobHistory`, `JobLaunch`, `JobBudget`, `JobPause` | the job state machine driven by any number of managers: compare-and-swap on the marker, what each marker of a history means, the exec gate, takeover, cancellation, attempt budgets, deferred pause |
| `JobManager` | the manager's passes over a job: claim and launch, polling with its sweep, claim recovery and cancellation, under any interference |
| `Scheduling` | resource requirements, reservations and the claim pass of one manager |
| `Children` | registration of spawned children, interrupted anywhere and repeated |
| `Joins` | join conditions and their verdicts |
| `RecordRef`, `Journal`, `JournalWriter`, `JournalWalk` | the segmented journal: references, frames, append with rotation, verified reads, the forgiving forward walk |
| `Collector`, `Collection` | journal garbage collection: the backward walk, what history protects, reference counts across a batch of retirements |
| `Fsck` | the consistency check and the repair of damaged markers |
| `Splitter` | the collector's stdout reader against a whole-stream specification |
| `Common` | optional values, bytes, job kinds, canonical identifiers |

How the outside world appears. `uuid4` is a name that was never handed out before, passed as a
parameter. SHA-256 is an arbitrary function with 32-byte results, JSON a pair of functions of which
decoding undoes encoding, a tree digest an arbitrary function. Clocks and leases are choices of the
environment: an event that needs an expired lease may happen at any time. Processes are alive or
dead; what a manager may know about a process is restricted to what it can observe from its host.
In the job machine a snapshot of the marker is an index into the log of all markers the job ever
had, so that a stale rename loses exactly when the log has grown since.

## Where the code and its own description differ

* `src/httk/workflow/journal.py:153-158` describes the reference parser as refusing what is not
  canonical. It also accepts numerals with leading zeros, and exactly those references are not
  canonical (`RecordRef.CanonicalIffShortest`); every reference with a short segment number has such
  a second text (`RecordRef.PaddedParsesToo`, `RecordRef.PaddedExample`).
* `src/httk/workflow/fsck.py:10-13` and `:251-254` describe the repair as never adopting a frame that
  no marker committed, because it takes only strictly older generations. A frame that lost a race
  stays in the journal at a generation that the marker has since left, and is recovered if it is
  listed last (`Fsck.LoserIsRecovered`). Where the committed frame is still readable, the recovered
  frame is a committed one exactly when no candidate of that generation is listed after it
  (`Fsck.RecoversCommittedIffNoneAfter`), and that is certain in advance exactly when the listing
  holds a single candidate of the newest candidate generation
  (`Fsck.RecoveryIsSureIffOnlyCandidate`). If the committed frame may be unreadable too, nothing in a
  listing makes it certain (`Fsck.RecoveryIsNeverSureOtherwise`).
* `docs/details/workflow_filesystem_api.md:1707-1710` relies on an interrupted outcome being replayed,
  child registration included. The marker lookup (`src/httk/workflow/workspace.py:1405-1422`)
  does not look at jobs that a transfer has fenced, so such a child gets a second marker exactly when
  its bundle is still in place and unchanged (`Children.FencedChildMarkedAgain`;
  `Children.RegisteredFencedAndMarkedAgain` is a run that leads there).
* `src/httk/workflow/journal.py:369-376` describes the segment walk as yielding every intact frame. It
  stops at a frame over 16 MiB, which `append` does store, so it is complete exactly when no such frame
  stands at or before an intact one (`Journal.WalkIsCompleteIff`).
* `src/httk/workflow/_transfer_receipts.py:22-25` promises that a fork mints a new epoch. The streams
  in memory are keyed by process id, and a forked child may be given the id of a dead ancestor whose
  stream it inherits. A new epoch is certain exactly when the parent's memory has no entry under the
  child's id (`Allocator.ForkMintsIff`). What the epoch is for, that no pair is handed out for two
  transfers, survives a fork exactly when no number was issued beyond a counter the child inherits
  under its id (`Allocator.ForkKeepsPairsIff`, with `Allocator.InheritedPidReissuesPair` and the run
  `Allocator.ReissuingRun`). All promises about runs assume exactly that of their forks. Such a fork
  can still bring back a transfer that was fenced since the copy was made (`Allocator.ForkRevivesIff`,
  `Allocator.RevivingRun`).

## Model

| member | source | states |
|---|---|---|
| `Receipts.Merge` | src/httk/workflow/_transfer_receipts.py:185-190 | merging sorted ranges gives sorted, disjoint, non-adjacent ranges that cover exactly the same numbers |
| `Receipts.Add` | src/httk/workflow/_transfer_receipts.py:182-192 | adding a number to any well-formed list covers exactly that number more, in canonical form |
| `Receipts.CanonicalUnique` | src/httk/workflow/_transfer_receipts.py:176-192 | two canonical lists that cover the same numbers are the same list |
| `Receipts.GapFreeCollapses` | src/httk/workflow/_transfer_receipts.py:176-192 | a canonical list covering exactly 1..n is the single range [1, n] |
| `Receipts.StreamKeysDistinct` | src/httk/workflow/_transfer_receipts.py:153-156 | with slash-free workspace identifiers two streams share a key if and only if they are the same stream |
| `Receipts.SlashImpersonates` | src/httk/workflow/_transfer_receipts.py:153-156 | an identifier with a slash takes over the key of another workspace's epoch, so the condition is needed |
| `Receipts.Receiver.constructor` | src/httk/workflow/_transfer_receipts.py:168-173 | no receipts yet |
| `Receipts.Receiver.Received` | src/httk/workflow/_transfer_receipts.py:141-173 | says yes exactly for sequence numbers the stream's ranges cover; malformed epochs and sequences are refused |
| `Receipts.Receiver.Remember` | src/httk/workflow/_transfer_receipts.py:176-192 | one number joins one stream, every other stream is untouched, the stored form stays canonical; a malformed manifest changes nothing |
| `Receipts.RunCovers` | src/httk/workflow/_transfer_receipts.py:176-192 | after any run of remembering, the ranges are canonical and cover exactly the remembered numbers |
| `Receipts.OrderIrrelevant` | src/httk/workflow/_transfer_receipts.py:176-192 | the stored ranges depend only on the set of numbers, not on order or repetition |
| `Receipts.CompleteRunCollapses` | src/httk/workflow/_transfer_receipts.py:176-192 | receiving exactly 1..n in any order leaves [1, n] |
| `Allocator.AllocatorFiles.constructor` | src/httk/workflow/_transfer_receipts.py:65-70 | the two allocator files may start out as anything |
| `Allocator.FindHeld` | src/httk/workflow/_transfer_receipts.py:103-110 | the search returns the transfer its job holds pending, whatever the order of the entries, and nothing exactly when it holds none |
| `Allocator.Process.constructor` | src/httk/workflow/_transfer_receipts.py:73-111 | a process starts with no volatile streams |
| `Allocator.Process.Reserve` | src/httk/workflow/_transfer_receipts.py:73-111 | the new memory, both new files and the returned triple for every content of the files, each job holding at most one pending reservation |
| `Allocator.Process.Fencing` | src/httk/workflow/_transfer_receipts.py:114-125 | the transfer leaves volatile memory and the disk is not touched |
| `Allocator.Process.Sealed` | src/httk/workflow/_transfer_receipts.py:128-138 | the transfer leaves memory, and leaves the files if they are trusted here |
| `Allocator.ReserveSound` | src/httk/workflow/_transfer_receipts.py:73-111 | a reservation keeps the invariant: pairs are unambiguous and numbered without gaps, an epoch belongs to one stream, every copy of a stream in any memory was issued as far as it goes, and a counter that a process can reach bounds everything issued in its epoch |
| `Allocator.ForkSoundIff` | src/httk/workflow/_transfer_receipts.py:22-26 | a fork keeps the invariant if and only if no number was issued beyond the counter of a stream that the child inherits under its own process id |
| `Allocator.RunSound` | src/httk/workflow/_transfer_receipts.py:73-138 | the invariant holds after every interleaving of calls, restarts, arbitrary replacement of the files, and forks that meet that exact condition |
| `Allocator.PairNamesOneTransfer` | src/httk/workflow/_transfer_receipts.py:73-111 | over every such run, two reservations returning the same (epoch, sequence) return the same transfer for the same job |
| `Allocator.UnusableStays` | src/httk/workflow/_transfer_receipts.py:88-111 | a transfer that no process can reach is returned by no reservation and stays out of reach, unless it is proposed anew or a fork revives a copy of it |
| `Allocator.ReusableIffReturnable` | src/httk/workflow/_transfer_receipts.py:88-111 | a transfer is out of reach if and only if no content of the files makes any reservation return it that does not propose it |
| `Allocator.ForkRevivesIff` | src/httk/workflow/_transfer_receipts.py:22-26 | a fork brings a transfer back if and only if the child inherits it pending under its own process id |
| `Allocator.PendingWasProposed` | src/httk/workflow/_transfer_receipts.py:88-111 | whatever is pending in any memory, inherited copies included, was proposed for exactly that stream |
| `Allocator.FenceForgetsIff` | src/httk/workflow/_transfer_receipts.py:114-125 | announcing a fence puts the transfer out of reach if and only if no other stream holds it |
| `Allocator.ProposedOnceIsHeldOnce` | src/httk/workflow/_transfer_receipts.py:88-111 | over every run no other stream holds a transfer that was proposed for one stream only |
| `Allocator.FencedIsHeldNowhere` | src/httk/workflow/_transfer_receipts.py:114-125 | after a fence of a transfer no other stream holds, no process holds it, whatever the disk then contains, until somebody proposes the identifier anew or a fork revives it |
| `Allocator.FencedIsNeverReissued` | src/httk/workflow/_transfer_receipts.py:88-125 | any later reservation, in any process and for any job, returns the fenced transfer if and only if it proposes that identifier itself for a job with nothing pending, and then under a pair never handed out before |
| `Allocator.UndisturbedCycleKeepsEpoch` | src/httk/workflow/_transfer_receipts.py:88-138 | reserve, fence, seal, reserve keeps the epoch and takes the stream's next number |
| `Allocator.InterruptedFenceRotates` | src/httk/workflow/_transfer_receipts.py:88-125 | a fence that is never sealed makes the next reservation start a new epoch at 1 |
| `Allocator.TransferNamesOnePair` | src/httk/workflow/_transfer_receipts.py:73-111 | with fresh proposals every issued transfer was proposed, and never appears under two pairs |
| `Allocator.ForkMintsIff` | src/httk/workflow/_transfer_receipts.py:22-26 | the promise as the comment states it: for every content of the files the child's first reservation in a stream starts a new epoch, if and only if the parent's memory has no entry under the child's process id |
| `Allocator.ForkKeepsPairsIff` | src/httk/workflow/_transfer_receipts.py:22-26 | pairs stay unambiguous after a fork, for every content of the files and every reservation that follows, if and only if the fork is safe |
| `Allocator.InheritedPidReissuesPair` | src/httk/workflow/_transfer_receipts.py:73-111 | how a fork that is not safe goes wrong: with the files restored to the inherited stream, the child's reservation returns a pair that another job already has |
| `Allocator.ReissuingRun` | src/httk/workflow/_transfer_receipts.py:73-111 | a reachable run in which a fork hands out a pair twice |
| `Allocator.RevivingRun` | src/httk/workflow/_transfer_receipts.py:114-125 | a reachable run in which a safe fork brings back a fenced transfer |
| `AllocatorPeers.ReturnsExactly` | src/httk/workflow/_transfer_receipts.py:81-111 | what a reservation returns for every content of memory and files: a new epoch at 1 exactly when the files do not vouch for the stream; otherwise the same epoch, with the pending reservation of the job if the files hold this very stream, and the stream's next number in all other cases |
| `AllocatorPeers.WritesExactly` | src/httk/workflow/_transfer_receipts.py:73-111 | what a reservation writes: nothing when it returns a pending one, otherwise its own stream as it is in memory, every other peer's stream of trusted files unchanged, and nothing else |
| `AllocatorPeers.RemembersExactly` | src/httk/workflow/_transfer_receipts.py:88-111 | what the process remembers after a reservation: the returned one, whatever the files vouched for before, unchanged, nothing else, and the counter at the last number taken |
| `AllocatorPeers.RestartMints` | src/httk/workflow/_transfer_receipts.py:22-26 | a restarted process starts a new epoch at 1 in every stream, whatever the files have been made to say |
| `AllocatorPeers.SealWritesExactly` | src/httk/workflow/_transfer_receipts.py:128-138 | what sealing writes: nothing unless trusted files hold the transfer pending for this peer; then those files without it, every other stream and reservation unchanged |
| `AllocatorPeers.OtherStreamsStay` | src/httk/workflow/_transfer_receipts.py:73-138 | a call changes no stream in memory but that of its own process, place and peer |
| `AllocatorPeers.OtherPeersDoNotDisturb` | src/httk/workflow/_transfer_receipts.py:73-138 | after any sequence of calls for other peers, by any processes, the files and the process still agree on the stream |
| `AllocatorPeers.NextNumberAfterOtherPeers` | src/httk/workflow/_transfer_receipts.py:73-138 | over every run: after a reservation and any calls for other peers the next reservation keeps the epoch, returns the same ticket for the same job, and takes the stream's next number for a job with nothing pending |
| `AllocatorPeers.StreamGoesOn` | src/httk/workflow/_transfer_receipts.py:88-111 | over every run the stream also survives other processes that use the same peer, their exits and forks, short of replacing the files or sealing what this process has pending |
| `AllocatorPeers.NextNumberWhileOthersWork` | src/httk/workflow/_transfer_receipts.py:88-111 | and its next reservation then keeps the epoch and takes the number after its last |
| `Transfer.StoreIsWhatWasDelivered` | src/httk/workflow/_transfer_receipts.py:168-192 | for bundles of any workspaces interleaved, a stored stream covers what it covered at the start and exactly the numbers delivered under its key |
| `Transfer.ImportedIffPlaceIsNew` | src/httk/workflow/transfers.py:683-700 | with slash-free workspace identifiers a bundle is imported exactly when its place in its own workspace's stream is new, whatever other workspaces and epoch-less bundles are delivered in between |
| `Transfer.FreshProposalsGiveOneTicket` | src/httk/workflow/transfers.py:486-490 | proposing a new identifier each time makes every transfer travel under one ticket |
| `Transfer.NewIsNeverDropped` | src/httk/workflow/transfers.py:683-700 | whatever is dropped was received before the start, or the same transfer of the same job came before |
| `Transfer.EachTransferImportedOnce` | src/httk/workflow/transfers.py:683-700 | end to end, for any number of sending workspaces with an allocator run each: a delivery is imported if and only if its transfer was not delivered before |
| `Transfer.ImpersonatorSuppresses` | src/httk/workflow/_transfer_receipts.py:153-156 | an epoch-less bundle of a workspace whose identifier spells another workspace and epoch makes the receiver drop that workspace's bundle, so slash-free identifiers are needed |
| `Transfer.FirstBundleDropped` | src/httk/workflow/_transfer_receipts.py:153-192 | a run in which the very first bundle of a workspace is dropped that way |
| `Job.ActivityStep` | src/httk/workflow/manager.py:1412-1490 | a manager's place in a launch changes only by claiming, spawning, committing the running frame, or leaving the launch |
| `Job.TrackedStep` | src/httk/workflow/manager.py:1834-1841 | an attempt becomes tracked only when its own launch opens the gate |
| `Job.LogStep` | src/httk/workflow/workspace.py:1474-1532 | the history of markers only grows, by one marker, and only for the actor whose snapshot was current |
| `Job.ProcessStep` | src/httk/workflow/_launcher.py:7-32 | a gate is moved only by the manager that holds it, and a launcher turns into a runner only through a granted gate |
| `JobHistory.AppendsIffEnabled` | src/httk/workflow/workspace.py:1474-1532 | an event moves the marker if and only if its snapshot is the last marker, of a kind the event acts on, in the hands of a live manager with the evidence the event needs |
| `JobHistory.StepExplained` | src/httk/workflow/manager.py:1133-1180 | for each of the kinds, exactly which events lead there and when; and the activation, counters, attempt, owner, process, pending pause and answered request of the new marker in terms of the one before it |
| `JobHistory.RecordsStep` | src/httk/workflow/_launcher.py:7-32 | an outcome is published by a running program only, a program is started by a launcher that reads a token only, and nothing on record is ever lost |
| `JobHistory.ProcessExplained` | src/httk/workflow/_launcher.py:7-32 | exactly what becomes of a process: it starts by reading a granted token, dies by itself or on a pipe closed without one, and its gate is granted by the manager of its launch or shut when that launch ends otherwise |
| `JobHistory.TableExplained` | src/httk/workflow/manager.py:1834-1953 | exactly when a manager gains an attempt in its table and when it loses one |
| `JobHistory.FirstIsSubmitted` | src/httk/workflow/workspace.py:1474-1532 | every history begins with a submission that has nothing on record |
| `JobHistory.AppendedBySomeEvent` | src/httk/workflow/workspace.py:1474-1532 | every marker of a run but the first was appended by one of its events |
| `JobHistory.MarkerExplained` | src/httk/workflow/workspace.py:1474-1532 | over every run each marker is what an event that was entitled to it makes of the marker before |
| `JobHistory.SucceededIffFinished` | src/httk/workflow/_manager_commit.py:328-331 | over every run a marker is a succeeded one if and only if the event that appended it finished a commit with success |
| `JobHistory.OutcomeDecides` | src/httk/workflow/_manager_commit.py:294-377 | over every run, where each outcome leads: success, failure exactly at the limits or when not retryable, waiting, the next activation or the same one, and paused instead of waiting or ready while a pause is pending |
| `JobHistory.VerdictDecides` | src/httk/workflow/_manager_joins.py:141-186 | over every run, where each verdict on a join leads: a satisfied one, and an impossible one if the job goes on all the same, to the next activation or to failure exactly at the activation limit; any other impossible one to failure |
| `JobHistory.EndsAreFinal` | src/httk/workflow/manager.py:1133-1180 | over every run no marker follows a succeeded or cancelled one |
| `JobLaunch.RunSound` | src/httk/workflow/manager.py:1546-1841 | in every reachable world launches are distinct, attempts have one process, and every granted gate has its running frame on record |
| `JobLaunch.ExecutesOnlyAfterCommit` | src/httk/workflow/manager.py:1722-1834 | a runner program executes only after a running frame naming exactly that process and attempt was committed, at every crash point and in every race |
| `JobLaunch.DoomedLaunchNeverRuns` | src/httk/workflow/manager.py:1722-1834 | after a lost claimed-to-running move, a dead manager or a failed launch, the runner never starts, whatever happens next |
| `JobLaunch.EndsOnlyWithProof` | src/httk/workflow/manager.py:1911-2040 | every move that ends a persistent attempt rests on its published outcome or on the death of its process |
| `JobLaunch.FenceKeepsIdentity` | src/httk/workflow/_manager_cancellation.py:107-151 | an operator request or a cancellation note on a live attempt keeps its attempt and process identity in the marker |
| `JobLaunch.StepExclusive` | src/httk/workflow/manager.py:1911-2040 | one step keeps it that a live unpublished attempt holds the marker in running or cancelling |
| `JobLaunch.RunExclusive` | src/httk/workflow/manager.py:1911-2040 | and so does every run |
| `JobLaunch.LiveRunnerHoldsTheMarker` | src/httk/workflow/manager.py:2364-2384 | in every run, while an unpublished runner is alive the marker is in running or cancelling and names it |
| `JobLaunch.OneLiveRunner` | src/httk/workflow/_manager_cancellation.py:11-104 | two live unpublished runners are the same process: a second attempt never starts beside a live one |
| `JobLaunch.TakeoverAbandonsIffRelaxed` | src/httk/workflow/manager.py:1977-2040 | a takeover can abandon a live runner if and only if the job is not persistent or the unsafe override is on |
| `JobBudget.SumCounts` | src/httk/workflow/_manager_commit.py:89-106 | summing attempts activation by activation counts each attempt once |
| `JobBudget.ClaimSound` | src/httk/workflow/manager.py:1434-1467 | a claim raises both counters with the attempts charged and stays within all limits |
| `JobBudget.ReleaseIsExact` | src/httk/workflow/manager.py:1505-1515 | releasing a claim in force lowers both counters by exactly one |
| `JobBudget.ReleaseSound` | src/httk/workflow/_manager_scheduling.py:197-236 | a release, by its owner or by recovery, refunds exactly the released attempt |
| `JobBudget.NextIsExact` | src/httk/workflow/_manager_commit.py:380-419 | starting the next activation keeps the total and resets the ordinal to what is charged to it |
| `JobBudget.MoveSound` | src/httk/workflow/manager.py:1133-1180 | every marker move keeps the counters exact and within limits |
| `JobBudget.StepBudget` | src/httk/workflow/_manager_commit.py:380-453 | every event does |
| `JobBudget.RunBudget` | src/httk/workflow/_manager_requests.py:203-217 | every run does, including operator continue and override |
| `JobBudget.CountersAreExact` | src/httk/workflow/manager.py:1434-1467 | in every reachable state the total equals the attempts claimed and not released summed over activations, all three maxima hold, and no more runners were executed than the total counts |
| `JobBudget.ClampsNeverFire` | src/httk/workflow/manager.py:1505-1515 | the clamps of a release never act |
| `JobPause.MoveKeepsRequest` | src/httk/workflow/manager.py:1133-1180 | a move from a frame with a pause request honours it, leaves for good, or keeps the request in the same attempt |
| `JobPause.MoveRequestsInFlight` | src/httk/workflow/_manager_requests.py:162-186 | no move installs a request outside claimed, running and committing |
| `JobPause.RunKeepsPause` | src/httk/workflow/_manager_commit.py:204-211 | both hold along every run |
| `JobPause.RequestUntilHonoured` | src/httk/workflow/manager.py:1133-1180 | from the frame with the request on, each later frame is in the same attempt with a request, or some frame before it honoured or ended it |
| `JobPause.PauseIsNeverLost` | src/httk/workflow/_manager_requests.py:162-186 | over every run of any number of managers the job is not ready, waiting or launched anew before it is paused, cancelled or ended |
| `JobPause.RequestOnlyInFlight` | src/httk/workflow/_manager_scheduling.py:210-214 | the request appears only in claimed, running and committing frames |
| `JobManager.Site.constructor` | src/httk/workflow/workspace.py:1474-1532 | a job begins as one submitted marker with nothing having happened |
| `JobManager.Site.Interfere` | src/httk/workflow/manager.py:1412-1490 | whatever others do between two steps of a manager extends the run, leaves that manager where it was, keeps every earlier marker and revives no process |
| `JobManager.Site.ClaimReady` | src/httk/workflow/manager.py:1431-1467 | the claim is taken exactly when the snapshot is current, no pause is requested and the budgets allow it |
| `JobManager.Site.GiveUpClaim` | src/httk/workflow/manager.py:1477-1489 | a claim given back or failed in preparation never had a process |
| `JobManager.Site.CommitLaunch` | src/httk/workflow/manager.py:1768-1788 | the running frame is installed, or the gate is shut for good |
| `JobManager.Site.AbandonLaunch` | src/httk/workflow/manager.py:1795-1822 | a launch that fails with its launcher waiting shuts the gate for good |
| `JobManager.Site.WriteToken` | src/httk/workflow/manager.py:1789-1841 | the token is written with the running frame of this very launch on record |
| `JobManager.Site.LaunchClaimed` | src/httk/workflow/manager.py:1722-1834 | for any interference between the steps: started with its running frame on record, or a launcher that can never become a runner |
| `JobManager.Site.ClaimAndLaunch` | src/httk/workflow/manager.py:1412-1490 | the whole of claim, maintenance release, preparation failure and launch under any interference: the manager ends idle, tracks the attempt exactly when it started, and every other ending leaves no process or one that can never run |
| `JobManager.Site.FollowClaim` | src/httk/workflow/manager.py:1477-1490 | what follows a claim that was taken ends in every way with the manager idle and the same promises |
| `JobManager.Site.AttemptWriterDead` | src/httk/workflow/manager.py:2364-2384 | only a process recorded on this host can be called dead |
| `JobManager.Site.TakeoverEvidence` | src/httk/workflow/manager.py:1977-2040 | a takeover is admitted exactly on a dead writer, on the unsafe override for persistent work directories, or on a long silent lease for others |
| `JobManager.Site.PollOneRunning` | src/httk/workflow/manager.py:1911-1975 | a poll acts exactly on a found outcome whose environment log is not pending, on the exit of its own process, or on an expired lease with evidence, and forgets only dead processes |
| `JobManager.Site.PollTraced` | src/httk/workflow/manager.py:1925-1953 | an attempt the manager started is acted on exactly when its process has exited |
| `JobManager.Site.PollForeign` | src/httk/workflow/manager.py:1954-1975 | an attempt of another manager is taken over exactly on an expired lease with evidence, and otherwise nothing changes |
| `JobManager.Site.ReapExited` | src/httk/workflow/manager.py:1926-1953 | an exited attempt is committed if it published after all, otherwise failed, and is forgotten either way |
| `JobManager.Site.SweepUntracked` | src/httk/workflow/manager.py:2042-2096 | attempts named by a running marker, under cancellation, of another user or of an unreadable job are kept; all others are forgotten once their process is gone, and not before |
| `JobManager.Site.PollRunning` | src/httk/workflow/manager.py:1878-1909 | the whole pass under interference: the scanned running marker is acted on exactly when the world at the poll calls for it, only attempts whose process is gone are forgotten, and none for a job that could not be read |
| `JobManager.Site.RecoverAbandonedClaim` | src/httk/workflow/_manager_scheduling.py:197-236 | a claim is taken back exactly when a pause waits on it or its owner's lease ran out, and then no launch under it can start a runner any more |
| `JobManager.Site.CancellationEvidence` | src/httk/workflow/_manager_cancellation.py:11-46 | proof exactly when the tracked process has exited, or the recorded process is gone from this host |
| `JobManager.Site.FinishCancelling` | src/httk/workflow/_manager_cancellation.py:66-104 | the cancelled frame is tried exactly on proof at the time of the decision; without proof nothing changes |
| `JobManager.Site.OneRunnerHere` | src/httk/workflow/manager.py:1911-2040 | whatever sequence of passes led here, a persistent job has at most one live unpublished runner and the marker names it |
| `Scheduling.RecomputedFromClaim` | src/httk/workflow/manager.py:1590-1592 | recomputing the requirement from the claimed frame gives the reservation that was checked |
| `Scheduling.RequiredByName` | src/httk/workflow/_manager_scheduling.py:23-43 | resource by resource, what is required: the frame's, the step's or the job's amount, an even part rounded down, or all of a capacity below one unit a worker, for unstated processors and memory, and nothing else |
| `Scheduling.DefaultShareFitsIff` | src/httk/workflow/_manager_scheduling.py:37-42 | while a worker is free and all attempts took the default share, another fits, except exactly where capacity is below one unit a worker and somebody has it |
| `Scheduling.UnfitResource` | src/httk/workflow/_manager_scheduling.py:46-53 | the first resource in text order that cannot fit, none exactly when all fit |
| `Scheduling.BeforeIff` | src/httk/workflow/_manager_scheduling.py:46-53 | text order: the first difference decides, or the first text ends there |
| `Scheduling.AvailableResources` | src/httk/workflow/_manager_scheduling.py:56-64 | each capacity less every reservation in turn, stopping at zero |
| `Scheduling.DrainedIsExact` | src/httk/workflow/_manager_scheduling.py:56-64 | stopping at zero at each step equals stopping at zero once after the whole sum |
| `Scheduling.Manager.constructor` | src/httk/workflow/manager.py:454-531 | a manager starts with no attempts and at least one worker |
| `Scheduling.Manager.Available` | src/httk/workflow/manager.py:1407-1410 | in every reachable manager state what is left is exactly capacity less the reservations: the saturation loses nothing |
| `Scheduling.Manager.EligibleReady` | src/httk/workflow/_manager_scheduling.py:67-118 | exactly the served jobs whose requirement the whole capacity could meet, each with its requirement, by priority and then path |
| `Scheduling.Manager.ClaimPass` | src/httk/workflow/_manager_scheduling.py:239-276 | the pass keeps reservations within capacity and attempts within the workers; each attempt reserves what its job requires; nothing is launched once processors or memory are used up; a launchable job is left out only for want of room, workers or an exhausted resource; and no job overtakes an earlier one that has room |
| `Scheduling.Manager.TryOne` | src/httk/workflow/_manager_scheduling.py:260-266 | one entry is launched, or has no room, or cannot be launched |
| `Scheduling.Manager.Launch` | src/httk/workflow/manager.py:1449-1467 | an admitted launch adds exactly one attempt with the checked reservation when it succeeds, otherwise none |
| `Scheduling.Manager.Forget` | src/httk/workflow/manager.py:2042-2096 | an ended attempt gives back exactly its own reservation |
| `Children.Workspace.constructor` | src/httk/workflow/_manager_commit.py:456-501 | the workspace a registration finds |
| `Children.Workspace.RegisterChildren` | src/httk/workflow/_manager_commit.py:456-501 | a run cut short before any effect leaves exactly the world, and ends exactly as, the effect-by-effect specification says |
| `Children.Workspace.RegisterOne` | src/httk/workflow/_manager_commit.py:472-501 | one entry: publish the bundle, then the marker, with every refusal, as the specification runs it |
| `Children.Workspace.PublishBundle` | src/httk/workflow/_manager_commit.py:479-492 | the publishing half: the rest of the run from the bundle on, or the crash or refusal that ends it |
| `Children.Workspace.PublishMarker` | src/httk/workflow/_manager_commit.py:493-501 | the marking half likewise |
| `Children.SettledStays` | src/httk/workflow/_manager_commit.py:472-501 | no later effect unsettles a child that is registered |
| `Children.RunKeeps` | src/httk/workflow/_manager_commit.py:472-501 | no run, however it ends, changes a bundle in place or a marker or adds a marker beside a found one; every new bundle is the outcome's own for that key, with the recorded digest; every new marker is of kind submitted, generation 0, reference init and the priority of its unchanged bundle |
| `Children.RerunContinues` | src/httk/workflow/_manager_commit.py:456-501 | a rerun after a crash goes on exactly where the crashed run stopped |
| `Children.TwoEffectsEach` | src/httk/workflow/_manager_commit.py:472-501 | a run needs at most two effects for each child |
| `Children.EndsUninterrupted` | src/httk/workflow/_manager_commit.py:456-501 | every run that is not cut short is the uninterrupted run |
| `Children.CrashChangesNothing` | src/httk/workflow/_manager_commit.py:456-501 | a crash does not change what the uninterrupted run leads to |
| `Children.RunsAlike` | src/httk/workflow/_manager_commit.py:472-501 | children that progressed meanwhile change neither the effects nor the ending of a run |
| `Children.RepeatedRunsAgree` | src/httk/workflow/_manager_commit.py:456-501 | after any crashes, with children at work in between, the last run ends as one uninterrupted run would, and the worlds differ only in what the children did |
| `Children.CrashesLeaveNoTrace` | src/httk/workflow/_manager_commit.py:456-501 | with nobody else at work the worlds are equal |
| `Children.CompletedMeans` | src/httk/workflow/_manager_commit.py:472-501 | after completion every child has its bundle and exactly one marker: the one it had, or else a new submitted one with the bundle's priority |
| `Children.CompletedDelivers` | src/httk/workflow/_manager_commit.py:482-501 | and the bundle is the one the outcome published for it |
| `Children.RefusedMeans` | src/httk/workflow/_manager_commit.py:472-501 | a run that is refused leaves an entry for which the stated reason can be seen in the world it leaves |
| `Children.FencedChildMarkedAgain` | src/httk/workflow/workspace.py:1405-1422 | a fenced child gets a second marker if and only if its bundle is in place and unchanged |
| `Children.RegisteredFencedAndMarkedAgain` | src/httk/workflow/workspace.py:1405-1422 | a run that leads there, for every place and bundle: registered, fenced by a transfer, registered again, two markers |
| `Joins.ImpossibleIffNoCompletion` | src/httk/workflow/_manager_joins.py:44-66 | for every condition and nonempty child list the verdict is impossible exactly when no completion of the open children satisfies the join |
| `Joins.VerdictByNumbers` | src/httk/workflow/_manager_joins.py:30-66 | the verdict of each condition in numbers: success conditions ask for a number of succeeded children, satisfied when it is reached and impossible when the open children cannot make it up; the others look at the number of open children alone |
| `Joins.CountIsNumber` | src/httk/workflow/_manager_joins.py:39-40 | counting along the list gives the number of positions |
| `Joins.SatisfiedStays` | src/httk/workflow/_manager_joins.py:30-41 | a satisfied join stays satisfied as children go on |
| `Joins.ImpossibleStays` | src/httk/workflow/_manager_joins.py:44-58 | an impossible join stays impossible |
| `Joins.NeverBoth` | src/httk/workflow/_manager_joins.py:30-58 | satisfied and impossible exclude each other |
| `Joins.VerdictsAreFinal` | src/httk/workflow/_manager_joins.py:61-66 | decided verdicts do not change, and a join whose children are all terminal is decided |
| `Joins.EmptyListNeverDecides` | src/httk/workflow/_manager_joins.py:23-27 | why empty child lists are refused |
| `RecordRef.EncodeBase36` | src/httk/workflow/models.py:1586-1602 | the digit loop writes the numeral of the number |
| `RecordRef.Base36Numeral` | src/httk/workflow/models.py:1586-1602 | a numeral reads back as its number and wastes no digit |
| `RecordRef.Base36Width` | src/httk/workflow/journal.py:20-23 | k digits suffice exactly for numbers below 36^k |
| `RecordRef.NumeralIsCanonical` | src/httk/workflow/journal.py:152-168 | a numeral without leading zeros is the numeral of its number |
| `RecordRef.UuidRoundTrip` | src/httk/workflow/journal.py:132-168 | undashing and dashing a canonical writer identifier gives it back |
| `RecordRef.ParseInvertsEncode` | src/httk/workflow/journal.py:132-168 | an encoded reference parses back to itself if and only if its numbers fit the printed fields |
| `RecordRef.FieldsAreWideEnough` | src/httk/workflow/journal.py:20-23 | the fields hold every segment below 2^32 and every size below 2^64 |
| `RecordRef.EncodeInjective` | src/httk/workflow/journal.py:132-149 | different references never share a text |
| `RecordRef.CanonicalIffShortest` | src/httk/workflow/journal.py:152-168 | parsed references are canonical except those with leading zeros, which the parser also accepts |
| `RecordRef.PaddedParsesToo` | src/httk/workflow/journal.py:152-168 | every reference with a segment number of at most six digits has a second text, with a leading zero, that parses to it |
| `RecordRef.PaddedExample` | src/httk/workflow/journal.py:152-168 | one such text |
| `Journal.PackInverts` | src/httk/workflow/journal.py:101-118 | a 64-bit length field reads back as the length |
| `Journal.ReadsExactly` | src/httk/workflow/journal.py:183-220 | a verified read succeeds if and only if the file is a segment that holds, at the offset, a frame with the length and checksum of the reference, a right checksum and an object, and then returns that object |
| `Journal.DamageIsNamed` | src/httk/workflow/journal.py:183-220 | with the frame's bytes in place a read fails with a wrong length, a wrong checksum, another frame's reference, undecodable text or no object, exactly as the frame is |
| `Journal.AbsenceIsNamed` | src/httk/workflow/journal.py:183-220 | a missing segment, a wrong header, and a segment that ends too early are called that |
| `Journal.HexReadsBack` | src/httk/workflow/journal.py:101-118 | the printed checksum spells each byte, high digit first |
| `Journal.ReadsBack` | src/httk/workflow/journal.py:183-220 | an intact frame reads back through its reference from any file that still holds it |
| `Journal.WholeReadsBack` | src/httk/workflow/journal.py:183-220 | so does every intact frame of a segment that lies before the point where the file was cut |
| `Journal.SegmentReadsBack` | src/httk/workflow/journal.py:183-220 | every intact frame of an undamaged segment reads back through its reference |
| `Journal.IterSegmentFrames` | src/httk/workflow/journal.py:369-418 | the loop computes the position-by-position walk of the file |
| `Journal.WalkFindsWhatRemains` | src/httk/workflow/journal.py:369-418 | for every segment with intact length fields, every truncation and every set of damaged frames, the walk yields exactly the intact whole frames that remain, in order, with their references, up to the first frame over 16 MiB |
| `Journal.WalkIsCompleteIff` | src/httk/workflow/journal.py:369-418 | the walk yields every intact whole frame if and only if no frame over 16 MiB stands at or before one |
| `Journal.FoundReadsBack` | src/httk/workflow/journal.py:183-220 | each frame the walk finds reads back as the same record through its own reference |
| `JournalWriter.Writer.constructor` | src/httk/workflow/journal.py:80-90 | a writer starts with one segment holding the header alone |
| `JournalWriter.Writer.Append` | src/httk/workflow/journal.py:101-118 | the record is the last frame of the last segment and the reference names it there; failures leave every file as it was |
| `JournalWriter.Writer.Store` | src/httk/workflow/journal.py:101-118 | the same for the reference before it is printed; nothing is stored exactly when the payload is too long, the writer is closed or segment numbers run out |
| `JournalWriter.Writer.Write` | src/httk/workflow/journal.py:101-118 | the frame goes to the end of the open segment, and the reference states where it begins |
| `JournalWriter.Writer.RotateIfNeeded` | src/httk/workflow/journal.py:92-99 | a new segment is opened exactly when the open one holds a frame and would exceed the limit; running out of segment numbers closes the writer |
| `JournalWriter.PlacesDiffer` | src/httk/workflow/journal.py:101-118 | no two appends use the same place |
| `JournalWriter.AppendedReadsBack` | src/httk/workflow/journal.py:101-118 | for every list of records and every limit, each reference keeps reading back its record after all later appends and rotations |
| `JournalWriter.ReferencesDiffer` | src/httk/workflow/journal.py:101-118 | each append returns a text of its own |
| `JournalWriter.SegmentsWithinLimit` | src/httk/workflow/journal.py:92-99 | every segment is within the limit or holds a single frame |
| `JournalWriter.SegmentsLeftFull` | src/httk/workflow/journal.py:92-99 | a segment is left only if the next frame would have taken it over the limit |
| `JournalWriter.ReferenceParses` | src/httk/workflow/journal.py:132-168 | each reference parses back to its parts if and only if its offset fits the printed field, as it does for every limit up to 2^64 |
| `JournalWriter.NewestIsReference` | src/httk/workflow/journal.py:101-118 | the reference append returns when it is called is the one the promises speak of, after all later appends |
| `JournalWriter.ReturnedIsReference` | src/httk/workflow/journal.py:101-118 | so the list of references a writer's appends return is the list of references of its records |
| `JournalWriter.AppendNext` | src/httk/workflow/journal.py:101-118 | append number n extends the layout of the n earlier ones and returns the text of its newest frame |
| `JournalWriter.AppendAll` | src/httk/workflow/journal.py:101-118 | a writer's whole life: the texts are exactly those of the returned references, the files are laid out as the promises assume, and it stops at the first refusal |
| `JournalWalk.AppendAt` | src/httk/workflow/journal.py:92-118 | every place of every segment was used by exactly one append, in append order |
| `JournalWalk.ReturnedAtPlace` | src/httk/workflow/journal.py:101-118 | the reference returned by the append that used a place names that segment, offset and frame |
| `JournalWalk.SurvivingIsRemaining` | src/httk/workflow/journal.py:369-418 | what survives in a damaged segment are the remaining records under the references append returned, up to the first frame over 16 MiB |
| `JournalWalk.WalkYieldsWhatAppendReturned` | src/httk/workflow/journal.py:369-418 | for every list of records of any length, limit, segment, set of lost frames and truncation the walk yields exactly the remaining records, in append order, under the references append returned, up to the first frame over 16 MiB |
| `Collector.IterRecordChain` | src/httk/workflow/journal.py:254-288 | the loop yields the backward chain, and ends for every journal, also when chains are broken or cyclic |
| `Collector.StoredIsRead` | src/httk/workflow/journal.py:223-251 | a record that a segment still holds, cut off or damaged elsewhere, is read through its printed reference |
| `Collector.OnlyChain` | src/httk/workflow/journal.py:254-288 | a sequence of entries is what the backward walk yields if and only if it starts at the reference, each entry is what reading it gives and leads to the next, none comes twice, and the last leads to nothing new |
| `Collector.OnlyTheLastIsUnreadable` | src/httk/workflow/journal.py:254-288 | every entry before the last was read and names a segment |
| `Collector.ChainKept` | src/httk/workflow/gc.py:504-528 | keeping the segments a chain names keeps the whole yielded sequence |
| `Collector.ProtectedKept` | src/httk/workflow/gc.py:504-528 | keeping what a reference protects keeps its frame, its history and what it protects |
| `Collector.ReferencedSuffices` | src/httk/workflow/gc.py:484-559 | keeping what a scan protects keeps the history of every non-terminal marker and sealed transfer and the current frame of every marker, and the next scan protects the same segments |
| `Collection.PositiveIffHeld` | src/httk/workflow/gc.py:497-500 | a count is positive exactly for segments that markers or some transfer hold |
| `Collection.CountAdded` | src/httk/workflow/gc.py:544-556 | remembering a transfer's share keeps every count equal to its number of holders |
| `Collection.CountRemoved` | src/httk/workflow/gc.py:1156-1160 | and so does giving one up |
| `Collection.ReferencedIffDemanded` | src/httk/workflow/gc.py:504-556 | a fresh scan protects exactly the segments named by the current frame of a terminal marker, by the history of any other marker, or by the history of a sealed ledger |
| `Collection.Discount` | src/httk/workflow/gc.py:1156-1160 | one reference less for each segment held, and no count drops below zero |
| `Collection.AddSegments` | src/httk/workflow/gc.py:512-528 | stopping at the first entry that cannot be followed leaves no segment out |
| `Collection.Candidates` | src/httk/workflow/gc.py:1152 | the segments the retired references name, or a refusal if one is malformed |
| `Collection.Pass.constructor` | src/httk/workflow/gc.py:389-430 | what a pass observes of the workspace, with nothing scanned |
| `Collection.Pass.LiveManagers` | src/httk/workflow/gc.py:441-467 | the writers of beating managers and the caller's own, and whether a beating manager names none |
| `Collection.Pass.Protect` | src/httk/workflow/gc.py:504-528 | adds the reference's segment and, when walking, every segment of its chain |
| `Collection.Pass.ScanMarkers` | src/httk/workflow/gc.py:530-533 | terminal markers protect their current segment, all others their whole chain |
| `Collection.Pass.ScanLedgers` | src/httk/workflow/gc.py:535-556 | sealed transfers protect their whole chains; each share and all counts are exact |
| `Collection.Pass.ReferencedSegments` | src/httk/workflow/gc.py:484-559 | the first scan and every later answer from the counts agree with a fresh scan on the candidates |
| `Collection.Pass.FromCounts` | src/httk/workflow/gc.py:497-500 | the counts answer as a fresh scan would |
| `Collection.Pass.FreshScan` | src/httk/workflow/gc.py:501-559 | protects exactly what markers and sealed ledgers name, and in a batch remembers exact counts |
| `Collection.Pass.CountsAnswer` | src/httk/workflow/gc.py:497-500 | segments with a positive count are exactly those a fresh scan of the journal as it is now protects |
| `Collection.Pass.SweepWriter` | src/httk/workflow/gc.py:899-914 | exactly the removable segments of one writer go |
| `Collection.Pass.Sweep` | src/httk/workflow/gc.py:890-917 | exactly the removable segments go, for aged and for retirement passes |
| `Collection.Pass.CollectJournalSegments` | src/httk/workflow/gc.py:861-917 | a pass removes exactly the condemned segments, keeps every needed history and every current frame, keeps the history of every sealed ledger with all its segments, no live writer's segment goes, an unnamed live manager stops it, and the counts stay exact |
| `Collection.Pass.PopOwner` | src/httk/workflow/gc.py:1156-1160 | a retired transfer gives up its share and nothing else |
| `Collection.Pass.CollectRetired` | src/httk/workflow/gc.py:1134-1161 | only named, unneeded segments of dead writers go; histories still needed are kept; a retirement is counted exactly when it carries references |
| `Collection.Pass.RetireSource` | src/httk/workflow/transfers.py:992-1009 | a retirement that reaches the counts keeps them exact, one that does not never leaves too little protected, and every ledger still sealed keeps its history and the segments of it |
| `Collection.Pass.RetireBatch` | src/httk/workflow/gc.py:1120-1161 | after any sequence of retirements that carry references, positive counts are exactly what a fresh scan of the pruned journal protects |
| `Fsck.FramesFor` | src/httk/workflow/fsck.py:150-187 | the index groups the state frames of a job in journal order |
| `Fsck.FindingMeans` | src/httk/workflow/fsck.py:194-214 | each finding from the fields of marker and frame: in order exactly when the marker is a fresh submission or its frame names it in all seven members, and the payload is there for the kinds that need it |
| `Fsck.NewestOf` | src/httk/workflow/fsck.py:248-270 | the newest candidate among the frames of a job, the last one of those, and none exactly when there is no candidate |
| `Fsck.LastGoodFrame` | src/httk/workflow/fsck.py:248-270 | the newest strictly older frame of the same job, the one listed last among equals, and none exactly when there is no candidate |
| `Fsck.LiveOwner` | src/httk/workflow/fsck.py:224-245 | a live owner is found exactly when the kind is active and some frame of the job names a beating manager |
| `Fsck.LineageDescends` | src/httk/workflow/fsck.py:273-306 | generations strictly decrease along every chain of a descending journal |
| `Fsck.RepairResolves` | src/httk/workflow/fsck.py:273-306 | a repaired marker passes the journal checks, its chain is its generation followed by the recovered chain, and the journal stays descending |
| `Fsck.Checker.constructor` | src/httk/workflow/fsck.py:315-345 | the journal and the listing a check begins with |
| `Fsck.Checker.CheckMarker` | src/httk/workflow/fsck.py:354-408 | each action happens if and only if what was found calls for it: resolved, skipped for a live owner, repaired, quarantined, otherwise reported; a repair takes the recovered frame, raises the generation by one and changes nothing else of the marker |
| `Fsck.Checker.Decide` | src/httk/workflow/fsck.py:355-389 | the action that is called for, and the frame to recover exactly when that is a repair |
| `Fsck.Checker.Repoint` | src/httk/workflow/fsck.py:273-306 | the marker moves onto a new frame that resolves there and heads the recovered chain; the frame keeps all other members of the recovered one and the kind, placement and priority of the marker |
| `Fsck.Checker.CheckWorkspace` | src/httk/workflow/fsck.py:315-420 | over a whole run every marker gets exactly the action its state at the start calls for; every repaired one took the recovered frame, resolves at the end and has the recovered frame's old chain behind its repair; nothing is written unless repair is asked for, all chains still descend, and quarantine without repair is refused |
| `Fsck.ChainHoldsOne` | src/httk/workflow/fsck.py:248-270 | a chain holds one frame of a generation |
| `Fsck.RecoversCommittedIffNoneAfter` | src/httk/workflow/fsck.py:248-270 | for every listing, marker and listed committed frame of the recovered generation, the recovered frame is a committed one if and only if no candidate of that generation is listed after it |
| `Fsck.RecoveryIsSureIffOnlyCandidate` | src/httk/workflow/fsck.py:248-270 | recovering a committed frame, given it is readable, is certain if and only if the listing holds one candidate of the newest candidate generation |
| `Fsck.RecoveryIsNeverSureOtherwise` | src/httk/workflow/fsck.py:248-270 | if the committed frame may be unreadable, no listing makes the recovery certain: for every recovered frame some undamaged journal with that listing never committed it |
| `Fsck.LoserIsRecovered` | src/httk/workflow/fsck.py:248-270 | a journal, marker and listing for which the frame that was never committed is recovered |
| `Splitter.FindNewline` | src/httk/workflow/collecting.py:1176-1212 | the first newline from a position on |
| `Splitter.DrainChunk` | src/httk/workflow/collecting.py:1176-1212 | one chunk takes the reader from agreeing with the stream so far to agreeing with the stream and the chunk |
| `Splitter.Drain` | src/httk/workflow/collecting.py:1176-1212 | however the stream is cut into chunks, lines and breach are those of the concatenated bytes |
| `Splitter.JudgeMeaning` | src/httk/workflow/collecting.py:1176-1212 | the first N lines are kept, blank surplus is ignored, and the breach is the first line over-long or surplus and not blank |
| `Splitter.OutcomeMeans` | src/httk/workflow/collecting.py:1176-1212 | from the text of the stream to the answer: with its lines and the unfinished rest, the kept lines are the first ones wanted before the first unacceptable line, and the breach is that line |
| `Splitter.LinesDecide` | src/httk/workflow/collecting.py:1176-1212 | once a complete line breaches, nothing read later changes the outcome |
| `Splitter.LongRestDecides` | src/httk/workflow/collecting.py:1176-1212 | nor once an unfinished line is over-long |
| `Splitter.SplitIsExact` | src/httk/workflow/collecting.py:1176-1212 | splitting loses nothing and leaves no newline inside a line |
| `Splitter.OnlyOneSplit` | src/httk/workflow/collecting.py:1176-1212 | and is the only way to cut a stream into lines |

## Left out

- Job: the machine is stated over values, since its properties are about all interleavings of many managers; `JobManager` runs the manager's passes on mutable state, each of whose single steps is an event of the machine. Update in place of one manager's fields within a single step, and aliasing between manager objects, are not captured.
- JobManager: a pass is over one job; the loops over many jobs repeat it for each.
- Job: relocating and transferring are not entered; process-id reuse, descendants of a runner outside its process group, and a failure of closing the pipe after the token was written are not modelled.
- Job: the priority, step, resources and data counters of a frame, malformed frames, labels, executors, ownership checks, capability matching, maintenance pauses as such, and data transactions (`replay_transaction`) are not modelled; each move may fail to be tried at any time instead.
- Job: lease expiry is a free choice of the environment, so a takeover may be tried at any time; the model says nothing about how soon one happens.
- Allocator.FencedIsNeverReissued: no other stream holds the transfer at the fence; between the fence and the reservation spoken of nobody proposes it and no fork revives it. `Allocator.FenceForgetsIff` and `Allocator.ForkRevivesIff` say that each of these would bring it back.
- Transfer.EachTransferImportedOnce: assumes that a transfer travels under one ticket, as it does when it is sealed at most once; epochs and sequence numbers are well formed, since others are refused on receipt.
- Scheduling: served executors, pools and capabilities are one flag; the job definition does not change between eligibility and claim.
- Children: an empty directory in the place of a bundle, which a rename replaces; visibility retries; removal of a child between two runs.
- Collection: segment files and writer directories whose names are not in the writer's own form, removal of emptied directories, surviving-segment tallies, sizes and reports; the markers, managers and ages are those observed when the pass begins.
- Collection: two ledgers that carry the same transfer identifier, which the engine's ledger file names rule out.
- Fsck: unparseable marker names, a repair rename that another actor wins, the payload repair, and the report; the listing of readable frames is given, in journal order.
- Fsck is kept apart from the job machine: a repair deliberately restores older counters.
- Splitter: breaches raised by the other reader threads and by timeouts.
- Other garbage-collection categories, configuration, campaigns, precheck, postprocessing, remote adapters, launchers, language bindings and reports: filters, validation and plumbing that would only add easy members.
