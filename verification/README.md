# Verification of BeaverMQ

BeaverMQ is an AMQP 0-9-1 broker with a Raft layer written by hand. This project models its hardest parts in Dafny and
proves what they keep over every run, every input or every byte stream. `dafny verify dfyconfig.toml` checks all of it.

## What is modelled

* **The Raft core.** `RaftNode` holds the frame handlers of one node on values. `ClusterNode` is the same node as
  objects that change in place: peers' positions in arrays, and a log that is an array over a compacted prefix.
  `RaftSystem` runs any number of nodes over a set of frames in flight. Frames may be lost, delayed, reordered and
  repeated, except that a vote request and a granted vote are delivered at most once. A history that no handler reads
  records votes, grantors, leaders' logs and acknowledgements. On it rest Election Safety (`ElectionSafety`), Log
  Matching (`LogMatching`), apply-exactly-once (`ApplyOnce`), follower repair (`Repair`, with `NextIndex`), and Leader
  Completeness and State Machine Safety under both commit policies (`CommitSafety`). `SampleRuns`, `DisciplinedRuns`,
  `StaleDurable`, `LostEntries`, `OldAnswers` and `RulesNeeded` are runs written out: one that commits under the
  hypotheses, and for each hypothesis one that fails without it. `CommitProgress` says exactly when a commit index moves,
  `Electable` that a majority can always elect, and `StableLeader` that a leader which is heard of stays. `ClusterGlue`
  applies repair to every reachable cluster and compaction to every consuming queue.
* **The log on disk.** `WalFormat` is the byte format and the recovery scan, `LogStore` and `Compaction` the buffer,
  offset table, truncation and prefix drop on values, `LogRuns` every run of all four, `FullCompaction` the drop of
  every entry, `DiskLog` the object, `TornTail` writes cut short in preallocated space.
* **Queues.** `Queues` and `QueueRuns` say what each operation does and what every run keeps; `RingQueue` is the
  growable ring behind a queue. `Watermark` and `WatermarkRuns` are the consume watermark and its effect on replicas,
  `WatermarkTight` what it may be stuck on, `ReplicaDrains` exactly what a replica holds; `WatermarkQueues` ties its
  steps to the queue operations.
* **Routing and dead letters.** `TopicMatch`, `Exchanges`, and `Cascade` with `Broker`: the mutual recursion of routing,
  evicting and dead-lettering, with the measure that makes it end. `Publishing` says what a publish does in terms of the
  bindings and the messages alone.
* **Deliveries.** `Dispatch`, `DispatchRuns`, `RoundRobin`, `Fairness`, `Dispatcher`; `Servicing`, what a pass hands to
  whom and why it ends; and `Settlement`, where settled deliveries go.
* **The wire.** `Frames`, `Chunking` and `Content`.
* **The configuration in a snapshot.** `Topology` has the operations that only add, `ConfigChanges` all that a
  snapshot carries, with deletes, users and permissions, and `ConfigEffects` what each brings about; `TopologyLog` has
  their bytes, `Snapshots` and `TopologySnapshot` the two together.
* **The rest.** `Supervisor` (the restart limiter). `Bytes` and `Sequences` are shared.

An object is a class whose methods are proved against functions of its abstract value; the laws are proved about those
functions. Integers are unbounded; clock readings, blocked connections, failed sends and preallocation sizes are
parameters.

## What does not hold, and exactly when it does

* State Machine Safety fails for the code as written. It is proved for every run, under the durable and the fast policy
  alike, in which these guards hold, each checkable by the acting node (`CommitSafety.Obeys`): APPEND_RESP frames of
  earlier terms are dropped; a restart keeps what the policy counts on, which under the durable policy is any length from
  the durable index up; under the fast policy an accepted APPEND cuts only at a conflict; and under the durable policy an
  accepted APPEND leaves no less than the durable index, and a reject of the current term claims no more on disk than was
  matched. None can be dropped under any policy it speaks about (`RulesNeeded.EveryRuleNeeded`). That truncation leaves
  the durable index behind is only one cause: a reject reports it as well, and the leader counts it
  (`StaleDurable.RejectDiverges`).
* Recovery returns the entries in memory if and only if no payload is over 16 MiB, which appending does not check.
* A record torn inside preallocated space is dropped only if its index field lost a byte that was not zero; otherwise it
  is accepted with zeros in place of what was lost (`TornTail.TornRecord`).
* Compacting every entry reads the base offset from a slot past the entries. File and entries stay in step through a run
  if and only if every compaction reads the right offset, as it does when an entry survives (`LogRuns.RunOkIff`). A slot
  that nothing wrote may hold anything: a later entry is then recovered only if it holds the end of the log, or points at
  bytes of the old log that spell the very record (`FullCompaction.FullCompactionReached`).
* The watermark can be stuck: a message put back and then taken with automatic acknowledgement stays unsettled for ever.
  Every unsettled id stands for a message if and only if this has happened to none (`WatermarkTight.AllStandIff`).
* An AppendEntries frame whose previous index lies below the compacted prefix would misplace its entries. A comment in
  the source says that the rewind never gets there; the condition is stated in `Compaction.PlacedIff`.
* A frame size below 1024 agreed with a client is replaced by 131072 when a reply is cut into frames.
* Limits of 1, 2 or 3 leave no gap between the congestion marks. One comment in the source gives the clearing mark as
  50%; the code and this model use 75%.
* A snapshot without repeated operations loses a bind that was first sent too early, a queue that was deleted and
  declared again, and a permission that was changed and set back. For every history it rebuilds the configuration at
  every moment if and only if no repeated operation took effect (`ConfigChanges.ChangesRebuildIff`): a repeated declare
  found its object, a repeated bind was bound or lacked an end, a repeated delete found nothing, a repeated user or
  permission was as it would be set. Without deletes, users and permissions this comes down to binds being on time.
* A restart limit above sixteen, which the configuration does not allow, would never stop a respawn.

## Model

| member | source | states |
|---|---|---|
| `QuorumCommit.SelectQuorum` | src/cluster.c:1507-1511 | the in-place descending sort followed by the quorum-th slot yields the greatest index that at least a quorum of the recorded positions reach |
| `QuorumCommit.QuorumIndexUnique` | src/cluster.c:1507-1511 | that index is the only value reached by a quorum such that nothing greater is |
| `QuorumCommit.CountIsCardinality` | src/cluster.c:1483-1511 | counting positions that reach an index counts a set of nodes, so that quorums can be intersected |
| `ClusterNode.ClusterNode.StepUp` | src/cluster.c:2002-2018 | a strictly higher term is adopted as a follower without a vote; any other term changes nothing |
| `ClusterNode.ClusterNode.StandForElection` | src/cluster.c:2058-2081 | term raised by one, vote for self, one vote counted; leads at once when that is a quorum, else asks every peer for a vote on its last index and term |
| `ClusterNode.ClusterNode.TakeLeadership` | src/cluster.c:2019-2057 | the loop over the peers sets every next index just past the log and forgets match and durable positions, then a no-op of the new term is appended |
| `ClusterNode.ClusterNode.OnTimeout` | src/cluster.c:2084-2101 | a PreVote round leaves term and vote untouched and asks for the term after the current one |
| `ClusterNode.ClusterNode.AnswerPreVote` | src/cluster.c:2144-2161 | a PreVote is granted only without a known leader, for a later term and an up-to-date log, and answering it changes no field |
| `ClusterNode.ClusterNode.HearPreVote` | src/cluster.c:2162-2168 | a grant inside a round is counted and a quorum of grants starts the real election; a higher term ends the round |
| `ClusterNode.ClusterNode.AnswerVote` | src/cluster.c:2171-2186 | a vote goes to at most one candidate of the observed term, and only to a log at least as up to date |
| `ClusterNode.ClusterNode.HearVote` | src/cluster.c:2188-2197 | only a grant of the current term counts, only while candidate, and a quorum makes the leader |
| `ClusterNode.EntryLog.Append` | src/cluster.c:1195-1223 | the entry joins the end of the log in place, over the compacted prefix, whether or not the array had to grow |
| `ClusterNode.EntryLog.EnsureCap` | src/cluster.c:1150-1163 | the array doubles from sixteen when it is full and no entry is lost |
| `ClusterNode.EntryLog.Truncate` | src/cluster.c:1181-1193 | an index and all above it go, but never any of the compacted prefix |
| `ClusterNode.EntryLog.TermOf` | src/cluster.c:1166-1179 | terms are read from the array, at the boundary from what was kept of it, and as zero below it and past the end |
| `ClusterNode.EntryLog.DropPrefix` | src/cluster.c:855-866 | survivors move to the front of the array in place and the log it stands for, the dropped prefix included, stays the same |
| `ClusterNode.ClusterNode.Compact` | src/cluster.c:855-869 | dropping an applied prefix leaves every field of the node it stands for as it is |
| `ClusterNode.EntryLog.AppendAll` | src/cluster.c:2249-2259 | the loop appends the frame's entries in order |
| `ClusterNode.ClusterNode.AnswerAppend` | src/cluster.c:2199-2281 | stale term, short log and term mismatch are answered with their own hints; an accepted frame truncates after its previous index, but not into the compacted prefix, appends, and follows the leader's commit index no further than its own log |
| `ClusterNode.AppendOverPrefix` | src/cluster.c:2227-2248 | a compacted prefix changes nothing for frames whose previous index is not below it; one below it that names a term is refused and removes no entry |
| `ClusterNode.ClusterNode.ApplyCommitted` | src/cluster.c:1427-1439 | the apply loop hands over exactly the entries between the applied and the commit index, in order |
| `ClusterNode.ClusterNode.RaiseCommit` | src/cluster.c:1483-1515 | the commit index moves only up, to the quorum index, and only if that entry is of the current term |
| `ClusterNode.ClusterNode.HearAppend` | src/cluster.c:2283-2312 | success raises the match index, a reject lowers next and match indices to the hint, the durable index is taken from both, and a higher term steps down |
| `ClusterNode.ClusterNode.SendTo` | src/cluster.c:1859-1917 | one frame carries the entries from the peer's next index up to the count and byte caps, and advances that index past them; a peer at or below the compaction point gets a heartbeat only |
| `ClusterNode.SendOverPrefix` | src/cluster.c:1859-1875 | for every peer above the compaction point that is the frame an uncompacted log would give |
| `ClusterNode.HeartbeatOnly` | src/cluster.c:1859-1875 | a peer at or below the compaction point gets a heartbeat of the leader's term and commit index in front of its next index, which stays |
| `ClusterNode.ClusterNode.Fsync` | src/cluster.c:2910-2919 | everything in the log counts as durable, and under the durable policy a leader re-checks its commit index |
| `ClusterNode.ClusterNode.CountBatch` | src/cluster.c:1880-1889 | the batch loop stops at 512 entries or 1 MiB but always takes one entry if there is any |
| `ElectionSafety.QuorumsMeet` | src/cluster.c:3158 | any two quorums of the same cluster share a node |
| `ElectionSafety.StepKeepsElectionInv` | src/cluster.c:2002-2197 | every step of every node keeps: votes as persisted, counters backed by distinct grantors, one ballot per node and term, each leader elected by a quorum of its term |
| `ElectionSafety.NoTwoLeaders` | src/cluster.c:2002-2197 | Election Safety: at any two moments of any run over any number of nodes, two leaders of the same term are the same node |
| `LogMatching.AcceptedLog` | src/cluster.c:2227-2259 | an accepted frame makes the log a prefix of the sending leader's log of that term, although everything after the previous index is cut unconditionally |
| `LogMatching.StepKeepsLogInv` | src/cluster.c:1181-1223 | every step keeps: each log and each frame in flight agrees, term by term, with the logs of the leaders of those terms |
| `LogMatching.LogsMatch` | src/cluster.c:2199-2281 | Log Matching: in every reachable state, two logs with the same term at an index are identical up to it |
| `LogMatching.SoundAscends` | src/cluster.c:1195-1223 | terms never decrease along a log |
| `ApplyOnce.StepAppliesInOrder` | src/cluster.c:1427-1439 | in every step that is not a crash the commit index does not fall, and what is newly applied is exactly the log between the old and new commit index; a leader's new commit index is an entry of its term reached by a quorum while nothing higher is |
| `ApplyOnce.AppliedExactlyOnce` | src/cluster.c:1427-1439 | in every reachable state a node has applied exactly as many operations as it has committed indices |
| `CommitSafety.TruncationMatchesPaper` | src/cluster.c:2247-2259 | the code's truncate-then-append leaves the same log as the rule of section 5.3 of the Raft paper exactly when the frame reaches the end of the follower's log or conflicts with it |
| `CommitSafety.StepKeepsSafeInv` | src/cluster.c:2199-2312 | under either policy every disciplined step keeps: what a majority vouched for in its own term is in every later leader's log, and everything committed anywhere is so backed |
| `CommitSafety.LeaderCompleteness` | src/cluster.c:2283-2312 | Leader Completeness in every disciplined run under either policy: what a majority acknowledged, or under the durable policy has on disk, in its own term is in every later leader's log |
| `CommitSafety.StateMachineSafety` | src/cluster.c:1483-1515 | State Machine Safety in every disciplined run under either policy: of any two nodes one has applied a prefix of what the other has, although restarts under the durable policy may lose everything above the durable index |
| `DisciplinedRuns.DisciplinedRunCommits` | src/cluster.c:1483-1515 | the discipline is not empty: under either policy a run of three nodes obeys it, elects a leader, replicates, commits, and a majority applies |
| `StaleDurable.CutDiverges` | src/cluster.c:1181-1193 | a crash-free run of three nodes under the default policy that breaks only the rule that an accepted frame covers the durable index, after which two nodes have applied different operations at the same index |
| `StaleDurable.RejectDiverges` | src/cluster.c:2290-2291 | the same without any log ever losing an entry, breaking only the rule about rejects: the leader counts the durable index that a reject reports |
| `LostEntries.LateFrameDiverges` | src/cluster.c:2247-2248 | a crash-free run under the fast policy in which only an older frame of the same leader cuts away an acknowledged entry, after which two nodes have applied different operations at the same index |
| `LostEntries.LossDiverges` | src/cluster.c:875-953 | the same under either policy when only a restart comes back without an entry that the policy counted on |
| `OldAnswers.OldAnswerDiverges` | src/cluster.c:2283-2312 | the same under either policy when only answers of an earlier term are counted |
| `RulesNeeded.EveryRuleNeeded` | src/cluster.c:2199-2312 | no rule can be dropped: for each of the five, and under every policy it speaks about, there is a run of three nodes that breaks that rule alone and after which two nodes have applied different operations at the same index |
| `SampleRuns.Elects` | src/cluster.c:2171-2197 | a node of three whose log is up to date for one voter can be elected by it, whatever else is in flight |
| `Electable.MajorityElects` | src/cluster.c:2058-2197 | in a cluster of any size and from every state, a node that does not lead, with enough others not ahead of it in term or log to make a majority, has a run of PreVote and vote frames that makes it leader of the next term |
| `StableLeader.VoteGrantedIff` | src/cluster.c:2171-2186 | a vote is given if and only if the candidate is not behind in term, its log ends in a later term or in the same and is as long, and no other candidate has the vote of that term; it is recorded and stays |
| `StableLeader.PreVoteGrantedIff` | src/cluster.c:2144-2161 | a PreVote changes nothing and is granted if and only if the node neither leads nor recently heard a leader, the term is later and the log is not behind |
| `StableLeader.LeaderStays` | src/cluster.c:2084-2168 | in every run a leader that nobody is ahead of goes on leading in its term, and nobody gets ahead of it, through any continuation in which it does not crash, PreVotes find nodes that know a leader, and grants of earlier PreVotes do not come in |
| `StableLeader.AppendEndsPoll` | src/cluster.c:2199-2226 | hearing from a leader of its term or a later one ends a node's own poll: a PreVote grant that comes in afterwards changes nothing |
| `CommitProgress.NewLeaderProbes` | src/cluster.c:2019-2057 | the vote that makes a leader: its first frame to every peer carries its no-op behind the log it was elected with |
| `CommitProgress.RejectRewinds` | src/cluster.c:2299-2312 | a reject takes the peer's match and next indices down to its hint, no further than they were, and no other peer's |
| `CommitProgress.SuccessCommits` | src/cluster.c:1483-1515 | for every leader and any commit index: on a success it commits if and only if there is an index above it, of its term, that a majority has got to and nothing higher, and then exactly that one, applying what lies between |
| `CommitProgress.FlushCommits` | src/cluster.c:1759 | the same after a leader's own write |
| `CommitProgress.FsyncCommits` | src/cluster.c:2910-2919 | the same after a leader's fsync under the durable policy, with its whole log on disk |
| `CommitProgress.ProposedIsApplied` | src/cluster.c:1195-1223 | a proposal is the last operation applied, unaltered, once a majority has the leader's log |
| `CommitProgress.FollowerCommits` | src/cluster.c:2247-2281 | on every accepted frame a follower's commit index becomes the frame's or the end of its log if that is higher than what it was, it applies what lies between, and reports its log's end |
| `CommitProgress.RoundCommits` | src/cluster.c:1859-1917 | one accepted round leaves a follower committed as far as the leader was, or to the end of what it has been sent |
| `RaftNode.BatchIsMost` | src/cluster.c:1880-1889 | a frame of more than one entry keeps to 1 MiB, and one that ends before the log does and before 512 entries has no room for the next |
| `Repair.AcceptedIff` | src/cluster.c:2227-2246 | a request is accepted exactly when it starts inside the longest common prefix of the two logs |
| `Repair.RejectedRound` | src/cluster.c:2228-2246 | a rejected round changes no log, strictly lowers the next index, and never below the first index after the common prefix |
| `Repair.AcceptedRound` | src/cluster.c:1859-1917 | an accepted round leaves the follower with the leader's log up to the new next index, which advances while anything is left to send |
| `Repair.RepairConverges` | src/cluster.c:2227-2312 | whatever the logs and the recorded next index, after enough rounds the follower's log equals the leader's and stays equal |
| `Repair.FewRounds` | src/cluster.c:1859-1917 | twice the leader's log length plus one is enough rounds |
| `Repair.KeepsCommonPrefix` | src/cluster.c:2247-2248 | started at or above the common prefix, no round removes any of it |
| `ClusterGlue.ReachableNext` | src/cluster.c:2019-2057 | in every reachable state a leader's next indices lie between 1 and one past the end of its log |
| `ClusterGlue.ReachableRepairs` | src/cluster.c:1859-1917 | repair converges from every reachable state of the cluster between any leader and any follower not ahead of it in term |
| `Bytes.BeRoundTrip` | src/cluster.c:463-464 | a number that fits its width is read back from its big-endian bytes |
| `Bytes.FromBeRoundTrip` | src/cluster.c:920-921 | every byte string is the encoding of the number it is read as |
| `Bytes.FromBeConcat` | src/cluster.c:463-464 | reading is positional, most significant byte first |
| `WalFormat.ScanWhole` | src/cluster.c:911-944 | scanning the records of any entries followed by any zero padding returns exactly the entries before the first whose payload is over the limit |
| `WalFormat.ScanCut` | src/cluster.c:911-944 | cutting the file at any byte keeps exactly the entries whose records are whole |
| `WalFormat.WholeInIsMost` | src/cluster.c:911-933 | the records counted as whole are the most whose bytes fit the cut |
| `WalFormat.ScannedIsEncoded` | src/cluster.c:911-944 | conversely, the part of a file that a scan accepts is the encoding of what it returns |
| `WalFormat.Recover` | src/cluster.c:911-944 | the recovery loop returns that scan, the offset of every record, and the end of the last whole one |
| `TornTail.TornRecord` | src/cluster.c:911-933 | a record cut short in preallocated space is dropped if and only if its index field lost a byte that was not zero, and read back if and only if nothing but zeros was lost |
| `TornTail.TornPayload` | src/cluster.c:914-933 | once the header is whole the torn record is always accepted, with the lost part of its payload replaced by zeros |
| `TornTail.RecoverTorn` | src/cluster.c:911-944 | after any whole records, recovery returns them all, and the torn one is left out exactly under that condition |
| `DiskLog.ClusterLog.constructor` | src/cluster.c:875-953 | recovery from any file yields a log in step with the trimmed file, holding exactly what the scan returns |
| `DiskLog.ClusterLog.Append` | src/cluster.c:439-473 | an append adds the record to the buffer and its offset to the table, and the log stays in step with its file |
| `DiskLog.ClusterLog.EnsureOffsets` | src/cluster.c:377-386 | the table grows by doubling from 64 and keeps its content |
| `DiskLog.ClusterLog.WriteFlush` | src/cluster.c:406-431 | one write moves the whole buffer behind what was written, over preallocated zeros |
| `DiskLog.ClusterLog.TruncateFrom` | src/cluster.c:496-509 | the tail goes from memory and file alike, never into the compacted prefix |
| `DiskLog.ClusterLog.CompactTo` | src/cluster.c:827-873 | the clamped and batched prefix drop, with survivors shifted in place; the file stays in step whenever an entry survives |
| `DiskLog.ClusterLog.ShiftOffsets` | src/cluster.c:811-813 | survivors' offsets move to the front and the slots behind them keep what they held |
| `LogStore.DoOk` | src/cluster.c:418-509 | every append, flush and tail truncation keeps file, buffer, offsets and entries in step |
| `LogStore.CrashRecovers` | src/cluster.c:418-431 | a crash at any moment loses exactly the entries still in the write buffer |
| `LogStore.TornRecovers` | src/cluster.c:911-946 | a file cut at any byte after the base recovers exactly the entries whose records are whole |
| `LogStore.RecoveryIsExact` | src/cluster.c:418-509 | after any sequence of appends, flushes and truncations and one more flush, recovery returns the entries in memory if and only if none is over the 16 MiB payload limit |
| `Compaction.FindMinLive` | src/broker.c:446-459 | the fold over the queues returns the smallest oldest-live id |
| `Compaction.MinLiveBounds` | src/broker.c:446-459 | that minimum is one of the ids and bounds all of them |
| `Compaction.DropsOnlyDead` | src/cluster.c:830-842 | every index that may be dropped is applied and older than every live id of every queue |
| `Compaction.ClampIsHighest` | src/cluster.c:830-842 | the clamped bound is the highest with that property |
| `Compaction.CompactInvisible` | src/cluster.c:1166-1179 | entry, term and file offset of every surviving index, and the term at the boundary, are unchanged |
| `Compaction.CompactOkIff` | src/cluster.c:803-873 | the file stays readable exactly when the offset read for the first survivor was right, which it is whenever an entry survives |
| `Compaction.CompactRecovers` | src/cluster.c:803-873 | while that offset is right, recovery from the compacted file returns exactly the survivors if and only if none is over the payload limit |
| `LogRuns.RunOkIff` | src/cluster.c:406-509 | in every run mixing appends, flushes, tail truncations and compactions, file, buffer, offsets and entries stay in step throughout if and only if every compaction reads the right offset |
| `LogRuns.RunRecovers` | src/cluster.c:803-953 | after any such run and one more flush, recovery returns the entries in memory if and only if none is over the payload limit |
| `LogRuns.SurvivorsRecovered` | src/cluster.c:803-953 | so it does after every run in which an entry survives each compaction |
| `FullCompaction.FullCompactionForgets` | src/cluster.c:846-850 | when all entries are dropped and the slot read does not hold the end of the log, an entry appended afterwards is recovered only if the slot points into the old log at bytes that spell the very record |
| `FullCompaction.OldRecordHides` | src/cluster.c:911-933 | it is never recovered if the slot holds the start of an old record |
| `FullCompaction.RightSlotRecovers` | src/cluster.c:846-850 | when the slot does hold the end of the log, the entry is recovered if and only if it is within the payload limit |
| `FullCompaction.FullCompactionReached` | src/cluster.c:377-386 | any odd number of appends, at least one batch, all applied and none live, leads there whatever the slots nothing wrote hold: the next compaction drops them all, and what is appended afterwards is recovered only in those two cases, never if the slot is zero |
| `Compaction.PlacedIff` | src/cluster.c:1181-1193 | on a compacted log an accepted frame leaves the first prev entries followed by its own exactly when prev is not below the base |
| `ClusterGlue.CompactionSparesLive` | src/cluster.c:827-842 | in every run of a consuming node, compaction bounded by its queues' oldest ids spares every replicated message that is ready or in a consumer's hands |
| `Watermark.ConsumeTracker.OnDeliver` | src/queue.c:508-551 | the id goes to its place in the sorted array once, and the highest delivered id follows |
| `Watermark.ConsumeTracker.OnAck` | src/queue.c:553-567 | the id leaves the array and nothing else moves |
| `Watermark.ConsumeTracker.CurrentMark` | src/queue.c:569-575 | the watermark is one below the oldest unsettled id, or the highest delivered id |
| `Watermark.FindOldest` | src/queue.c:600-619 | the oldest unsettled id, else the first replicated id that is ready |
| `Watermark.CoveredIsDrained` | src/queue.c:633-660 | the ids a watermark covers at the front are the messages the drain removes |
| `WatermarkRuns.StepKeepsInv` | src/dispatch.c:131-138 | publish, apply, deliver, ack, requeue, report and replica steps keep the watermark below everything live, and it never falls |
| `WatermarkRuns.NoLiveMessageIsDrained` | src/queue.c:508-575 | in every run the watermark is monotone, below every live id, and a replica that applied any logged watermarks still holds every live message it was told of |
| `WatermarkRuns.ConsumerIgnoresWatermark` | src/cluster.c:1358-1368 | in every run, applying a logged watermark on the consuming node removes nothing there |
| `WatermarkRuns.OldestBoundsLive` | src/queue.c:600-619 | in every run the oldest live id reported bounds every ready or held replicated id from below |
| `WatermarkTight.AllStandIff` | src/queue.c:508-551 | in every run every unsettled id is ready or in a consumer's hands if and only if no message put back was then taken with automatic acknowledgement |
| `WatermarkTight.UnsettledStands` | src/queue.c:508-551 | in every run the unsettled ids that stand for no message are exactly those of such messages |
| `WatermarkTight.OldestStandsIff` | src/queue.c:600-619 | in every run the oldest live id reported is one of a message if and only if it is not such an id |
| `WatermarkTight.AstrayForEver` | src/queue.c:569-575 | such an id is never settled, and the watermark stays below it in every continuation |
| `WatermarkTight.WatermarkStuck` | src/queue.c:508-517 | a run of five steps that leaves nothing ready or held, the watermark at zero, and the id reported as the oldest live one |
| `WatermarkQueues.StepIsQueue` | src/queue.c:464-504 | every step of the consuming node's ids is the queue's own push, drain, dequeue or requeue of the messages that carry them |
| `WatermarkQueues.ReplicaStepIsQueue` | src/cluster.c:1330-1368 | so is every step of the replica's |
| `ReplicaDrains.ReplicaHoldsExactly` | src/cluster.c:1358-1368 | in every run a replica holds exactly the publishes it was told of that are above every watermark it was told of, or that came in behind a message published on it alone |
| `ReplicaDrains.FrontIsAbove` | src/queue.c:633-660 | in every run, once a watermark is applied, what is in front is not replicated or above it |
| `ReplicaDrains.ReportedIsDrained` | src/cluster.c:1358-1368 | in every run: report the watermark, log it, let the replica catch up, and it holds nothing at or below it but what a message of its own keeps back |
| `Queues.KeepsLongestSuffix` | src/queue.c:393-433 | drop-head keeps the longest suffix that lets the newcomer in; a lone message too large is still admitted |
| `Queues.EnqueueDecides` | src/queue.c:380-433 | a publish is refused exactly when it overflows a reject-publish queue; otherwise exactly the shortest sufficient prefix is evicted |
| `Queues.LimitsInForce` | src/queue.c:341-348 | a queue's own limit wins over the default: refusal is exactly lack of room under the limit in force, and an admitted message leaves the queue within it, but for a lone message over the bytes |
| `Queues.EnqueueFlows` | src/queue.c:380-462 | the newcomer joins at the back, the evicted messages are a prefix reported in order, and the counters account for both |
| `Queues.EnqueueWithinLimits` | src/queue.c:341-348 | no publish takes a queue out of its limits |
| `Queues.DequeueFlows` | src/queue.c:489-504 | a dequeue hands out the front message and only that |
| `Queues.DrainFlows` | src/queue.c:633-662 | a drain removes from the front only and accounts for it |
| `Queues.PurgeFlows` | src/queue.c:680-699 | a purge empties the queue and accounts for it |
| `Queues.RequeueFlows` | src/queue.c:464-487 | a returning message joins at the back whatever the limits |
| `Queues.MarksInPercent` | src/queue.c:354-371 | congestion begins at 90% of a limit and clears at 75% of it, rounded up |
| `Queues.CongestDecides` | src/queue.c:354-378 | a queue becomes congested exactly at 90% of a limit in force and clears exactly when all are at 75% or below |
| `Queues.HysteresisIff` | src/queue.c:354-378 | an unchanged depth can never flip the congestion state back and forth exactly when no limit in force is 1, 2 or 3 |
| `Queues.SmallLimitFlaps` | src/queue.c:354-378 | with a limit of one message the state flips at every evaluation |
| `QueueRuns.CongestionIsRight` | src/queue.c:354-378 | in every run without policy changes, a queue with no limit of 1, 2 or 3 is congested at 90% of a limit and above and is not at 75% of every limit and below |
| `QueueRuns.StepExact` | src/queue.c:380-699 | each operation does to its queue's messages what it should and to every other queue nothing |
| `QueueRuns.AlarmCountsCongested` | src/queue.c:190-199 | in every run over any number of queues the alarm equals the number of congested queues, and each queue's enqueued equals dequeued plus dropped plus depth |
| `RingQueue.BeaverQueue.constructor` | src/queue.c:149-182 | an empty ring of sixteen slots |
| `RingQueue.BeaverQueue.Grow` | src/queue.c:322-336 | the doubled ring holds the same messages in the same order |
| `RingQueue.BeaverQueue.UpdateCongestion` | src/queue.c:354-378 | the queue's state and its share of the alarm move together |
| `RingQueue.BeaverQueue.Enqueue` | src/queue.c:380-462 | the ring does what the queue value does, including evictions and the alarm |
| `RingQueue.BeaverQueue.EvictFor` | src/queue.c:409-433 | the eviction loop removes exactly the prefix the value says |
| `RingQueue.BeaverQueue.RequeueInternal` | src/queue.c:464-487 | the ring refines a requeue |
| `RingQueue.BeaverQueue.Dequeue` | src/queue.c:489-504 | the ring refines a dequeue |
| `RingQueue.BeaverQueue.DrainConsumed` | src/queue.c:633-662 | the ring refines a drain and reports its length |
| `RingQueue.BeaverQueue.Purge` | src/queue.c:680-699 | the ring refines a purge and reports its length |
| `TopicMatch.SplitWords` | src/exchange.c:150-181 | the splitting loop yields the words between the dots |
| `TopicMatch.WordsJoin` | src/exchange.c:150-181 | joining the words with dots gives the text back and no word holds a dot |
| `TopicMatch.JoinWords` | src/exchange.c:150-181 | dot-free words are recovered from their joined form |
| `TopicMatch.Memo.MatchTokens` | src/exchange.c:195-219 | the memoised recursion answers the declarative meaning from its position, fills only later rows and its own cell, and counts each computed cell once |
| `TopicMatch.Memo.SearchTail` | src/exchange.c:205-209 | the loop over how many words a # takes finds a match exactly if some number matches |
| `TopicMatch.TopicMatches` | src/exchange.c:221-242 | a pattern matches exactly when some division of the key's words satisfies it, and at most (np+1)(nk+1) cells are computed |
| `Exchanges.TargetsExact` | src/exchange.c:257-295 | the targets are exactly the queues with a matching binding, each once |
| `Exchanges.TargetsGrow` | src/exchange.c:257-295 | a later binding adds targets only behind those of the earlier ones |
| `Exchanges.RouteTargets` | src/exchange.c:257-295 | the routing loop collects those targets in the order of their first matching binding |
| `Exchanges.AddBinding` | src/exchange.c:94-123 | the scan for an identical binding: it is ignored, any other is added at the end |
| `Exchanges.Exchange.Bind` | src/exchange.c:94-123 | the binding is there afterwards, and none is ever held twice |
| `Exchanges.Exchange.UnbindQueue` | src/exchange.c:125-139 | swap-removal takes all bindings of the queue, keeps every other once, and reports how many went |
| `Exchanges.Exchange.Route` | src/exchange.c:257-295 | routing returns each queue with a matching binding once and no other |
| `Broker.BeaverBroker.Bind` | src/broker.c:155-178 | a bind with a missing end changes nothing; otherwise the binding is there afterwards, and no exchange ever holds one twice |
| `Broker.BeaverBroker.DeleteQueue` | src/broker.c:188-224 | a missing queue, one in use or one not empty is refused as asked and nothing changes; otherwise the queue and every binding to it go together, so none is left dangling, and the depth is reported |
| `Broker.BeaverBroker.Route` | src/broker.c:226-308 | the re-entrant loops terminate and compute the cascade; the report is the number of queues that admitted the message, or an error when all targets refused it |
| `Broker.BeaverBroker.OfferEach` | src/broker.c:281-295 | the loop over the targets, each enqueue with its whole cascade before the next |
| `Broker.BeaverBroker.OfferTo` | src/queue.c:380-462 | enqueue, then dead-letter the evicted messages in order |
| `Broker.BeaverBroker.DeadLetter` | src/broker.c:318-347 | no hop left or no target means dropped; otherwise a copy with one hop more is routed |
| `Cascade.Route` | src/broker.c:226-308 | for every set of queues, limits and dead-letter bindings the mutual recursion ends: potential plus enqueues tried never exceeds what it was plus the message's budget |
| `Publishing.OfferedExactly` | src/broker.c:236-308 | for every message: it is offered, each once, to exactly the queue its key names on the default exchange, or to exactly those with a binding on the named exchange that takes the key by the exchange's kind |
| `Publishing.PublishedExactly` | src/broker.c:281-307 | where the queues addressed do not dead-letter: each has been offered the message, no other queue has changed, and the report is the number that admitted it, or an error if some refused it and none admitted it |
| `Publishing.DefaultExchangeDelivers` | src/broker.c:239-247 | on the default exchange an existing queue without limits gets the message at its back, one is reported, and no other queue changes |
| `Publishing.UnknownNameIsDropped` | src/broker.c:239-271 | a missing queue on the default exchange, or an unknown exchange, changes nothing and reports none |
| `Publishing.EveryAddressedIsTried` | src/broker.c:281-295 | with any dead-letter bindings, every queue addressed has tried one more enqueue afterwards |
| `Publishing.DeadLettersCarry` | src/broker.c:318-347 | field by field: the messages with a hop left arrive in order with body and properties unchanged, the exchange configured, the key configured or else their own, not replicated, one hop older |
| `Publishing.OverflowIsDeadLettered` | src/queue.c:393-457 | a publish to a full drop-head queue is admitted, evicts the shortest prefix that makes room, and exactly those of it with a hop left arrive at the dead-letter queue, whole and in order |
| `Cascade.PublishBounded` | src/broker.c:310-347 | a publish tries at most as many enqueues as the queued messages' potential plus queues times (queues + 1) to the power of its remaining hops |
| `Cascade.WeightBelowPower` | src/broker.c:310-325 | a message's weight is below (queues + 1) to the power of its remaining hops |
| `Cascade.CascadeKeepsQueues` | src/broker.c:226-347 | after a publish and its whole cascade every queue accounts for every message, has kept the order of what it held, is inside its limits if it was, and holds nothing past the hop limit |
| `Cascade.EvictedArrive` | src/queue.c:453-457 | with an unlimited dead-letter queue the newcomer is admitted and the evicted messages with a hop left are there in order |
| `Cascade.DeadLettersArrive` | src/broker.c:318-347 | dead-lettered messages arrive once each, in order, one hop older, and no other queue changes |
| `Cascade.RouteToUnlimited` | src/broker.c:226-308 | a message whose only target has no limits is appended there, counted as published, and nothing else changes |
| `Cascade.OffersAddUp` | src/broker.c:281-307 | every target either admitted the message or is reported as failed |
| `Cascade.TargetsBounded` | src/broker.c:236-271 | targets exist and are no more than there are queues |
| `Dispatch.SettleExact` | src/protocol.c:411-445 | the swap-remove loop takes exactly the deliveries with the tag, or all at or below it, and keeps all others |
| `Dispatch.SettleSplits` | src/dispatch.c:690-720 | every delivery is kept or taken, none both or neither |
| `Dispatch.ReleaseDestination` | src/dispatch.c:698-713 | requeued messages return to the tail of their queue in order; settled ones leave every queue as it is |
| `Dispatch.ServiceConserves` | src/dispatch.c:476-530 | a servicing pass, with sends that work or fail, accounts for every message of every queue |
| `Dispatch.WindowKept` | src/dispatch.c:496-502 | no pass takes a manual-ack consumer above the larger of its prior unacked count and its prefetch |
| `DispatchRuns.EveryMessageIsSomewhere` | src/dispatch.c:200-232 | over every run of arriving, subscribing, servicing, settling and departing, each arrival is exactly once among ready, in one consumer's hands, or settled |
| `DispatchRuns.SettleExactInEveryRun` | src/dispatch.c:679-729 | in every run a settle takes from each consumer exactly the matching deliveries on that connection and channel, and nothing from any other |
| `DispatchRuns.RunKeepsTags` | src/dispatch.c:387 | delivery tags are given out once and stay distinct |
| `DispatchRuns.EnabledIff` | src/dispatch.c:200-255 | in every reachable state a consumer is in the group of its queue, so whatever is there can be served, settled or go |
| `Servicing.PassInOrder` | src/dispatch.c:476-530 | in every pass, whoever is blocked and whichever send fails, messages leave from the front in queue order with consecutive tags, what is left is the rest, and only a message whose send failed is behind it instead |
| `Servicing.HandedIsHeld` | src/dispatch.c:380-400 | a manual-ack consumer holds exactly what it was handed behind what it held, an auto-ack one what it held |
| `Servicing.BlockedGetsNothing` | src/dispatch.c:493-499 | a blocked consumer is handed nothing |
| `Servicing.PassEnds` | src/dispatch.c:476-530 | a pass whose sends work ends with the queue empty, or with every consumer of the group blocked or its window full |
| `Settlement.SettledGoesWhere` | src/dispatch.c:679-729 | in every run and for every queue: with requeue exactly the deliveries asked for on that connection and channel come back behind what is ready and none is settled; without it the queue stays and exactly they are settled; the number reported is how many there were |
| `Settlement.DepartedGoesWhere` | src/dispatch.c:200-255 | in every run a departing consumer's deliveries return to its queue in order, or are settled there, and no other queue or consumer changes |
| `Fairness.SharesDifferByOne` | src/dispatch.c:484-509 | whenever every look of a pass finds a taker, the shares of any two consumers differ by at most one, whatever mix of manual and automatic acknowledgement and prefetch windows |
| `Fairness.LooksTakeIff` | src/dispatch.c:493-499 | while connections stay open, every look finds a taker if and only if at the start each window has room for the turns the cursor will give it |
| `Fairness.ServiceShares` | src/dispatch.c:476-530 | such a pass empties the queue and hands each consumer as many messages as the cursor comes by its slot |
| `Fairness.ShareIsHeld` | src/dispatch.c:476-530 | in every pass a manual-ack consumer holds its share on top of what it held, and an auto-ack one holds what it held |
| `Fairness.PassIsHandedOut` | src/dispatch.c:476-530 | in every pass what leaves the queue is what was handed over, and the auto-ack consumers' part of it is settled at once |
| `RoundRobin.EverySlotOnce` | src/dispatch.c:486-489 | among any count consecutive looks every slot comes up exactly once |
| `Dispatcher.SettleConsumer` | src/dispatch.c:685-720 | the in-place loop over one consumer's deliveries computes the split |
| `Dispatcher.BeaverDispatcher.PickConsumer` | src/dispatch.c:484-509 | the scan returns the first consumer from the cursor that is not blocked and has its window open, advancing the cursor at every look |
| `Dispatcher.BeaverDispatcher.ServiceGroup` | src/dispatch.c:476-530 | the delivery loop terminates and delivers from the front until the queue is empty, nobody can take more, or a send fails and the message goes back to the tail |
| `Dispatcher.BeaverDispatcher.SettleUnacked` | src/dispatch.c:679-729 | the loop over all consumers, stopping after the first hit for a single tag, and the number settled |
| `Dispatcher.BeaverDispatcher.ConsumerDestroy` | src/dispatch.c:200-255 | deliveries are returned or dropped, and list, table and group forget the consumer |
| `Dispatcher.BeaverDispatcher.LeaveGroup` | src/dispatch.c:224-240 | swap-removal from the group, the cursor restarted when past the end, an empty group dropped |
| `Topology.SnapshotFaithfulIff` | src/cluster.c:529-557 | for every delete-free history, replaying the list without repeats rebuilds the same queues, policies, exchanges, bindings and vhosts if and only if each bind that ever found its ends found them the first time it occurred |
| `Topology.EarlyBindIsLost` | src/cluster.c:531-538 | a bind sent before its queue exists and repeated afterwards is lost, and recovery rebuilds another topology |
| `Topology.FirstDeclarationWins` | src/cluster.c:1275-1306 | a queue's flags and policy, and an exchange's kind and flags, are those of its first declaration |
| `Topology.AgainIsNothing` | src/broker.c:68-178 | an operation in effect changes nothing when applied again |
| `TopologyLog.TopoLog.Add` | src/cluster.c:529-557 | an identical record is not added again, any other is appended, and the bytes replay as the records |
| `TopologyLog.RecordsOfBlob` | src/cluster.c:901-909 | the replay scan of the written bytes yields the records |
| `TopologySnapshot.SnapshotRebuildsIff` | src/cluster.c:529-557 | from operations to bytes and back: for every delete-free history and every encoding that can be read back, replaying the records scanned from the deduplicated bytes rebuilds the history's topology if and only if each bind that ever found its ends found them the first time |
| `Snapshots.RememberedIsDedup` | src/cluster.c:531-538 | comparing records byte for byte drops exactly the repeated operations |
| `Snapshots.ReadBack` | src/cluster.c:901-909 | what recovery reads from the bytes kept for a history is the history without repeats |
| `Snapshots.RememberAll` | src/cluster.c:1411-1418 | remembering a history operation by operation leaves those bytes |
| `Snapshots.FaithfulThroughoutIff` | src/cluster.c:529-557 | for any operations on any state and every history, the list without repeats gives the same state at every moment if and only if no repeated operation took effect |
| `ConfigChanges.IdleIff` | src/cluster.c:1270-1410 | each of the ten operations changes nothing exactly when what it would do is done already or cannot be done, spelled out for each |
| `ConfigChanges.ChangesFaithfulIff` | src/cluster.c:1411-1418 | for every history of declares, binds, queue deletes, virtual hosts, users and permissions, the list without repeats rebuilds the configuration at every moment if and only if no repeated operation found anything to do |
| `ConfigChanges.ChangesRebuildIff` | src/cluster.c:529-557 | the same from operations to bytes and back, for every encoding that can be read back |
| `ConfigChanges.OnlyBindsRepeatInVain` | src/cluster.c:529-557 | for histories without deletes, users and permissions that condition is the one on early binds |
| `ConfigChanges.UndoneAndRepeated` | src/cluster.c:531-538 | an operation, another and the first again are rebuilt if and only if the second left the first nothing to do |
| `ConfigChanges.RedeclaredQueueIsLost` | src/cluster.c:1323-1327 | a queue declared, deleted and declared again is missing after replaying the list without repeats |
| `ConfigChanges.RestoredPermIsLost` | src/authstore.c:386-423 | a permission set, changed and set back is the changed one after replaying that list |
| `ConfigEffects.DeletedQueueIsGone` | src/broker.c:188-224 | in every history, after a delete nothing is bound to the queue, and every other queue, exchange and binding is as it was |
| `ConfigEffects.DeletedVhostIsGone` | src/authstore.c:343-354 | in every history a deleted virtual host leaves the list with exactly its permissions |
| `ConfigEffects.DeletedUserIsGone` | src/authstore.c:373-384 | a deleted user goes with exactly their permissions |
| `ConfigEffects.SettingTakesEffect` | src/authstore.c:356-435 | users and permissions are as last set or cleared and nothing else changes; over-long names, hashes and patterns are refused |
| `ConfigEffects.AddedVhostHasExchanges` | src/cluster.c:1370-1376 | an added virtual host has its three exchanges of the right kinds, unless others had the names, even when its own name is too long to be listed |
| `ConfigEffects.HistorySane` | src/broker.c:188-224 | in every history bindings lead to queues that exist and no virtual host is listed twice |
| `Frames.FrameLayout` | src/frame.c:270-278 | type, channel, length, payload and end octet are where section 4.2.3 of AMQP 0-9-1 puts them |
| `Frames.WriteParse` | src/frame.c:270-278 | a written frame within the size limit is read back, whatever follows |
| `Frames.ParseWrite` | src/frame.c:242-268 | what is read as a frame is exactly its written form |
| `Frames.ParseStable` | src/frame.c:242-268 | what has been decided about the front of the input is not changed by later input |
| `Frames.FrameBuffer.WriteFrame` | src/frame.c:270-278 | the written form of the frame is appended to the buffer |
| `Frames.FrameBuffer.Finish` | src/frame.c:280-305 | back-patching the length gives the bytes of writing the frame whole; a payload too long for the field is refused |
| `Chunking.ChunkingIndependent` | src/protocol.c:2559-2620 | for every handler, stream and way of cutting it into reads, the frames dispatched, their order, and the error or waiting state are those of a single read |
| `Chunking.AnyTwoCutsAgree` | src/protocol.c:2559-2620 | from a new connection any two ways of cutting the same stream agree, greeting included |
| `Chunking.SentIsSeen` | src/protocol.c:2590-2618 | the written form of legal frames is dispatched as those frames in order, all of them unless the connection closes |
| `Chunking.EveryByteAccounted` | src/protocol.c:2590-2618 | for every input: the bytes worked through are exactly the written form of the frames dispatched, the rest waits unless the connection closes, and a fault is the one the next bytes show |
| `Chunking.OversizeIsFatal` | src/protocol.c:2600-2618 | a frame over the agreed size is never dispatched and closes the connection; any other is dispatched |
| `Chunking.GreetingDecides` | src/protocol.c:2569-2587 | a new connection waits for eight bytes and goes on exactly if they are the AMQP 0-9-1 greeting |
| `Chunking.Input.OnData` | src/protocol.c:2559-2620 | one read processes the bytes kept from before followed by the new ones, and nothing once closing |
| `Chunking.Input.Append` | src/protocol.c:290-318 | reclaiming the consumed prefix and growing the buffer keep what is waiting and add the new bytes behind it |
| `Chunking.Input.DrainFrames` | src/protocol.c:2590-2618 | the frame loop |
| `Content.SendBody` | src/protocol.c:826-846 | the sending loop cuts the body into consecutive full pieces and a rest |
| `Content.PiecesCover` | src/protocol.c:832-844 | the pieces join to the body, none is empty or over the chunk, and all but the last are full |
| `Content.ReplyFitsIff` | src/protocol.c:826-829 | every body frame fits the agreed frame size if and only if that size is at least 1024, the body is empty, or the whole body fits one such frame |
| `Content.DeliveryFitsIff` | src/dispatch.c:415-416 | delivered body frames fit the agreed size if and only if it has room for some payload or the body is empty |
| `Content.FullFrames` | src/protocol.c:826-829 | the exact size of full frames for replies and deliveries, defaults included |
| `Content.StreamedIsWritten` | src/dispatch.c:419-463 | the scatter-gather bytes of a delivery equal those of writing the body frame by frame |
| `Content.HeaderRoundTrip` | src/protocol.c:2198-2224 | body size and properties are read back from the content header; absent properties read as an empty list |
| `Content.FastPathAgrees` | src/protocol.c:2253-2258 | the single-frame path finalises exactly what accumulating would |
| `Content.ContentRoundTrip` | src/protocol.c:2188-2274 | every body, cut at any chunk size, is put together again and finalised exactly once with its properties, whatever frames follow |
| `Content.FinalisedWasSent` | src/protocol.c:2188-2274 | for all frames, well-formed or not: at most one message is finalised, and then a header on the channel announced its size and properties and body frames of the channel join to exactly its body |
| `Content.HeaderLayout` | src/protocol.c:2198-2224 | a content header is class 60, weight 0, the size, the properties |
| `Content.StrayContentIsFatal` | src/protocol.c:2481-2520 | a content frame outside a publish fails the connection and finalises nothing |
| `Content.NothingMore` | src/protocol.c:2481-2520 | once a publish is finalised or has failed, nothing is finalised before the next method frame, and a failure stays |
| `Content.OversizeRefused` | src/protocol.c:2207-2214 | a body over the limit is refused at its header and nothing is finalised |
| `Content.PublishState.HandleHeader` | src/protocol.c:2188-2236 | the content header starts assembly, finalises an empty body at once, or fails the connection |
| `Content.PublishState.HandleBody` | src/protocol.c:2238-2274 | a body frame on the wrong channel or over the declared size fails; otherwise it is finalised directly or copied behind what was received |
| `Content.PublishState.Dispatch` | src/protocol.c:2481-2520 | one frame in whatever state the publish is: its content frames while it is being assembled, else heartbeats and method frames only |
| `Supervisor.Worker.RecordRestart` | src/supervisor.c:122-128 | the ring remembers the last sixteen crashes of the whole history |
| `Supervisor.Worker.RateExceeded` | src/supervisor.c:133-146 | for limits up to sixteen the backward walk with early exit decides as counting over the unbounded history; for higher limits it never trips |
| `Supervisor.Worker.OnCrash` | src/supervisor.c:419-437 | a crash is followed by a respawn exactly when the limit is above sixteen or fewer than the limit of crashes lie in the window ending at it |
| `Supervisor.RecentIsWindow` | src/supervisor.c:130-146 | stopping at the first crash outside the window loses none inside it |
| `Supervisor.InWindowCounts` | src/supervisor.c:133-146 | the crashes that count are exactly those no longer ago than the window |
| `Supervisor.RespawnsAreLimited` | src/supervisor.c:406-439 | over every ordered sequence of crash times and every limit, the respawned crashes are exactly those with fewer than the limit in their window, or all of them above sixteen |
| `Supervisor.RingDecidesIff` | src/supervisor.c:122-146 | the ring decides as the unbounded history for every sequence of crashes if and only if the limit is at most sixteen |

## Left out

- libuv loops, sockets, timers, forking and real file calls: frames in flight, byte sequences and parameters stand for
  them.
- Allocation failures, write failures and the fail-stop they lead to, memory orders and pointer lifetimes; every
  operation under a lock is one step.
- 32- and 64-bit wrap-around of terms, indices, tags and counters.
- `src/http.c`, `src/main.c`, `src/config.c`, `src/logger.c`, `src/crypto.c`, `src/authlimit.c` and `src/hashmap.c`:
  plumbing, or only easier members; a hash map is a map. Of `src/authstore.c` only the changes a snapshot carries.
- CommitSafety.LeaderCompleteness: holds for disciplined runs only, as listed above, because the code as written does
  not promise it.
- CommitSafety.StateMachineSafety: holds for disciplined runs only, as listed above, with a run that breaks it for each
  rule.
- State transfer (SNAP frames), status frames, forwarding of proposals and throttling: bulk without a harder property.
- Compaction inside the cluster-wide runs: the Raft model's logs start at index 1; on one node compaction is proved to
  leave the node it stands for as it is. Freeing bodies above the compacted prefix is not modelled, only its heartbeat.
- Repair with several requests in flight, and frames lost during it: the model exchanges one request and one answer at a
  time.
- Watermark runs with manual-ack Basic.Get, with failed deliveries put back unrecorded, with consumers on several nodes,
  or with purges and evictions between.
- How an operation is laid out in a snapshot's record is a parameter, and whether a permission's patterns compile is not
  modelled: the row is stored either way.
- Whether a snapshot is faithful at one moment though not at every moment: a repeat that took effect may be undone again.
- Dispatch.ServiceConserves: an arrival is a plain push; drop-head evictions during dispatch belong to the queue and
  cascade modules.
- Dispatcher.BeaverDispatcher.SettleUnacked: a delivery rejected without requeue counts as settled; that it is also
  dead-lettered, and where the copy goes, is the cascade's part.
- Settlement.SettledGoesWhere: of several deliveries that one settle puts back, it says which they are and that they are
  behind what was ready, not in which order; swap-removal does not keep theirs.
- Dispatcher.BeaverDispatcher.ConsumerDestroy: leaves out auto-delete of the queue with its last consumer.
- Exclusive queues, waiters and consumer counts.
- Queues and consumers inside the broker and the dispatcher are values in tables, so aliasing of queue objects held past
  their deletion is not modelled.
- Message ids, the memory alarm, access checks and local persistence of users and permissions.
- Asynchronous password checks between two reads: a handler answers a frame at once.
- Hand-over of scatter-gather buffers to the socket: the bytes are modelled, not their ownership.
