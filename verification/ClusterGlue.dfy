/** Results of separate parts put together: repair in any reachable cluster, compaction beside any consuming queue. */
module ClusterGlue {
  import RaftNode
  import RaftSystem
  import LogMatching
  import NextIndex
  import Repair
  import Watermark
  import WatermarkRuns
  import Compaction

  /** In every reachable state of the cluster, any two logs satisfy what repair relies on. */
  lemma ReachableLogsMatch(s: RaftSystem.System, run: seq<RaftSystem.Action>, i: nat, j: nat)
    requires RaftSystem.Init(s) && RaftSystem.ValidRun(s, run) && i < s.n && j < s.n
    ensures var e := RaftSystem.Exec(s, run);
            i < |e.nodes| && j < |e.nodes| && Repair.Matching(e.nodes[i].log, e.nodes[j].log)
  {
    hide RaftSystem.Exec, RaftSystem.ValidRun;
    var e := RaftSystem.Exec(s, run);
    LogMatching.InitLogInv(s);
    LogMatching.RunKeepsLogInv(s, run);
    var a, b := e.nodes[i].log, e.nodes[j].log;
    forall k | 1 <= k <= |a| && k <= |b| && RaftNode.TermAt(a, k) == RaftNode.TermAt(b, k) ensures a[..k] == b[..k] {
      LogMatching.LogsMatch(s, run, i, j, k);
    }
  }

  /** In every reachable state a leader's next indices lie between 1 and one past the end of its log. */
  lemma ReachableNext(s: RaftSystem.System, run: seq<RaftSystem.Action>, i: nat, j: nat)
    requires RaftSystem.Init(s) && RaftSystem.ValidRun(s, run) && i < s.n && j < s.n
    requires RaftSystem.Exec(s, run).nodes[i].role == RaftNode.Leader
    ensures var x := RaftSystem.Exec(s, run).nodes[i];
            j < |x.next| && 1 <= x.next[j] <= |x.log| + 1
  {
    hide RaftSystem.Exec, RaftSystem.ValidRun, LogMatching.Sound, LogMatching.Frames;
    assert NextIndex.AllNextOk(s);
    NextIndex.RunKeepsNextOk(s, run);
    LogMatching.InitLogInv(s);
    LogMatching.RunKeepsLogInv(s, run);
    var e := RaftSystem.Exec(s, run);
    assert NextIndex.NextOk(e.nodes[i]);
  }

  /** From every reachable state, a leader that exchanges requests and answers with a follower not ahead of it in term
      ends with that follower's log equal to its own. */
  lemma ReachableRepairs(s: RaftSystem.System, run: seq<RaftSystem.Action>, i: nat, j: nat, k: nat)
    requires RaftSystem.Init(s) && RaftSystem.ValidRun(s, run) && i < s.n && j < s.n && i != j
    requires var e := RaftSystem.Exec(s, run);
             && e.nodes[i].role == RaftNode.Leader && e.nodes[j].term <= e.nodes[i].term && k >= 2 * |e.nodes[i].log| + 1
    ensures var e := RaftSystem.Exec(s, run);
            Repair.Rounds(Repair.Pair(e.nodes[i], e.nodes[j]), k).follower.log == e.nodes[i].log
  {
    hide RaftSystem.Exec, RaftSystem.ValidRun, Repair.Rounds, Repair.Matching, Repair.Left;
    ReachableLogsMatch(s, run, i, j);
    ReachableNext(s, run, i, j);
    var e := RaftSystem.Exec(s, run);
    var p := Repair.Pair(e.nodes[i], e.nodes[j]);
    assert Repair.Repairing(p);
    Repair.FewRounds(p);
    Repair.RepairConverges(p, k);
  }

  /** Whatever a consuming node did before, compaction bounded by its queues' oldest live ids drops only entries that are
      applied and older than every replicated message that is ready or in a consumer's hands. */
  lemma CompactionSparesLive(run: seq<WatermarkRuns.Act>, upto: nat, applied: nat, qs: seq<Watermark.Oldest>, i: nat,
                             idx: nat, id: nat)
    requires i < |qs|
    requires var s := WatermarkRuns.Exec(WatermarkRuns.START, run);
             qs[i] == Watermark.OldestLive(s.t, s.ready) && id != 0 && (id in s.ready || id in s.held)
    requires 1 <= idx <= Compaction.Clamp(upto, applied, Compaction.MinLive(qs))
    ensures idx <= applied && idx <= upto && idx < id
  {
    hide WatermarkRuns.Exec, Compaction.Clamp, Compaction.MinLive, Watermark.OldestLive;
    WatermarkRuns.OldestBoundsLive(run, id);
    Compaction.DropsOnlyDead(upto, applied, qs, idx, i, id);
  }
}
