/** When a commit index moves: exactly when a majority has got further with an entry of the leader's term, whatever the
    index was before, and on followers exactly as far as the leader says and the log reaches. */
module CommitProgress {
  import opened QuorumCommit
  import opened RaftNode
  import opened RaftSystem

  /** More than half of the nodes have got at least this far. */
  ghost predicate Majority(at: seq<nat>, k: nat) {
    2 * |set v: nat | v < |at| && at[v] >= k| > |at|
  }

  /** The highest index a majority has got to, above the commit index and of the leader's term. */
  ghost predicate NextCommit(x: Node, at: seq<nat>, k: nat) {
    k > x.commit && TermAt(x.log, k) == x.term && Majority(at, k) && forall j: nat :: j > k ==> !Majority(at, j)
  }

  /** The commit index moves if and only if there is such an index, and then it moves there; what it passes is
      applied. */
  ghost predicate CommitsExactly(x: Node, at: seq<nat>, y: Node) {
    && y.log == x.log && y.term == x.term
    && (y.commit != x.commit <==> exists k: nat :: NextCommit(x, at, k))
    && (forall k: nat :: NextCommit(x, at, k) ==> y.commit == k)
    && (|x.applied| == x.commit && x.commit <= y.commit <= |x.log| ==>
          y.applied == x.applied + x.log[x.commit..y.commit])
    && (y.commit == x.commit ==> y.applied == x.applied)
  }

  lemma MajorityCounts(x: Node, at: seq<nat>, k: nat)
    requires |at| == x.n
    ensures Majority(at, k) <==> CountAtLeast(at, k) >= x.Quorum()
  {
    CountIsCardinality(at, k);
  }

  lemma HighestIsQuorumIndex(x: Node, at: seq<nat>, k: nat)
    requires |at| == x.n && k > 0
    ensures (Majority(at, k) && forall j: nat :: j > k ==> !Majority(at, j)) <==> k == QuorumIndex(at, x.Quorum())
  {
    forall j: nat ensures Majority(at, j) <==> CountAtLeast(at, j) >= x.Quorum() { MajorityCounts(x, at, j); }
    hide Majority;
    if Majority(at, k) && forall j: nat :: j > k ==> !Majority(at, j) { QuorumIndexUnique(at, x.Quorum(), k); }
  }

  /** One recount with these positions. */
  lemma RecountCommits(x: Node, z: Node, at: seq<nat>)
    requires z.Shaped() && at == Recorded(z) && z.n == x.n
    requires z.commit == x.commit && z.applied == x.applied && z.log == x.log && z.term == x.term
    ensures CommitsExactly(x, at, AdvanceCommit(z))
  {
    var high, y := QuorumIndex(at, x.Quorum()), AdvanceCommit(z);
    forall k: nat | k > x.commit
      ensures NextCommit(x, at, k) <==> k == high && TermAt(x.log, k) == x.term
    {
      HighestIsQuorumIndex(x, at, k);
    }
    hide QuorumIndex, Majority, Recorded;
    if high > x.commit && TermAt(x.log, high) == x.term { assert NextCommit(x, at, high); }
  }

  // ---- on the leader ----

  /** How far each node is known to have got once an answer is heard: on disk, or under the fast policy at all. */
  ghost function Heard(x: Node, m: Message): (at: seq<nat>)
    requires x.Shaped() && m.AppendResp?
    ensures |at| == x.n
  {
    seq(x.n, v requires 0 <= v < x.n =>
      if v == x.id then (if x.durableCommit then x.durable else |x.log|)
      else if v == m.src then (if x.durableCommit then m.durable else Max(x.matched[v], m.hint))
      else if x.durableCommit then x.peerDurable[v] else x.matched[v])
  }

  /** The same without news, when the node's own disk has got to `own`. */
  ghost function Known(x: Node, own: nat): (at: seq<nat>)
    requires x.Shaped()
    ensures |at| == x.n
  {
    seq(x.n, v requires 0 <= v < x.n =>
      if v == x.id then (if x.durableCommit then own else |x.log|)
      else if x.durableCommit then x.peerDurable[v] else x.matched[v])
  }

  /** Every leader, whatever its commit index, commits on a success exactly what the majority has then got to, and
      remembers what it heard. */
  lemma SuccessCommits(x: Node, m: Message, h: bool)
    requires x.Shaped() && x.role == Leader && m.AppendResp? && m.success && m.src < x.n && m.term <= x.term
    ensures CommitsExactly(x, Heard(x, m), Effect(x, Deliver(m, h)).node)
    ensures var y := Effect(x, Deliver(m, h)).node; y.Shaped() && y.role == Leader && Known(y, y.durable) == Heard(x, m)
  {
    HeardIsKnown(x, m, h);
    var d := x.(peerDurable := x.peerDurable[m.src := m.durable],
                matched := x.matched[m.src := Max(x.matched[m.src], m.hint)]);
    assert Effect(x, Deliver(m, h)).node == AdvanceCommit(d);
    assert Recorded(d) == Heard(x, m);
    hide AdvanceCommit, CommitsExactly, Recorded, Heard, Effect;
    RecountCommits(x, d, Heard(x, m));
  }

  lemma HeardIsKnown(x: Node, m: Message, h: bool)
    requires x.Shaped() && x.role == Leader && m.AppendResp? && m.success && m.src < x.n && m.term <= x.term
    ensures var y := Effect(x, Deliver(m, h)).node; y.Shaped() && y.role == Leader && Known(y, y.durable) == Heard(x, m)
  {
    hide QuorumIndex, Pending, TermAt;
  }

  /** So it does after its own write. */
  lemma FlushCommits(x: Node, i: nat)
    requires x.Shaped() && x.role == Leader
    ensures CommitsExactly(x, Known(x, x.durable), Effect(x, Flush(i)).node)
  {
    assert Recorded(x) == Known(x, x.durable);
    hide AdvanceCommit, CommitsExactly, Recorded, Known;
    RecountCommits(x, x, Known(x, x.durable));
  }

  /** And, under the durable policy, after its own fsync, when its whole log is on disk. */
  lemma FsyncCommits(x: Node, i: nat)
    requires x.Shaped() && x.role == Leader && x.durableCommit
    ensures CommitsExactly(x, Known(x, |x.log|), Effect(x, Fsync(i)).node)
    ensures Effect(x, Fsync(i)).node.durable == |x.log|
  {
    var d := x.(durable := |x.log|);
    assert Recorded(d) == Known(x, |x.log|);
    assert Effect(x, Fsync(i)).node == AdvanceCommit(d);
    hide CommitsExactly, Recorded, Known, Effect;
    RecountCommits(x, d, Known(x, |x.log|));
  }

  /** Once a majority has the whole log, and none is taken to have more, everything is committed and applied. */
  lemma CaughtUpCommits(x: Node, at: seq<nat>, y: Node)
    requires CommitsExactly(x, at, y) && Majority(at, |x.log|) && LastTerm(x.log) == x.term
    requires x.commit <= |x.log| && |x.applied| == x.commit && forall v :: 0 <= v < |at| ==> at[v] <= |x.log|
    ensures y.commit == |x.log| && y.applied == x.applied + x.log[x.commit..]
  {
    forall j: nat | j > |x.log| ensures !Majority(at, j) {
      assert (set v: nat | v < |at| && at[v] >= j) == {};
    }
    if x.commit < |x.log| { assert NextCommit(x, at, |x.log|); }
  }

  /** A proposal to a leader is at the end of its log as it was made. */
  lemma ProposedIsLogged(x: Node, i: nat, op: nat, payload: seq<nat>)
    requires x.Shaped()
    ensures Effect(x, ClientAppend(i, op, payload)) ==
            Out(if x.role == Leader then x.(log := x.log + [Entry(x.term, op, payload)]) else x, {})
  {
  }

  /** And once a majority has the log it is the last applied. */
  lemma ProposedIsApplied(x: Node, op: nat, payload: seq<nat>, p: Node, m: Message, h: bool)
    requires x.Shaped() && x.role == Leader && x.commit <= |x.log| && |x.applied| == x.commit
    requires m.AppendResp? && m.success && m.src < x.n && m.term <= x.term
    requires p == x.(log := x.log + [Entry(x.term, op, payload)])
    requires Majority(Heard(p, m), |p.log|) && forall v :: 0 <= v < x.n ==> Heard(p, m)[v] <= |p.log|
    ensures Effect(p, Deliver(m, h)).node.applied == x.applied + x.log[x.commit..] + [Entry(x.term, op, payload)]
  {
    hide Effect, Heard, Majority, CommitsExactly, Known;
    SuccessCommits(p, m, h);
    CaughtUpCommits(p, Heard(p, m), Effect(p, Deliver(m, h)).node);
    assert p.log[x.commit..] == x.log[x.commit..] + [Entry(x.term, op, payload)];
  }

  /** A reject commits nothing. */
  lemma RejectCommitsNothing(x: Node, m: Message, h: bool)
    requires x.Shaped() && m.AppendResp? && m.src < x.n && (!m.success || x.role != Leader || m.term > x.term)
    ensures var y := Effect(x, Deliver(m, h)).node;
            y.commit == x.commit && y.applied == x.applied && y.log == x.log
  {
  }

  /** A reject of the current term, or an earlier one, takes the peer back to its hint and no further than it was. */
  lemma RejectRewinds(x: Node, m: Message, h: bool)
    requires x.Shaped() && x.role == Leader && m.AppendResp? && !m.success && m.src < x.n && m.term <= x.term
    ensures var y := Effect(x, Deliver(m, h)).node;
            && y.Shaped() && y.role == Leader && y.matched[m.src] <= m.hint && y.next[m.src] <= m.hint + 1
            && (y.matched[m.src] < m.hint ==> y.matched[m.src] == x.matched[m.src])
            && (y.next[m.src] < m.hint + 1 ==> y.next[m.src] == x.next[m.src])
            && forall v :: 0 <= v < x.n && v != m.src ==> y.matched[v] == x.matched[v] && y.next[v] == x.next[v]
  {
  }

  /** The vote that makes a leader: its first frame to every peer carries its no-op behind the log it was elected
      with. */
  lemma NewLeaderProbes(x: Node, m: Message, h: bool, j: nat)
    requires x.Shaped() && j < x.n && m.VoteResp? && m.src < x.n && x.role != Leader
    requires Effect(x, Deliver(m, h)).node.role == Leader
    ensures var y := Effect(x, Deliver(m, h)).node;
            && y.log == x.log + [Entry(x.term, OP_NOOP, [])]
            && Effect(y, Replicate(y.id, j)).msgs ==
               {Append(x.id, j, x.term, |x.log|, LastTerm(x.log), x.commit, [Entry(x.term, OP_NOOP, [])])}
  {
    var y := Effect(x, Deliver(m, h)).node;
    assert y.next[j] == |x.log| + 1 && y.log[|x.log|..] == [Entry(x.term, OP_NOOP, [])];
    assert BatchCount(y.log, |x.log|, 0, APPEND_FIXED) == 1;
    assert y.log[|x.log|..|x.log| + 1] == [Entry(x.term, OP_NOOP, [])];
    assert x.log != [] ==> y.log[|x.log| - 1] == x.log[|x.log| - 1];
  }

  /** After a reconnection the first frame to the peer is a heartbeat that names the end of the log. */
  lemma ReconnectedProbes(x: Node, j: nat)
    requires x.Shaped() && j < x.n
    ensures Effect(Effect(x, Reconnect(x.id, j)).node, Replicate(x.id, j)).msgs ==
            {Append(x.id, j, x.term, |x.log|, LastTerm(x.log), x.commit, [])}
  {
  }

  // ---- on a follower ----

  /** A follower that accepts a frame has committed what it had, or as much as the frame says and the log reaches. */
  lemma FollowerCommits(x: Node, m: Message, h: bool)
    requires x.Shaped() && m.Append? && m.src < x.n && m.term >= x.term && LogMatches(x.log, m.prevIdx, m.prevTerm)
    ensures var y := Effect(x, Deliver(m, h)).node;
            && y.log == x.log[..m.prevIdx] + m.entries
            && y.commit == Max(x.commit, Min(m.leaderCommit, |y.log|))
            && (|x.applied| == x.commit && x.commit < y.commit ==> y.applied == x.applied + y.log[x.commit..y.commit])
            && (x.commit == y.commit ==> y.applied == x.applied)
            && Effect(x, Deliver(m, h)).msgs == {AppendResp(x.id, m.src, m.term, true, |y.log|, x.durable)}
  {
    var o := ObserveTerm(x, m.term);
    var f := o.(role := Follower, inPrevote := false);
    assert Effect(x, Deliver(m, h)).node == TakeEntries(f, m);
  }

  /** One round from a leader whose frame is accepted leaves the follower committed as far as the leader was, or to the
      end of what it has been sent. */
  lemma RoundCommits(x: Node, y: Node, h: bool) returns (m: Message)
    requires x.Shaped() && y.Shaped() && y.n == x.n && y.id != x.id && y.term <= x.term
    requires var prev := if x.next[y.id] == 0 then 0 else x.next[y.id] - 1;
             prev <= |x.log| && LogMatches(y.log, prev, TermAt(x.log, prev))
    ensures m in Effect(x, Replicate(x.id, y.id)).msgs && m.Append? && m.src == x.id
    ensures var z := Effect(y, Deliver(m, h)).node;
            z.commit == Max(y.commit, Min(x.commit, |z.log|)) && z.term == x.term && z.role == Follower
  {
    m := AppendFrame(x, y.id);
    assert m in Effect(x, Replicate(x.id, y.id)).msgs && m.leaderCommit == x.commit && m.term == x.term;
    assert LogMatches(y.log, m.prevIdx, m.prevTerm);
    hide AppendFrame, BatchCount, LogMatches;
    FollowerCommits(y, m, h);
    Followed(y, m, h);
  }

  lemma Followed(y: Node, m: Message, h: bool)
    requires y.Shaped() && m.Append? && m.src < y.n && m.term >= y.term
    ensures var z := Effect(y, Deliver(m, h)).node; z.term == m.term && z.role == Follower
  {
    hide TermAt, Pending;
  }
}
