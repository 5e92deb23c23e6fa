/** Bringing one follower's log in line with the leader's: probe, rewind on each reject, then fill in batches,
    with one request outstanding at a time. */
module Repair {
  import opened RaftNode

  /** Leader and follower during the exchange. */
  datatype Pair = Pair(leader: Node, follower: Node)

  /** Log Matching between two logs: equal terms at an index mean equal logs up to it. */
  ghost predicate Matching(a: Log, b: Log) {
    forall k :: 1 <= k <= |a| && k <= |b| && TermAt(a, k) == TermAt(b, k) ==> a[..k] == b[..k]
  }

  /** The length of the longest common prefix. */
  ghost function Common(a: Log, b: Log): (c: nat)
    ensures c <= |a| && c <= |b| && a[..c] == b[..c]
    ensures c < |a| && c < |b| ==> a[c] != b[c]
  {
    if a == [] || b == [] || a[0] != b[0] then 0
    else
      var rest := Common(a[1..], b[1..]);
      assert a[..1 + rest] == [a[0]] + a[1..][..rest] && b[..1 + rest] == [b[0]] + b[1..][..rest];
      1 + rest
  }

  lemma CommonIsLongest(a: Log, b: Log, k: nat)
    requires k <= |a| && k <= |b| && a[..k] == b[..k]
    ensures k <= Common(a, b)
  {
    assert forall i :: 0 <= i < k ==> a[i] == a[..k][i] == b[..k][i] == b[i];
  }

  /** A leader repairing a follower it has not fallen behind of. */
  ghost predicate Repairing(p: Pair) {
    && p.leader.Shaped() && p.follower.Shaped() && p.follower.n == p.leader.n && p.follower.id != p.leader.id
    && p.leader.role == Leader && p.follower.term <= p.leader.term
    && 1 <= Next(p) <= |p.leader.log| + 1
    && Matching(p.leader.log, p.follower.log)
  }

  /** The next index recorded for the follower. */
  function Next(p: Pair): (k: nat)
    requires p.leader.Shaped() && p.follower.id < p.leader.n
  {
    p.leader.next[p.follower.id]
  }

  function Reply(f: Node, m: Message): (r: Message)
    requires m.Append?
    ensures r.AppendResp? && r.src == f.id && OnAppend(f, m).msgs == {r}
  {
    var o := ObserveTerm(f, m.term);
    if m.term < o.term then AppendResp(f.id, m.src, o.term, false, |o.log|, o.durable)
    else if m.prevIdx > |f.log| then AppendResp(f.id, m.src, o.term, false, |f.log|, f.durable)
    else if m.prevIdx > 0 && TermAt(f.log, m.prevIdx) != m.prevTerm then
      AppendResp(f.id, m.src, o.term, false, m.prevIdx - 1, f.durable)
    else
      var h := OnAppend(f, m).node;
      AppendResp(f.id, m.src, h.term, true, |h.log|, h.durable)
  }

  /** One request and its answer. */
  function Round(p: Pair): (r: Pair)
    requires p.leader.Shaped() && p.follower.id < p.leader.n
    ensures r.leader.Shaped() && r.follower.id == p.follower.id && r.leader.n == p.leader.n
  {
    var j := p.follower.id;
    var m := AppendFrame(p.leader, j);
    Pair(OnAppendResp(SendAppend(p.leader, j).node, Reply(p.follower, m)).node, OnAppend(p.follower, m).node)
  }

  function Rounds(p: Pair, k: nat): (r: Pair)
    requires p.leader.Shaped() && p.follower.id < p.leader.n
    decreases k
  {
    if k == 0 then p else Rounds(Round(p), k - 1)
  }

  lemma CommonBelow(a: Log, b: Log, k: nat)
    requires k <= Common(a, b)
    ensures a[..k] == b[..k]
  {
    var c := Common(a, b);
    assert a[..k] == a[..c][..k] && b[..k] == b[..c][..k];
  }

  lemma PrefixMatches(a: Log, n: nat)
    requires n <= |a|
    ensures Matching(a, a[..n])
  {
    forall k | 1 <= k <= n ensures a[..n][..k] == a[..k] {
    }
  }

  /** A request is accepted exactly when it starts inside the common prefix. */
  lemma AcceptedIff(p: Pair)
    requires Repairing(p)
    ensures LogMatches(p.follower.log, Next(p) - 1, TermAt(p.leader.log, Next(p) - 1)) <==>
            Next(p) - 1 <= Common(p.leader.log, p.follower.log)
  {
    var a, b, prev := p.leader.log, p.follower.log, Next(p) - 1;
    var c := Common(a, b);
    if 1 <= prev <= c {
      assert a[..c][prev - 1] == b[..c][prev - 1];
    }
    if LogMatches(b, prev, TermAt(a, prev)) && prev >= 1 {
      CommonIsLongest(a, b, prev);
    }
  }

  /** A refused frame changes no log, and the hint lies below the frame's start but not below the common prefix. */
  lemma RejectedFollower(f: Node, m: Message)
    requires m.Append? && f.term <= m.term && !LogMatches(f.log, m.prevIdx, m.prevTerm)
    ensures var r, a := OnAppend(f, m).node, Reply(f, m);
            && r.log == f.log && r.term == m.term && SameNode(f, r)
            && !a.success && a.term == m.term && a.hint == Min(m.prevIdx - 1, |f.log|)
  {
    hide TakeEntries;
  }

  /** What a rejected round does: the leader's log and the follower's log stay, and the next index falls,
      but never below the first index after the common prefix. */
  lemma RejectedRound(p: Pair)
    requires Repairing(p) && Next(p) - 1 > Common(p.leader.log, p.follower.log)
    ensures var r := Round(p);
            && Repairing(r) && r.leader.log == p.leader.log && r.follower.log == p.follower.log
            && Common(p.leader.log, p.follower.log) < Next(r) < Next(p)
  {
    hide Common, Matching, AppendFrame, OnAppend, Pending, AdvanceCommit, TakeEntries;
    AcceptedIff(p);
    FrameShape(p);
    var m := AppendFrame(p.leader, p.follower.id);
    RejectedFollower(p.follower, m);
    FollowerAfter(p);
  }

  /** What an accepted round does: the follower holds the leader's log up to the new next index,
      which has moved unless the leader had nothing left to send. */
  lemma AcceptedRound(p: Pair)
    requires Repairing(p) && Next(p) - 1 <= Common(p.leader.log, p.follower.log)
    ensures var r := Round(p);
            && Repairing(r) && r.leader.log == p.leader.log
            && r.follower.log == p.leader.log[..Next(r) - 1]
            && Next(p) <= Next(r) && (Next(p) <= |p.leader.log| ==> Next(p) < Next(r))
  {
    hide Round, Common, Matching, AppendFrame, Reply, OnAppend;
    AcceptedIff(p);
    FrameShape(p);
    AcceptedFollower(p.leader.log, p.follower, AppendFrame(p.leader, p.follower.id));
    AcceptedLeader(p);
    FollowerAfter(p);
    PrefixMatches(p.leader.log, Next(Round(p)) - 1);
  }

  /** The frame starts right before the next index and carries the leader's entries from there. */
  lemma FrameShape(p: Pair)
    requires Repairing(p)
    ensures var m, prev := AppendFrame(p.leader, p.follower.id), Next(p) - 1;
            && m.prevIdx == prev && m.prevTerm == TermAt(p.leader.log, prev) && m.term == p.leader.term
            && prev + |m.entries| <= |p.leader.log| && m.entries == p.leader.log[prev..prev + |m.entries|]
            && (prev < |p.leader.log| ==> |m.entries| >= 1)
  {
    hide Common, Matching;
  }

  lemma AcceptedEntries(f: Node, m: Message)
    requires m.Append? && f.term <= m.term && LogMatches(f.log, m.prevIdx, m.prevTerm)
    ensures var r := OnAppend(f, m).node;
            && r.log == f.log[..m.prevIdx] + m.entries && r.term == m.term && SameNode(f, r)
            && Reply(f, m).success && Reply(f, m).term == m.term
  {
    hide Pending;
    assert m.prevIdx == |f.log| ==> f.log[..m.prevIdx] == f.log;
  }

  lemma SliceJoin(a: Log, i: nat, j: nat)
    requires i <= j <= |a|
    ensures a[..i] + a[i..j] == a[..j]
  {
  }

  lemma FollowerAfter(p: Pair)
    requires Repairing(p)
    ensures Round(p).follower == OnAppend(p.follower, AppendFrame(p.leader, p.follower.id)).node
  {
    hide OnAppend, OnAppendResp, AppendFrame, Reply, Common, Matching;
  }

  lemma AcceptedFollower(a: Log, f: Node, m: Message)
    requires m.Append? && f.term <= m.term && m.prevIdx <= Common(a, f.log)
    requires LogMatches(f.log, m.prevIdx, m.prevTerm)
    requires m.prevIdx + |m.entries| <= |a| && m.entries == a[m.prevIdx..m.prevIdx + |m.entries|]
    ensures var r := OnAppend(f, m).node;
            && Reply(f, m).success && Reply(f, m).term == m.term
            && SameNode(f, r) && r.term == m.term && r.log == a[..m.prevIdx + |m.entries|]
  {
    hide Common, Reply, OnAppend;
    CommonBelow(a, f.log, m.prevIdx);
    AcceptedEntries(f, m);
    SliceJoin(a, m.prevIdx, m.prevIdx + |m.entries|);
  }

  lemma AcceptedLeader(p: Pair)
    requires Repairing(p)
    requires var m := AppendFrame(p.leader, p.follower.id);
             Reply(p.follower, m).success && Reply(p.follower, m).term == p.leader.term
    ensures var m, r := AppendFrame(p.leader, p.follower.id), Round(p).leader;
            && r.log == p.leader.log && r.role == Leader && r.term == p.leader.term && r.id == p.leader.id
            && r.next[p.follower.id] == Next(p) + |m.entries| <= |p.leader.log| + 1
            && (Next(p) <= |p.leader.log| ==> |m.entries| >= 1)
  {
    hide Common, Matching;
  }

  /** Rounds left at most: one per step of rewinding and one per entry to send. */
  ghost function Left(p: Pair): (n: nat)
    requires Repairing(p)
  {
    var c := Common(p.leader.log, p.follower.log);
    if Next(p) - 1 > c then (Next(p) - 1 - c) + |p.leader.log| + 1
    else if p.follower.log == p.leader.log[..Next(p) - 1] then |p.leader.log| - (Next(p) - 1)
    else |p.leader.log| + 1 - (Next(p) - 1)
  }

  lemma RoundLowersLeft(p: Pair)
    requires Repairing(p)
    ensures Repairing(Round(p)) && Round(p).leader.log == p.leader.log
    ensures Left(p) > 0 ==> Left(Round(p)) < Left(p)
    ensures Left(p) == 0 ==> Left(Round(p)) == 0
  {
    hide Round, Common, Matching;
    var a, r := p.leader.log, Round(p);
    if Next(p) - 1 > Common(a, p.follower.log) {
      RejectedRound(p);
      assert Left(r) <= (Next(r) - 1) - Common(a, r.follower.log) + |a| + 1;
    } else {
      AcceptedRound(p);
      CommonIsLongest(a, r.follower.log, Next(r) - 1);
    }
  }

  lemma NoneLeft(p: Pair)
    requires Repairing(p) && Left(p) == 0
    ensures p.follower.log == p.leader.log
  {
  }

  /** Whatever the two logs and the recorded next index are, enough rounds make the follower's log
      equal to the leader's, and it stays equal. */
  lemma {:induction false} RepairConverges(p: Pair, k: nat)
    requires Repairing(p) && k >= Left(p)
    ensures Repairing(Rounds(p, k)) && Rounds(p, k).leader.log == p.leader.log
    ensures Rounds(p, k).follower.log == p.leader.log
    decreases k
  {
    hide Round, Common, Left, Matching;
    if k == 0 {
      NoneLeft(p);
    } else {
      RoundLowersLeft(p);
      RepairConverges(Round(p), k - 1);
    }
  }

  lemma FewRounds(p: Pair)
    requires Repairing(p)
    ensures Left(p) <= 2 * |p.leader.log| + 1
  {
  }

  /** Started at or above the common prefix, no round removes any of it: it stays common throughout. */
  lemma {:induction false} KeepsCommonPrefix(p: Pair, k: nat)
    requires Repairing(p) && Next(p) - 1 >= Common(p.leader.log, p.follower.log)
    ensures Repairing(Rounds(p, k))
    ensures var c := Common(p.leader.log, p.follower.log);
            p.leader.log[..c] <= Rounds(p, k).follower.log
    decreases k
  {
    hide Round, Common, Matching;
    if k > 0 {
      var a, c, r := p.leader.log, Common(p.leader.log, p.follower.log), Round(p);
      StartsAbove(p);
      KeepsCommonPrefix(r, k - 1);
      PrefixOfPrefix(a, c, Common(a, r.follower.log), Rounds(p, k).follower.log);
    }
  }

  lemma PrefixOfPrefix(a: Log, c: nat, d: nat, b: Log)
    requires c <= d <= |a| && a[..d] <= b
    ensures a[..c] <= b
  {
    assert a[..c] == a[..d][..c];
  }

  lemma StartsAbove(p: Pair)
    requires Repairing(p) && Next(p) - 1 >= Common(p.leader.log, p.follower.log)
    ensures var r := Round(p);
            && Repairing(r) && r.leader.log == p.leader.log
            && Next(r) - 1 >= Common(r.leader.log, r.follower.log) >= Common(p.leader.log, p.follower.log)
  {
    var a, c := p.leader.log, Common(p.leader.log, p.follower.log);
    if Next(p) - 1 > c {
      RejectedRound(p);
    } else {
      AcceptedRound(p);
      var r := Round(p);
      hide Round;
      CommonIsLongest(a, r.follower.log, Next(r) - 1);
    }
  }
}
