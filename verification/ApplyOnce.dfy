/** Commit and apply, in every run: the commit index only rises, a leader raises it only to a
    majority position of its own term, and each index is applied exactly once, in order. */
module ApplyOnce {
  import opened QuorumCommit
  import opened RaftNode
  import opened RaftSystem
  import opened ElectionSafety

  /** What a step does to the commit index and to what has been applied. */
  ghost predicate CommitRaised(x: Node, y: Node)
    requires x.Shaped() && y.Shaped()
  {
    && y.commit > x.commit && y.applied == x.applied + Pending(y.log, |x.applied|, y.commit)
    && (|| (y.role == Leader && TermAt(y.log, y.commit) == y.term && y.commit == QuorumIndex(Recorded(y), y.Quorum()))
        || (y.role == Follower && y.commit <= |y.log|))
  }

  ghost predicate ApplyEffect(x: Node, o: Out, a: Action)
    requires x.Shaped() && o.node.Shaped()
  {
    if a.Crash? then o.node.commit == 0 && o.node.applied == []
    else CommitRaised(x, o.node) || (o.node.commit == x.commit && o.node.applied == x.applied)
  }

  lemma AdvanceEffect(s: Node)
    requires s.Shaped() && s.role == Leader
    ensures var y := AdvanceCommit(s);
            CommitRaised(s, y) || (y.commit == s.commit && y.applied == s.applied)
  {
    var y := AdvanceCommit(s);
    assert Recorded(y) == Recorded(s);
  }

  lemma DeliveryApplyEffect(x: Node, m: Message, heardLeader: bool)
    requires x.Shaped() && m.src < x.n && SameNode(x, Dispatch(x, m, heardLeader).node)
    ensures ApplyEffect(x, Dispatch(x, m, heardLeader), Deliver(m, heardLeader))
  {
    match m {
      case PreVote(_, _, _, _, _) =>
      case PreVoteResp(_, _, _, _) =>
      case VoteReq(_, _, _, _, _) =>
      case VoteResp(_, _, _, _) =>
      case Append(_, _, _, _, _, _, _) =>
        hide Pending;
      case AppendResp(_, _, _, _, _, _) =>
        if m.term <= x.term && x.role == Leader && m.success {
          AdvanceEffect(x.(peerDurable := x.peerDurable[m.src := m.durable],
                           matched := x.matched[m.src := Max(x.matched[m.src], m.hint)]));
        }
        hide AdvanceCommit, Pending;
    }
  }

  lemma EveryApplyEffect(x: Node, a: Action)
    requires x.Shaped()
    requires a.Deliver? ==> a.m.src < x.n
    requires a.Replicate? || a.Reconnect? ==> a.j < x.n
    requires a.Crash? ==> a.keep <= |x.log|
    requires a.Flush? ==> x.role == Leader
    requires SameNode(x, Effect(x, a).node)
    ensures ApplyEffect(x, Effect(x, a), a)
  {
    match a {
      case Deliver(m, heardLeader) => DeliveryApplyEffect(x, m, heardLeader);
      case Timeout(_) =>
      case ClientAppend(_, _, _) =>
      case Replicate(_, _) =>
      case Flush(_) => AdvanceEffect(x);
      case Fsync(_) => if x.role == Leader { AdvanceEffect(x.(durable := |x.log|)); }
      case Reconnect(_, _) =>
      case Crash(_, _) =>
    }
  }

  /** Exactly the committed indices have been applied. */
  ghost predicate AppliedInv(s: System)
    requires WF(s)
  {
    forall i :: 0 <= i < s.n ==> |s.nodes[i].applied| == s.nodes[i].commit
  }

  /** A raised commit index lies inside the log, and exactly the entries below it are applied. */
  lemma RaisedInOrder(x: Node, y: Node)
    requires x.Shaped() && y.Shaped() && CommitRaised(x, y)
    requires |x.applied| == x.commit && (y.role == Leader ==> y.term >= 1)
    ensures x.applied <= y.applied && |y.applied| == y.commit <= |y.log|
    ensures y.applied[x.commit..] == y.log[x.commit..y.commit]
    ensures y.role == Leader ==>
              && TermAt(y.log, y.commit) == y.term
              && CountAtLeast(Recorded(y), y.commit) >= y.Quorum()
              && forall k :: k > y.commit ==> CountAtLeast(Recorded(y), k) < y.Quorum()
  {
  }

  lemma LeaderHasTerm(s: System, i: nat)
    requires ElectionInv(s) && i < s.n && s.nodes[i].role == Leader
    ensures s.nodes[i].term >= 1
  {
  }

  lemma OnlyActorMoves(s: System, a: Action, i: nat)
    requires WF(s) && Enabled(s, a) && i < s.n
    ensures WF(Step(s, a)) && Step(s, a).n == s.n
    ensures Step(s, a).nodes[i] == if i == Actor(a) then Effect(s.nodes[i], a).node else s.nodes[i]
  {
    EffectShaped(s.nodes[Actor(a)], a);
  }

  /** What one step of a node owes: the commit index does not fall, and what it newly applies is exactly
      the entries its log holds at the newly committed indices, in order. A leader's new commit index is an
      entry of its own term that a majority of recorded positions reach, and no higher index is reached. */
  ghost predicate AppliesInOrder(x: Node, y: Node)
    requires x.Shaped() && y.Shaped()
  {
    && x.commit <= y.commit && x.applied <= y.applied && |x.applied| == x.commit
    && (x.commit < y.commit ==> y.commit <= |y.log| && y.applied[x.commit..] == y.log[x.commit..y.commit])
    && (x.commit < y.commit && y.role == Leader ==>
          && TermAt(y.log, y.commit) == y.term
          && CountAtLeast(Recorded(y), y.commit) >= y.Quorum()
          && forall k :: k > y.commit ==> CountAtLeast(Recorded(y), k) < y.Quorum())
  }

  lemma ActorAppliesInOrder(s: System, a: Action)
    requires ElectionInv(s) && AppliedInv(s) && Enabled(s, a) && WF(Step(s, a)) && Step(s, a).n == s.n
    ensures var y := Step(s, a).nodes[Actor(a)];
            |y.applied| == y.commit && (!a.Crash? ==> AppliesInOrder(s.nodes[Actor(a)], y))
  {
    var x, y := s.nodes[Actor(a)], Step(s, a).nodes[Actor(a)];
    assert |x.applied| == x.commit;
    ActorRaises(s, a);
    LeaderActor(s, a);
    hide Step, Enabled, ElectionInv, AppliedInv, CommitRaised;
    if CommitRaised(x, y) { RaisedInOrder(x, y); }
  }

  lemma ActorRaises(s: System, a: Action)
    requires WF(s) && Enabled(s, a)
    ensures var x, y := s.nodes[Actor(a)], Step(s, a).nodes[Actor(a)];
            if a.Crash? then y.commit == 0 && y.applied == []
            else CommitRaised(x, y) || (y.commit == x.commit && y.applied == x.applied)
  {
    var x := s.nodes[Actor(a)];
    EffectShaped(x, a);
    EveryApplyEffect(x, a);
    OnlyActorMoves(s, a, Actor(a));
    hide Effect, Step;
  }

  lemma LeaderActor(s: System, a: Action)
    requires ElectionInv(s) && Enabled(s, a)
    ensures var y := Step(s, a).nodes[Actor(a)]; y.role == Leader ==> y.term >= 1
  {
    StepKeepsElectionInv(s, a);
    hide Step;
    if Step(s, a).nodes[Actor(a)].role == Leader { LeaderHasTerm(Step(s, a), Actor(a)); }
  }

  lemma StepAppliesInOrder(s: System, a: Action)
    requires ElectionInv(s) && AppliedInv(s) && Enabled(s, a)
    ensures WF(Step(s, a)) && Step(s, a).n == s.n && AppliedInv(Step(s, a))
    ensures !a.Crash? ==> AppliesInOrder(s.nodes[Actor(a)], Step(s, a).nodes[Actor(a)])
  {
    OnlyActorMoves(s, a, Actor(a));
    ActorAppliesInOrder(s, a);
    var r := Step(s, a);
    forall i | 0 <= i < r.n ensures |r.nodes[i].applied| == r.nodes[i].commit {
      OnlyActorMoves(s, a, i);
    }
    hide Effect, Step, ElectionInv;
  }

  lemma {:induction false} RunAppliesOnce(s: System, run: seq<Action>)
    requires ElectionInv(s) && AppliedInv(s) && ValidRun(s, run)
    ensures AppliedInv(Exec(s, run))
    decreases |run|
  {
    if run != [] {
      StepKeepsElectionInv(s, run[0]);
      StepAppliesInOrder(s, run[0]);
      RunAppliesOnce(Step(s, run[0]), run[1..]);
    }
  }

  /** In every run, a node has applied exactly as many operations as it has committed indices. */
  lemma AppliedExactlyOnce(s: System, run: seq<Action>, i: nat)
    requires Init(s) && ValidRun(s, run) && i < s.n
    ensures |Exec(s, run).nodes[i].applied| == Exec(s, run).nodes[i].commit
  {
    InitElectionInv(s);
    RunAppliesOnce(s, run);
  }
}
