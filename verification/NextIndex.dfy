/** A leader's next indices, in every run: each is at least 1. */
module NextIndex {
  import opened RaftNode
  import opened RaftSystem
  import ApplyOnce

  ghost predicate NextOk(x: Node)
    requires x.Shaped()
  {
    x.role == Leader ==> forall j :: 0 <= j < x.n ==> x.next[j] >= 1
  }

  lemma DeliveryNextOk(x: Node, m: Message, heardLeader: bool)
    requires x.Shaped() && m.src < x.n && NextOk(x) && SameNode(x, Dispatch(x, m, heardLeader).node)
    ensures NextOk(Dispatch(x, m, heardLeader).node)
  {
    hide AdvanceCommit, TakeEntries;
    match m {
      case PreVote(_, _, _, _, _) =>
      case PreVoteResp(_, _, _, _) =>
      case VoteReq(_, _, _, _, _) =>
      case VoteResp(_, _, _, _) =>
      case Append(_, _, _, _, _, _, _) => FollowsOnAppend(x, m);
      case AppendResp(_, _, _, _, _, _) =>
        if m.term <= x.term && x.role == Leader && m.success {
          AdvanceKeepsNext(x.(peerDurable := x.peerDurable[m.src := m.durable],
                              matched := x.matched[m.src := Max(x.matched[m.src], m.hint)]));
        }
    }
  }

  lemma FollowsOnAppend(x: Node, m: Message)
    requires m.Append? && x.Shaped()
    ensures var y := OnAppend(x, m).node;
            y.role == Leader ==> y == x
  {
  }

  lemma AdvanceKeepsNext(s: Node)
    requires s.Shaped()
    ensures var r := AdvanceCommit(s);
            r.next == s.next && r.log == s.log && r.role == s.role && r.n == s.n
  {
  }

  lemma EveryNextOk(x: Node, a: Action)
    requires x.Shaped() && NextOk(x)
    requires a.Deliver? ==> a.m.src < x.n
    requires a.Replicate? || a.Reconnect? ==> a.j < x.n
    requires a.Crash? ==> a.keep <= |x.log|
    requires a.Flush? || a.Replicate? ==> x.role == Leader
    requires SameNode(x, Effect(x, a).node)
    ensures NextOk(Effect(x, a).node)
  {
    hide AdvanceCommit;
    match a {
      case Deliver(m, heardLeader) => DeliveryNextOk(x, m, heardLeader);
      case Timeout(_) =>
      case ClientAppend(_, _, _) =>
      case Replicate(_, _) =>
      case Flush(_) => AdvanceKeepsNext(x);
      case Fsync(_) => AdvanceKeepsNext(x.(durable := |x.log|));
      case Reconnect(_, _) =>
      case Crash(_, _) =>
    }
  }

  ghost predicate AllNextOk(s: System)
    requires WF(s)
  {
    forall i :: 0 <= i < s.n ==> NextOk(s.nodes[i])
  }

  lemma StepKeepsNextOk(s: System, a: Action)
    requires WF(s) && AllNextOk(s) && Enabled(s, a)
    ensures WF(Step(s, a)) && Step(s, a).n == s.n && AllNextOk(Step(s, a))
  {
    hide Effect, Step, NextOk;
    EffectShaped(s.nodes[Actor(a)], a);
    ApplyOnce.OnlyActorMoves(s, a, Actor(a));
    EveryNextOk(s.nodes[Actor(a)], a);
    forall i | 0 <= i < s.n ensures NextOk(Step(s, a).nodes[i]) {
      ApplyOnce.OnlyActorMoves(s, a, i);
    }
  }

  /** In every run. */
  lemma {:induction false} RunKeepsNextOk(s: System, run: seq<Action>)
    requires WF(s) && ValidRun(s, run) && AllNextOk(s)
    ensures AllNextOk(Exec(s, run))
    decreases |run|
  {
    hide Step, AllNextOk;
    if run != [] {
      StepKeepsNextOk(s, run[0]);
      RunKeepsNextOk(Step(s, run[0]), run[1..]);
    }
  }
}
