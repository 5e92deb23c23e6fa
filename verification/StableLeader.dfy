/** What PreVote is for: a leader that is heard of is not disturbed, and without one a vote is given to whoever may have
    it. */
module StableLeader {
  import opened RaftNode
  import opened RaftSystem
  import opened ElectionSafety
  import opened LogMatching
  import opened ApplyOnce

  /** A log that ends in this index and term is not behind: it ends in a later term, or in the same and is as long. */
  ghost predicate NotBehind(x: Node, lastIdx: nat, lastTerm: nat) {
    var own := if x.log == [] then 0 else x.log[|x.log| - 1].term;
    lastTerm > own || (lastTerm == own && lastIdx >= |x.log|)
  }

  /** A PreVote is answered without any change, and granted if and only if no leader is known, the term asked for is a
      later one, and the log is not behind. */
  lemma PreVoteGrantedIff(x: Node, m: Message, heard: bool)
    requires x.Shaped() && m.PreVote? && m.src < x.n
    ensures var grant := x.role != Leader && !heard && m.term > x.term && NotBehind(x, m.lastIdx, m.lastTerm);
            Effect(x, Deliver(m, heard)) == Out(x, {PreVoteResp(x.id, m.src, x.term, grant)})
  {
  }

  /** A vote is given if and only if the candidate's term is not behind, its log is not behind, and the voter has not
      voted for another in that term; then it is recorded, and it stays recorded in that term. */
  lemma VoteGrantedIff(x: Node, m: Message, heard: bool)
    requires x.Shaped() && m.VoteReq? && m.src < x.n
    ensures var y := Effect(x, Deliver(m, heard)).node;
            && (VoteResp(x.id, m.src, y.term, true) in Effect(x, Deliver(m, heard)).msgs <==>
                  && m.term >= x.term && NotBehind(x, m.lastIdx, m.lastTerm)
                  && (m.term > x.term || x.votedFor == -1 || x.votedFor == m.src))
            && (VoteResp(x.id, m.src, y.term, true) in Effect(x, Deliver(m, heard)).msgs ==>
                  y.term == m.term && y.votedFor == m.src)
            && y.term == Max(x.term, m.term) && y.log == x.log && y.commit == x.commit
            && (x.votedFor != -1 && m.term <= x.term ==> y.votedFor == x.votedFor)
  {
  }

  /** Hearing from a leader of its term or a later one ends a node's own poll: a grant that comes in afterwards changes
      nothing. */
  lemma AppendEndsPoll(x: Node, m: Message, grant: Message, heard: bool)
    requires x.Shaped() && m.Append? && m.src < x.n && m.term >= x.term
    requires grant.PreVoteResp? && grant.src < x.n && grant.term <= m.term
    ensures var y := Effect(x, Deliver(m, heard)).node;
            && y.Shaped() && y.role == Follower && y.term == m.term && Effect(y, Deliver(grant, heard)) == Out(y, {})
  {
    hide TermAt, Pending;
  }

  // ---- frames are not ahead of their senders ----

  ghost predicate FramesBehind(s: System)
    requires WF(s)
  {
    forall m :: m in s.net ==> m.src < s.n && (m.PreVote? || m.term <= s.nodes[m.src].term)
  }

  /** A term never falls, and no frame but a PreVote names a later one. */
  ghost predicate Honest(x: Node, o: Out) {
    o.node.term >= x.term && forall f :: f in o.msgs ==> f.src == x.id && (f.PreVote? || f.term <= o.node.term)
  }

  lemma LocalHonest(x: Node, a: Action)
    requires x.Shaped() && !a.Deliver? && (a.Replicate? || a.Reconnect? ==> a.j < x.n)
    requires a.Crash? ==> a.keep <= |x.log|
    ensures Honest(x, Effect(x, a))
  {
    match a {
      case Timeout(_) =>
      case ClientAppend(_, _, _) =>
      case Replicate(_, _) =>
      case Flush(_) =>
      case Fsync(_) =>
      case Reconnect(_, _) =>
      case Crash(_, _) =>
    }
  }

  lemma DeliveryHonest(x: Node, m: Message, heard: bool)
    requires x.Shaped() && m.src < x.n
    ensures Honest(x, Effect(x, Deliver(m, heard)))
  {
    hide TermAt, Pending, QuorumCommit.QuorumIndex;
    match m {
      case PreVote(_, _, _, _, _) =>
      case PreVoteResp(_, _, _, _) =>
      case VoteReq(_, _, _, _, _) =>
      case VoteResp(_, _, _, _) =>
      case Append(_, _, _, _, _, _, _) =>
      case AppendResp(_, _, _, _, _, _) =>
    }
  }

  lemma ActorHonest(s: System, a: Action)
    requires WF(s) && Enabled(s, a)
    ensures Honest(s.nodes[Actor(a)], Effect(s.nodes[Actor(a)], a))
  {
    hide Effect, Honest;
    if a.Deliver? {
      DeliveryHonest(s.nodes[Actor(a)], a.m, a.heardLeader);
    } else {
      LocalHonest(s.nodes[Actor(a)], a);
    }
  }

  lemma StepNet(s: System, a: Action)
    requires WF(s) && Enabled(s, a)
    ensures WF(Step(s, a)) && Step(s, a).n == s.n
    ensures Step(s, a).net == s.net - Used(a) + Effect(s.nodes[Actor(a)], a).msgs
  {
    EffectShaped(s.nodes[Actor(a)], a);
  }

  lemma StepFramesBehind(s: System, a: Action)
    requires WF(s) && FramesBehind(s) && Enabled(s, a)
    ensures FramesBehind(Step(s, a))
  {
    ActorHonest(s, a);
    StepNet(s, a);
    var r, i := Step(s, a), Actor(a);
    hide Effect, Step, Enabled;
    forall j | 0 <= j < s.n ensures r.nodes[j].term >= s.nodes[j].term { OnlyActorMoves(s, a, j); }
    OnlyActorMoves(s, a, i);
  }

  lemma {:induction false} RunFramesBehind(s: System, run: seq<Action>)
    requires WF(s) && FramesBehind(s) && ValidRun(s, run)
    ensures FramesBehind(Exec(s, run))
    decreases |run|
  {
    hide FramesBehind, Step, Enabled, WF;
    if run != [] {
      StepFramesBehind(s, run[0]);
      RunFramesBehind(Step(s, run[0]), run[1..]);
    }
  }

  // ---- a leader that is heard of stays ----

  /** Node `l` leads and nobody is ahead of it. */
  ghost predicate Leads(s: System, l: nat) {
    && WF(s) && l < s.n && s.nodes[l].role == Leader
    && forall i :: 0 <= i < s.n ==> s.nodes[i].term <= s.nodes[l].term
  }

  ghost predicate PreVoteGrant(m: Message) {
    m.PreVoteResp? && m.granted
  }

  /** No grant of a PreVote is in flight but for old ones. */
  ghost predicate NoNewGrants(s: System, stale: set<Message>) {
    forall m :: m in s.net && PreVoteGrant(m) ==> m in stale
  }

  /** PreVotes find a leader, or a node that has heard from one; old grants do not come in again; and node `l` does not
      crash. */
  ghost predicate Heeds(s: System, a: Action, l: nat, stale: set<Message>)
    requires WF(s) && Enabled(s, a)
  {
    && (a.Deliver? && a.m.PreVote? ==> a.heardLeader || s.nodes[a.m.dst].role == Leader)
    && (a.Deliver? ==> a.m !in stale)
    && !(a.Crash? && a.i == l)
  }

  ghost predicate HeedsAll(s: System, run: seq<Action>, l: nat, stale: set<Message>)
    requires WF(s) && ValidRun(s, run)
    decreases |run|
  {
    run == [] || (Heeds(s, run[0], l, stale) && HeedsAll(Step(s, run[0]), run[1..], l, stale))
  }

  /** What such a step does to its node: no new term but one already in flight, and no grant of a PreVote. */
  ghost predicate CalmEffect(o: Out, t: nat) {
    o.node.term <= t && forall f :: f in o.msgs ==> !PreVoteGrant(f)
  }

  lemma CalmLocal(x: Node, a: Action, t: nat)
    requires x.Shaped() && x.term <= t && !a.Deliver? && (a.Replicate? || a.Reconnect? ==> a.j < x.n)
    requires (a.Crash? ==> a.keep <= |x.log|) && (a.Timeout? ==> x.n >= 2)
    ensures CalmEffect(Effect(x, a), t)
    ensures !a.Crash? && !a.Timeout? ==> Effect(x, a).node.role == x.role && Effect(x, a).node.term == x.term
  {
    match a {
      case Timeout(_) =>
      case ClientAppend(_, _, _) =>
      case Replicate(_, _) =>
      case Flush(_) =>
      case Fsync(_) =>
      case Reconnect(_, _) =>
      case Crash(_, _) =>
    }
  }

  lemma CalmBallot(x: Node, m: Message, heard: bool, t: nat)
    requires x.Shaped() && x.term <= t && m.src < x.n && (m.PreVote? || m.term <= t) && !m.Append? && !m.AppendResp?
    requires !PreVoteGrant(m) && (m.PreVote? ==> heard || x.role == Leader)
    ensures CalmEffect(Effect(x, Deliver(m, heard)), t)
    ensures x.role == Leader && x.term == t ==>
              Effect(x, Deliver(m, heard)).node.role == Leader && Effect(x, Deliver(m, heard)).node.term == t
  {
    match m {
      case PreVote(_, _, _, _, _) =>
      case PreVoteResp(_, _, _, _) =>
      case VoteReq(_, _, _, _, _) =>
      case VoteResp(_, _, _, _) =>
    }
  }

  lemma CalmAppend(x: Node, m: Message, heard: bool, t: nat)
    requires x.Shaped() && x.term <= t && m.src < x.n && m.term <= t && m.Append?
    ensures CalmEffect(Effect(x, Deliver(m, heard)), t)
    ensures x.role == Leader && m.term < x.term ==>
              Effect(x, Deliver(m, heard)).node.role == Leader && Effect(x, Deliver(m, heard)).node.term == x.term
  {
    hide TermAt, Pending;
  }

  lemma CalmAnswer(x: Node, m: Message, heard: bool, t: nat)
    requires x.Shaped() && x.term <= t && m.src < x.n && m.term <= t && m.AppendResp?
    ensures CalmEffect(Effect(x, Deliver(m, heard)), t)
    ensures x.role == Leader && m.term <= x.term ==>
              Effect(x, Deliver(m, heard)).node.role == Leader && Effect(x, Deliver(m, heard)).node.term == x.term
  {
    hide Pending, QuorumCommit.QuorumIndex;
  }

  /** Only the leader itself sends entries in its term. */
  lemma NoRival(s: System, m: Message, l: nat)
    requires LogInv(s) && l < s.n && s.nodes[l].role == Leader && m in s.net && m.Append? && m.src != l
    ensures m.term != s.nodes[l].term
  {
    assert FrameOf(s, m);
  }

  /** A frame that comes in is not ahead, grants nothing, and is not a rival's. */
  lemma FrameIsCalm(s: System, a: Action, l: nat, stale: set<Message>)
    requires LogInv(s) && FramesBehind(s) && Leads(s, l) && NoNewGrants(s, stale) && Enabled(s, a) && a.Deliver?
    requires Heeds(s, a, l, stale)
    ensures var x, t := s.nodes[a.m.dst], s.nodes[l].term;
            && x.Shaped() && x.term <= t && a.m.src < x.n && !PreVoteGrant(a.m) && (a.m.PreVote? || a.m.term <= t)
            && (a.m.PreVote? ==> a.heardLeader || x.role == Leader) && (a.m.Append? && a.m.dst == l ==> a.m.term < t)
  {
    if a.m.Append? && a.m.dst == l { NoRival(s, a.m, l); }
    hide LogInv;
  }

  lemma ActorCalm(s: System, a: Action, l: nat, stale: set<Message>)
    requires LogInv(s) && FramesBehind(s) && Leads(s, l) && NoNewGrants(s, stale) && Enabled(s, a)
    requires Heeds(s, a, l, stale)
    ensures var x, t := s.nodes[Actor(a)], s.nodes[l].term;
            && CalmEffect(Effect(x, a), t)
            && (Actor(a) == l ==> Effect(x, a).node.role == Leader && Effect(x, a).node.term == t)
  {
    var x, t := s.nodes[Actor(a)], s.nodes[l].term;
    hide Effect, CalmEffect, LogInv, PreVoteGrant, FramesBehind, NoNewGrants;
    if a.Deliver? {
      FrameIsCalm(s, a, l, stale);
      hide Leads, Heeds, Enabled;
      if a.m.Append? {
        CalmAppend(x, a.m, a.heardLeader, t);
      } else if a.m.AppendResp? {
        CalmAnswer(x, a.m, a.heardLeader, t);
      } else {
        CalmBallot(x, a.m, a.heardLeader, t);
      }
      LeadsAt(s, l);
    } else {
      CalmLocal(x, a, t);
    }
  }

  lemma LeadsAt(s: System, l: nat)
    requires Leads(s, l)
    ensures WF(s) && l < s.n && s.nodes[l].role == Leader
  {
  }

  lemma GrantsCalm(s: System, a: Action, t: nat, stale: set<Message>)
    requires WF(s) && Enabled(s, a) && CalmEffect(Effect(s.nodes[Actor(a)], a), t) && NoNewGrants(s, stale)
    ensures NoNewGrants(Step(s, a), stale)
  {
    StepNet(s, a);
    hide Effect, Enabled, Step, PreVoteGrant;
  }

  lemma TermsCalm(s: System, a: Action, t: nat, i: nat)
    requires WF(s) && Enabled(s, a) && CalmEffect(Effect(s.nodes[Actor(a)], a), t)
    requires i < s.n && s.nodes[i].term <= t
    ensures WF(Step(s, a)) && Step(s, a).n == s.n && Step(s, a).nodes[i].term <= t
  {
    hide Effect, Enabled;
    OnlyActorMoves(s, a, i);
  }

  lemma StepCalm(s: System, a: Action, l: nat, stale: set<Message>)
    requires LogInv(s) && FramesBehind(s) && Leads(s, l) && NoNewGrants(s, stale) && Enabled(s, a)
    requires Heeds(s, a, l, stale)
    ensures Leads(Step(s, a), l) && NoNewGrants(Step(s, a), stale) && Step(s, a).nodes[l].term == s.nodes[l].term
  {
    ActorCalm(s, a, l, stale);
    OnlyActorMoves(s, a, l);
    hide Effect, LogInv, Heeds, CalmEffect, Step, Enabled, WF, NoNewGrants, FramesBehind;
    var t := s.nodes[l].term;
    GrantsCalm(s, a, t, stale);
    forall i | 0 <= i < s.n ensures Step(s, a).nodes[i].term <= t { TermsCalm(s, a, t, i); }
  }

  lemma {:induction false} RunCalm(s: System, run: seq<Action>, l: nat, stale: set<Message>)
    requires LogInv(s) && FramesBehind(s) && Leads(s, l) && NoNewGrants(s, stale)
    requires ValidRun(s, run) && HeedsAll(s, run, l, stale)
    ensures Leads(Exec(s, run), l) && NoNewGrants(Exec(s, run), stale) && Exec(s, run).nodes[l].term == s.nodes[l].term
    decreases |run|
  {
    hide LogInv, FramesBehind, NoNewGrants, Step, Enabled, Heeds, WF;
    if run != [] {
      StepCalm(s, run[0], l, stale);
      StepKeepsLogInv(s, run[0]);
      StepFramesBehind(s, run[0]);
      hide Leads;
      RunCalm(Step(s, run[0]), run[1..], l, stale);
    }
  }

  /** In every run: once node `l` leads with nobody ahead of it, then through any continuation in which it does not
      crash, PreVotes find nodes that know a leader and the grants of earlier PreVotes do not come in, whatever else
      times out, is lost, reordered, repeated or restarted, it goes on leading in the same term, nobody gets ahead of
      it, and no PreVote is granted. */
  lemma LeaderStays(s: System, run: seq<Action>, more: seq<Action>, l: nat, stale: set<Message>, i: nat)
    requires Init(s) && ValidRun(s, run) && Leads(Exec(s, run), l) && NoNewGrants(Exec(s, run), stale)
    requires ValidRun(Exec(s, run), more) && HeedsAll(Exec(s, run), more, l, stale) && i < s.n
    ensures var e, r := Exec(s, run), Exec(Exec(s, run), more);
            && r.nodes[l].role == Leader && r.nodes[l].term == e.nodes[l].term && r.nodes[i].term <= r.nodes[l].term
            && (r.nodes[i].role == Leader && r.nodes[i].term == r.nodes[l].term ==> i == l)
            && NoNewGrants(r, stale)
  {
    InitLogInv(s);
    assert FramesBehind(s);
    RunKeepsLogInv(s, run);
    RunFramesBehind(s, run);
    var e := Exec(s, run);
    RunCalm(e, more, l, stale);
    RunKeepsLogInv(e, more);
    var r := Exec(e, more);
    assert LeadersElected(r);
    hide Exec, ValidRun, HeedsAll, LogInv;
  }
}
