/** Election Safety: in every run, no term ever has two leaders. */
module ElectionSafety {
  import opened QuorumCommit
  import opened RaftNode
  import opened RaftSystem

  // ----- the invariant -----

  /** Every vote is recorded once per term, and never ahead of the voter's term. */
  ghost predicate VotesRecorded(s: System)
    requires WF(s)
  {
    && (forall i :: 0 <= i < s.n ==>
          var x := s.nodes[i];
          if x.votedFor < 0 then (i, x.term) !in s.h.votes
          else (i, x.term) in s.h.votes && s.h.votes[(i, x.term)] == x.votedFor)
    && (forall v, t :: (v, t) in s.h.votes ==> v < s.n && t <= s.nodes[v].term)
  }

  ghost predicate VotedFor(s: System, v: nat, t: nat, c: nat) {
    (v, t) in s.h.votes && s.h.votes[(v, t)] == c
  }

  /** The counter of a candidate counts distinct nodes, each of which voted for it. */
  ghost predicate CountersHonest(s: System)
    requires WF(s)
  {
    && (forall i :: 0 <= i < s.n && s.nodes[i].role == Candidate ==>
          |s.h.grantors[i]| == s.nodes[i].votes && s.nodes[i].votedFor == i && s.nodes[i].term >= 1)
    && (forall i, g :: 0 <= i < s.n && s.nodes[i].role == Candidate && g in s.h.grantors[i] ==>
          g < s.n && VotedFor(s, g, s.nodes[i].term, i))
  }

  ghost predicate GrantInFlight(s: System, m: Message)
    requires WF(s)
  {
    && m.src < s.n && m.dst < s.n && m.src != m.dst
    && VotedFor(s, m.src, m.term, m.dst)
    && m.term <= s.nodes[m.dst].term
    && (m.term == s.nodes[m.dst].term ==> m.src !in s.h.grantors[m.dst])
  }

  ghost predicate RequestInFlight(s: System, m: Message)
    requires WF(s)
  {
    && m.src < s.n && m.dst < s.n && m.src != m.dst
    && m.term <= s.nodes[m.src].term
    && (m.term == s.nodes[m.src].term ==> m.dst !in s.h.grantors[m.src])
  }

  ghost predicate BallotsHonest(s: System)
    requires WF(s)
  {
    && (forall m :: m in s.net && m.VoteResp? && m.granted ==> GrantInFlight(s, m))
    && (forall m :: m in s.net && m.VoteReq? ==> RequestInFlight(s, m))
  }

  /** A voter is asked by a candidate once per term, and answers once. */
  ghost predicate BallotsUnique(s: System) {
    && (forall a, b | a in s.net && b in s.net && a.VoteReq? && b.VoteReq? ::
          a.src == b.src && a.dst == b.dst && a.term == b.term ==> a == b)
    && (forall a, b | a in s.net && b in s.net && a.VoteReq? && b.VoteResp? && b.granted ::
          a.src == b.dst && a.dst == b.src ==> a.term != b.term)
  }

  ghost predicate Elected(s: System, t: nat)
    requires WF(s)
  {
    && t >= 1 && t in s.h.leaderOf && t in s.h.electors
    && s.h.leaderOf[t] < s.n
    && |s.h.electors[t]| >= s.n / 2 + 1
    && (forall g :: g in s.h.electors[t] ==> g < s.n && VotedFor(s, g, t, s.h.leaderOf[t]))
  }

  ghost predicate LeadersElected(s: System)
    requires WF(s)
  {
    && (forall t :: t in s.h.leaderOf ==> Elected(s, t))
    && (forall t :: t in s.h.leaderOf ==>
          var x := s.nodes[s.h.leaderOf[t]];
          t <= x.term && (t == x.term ==> x.role != Candidate))
    && (forall i :: 0 <= i < s.n && s.nodes[i].role == Leader ==>
          s.nodes[i].term in s.h.leaderOf && s.h.leaderOf[s.nodes[i].term] == i)
  }

  ghost predicate ElectionInv(s: System) {
    && WF(s)
    && VotesRecorded(s) && CountersHonest(s) && BallotsHonest(s) && BallotsUnique(s) && LeadersElected(s)
  }

  // ----- quorum intersection -----

  lemma {:induction false} BoundedCardinality(a: set<nat>, n: nat)
    requires forall x :: x in a ==> x < n
    ensures |a| <= n
  {
    if n == 0 {
      assert a == {} by {
        if x :| x in a { assert false; }
      }
    } else {
      BoundedCardinality(a - {n - 1}, n - 1);
      assert |a| <= |a - {n - 1}| + 1 by {
        if n - 1 in a { assert a == (a - {n - 1}) + {n - 1}; } else { assert a == a - {n - 1}; }
      }
    }
  }

  lemma QuorumsMeet(a: set<nat>, b: set<nat>, n: nat) returns (v: nat)
    requires forall x :: x in a ==> x < n
    requires forall x :: x in b ==> x < n
    requires |a| >= n / 2 + 1 && |b| >= n / 2 + 1
    ensures v in a && v in b
  {
    BoundedCardinality(a + b, n);
    assert |a + b| == |a| + |b| - |a * b|;
    assert a * b != {};
    v :| v in a * b;
  }

  // ----- the kinds of step, as far as elections are concerned -----

  /** `r` differs from `s` in node `i` only. */
  ghost predicate OnlyNode(s: System, r: System, i: nat) {
    && WF(s) && WF(r) && r.n == s.n && i < s.n
    && (forall j :: 0 <= j < s.n && j != i ==> r.nodes[j] == s.nodes[j])
  }

  ghost predicate NoNewBallots(s: System, r: System) {
    forall m :: m in r.net && Once(m) ==> m in s.net
  }

  ghost predicate SameLeaders(s: System, r: System) {
    r.h.leaderOf == s.h.leaderOf && r.h.electors == s.h.electors
  }

  /** Node `i` takes office in its term if it is leader now. */
  ghost predicate TakesOffice(s: System, r: System, i: nat)
    requires OnlyNode(s, r, i)
  {
    var y := r.nodes[i];
    if y.role == Leader
    then r.h.leaderOf == s.h.leaderOf[y.term := i] && r.h.electors == s.h.electors[y.term := r.h.grantors[i]]
    else SameLeaders(s, r)
  }

  /** Term and vote untouched; a candidate or leader may only stay one, with its counter, or fall back. */
  ghost predicate QuietStep(s: System, r: System, i: nat) {
    && OnlyNode(s, r, i) && NoNewBallots(s, r) && SameLeaders(s, r)
    && r.h.votes == s.h.votes && r.h.grantors == s.h.grantors
    && var x, y := s.nodes[i], r.nodes[i];
       y.term == x.term && y.votedFor == x.votedFor
       && (y.role == Follower || (y.role == x.role && y.votes == x.votes))
  }

  ghost predicate StepDownStep(s: System, r: System, i: nat) {
    && OnlyNode(s, r, i) && NoNewBallots(s, r) && SameLeaders(s, r)
    && r.h.votes == s.h.votes && r.h.grantors == s.h.grantors[i := {}]
    && var x, y := s.nodes[i], r.nodes[i];
       y.term > x.term && y.votedFor == -1 && y.role == Follower
  }

  ghost predicate GrantStep(s: System, r: System, i: nat, m: Message) {
    && OnlyNode(s, r, i) && SameLeaders(s, r)
    && m.VoteReq? && m in s.net && m.dst == i
    && r.net == s.net - {m} + {VoteResp(i, m.src, m.term, true)}
    && r.h.votes == s.h.votes[(i, m.term) := m.src]
    && var x, y := s.nodes[i], r.nodes[i];
       y.term == m.term && y.votedFor == m.src
       && (if m.term > x.term then y.role == Follower && r.h.grantors == s.h.grantors[i := {}]
           else m.term == x.term && y.role == x.role && y.votes == x.votes && r.h.grantors == s.h.grantors
                && (x.votedFor == -1 || x.votedFor == m.src))
  }

  ghost predicate RunStep(s: System, r: System, i: nat) {
    && OnlyNode(s, r, i) && TakesOffice(s, r, i)
    && (forall m :: m in r.net && Once(m) && m !in s.net ==>
          m.VoteReq? && m.src == i && m.dst < s.n && m.dst != i && m.term == r.nodes[i].term
          && m.lastIdx == |s.nodes[i].log| && m.lastTerm == LastTerm(s.nodes[i].log))
    && r.h.votes == s.h.votes[(i, r.nodes[i].term) := i] && r.h.grantors == s.h.grantors[i := {i}]
    && var x, y := s.nodes[i], r.nodes[i];
       y.term == x.term + 1 && y.votedFor == i && y.votes == 1
       && y.role == (if 1 >= s.n / 2 + 1 then Leader else Candidate)
  }

  ghost predicate CountStep(s: System, r: System, i: nat, m: Message) {
    && OnlyNode(s, r, i) && TakesOffice(s, r, i)
    && m.VoteResp? && m.granted && m in s.net && m.dst == i && r.net == s.net - {m}
    && r.h.votes == s.h.votes && r.h.grantors == s.h.grantors[i := s.h.grantors[i] + {m.src}]
    && var x, y := s.nodes[i], r.nodes[i];
       x.role == Candidate && m.term == x.term
       && y.term == x.term && y.votedFor == x.votedFor && y.votes == x.votes + 1
       && y.role == (if x.votes + 1 >= s.n / 2 + 1 then Leader else Candidate)
  }

  // ----- each kind keeps the invariant -----

  lemma QuietKeepsVotes(s: System, r: System, i: nat)
    requires WF(s) && VotesRecorded(s) && CountersHonest(s) && QuietStep(s, r, i)
    ensures VotesRecorded(r) && CountersHonest(r)
  {}

  lemma QuietKeepsBallots(s: System, r: System, i: nat)
    requires WF(s) && BallotsHonest(s) && BallotsUnique(s) && QuietStep(s, r, i)
    ensures BallotsHonest(r) && BallotsUnique(r)
  {}

  lemma QuietKeepsLeaders(s: System, r: System, i: nat)
    requires WF(s) && LeadersElected(s) && QuietStep(s, r, i)
    ensures LeadersElected(r)
  {}

  lemma StepDownKeepsVotes(s: System, r: System, i: nat)
    requires WF(s) && VotesRecorded(s) && CountersHonest(s) && StepDownStep(s, r, i)
    ensures VotesRecorded(r) && CountersHonest(r)
  {}

  lemma StepDownKeepsBallots(s: System, r: System, i: nat)
    requires WF(s) && BallotsHonest(s) && BallotsUnique(s) && StepDownStep(s, r, i)
    ensures BallotsHonest(r) && BallotsUnique(r)
  {}

  lemma StepDownKeepsLeaders(s: System, r: System, i: nat)
    requires WF(s) && LeadersElected(s) && StepDownStep(s, r, i)
    ensures LeadersElected(r)
  {}

  lemma VotesOnlyGrow(s: System, r: System, i: nat, t: nat, c: nat)
    requires WF(s) && i < s.n && r.h.votes == s.h.votes[(i, t) := c]
    requires (i, t) in s.h.votes ==> s.h.votes[(i, t)] == c
    ensures forall v, u, d :: VotedFor(s, v, u, d) ==> VotedFor(r, v, u, d)
  {}

  lemma GrantKeepsVotes(s: System, r: System, i: nat, m: Message)
    requires WF(s) && VotesRecorded(s) && CountersHonest(s) && GrantStep(s, r, i, m)
    ensures (i, m.term) in s.h.votes ==> s.h.votes[(i, m.term)] == m.src
    ensures VotesRecorded(r) && CountersHonest(r)
  {
    VotesOnlyGrow(s, r, i, m.term, m.src);
  }

  lemma GrantKeepsBallotsHonest(s: System, r: System, i: nat, m: Message)
    requires WF(s) && VotesRecorded(s) && CountersHonest(s) && BallotsHonest(s) && GrantStep(s, r, i, m)
    ensures BallotsHonest(r)
  {
    GrantKeepsVotes(s, r, i, m);
    VotesOnlyGrow(s, r, i, m.term, m.src);
    assert RequestInFlight(s, m);
    forall b | b in r.net && b.VoteResp? && b.granted
      ensures GrantInFlight(r, b)
    {
      assert b in s.net || b == VoteResp(i, m.src, m.term, true);
    }
  }

  lemma GrantKeepsBallotsUnique(s: System, r: System, i: nat, m: Message)
    requires WF(s) && BallotsUnique(s) && GrantStep(s, r, i, m)
    ensures BallotsUnique(r)
  {
    assert forall a :: a in r.net && a.VoteReq? ==> a in s.net && a != m;
    assert forall b :: b in r.net && b.VoteResp? && b.granted ==> b in s.net || b == VoteResp(i, m.src, m.term, true);
  }

  lemma GrantKeepsLeaders(s: System, r: System, i: nat, m: Message)
    requires WF(s) && VotesRecorded(s) && CountersHonest(s) && LeadersElected(s) && GrantStep(s, r, i, m)
    ensures LeadersElected(r)
  {
    hide VotesRecorded, CountersHonest;
    GrantKeepsVotes(s, r, i, m);
    VotesOnlyGrow(s, r, i, m.term, m.src);
  }

  lemma RunKeepsVotes(s: System, r: System, i: nat)
    requires WF(s) && VotesRecorded(s) && CountersHonest(s) && RunStep(s, r, i)
    ensures VotesRecorded(r) && CountersHonest(r)
  {
    VotesOnlyGrow(s, r, i, r.nodes[i].term, i);
  }

  lemma RunKeepsBallots(s: System, r: System, i: nat)
    requires WF(s) && VotesRecorded(s) && BallotsHonest(s) && BallotsUnique(s) && RunStep(s, r, i)
    ensures BallotsHonest(r) && BallotsUnique(r)
  {
    VotesOnlyGrow(s, r, i, r.nodes[i].term, i);
  }

  lemma RunKeepsLeaders(s: System, r: System, i: nat)
    requires WF(s) && VotesRecorded(s) && LeadersElected(s) && RunStep(s, r, i)
    requires r.nodes[i].role == Leader ==> r.nodes[i].term !in s.h.leaderOf
    ensures LeadersElected(r)
  {
    VotesOnlyGrow(s, r, i, r.nodes[i].term, i);
    forall t | t in r.h.leaderOf
      ensures Elected(r, t)
    {
      assert t in s.h.leaderOf ==> Elected(s, t);
    }
  }

  /** A lone node elects itself in a term nobody has led. */
  lemma RunsInVacantTerm(s: System, r: System, i: nat)
    requires WF(s) && LeadersElected(s) && RunStep(s, r, i) && r.nodes[i].role == Leader
    ensures r.nodes[i].term !in s.h.leaderOf
  {
    assert r.nodes[i].term in s.h.leaderOf ==> Elected(s, r.nodes[i].term);
  }

  /** The counted grant comes from a node not counted before. */
  lemma CountGrantors(s: System, r: System, i: nat, m: Message)
    requires WF(s) && CountersHonest(s) && BallotsHonest(s) && CountStep(s, r, i, m)
    ensures |r.h.grantors[i]| == r.nodes[i].votes
    ensures forall g :: g in r.h.grantors[i] ==> g < s.n && VotedFor(r, g, r.nodes[i].term, i)
  {
    assert GrantInFlight(s, m);
    assert m.src !in s.h.grantors[i];
  }

  lemma CountKeepsVotes(s: System, r: System, i: nat, m: Message)
    requires WF(s) && VotesRecorded(s) && CountersHonest(s) && CountStep(s, r, i, m)
    requires |r.h.grantors[i]| == r.nodes[i].votes
    requires forall g :: g in r.h.grantors[i] ==> g < s.n && VotedFor(r, g, r.nodes[i].term, i)
    ensures VotesRecorded(r) && CountersHonest(r)
  {
    forall j, g | 0 <= j < s.n && r.nodes[j].role == Candidate && g in r.h.grantors[j]
      ensures g < s.n && VotedFor(r, g, r.nodes[j].term, j)
    {
      assert j != i ==> g in s.h.grantors[j] && VotedFor(s, g, s.nodes[j].term, j);
    }
  }

  lemma CountKeepsBallots(s: System, r: System, i: nat, m: Message)
    requires WF(s) && BallotsHonest(s) && BallotsUnique(s) && CountStep(s, r, i, m)
    ensures BallotsHonest(r) && BallotsUnique(r)
  {
    assert GrantInFlight(s, m);
  }

  /** A node that collects a majority is the first to do so in its term. */
  lemma WinsVacantTerm(s: System, r: System, i: nat, m: Message)
    requires WF(s) && VotesRecorded(s) && CountersHonest(s) && BallotsHonest(s) && LeadersElected(s)
             && CountStep(s, r, i, m) && r.nodes[i].role == Leader
    ensures r.nodes[i].term !in s.h.leaderOf
  {
    var t := r.nodes[i].term;
    CountGrantors(s, r, i, m);
    if t in s.h.leaderOf {
      assert Elected(s, t);
      var v := QuorumsMeet(s.h.electors[t], r.h.grantors[i], s.n);
      assert false;
    }
  }

  lemma CountKeepsLeaders(s: System, r: System, i: nat, m: Message)
    requires WF(s) && LeadersElected(s) && CountStep(s, r, i, m)
    requires |r.h.grantors[i]| == r.nodes[i].votes && r.nodes[i].term >= 1
    requires forall g :: g in r.h.grantors[i] ==> g < s.n && VotedFor(r, g, r.nodes[i].term, i)
    requires r.nodes[i].role == Leader ==> r.nodes[i].term !in s.h.leaderOf
    ensures LeadersElected(r)
  {
    forall t | t in r.h.leaderOf
      ensures Elected(r, t)
    {
      assert t in s.h.leaderOf ==> Elected(s, t);
    }
  }

  // ----- every step is of one of these kinds -----

  ghost predicate ElectionStep(s: System, r: System, i: nat, m: Message) {
    || QuietStep(s, r, i) || StepDownStep(s, r, i) || RunStep(s, r, i)
    || GrantStep(s, r, i, m) || CountStep(s, r, i, m)
  }

  /** What a handler may do to the election fields, and the ballots it may send. */
  ghost predicate ElectionEffect(x: Node, o: Out, a: Action) {
    var y := o.node;
    || (y.term == x.term && y.votedFor == x.votedFor && Counted(x, a) == {} && NoBallots(o.msgs)
        && (y.role == Follower || (y.role == x.role && y.votes == x.votes)))
    || (y.term > x.term && y.votedFor == -1 && y.role == Follower && NoBallots(o.msgs))
    || (y.term == x.term + 1 && y.votedFor == x.id && y.votes == 1 && Used(a) == {} && Ballots(x, y, o.msgs)
        && y.role == (if 1 >= x.n / 2 + 1 then Leader else Candidate))
    || (a.Deliver? && a.m.VoteReq? && y.term == a.m.term && y.votedFor == a.m.src
        && o.msgs == {VoteResp(x.id, a.m.src, a.m.term, true)}
        && (if a.m.term > x.term then y.role == Follower
            else a.m.term == x.term && y.role == x.role && y.votes == x.votes
                 && (x.votedFor == -1 || x.votedFor == a.m.src)))
    || (a.Deliver? && a.m.VoteResp? && a.m.granted && x.role == Candidate && a.m.term == x.term && o.msgs == {}
        && y.term == x.term && y.votedFor == x.votedFor && y.votes == x.votes + 1
        && y.role == (if x.votes + 1 >= x.n / 2 + 1 then Leader else Candidate))
  }

  ghost predicate NoBallots(msgs: set<Message>) {
    forall m :: m in msgs ==> !Once(m)
  }

  ghost predicate Ballots(x: Node, y: Node, msgs: set<Message>) {
    forall m :: m in msgs ==> m.VoteReq? && m.src == x.id && m.dst < x.n && m.dst != x.id && m.term == y.term
                              && m.lastIdx == |x.log| && m.lastTerm == LastTerm(x.log)
  }

  lemma DeliveryEffect(x: Node, m: Message, heardLeader: bool)
    requires x.Shaped() && m.src < x.n
    ensures ElectionEffect(x, Dispatch(x, m, heardLeader), Deliver(m, heardLeader))
  {
    hide QuorumIndex, Recorded, Pending, TruncateFrom, LogIsCurrent, LastTerm;
    match m {
      case PreVote(_, _, _, _, _) =>
      case PreVoteResp(_, _, _, _) =>
      case VoteReq(_, _, _, _, _) =>
      case VoteResp(_, _, _, _) =>
      case Append(_, _, _, _, _, _, _) =>
      case AppendResp(_, _, _, _, _, _) =>
    }
  }

  lemma EveryEffect(x: Node, a: Action)
    requires x.Shaped()
    requires a.Deliver? ==> a.m.src < x.n
    requires a.Replicate? || a.Reconnect? ==> a.j < x.n
    requires a.Crash? ==> a.keep <= |x.log|
    ensures ElectionEffect(x, Effect(x, a), a)
  {
    match a {
      case Deliver(m, heardLeader) => DeliveryEffect(x, m, heardLeader);
      case Timeout(_) =>
      case ClientAppend(_, _, _) =>
      case Replicate(_, _) =>
      case Flush(_) =>
      case Fsync(_) =>
      case Reconnect(_, _) =>
      case Crash(_, _) =>
    }
  }

  lemma EffectIsStep(s: System, a: Action)
    requires ElectionInv(s) && Enabled(s, a)
    ensures ElectionStep(s, Step(s, a), Actor(a), if a.Deliver? then a.m else VoteResp(0, 0, 0, false))
  {
    var i := Actor(a);
    var x := s.nodes[i];
    var o := Effect(x, a);
    EffectShaped(x, a);
    EveryEffect(x, a);
    BecameIsStep(s, i, o, a, Accepted(x, a));
  }

  lemma BecameIsStep(s: System, i: nat, o: Out, a: Action, acks: bool)
    requires WF(s) && VotesRecorded(s) && Enabled(s, a) && i == Actor(a) && SameNode(s.nodes[i], o.node)
    requires ElectionEffect(s.nodes[i], o, a)
    ensures var r := Became(s, i, o, Used(a), Counted(s.nodes[i], a), acks);
            ElectionStep(s, r, i, if a.Deliver? then a.m else VoteResp(0, 0, 0, false))
  {
    var x, y := s.nodes[i], o.node;
    var r := Became(s, i, o, Used(a), Counted(x, a), acks);
    if y.term > x.term {
      assert r.h.grantors[i] == if y.votedFor == i then {i} else {};
      if y.votedFor == -1 {
        assert StepDownStep(s, r, i);
      } else if a.Deliver? && a.m.VoteReq? {
        assert GrantStep(s, r, i, a.m);
      } else {
        assert RunStep(s, r, i);
      }
    } else if Counted(x, a) != {} {
      assert CountStep(s, r, i, a.m);
    } else {
      assert s.h.grantors[i] + {} == s.h.grantors[i];
      assert r.h.grantors == s.h.grantors;
      if NoBallots(o.msgs) {
        assert QuietStep(s, r, i);
      } else {
        assert GrantStep(s, r, i, a.m);
      }
    }
  }

  // ----- whole runs -----

  lemma StepKeepsElectionInv(s: System, a: Action)
    requires ElectionInv(s) && Enabled(s, a)
    ensures ElectionInv(Step(s, a))
  {
    var r, i := Step(s, a), Actor(a);
    EffectIsStep(s, a);
    if QuietStep(s, r, i) {
      QuietKeepsVotes(s, r, i);
      QuietKeepsBallots(s, r, i);
      QuietKeepsLeaders(s, r, i);
    } else if StepDownStep(s, r, i) {
      StepDownKeepsVotes(s, r, i);
      StepDownKeepsBallots(s, r, i);
      StepDownKeepsLeaders(s, r, i);
    } else if RunStep(s, r, i) {
      RunKeepsVotes(s, r, i);
      RunKeepsBallots(s, r, i);
      if r.nodes[i].role == Leader { RunsInVacantTerm(s, r, i); }
      RunKeepsLeaders(s, r, i);
    } else if GrantStep(s, r, i, a.m) {
      GrantKeepsVotes(s, r, i, a.m);
      GrantKeepsBallotsHonest(s, r, i, a.m);
      GrantKeepsBallotsUnique(s, r, i, a.m);
      GrantKeepsLeaders(s, r, i, a.m);
    } else {
      CountGrantors(s, r, i, a.m);
      CountKeepsVotes(s, r, i, a.m);
      CountKeepsBallots(s, r, i, a.m);
      if r.nodes[i].role == Leader { WinsVacantTerm(s, r, i, a.m); }
      CountKeepsLeaders(s, r, i, a.m);
    }
  }

  ghost predicate KeepsLeaders(s: System, r: System)
    requires WF(s) && WF(r) && r.n == s.n
  {
    && (forall t :: t in s.h.leaderOf ==> t in r.h.leaderOf && r.h.leaderOf[t] == s.h.leaderOf[t])
    && (forall i :: 0 <= i < s.n && r.nodes[i].role == Leader
                    && !(s.nodes[i].role == Leader && s.nodes[i].term == r.nodes[i].term)
          ==> r.nodes[i].term !in s.h.leaderOf)
  }

  lemma CountsKeepLeaders(s: System, r: System, i: nat, m: Message)
    requires WF(s) && VotesRecorded(s) && CountersHonest(s) && BallotsHonest(s) && LeadersElected(s)
    requires CountStep(s, r, i, m)
    ensures KeepsLeaders(s, r)
  {
    if r.nodes[i].role == Leader { WinsVacantTerm(s, r, i, m); }
  }

  lemma ElectionStepKeepsLeaders(s: System, r: System, i: nat, m: Message)
    requires WF(s) && VotesRecorded(s) && CountersHonest(s) && BallotsHonest(s) && LeadersElected(s)
    requires ElectionStep(s, r, i, m)
    ensures KeepsLeaders(s, r)
  {
    hide VotesRecorded, CountersHonest, BallotsHonest;
    if CountStep(s, r, i, m) {
      CountsKeepLeaders(s, r, i, m);
    } else if RunStep(s, r, i) && r.nodes[i].role == Leader {
      RunsInVacantTerm(s, r, i);
    }
  }

  /** A term's leader, once recorded, is never replaced. */
  lemma StepKeepsLeaders(s: System, a: Action)
    requires ElectionInv(s) && Enabled(s, a)
    ensures KeepsLeaders(s, Step(s, a))
  {
    EffectIsStep(s, a);
    ElectionStepKeepsLeaders(s, Step(s, a), Actor(a), if a.Deliver? then a.m else VoteResp(0, 0, 0, false));
  }

  lemma {:induction false} RunKeepsElectionInv(s: System, run: seq<Action>)
    requires ElectionInv(s) && ValidRun(s, run)
    ensures ElectionInv(Exec(s, run))
    ensures var r := Exec(s, run);
            forall t :: t in s.h.leaderOf ==> t in r.h.leaderOf && r.h.leaderOf[t] == s.h.leaderOf[t]
    decreases |run|
  {
    if run != [] {
      StepKeepsElectionInv(s, run[0]);
      StepKeepsLeaders(s, run[0]);
      RunKeepsElectionInv(Step(s, run[0]), run[1..]);
    }
  }

  lemma InitElectionInv(s: System)
    requires Init(s)
    ensures ElectionInv(s)
  {}

  ghost predicate Leads(s: System, i: nat, t: nat) {
    i < |s.nodes| && s.nodes[i].role == Leader && s.nodes[i].term == t
  }

  /** Election Safety: at no two moments of any run do two different nodes lead the same term. */
  lemma NoTwoLeaders(s: System, run: seq<Action>, more: seq<Action>, i: nat, j: nat, t: nat)
    requires Init(s) && ValidRun(s, run) && ValidRun(s, run + more)
    requires Leads(Exec(s, run), i, t) && Leads(Exec(s, run + more), j, t)
    ensures i == j
  {
    InitElectionInv(s);
    RunKeepsElectionInv(s, run);
    RunSplits(s, run, more);
    RunKeepsElectionInv(Exec(s, run), more);
  }
}
