/** Building blocks for runs of a three-node cluster that are written out action by action. */
module SampleRuns {
  import opened QuorumCommit
  import opened RaftNode
  import opened RaftSystem
  import opened CommitSafety

  /** What a run may do beyond the rules: which rules it may break, whether nodes crash,
      whether an accepted frame may remove entries from a log. */
  datatype Limits = Limits(broken: set<Rule>, crashes: bool, cuts: bool)

  ghost predicate Within(x: Node, a: Action, lim: Limits)
    requires x.Shaped() && (a.Deliver? ==> a.m.src < x.n)
  {
    && (forall rule: Rule :: rule !in lim.broken ==> Obeys(x, a, rule))
    && (a.Crash? ==> lim.crashes)
    && (a.Deliver? && a.m.Append? && Accepts(x, a.m) && a.m.prevIdx < |x.log| ==> lim.cuts)
  }

  ghost predicate RunWithin(s: System, run: seq<Action>, lim: Limits)
    requires WF(s) && ValidRun(s, run)
    decreases |run|
  {
    run == [] || (Within(s.nodes[Actor(run[0])], run[0], lim) && RunWithin(Step(s, run[0]), run[1..], lim))
  }

  lemma {:induction false} UnbrokenIsDisciplined(s: System, run: seq<Action>, lim: Limits)
    requires WF(s) && ValidRun(s, run) && RunWithin(s, run, lim) && lim.broken == {}
    ensures DisciplinedRun(s, run)
    decreases |run|
  {
    hide Step, Obeys;
    if run != [] { UnbrokenIsDisciplined(Step(s, run[0]), run[1..], lim); }
  }

  lemma {:induction false} WithinExtends(s: System, run: seq<Action>, a: Action, lim: Limits)
    requires WF(s) && ValidRun(s, run) && RunWithin(s, run, lim) && Enabled(Exec(s, run), a)
    requires Within(Exec(s, run).nodes[Actor(a)], a, lim)
    ensures ValidRun(s, run + [a]) && RunWithin(s, run + [a], lim)
    decreases |run|
  {
    hide Step, Within, Enabled;
    if run == [] {
      OneStepRun(s, a);
      assert run + [a] == [a] && [a][1..] == [];
      assert RunWithin(Step(s, a), [], lim);
    } else {
      WithinExtends(Step(s, run[0]), run[1..], a, lim);
      assert (run + [a])[0] == run[0] && (run + [a])[1..] == run[1..] + [a];
    }
  }

  /** A run so far: where it started, its actions, and the state it has reached. */
  ghost predicate Reaches(s: System, lim: Limits, run: seq<Action>, r: System) {
    WF(s) && ValidRun(s, run) && Exec(s, run) == r && RunWithin(s, run, lim)
  }

  /** Actions that no rule is about. */
  ghost predicate Plain(a: Action) {
    !a.Crash? && (a.Deliver? ==> !a.m.Append? && !a.m.AppendResp?)
  }

  lemma Extend(s: System, lim: Limits, run: seq<Action>, r: System, a: Action, o: Out)
    returns (more: seq<Action>, t: System)
    requires Reaches(s, lim, run, r) && WF(r) && Enabled(r, a) && Effect(r.nodes[Actor(a)], a) == o
    requires Plain(a) || Within(r.nodes[Actor(a)], a, lim)
    ensures Reaches(s, lim, more, t) && WF(t) && t.n == r.n
    ensures t.nodes == r.nodes[Actor(a) := o.node] && t.net == r.net - Used(a) + o.msgs
  {
    assert Within(r.nodes[Actor(a)], a, lim);
    more, t := run + [a], Step(r, a);
    hide Within, RunWithin;
    RunExtends(s, run, a);
    WithinExtends(s, run, a, lim);
  }

  // ----- elections -----

  ghost predicate Votable(x: Node, y: Node) {
    x.role != Leader && y.role != Leader && y.term <= x.term && LogIsCurrent(y.log, |x.log|, LastTerm(x.log))
  }

  function Won(x: Node): Node {
    BecomeLeader(x.(term := x.term + 1, votedFor := x.id, role := Candidate, inPrevote := false, prevotes := 2,
        votes := 2))
  }

  function Voted(y: Node, t: nat, c: nat): Node {
    y.(term := t, votedFor := c, role := Follower, inPrevote := false)
  }

  function Running(x: Node): Node {
    x.(inPrevote := false, term := x.term + 1, votedFor := x.id, role := Candidate, prevotes := 2, votes := 1)
  }

  /** A node that hears of a higher term. */
  function Humbled(x: Node, t: nat): Node {
    x.(term := t, votedFor := -1, inPrevote := false, role := Follower)
  }

  lemma BallotEffects(x: Node, y: Node)
    requires x.Shaped() && y.Shaped() && x.n == 3 && y.n == 3 && x.id != y.id && Votable(x, y)
    ensures var c, v, t := x.id, y.id, x.term + 1;
            var polled := x.(inPrevote := true, prevotes := 1);
            && Effect(x, Timeout(c)) == Out(polled, PreVoteRequests(polled, t))
            && Effect(y, Deliver(PreVote(c, v, t, |x.log|, LastTerm(x.log)), false))
               == Out(y, {PreVoteResp(v, c, y.term, true)})
            && Effect(polled, Deliver(PreVoteResp(v, c, y.term, true), false)).node == Running(x)
            && VoteReq(c, v, t, |x.log|, LastTerm(x.log))
               in Effect(polled, Deliver(PreVoteResp(v, c, y.term, true), false)).msgs
            && Effect(y, Deliver(VoteReq(c, v, t, |x.log|, LastTerm(x.log)), false))
               == Out(Voted(y, t, c), {VoteResp(v, c, t, true)})
            && Effect(Running(x), Deliver(VoteResp(v, c, t, true), false)) == Out(Won(x), {})
  {}

  /** The PreVote round: the candidacy of `c` is supported by `v`. */
  lemma Polls(s: System, lim: Limits, run: seq<Action>, r: System, c: nat, v: nat) returns (more: seq<Action>, t: System)
    requires Reaches(s, lim, run, r) && WF(r) && r.n == 3 && c < 3 && v < 3 && c != v && Votable(r.nodes[c], r.nodes[v])
    ensures Reaches(s, lim, more, t) && WF(t) && t.n == 3
    ensures t.nodes == r.nodes[c := Running(r.nodes[c])]
    ensures VoteReq(c, v, r.nodes[c].term + 1, |r.nodes[c].log|, LastTerm(r.nodes[c].log)) in t.net
    ensures forall m :: m in r.net && !Once(m) ==> m in t.net
  {
    hide Effect, Exec, ValidRun, Reaches, Won, Voted, Running, LogIsCurrent;
    var x, y := r.nodes[c], r.nodes[v];
    var polled := x.(inPrevote := true, prevotes := 1);
    BallotEffects(x, y);
    more, t := Extend(s, lim, run, r, Timeout(c), Effect(x, Timeout(c)));
    var m1 := PreVote(c, v, x.term + 1, |x.log|, LastTerm(x.log));
    assert m1 in t.net;
    more, t := Extend(s, lim, more, t, Deliver(m1, false), Out(y, {PreVoteResp(v, c, y.term, true)}));
    var a3 := Deliver(PreVoteResp(v, c, y.term, true), false);
    more, t := Extend(s, lim, more, t, a3, Effect(polled, a3));
  }

  /** Of three nodes, one whose log is at least as up to date as another's can be elected by it. */
  lemma Elects(s: System, lim: Limits, run: seq<Action>, r: System, c: nat, v: nat) returns (more: seq<Action>, t: System)
    requires Reaches(s, lim, run, r) && WF(r) && r.n == 3 && c < 3 && v < 3 && c != v && Votable(r.nodes[c], r.nodes[v])
    ensures Reaches(s, lim, more, t) && WF(t) && t.n == 3
    ensures t.nodes == r.nodes[c := Won(r.nodes[c])][v := Voted(r.nodes[v], r.nodes[c].term + 1, c)]
    ensures forall m :: m in r.net && !Once(m) ==> m in t.net
  {
    hide Effect, Exec, ValidRun, Reaches, Won, Voted, Running, Votable, LogIsCurrent;
    var x, y := r.nodes[c], r.nodes[v];
    BallotEffects(x, y);
    more, t := Polls(s, lim, run, r, c, v);
    var m := VoteReq(c, v, x.term + 1, |x.log|, LastTerm(x.log));
    more, t := Extend(s, lim, more, t, Deliver(m, false),
                      Out(Voted(y, x.term + 1, c), {VoteResp(v, c, x.term + 1, true)}));
    more, t := Extend(s, lim, more, t, Deliver(VoteResp(v, c, x.term + 1, true), false), Out(Won(x), {}));
  }

  // ----- three nodes -----

  ghost predicate At(s: System, lim: Limits, run: seq<Action>, t: System, a: Node, b: Node, c: Node) {
    Reaches(s, lim, run, t) && WF(t) && t.n == 3 && t.nodes == [a, b, c]
  }

  /** One more action of the run, whose effect on its node is known. */
  lemma Next(s: System, lim: Limits, run: seq<Action>, t: System, a: Node, b: Node, c: Node, act: Action, o: Out)
    returns (more: seq<Action>, u: System)
    requires At(s, lim, run, t, a, b, c) && Enabled(t, act) && Effect(t.nodes[Actor(act)], act) == o
    requires Plain(act) || Within(t.nodes[Actor(act)], act, lim)
    ensures var i := Actor(act);
            At(s, lim, more, u, if i == 0 then o.node else a, if i == 1 then o.node else b, if i == 2 then o.node else c)
    ensures o.msgs <= u.net && forall m :: m in t.net && !Once(m) ==> m in u.net
  {
    hide Effect, Within, Reaches, Plain, Enabled;
    more, u := Extend(s, lim, run, t, act, o);
  }

  lemma MedianOfThree(a: nat, b: nat, c: nat, m: nat)
    requires (a >= m && b >= m && c <= m && (a == m || b == m)) || (a >= m && c >= m && b <= m && (a == m || c == m))
          || (b >= m && c >= m && a <= m && (b == m || c == m))
    ensures QuorumIndex([a, b, c], 2) == m
  {
    forall y: nat
      ensures CountAtLeast([a, b, c], y) ==
              (if a >= y then 1 else 0) + (if b >= y then 1 else 0) + (if c >= y then 1 else 0)
    {
      assert [a, b, c][..2] == [a, b] && [a, b][..1] == [a] && [a][..0] == [];
      assert CountAtLeast([a], y) == (if a >= y then 1 else 0) + CountAtLeast([], y);
      assert CountAtLeast([a, b], y) == (if b >= y then 1 else 0) + CountAtLeast([a], y);
    }
    QuorumIndexUnique([a, b, c], 2, m);
  }

  // ----- log frames -----

  /** Entries without payload all fit one frame. */
  lemma {:induction false} SmallBatch(log: Log, i: nat, cnt: nat, size: nat)
    requires i <= |log| && forall k :: i <= k < |log| ==> log[k].payload == []
    requires cnt + |log| - i <= 9 && size <= APPEND_FIXED + cnt * ENTRY_FIXED
    ensures BatchCount(log, i, cnt, size) == |log| - i
    decreases |log| - i
  {
    if i < |log| { SmallBatch(log, i + 1, cnt + 1, size + ENTRY_FIXED); }
  }

  lemma Sends(x: Node, j: nat, prev: nat, k: nat)
    requires x.Shaped() && j < x.n && x.next[j] == prev + 1 && prev <= |x.log|
             && BatchCount(x.log, prev, 0, APPEND_FIXED) == k
    ensures Effect(x, Replicate(x.id, j)) ==
            Out(x.(next := x.next[j := prev + 1 + k]),
                {Append(x.id, j, x.term, prev, TermAt(x.log, prev), x.commit, x.log[prev..prev + k])})
  {
    hide BatchCount;
    assert k == 0 ==> x.log[prev..prev + k] == [];
  }

  lemma SendsAll(x: Node, j: nat)
    requires x.Shaped() && j < x.n && x.next[j] == 1 && |x.log| <= 9
    requires forall k :: 0 <= k < |x.log| ==> x.log[k].payload == []
    ensures Effect(x, Replicate(x.id, j)) ==
            Out(x.(next := x.next[j := 1 + |x.log|]), {Append(x.id, j, x.term, 0, 0, x.commit, x.log)})
  {
    SmallBatch(x.log, 0, 0, APPEND_FIXED);
    hide Effect, BatchCount;
    Sends(x, j, 0, |x.log|);
    assert x.log[0..0 + |x.log|] == x.log;
  }

  /** A node that hears a frame of a leader whose term is not behind its own. */
  function Heard(x: Node, t: nat): Node {
    if t > x.term then Humbled(x, t) else x.(role := Follower, inPrevote := false)
  }

  lemma Refuses(x: Node, m: Message, lim: Limits)
    requires x.Shaped() && m.Append? && m.src < x.n && m.term >= x.term && !LogMatches(x.log, m.prevIdx, m.prevTerm)
    ensures Effect(x, Deliver(m, false)) ==
            Out(Heard(x, m.term), {AppendResp(x.id, m.src, m.term, false,
                                              if m.prevIdx > |x.log| then |x.log| else m.prevIdx - 1, x.durable)})
    ensures Within(x, Deliver(m, false), lim)
  {}

  lemma Takes(x: Node, m: Message)
    requires x.Shaped() && m.Append? && m.src < x.n && Accepts(x, m) && m.leaderCommit == 0
    ensures Effect(x, Deliver(m, false)) ==
            Out(Heard(x, m.term).(log := x.log[..m.prevIdx] + m.entries),
                {AppendResp(x.id, m.src, m.term, true, m.prevIdx + |m.entries|, x.durable)})
  {}

  /** What an accepted frame must satisfy. */
  lemma TakenWithin(x: Node, m: Message, lim: Limits)
    requires x.Shaped() && m.Append? && m.src < x.n && (lim.cuts || m.prevIdx >= |x.log|)
    requires !x.durableCommit ==> TruncatesOnlyConflict(x.log, m.prevIdx, m.entries) || CutsConflictsOnly in lim.broken
    requires x.durableCommit ==> m.prevIdx + |m.entries| >= x.durable || CoversDurable in lim.broken
    ensures Within(x, Deliver(m, false), lim)
  {}

  /** A leader whose peer is at the end of its log sends it a heartbeat. */
  lemma Beats(x: Node, j: nat)
    requires x.Shaped() && j < x.n && x.next[j] == |x.log| + 1
    ensures Effect(x, Replicate(x.id, j)) == Out(x, {Append(x.id, j, x.term, |x.log|, LastTerm(x.log), x.commit, [])})
  {
    Sends(x, j, |x.log|, 0);
    hide Effect;
    assert x.next[j := x.next[j]] == x.next && x.log[|x.log|..] == [];
  }

  lemma BeatTaken(x: Node, m: Message, lim: Limits)
    requires x.Shaped() && m.Append? && m.src < x.n && Accepts(x, m) && m.leaderCommit == 0
    requires m.prevIdx == |x.log| && m.entries == [] && (x.durableCommit ==> x.durable <= |x.log|)
    ensures Effect(x, Deliver(m, false)) ==
            Out(Heard(x, m.term), {AppendResp(x.id, m.src, m.term, true, |x.log|, x.durable)})
    ensures Within(x, Deliver(m, false), lim)
  {
    Takes(x, m);
    TakenWithin(x, m, lim);
    hide Effect, Within;
    assert x.log[..|x.log|] + [] == x.log;
  }

  lemma HearsReject(x: Node, m: Message)
    requires x.Shaped() && m.AppendResp? && m.src < x.n && m.term <= x.term && x.role == Leader && !m.success
    ensures Effect(x, Deliver(m, false)) ==
            Out(x.(peerDurable := x.peerDurable[m.src := m.durable],
                   next := x.next[m.src := Min(x.next[m.src], m.hint + 1)],
                   matched := x.matched[m.src := Min(x.matched[m.src], m.hint)]), {})
  {}

  lemma Rewinds(x: Node, m: Message)
    requires x.Shaped() && m.AppendResp? && m.src < x.n && m.term == x.term && x.role == Leader && !m.success
    requires x.next[m.src] > m.hint && m.durable == x.peerDurable[m.src] && x.matched[m.src] == 0
    ensures Effect(x, Deliver(m, false)) == Out(x.(next := x.next[m.src := m.hint + 1]), {})
  {
    HearsReject(x, m);
    hide Effect;
    assert x.peerDurable[m.src := m.durable] == x.peerDurable && x.matched[m.src := 0] == x.matched;
  }

  /** The fsync timer, where it commits nothing. */
  lemma Syncs(x: Node)
    requires x.Shaped()
    requires x.role == Leader && x.durableCommit ==>
               QuorumIndex(Recorded(x.(durable := |x.log|)), x.n / 2 + 1) <= x.commit
    ensures Effect(x, Fsync(x.id)) == Out(x.(durable := |x.log|), {})
  {
    hide QuorumIndex, Recorded;
  }

  /** The fsync timer, where it completes a majority under the durable policy. */
  lemma SyncCommits(x: Node, k: nat)
    requires x.Shaped() && x.role == Leader && x.durableCommit
    requires x.commit == 0 && x.applied == [] && 0 < k <= |x.log| && x.log[k - 1].term == x.term
    requires QuorumIndex(Recorded(x.(durable := |x.log|)), x.n / 2 + 1) == k
    ensures Effect(x, Fsync(x.id)) == Out(x.(durable := |x.log|, commit := k, applied := x.log[..k]), {})
  {
    AdvancesTo(x.(durable := |x.log|), k);
    hide QuorumIndex, Recorded, AdvanceCommit;
  }

  /** A leader that hears that a majority holds its log up to `k` commits and applies it. */
  lemma HeardMajority(x: Node, m: Message, k: nat)
    requires x.Shaped() && m.AppendResp? && m.src < x.n && m.success && m.term <= x.term && x.role == Leader
    requires x.commit == 0 && x.applied == [] && 0 < k <= |x.log| && x.log[k - 1].term == x.term
    requires var d := x.(peerDurable := x.peerDurable[m.src := m.durable],
                         matched := x.matched[m.src := Max(x.matched[m.src], m.hint)]);
             QuorumIndex(Recorded(d), x.n / 2 + 1) == k
    ensures Effect(x, Deliver(m, false)) ==
            Out(x.(peerDurable := x.peerDurable[m.src := m.durable],
                   matched := x.matched[m.src := Max(x.matched[m.src], m.hint)], commit := k, applied := x.log[..k]), {})
  {
    var d := x.(peerDurable := x.peerDurable[m.src := m.durable],
                matched := x.matched[m.src := Max(x.matched[m.src], m.hint)]);
    AdvancesTo(d, k);
    Hears(x, m);
    hide Effect, QuorumIndex, Recorded, AdvanceCommit;
  }

  lemma Hears(x: Node, m: Message)
    requires x.Shaped() && m.AppendResp? && m.src < x.n && m.success && m.term <= x.term && x.role == Leader
    ensures Effect(x, Deliver(m, false)) ==
            Out(AdvanceCommit(x.(peerDurable := x.peerDurable[m.src := m.durable],
                                 matched := x.matched[m.src := Max(x.matched[m.src], m.hint)])), {})
  {
    hide AdvanceCommit;
  }

  lemma AdvancesTo(d: Node, k: nat)
    requires d.Shaped() && d.commit == 0 && d.applied == [] && 0 < k <= |d.log| && d.log[k - 1].term == d.term
    requires QuorumIndex(Recorded(d), d.n / 2 + 1) == k
    ensures AdvanceCommit(d) == d.(commit := k, applied := d.log[..k])
  {
    hide QuorumIndex, Recorded, Pending;
    assert [] + d.log[0..k] == d.log[..k];
  }

  /** An answer that is a success, or claims nothing on disk, breaks no rule unless it is of an earlier term. */
  lemma AnswerWithin(x: Node, m: Message, lim: Limits)
    requires x.Shaped() && m.AppendResp? && m.src < x.n && (m.success || m.durable == 0 || m.term != x.term)
    requires m.term >= x.term || DropsOldAnswers in lim.broken
    ensures Within(x, Deliver(m, false), lim)
  {}

  const N1 := Entry(1, OP_NOOP, [])
  const N2 := Entry(2, OP_NOOP, [])
  const N3 := Entry(3, OP_NOOP, [])
  const N4 := Entry(4, OP_NOOP, [])
  const N5 := Entry(5, OP_NOOP, [])
  const N6 := Entry(6, OP_NOOP, [])
  const X := Entry(1, 7, [])
  const Y := Entry(2, 8, [])
}
