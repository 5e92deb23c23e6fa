/** Leader Completeness and State Machine Safety, under either commit policy, for the runs in which they hold:
    answers of an earlier term are dropped and a restart recovers what the policy counts on. Under the fast
    policy, in addition, every accepted AppendEntries frame truncates only what conflicts with it. Under the
    durable policy, in addition, no accepted frame leaves less than the durable index says, and no reject
    claims more on disk than was matched. */
module CommitSafety {
  import opened QuorumCommit
  import opened RaftNode
  import opened RaftSystem
  import opened ElectionSafety
  import opened LogMatching

  // ----- the hypotheses -----

  /** The frame reaches the end of the follower's log, or conflicts with it. */
  ghost predicate TruncatesOnlyConflict(log: Log, prev: nat, entries: Log) {
    || |log| <= prev + |entries|
    || exists k :: 0 <= k < |entries| && prev + k < |log| && log[prev + k].term != entries[k].term
  }

  /** The receiver rule of section 5.3 of the Raft paper: delete from the first conflicting entry on,
      append what is missing. */
  function PaperAppend(log: Log, prev: nat, entries: Log): Log
    requires prev <= |log|
    decreases |entries|
  {
    if entries == [] then log
    else if prev < |log| && log[prev].term == entries[0].term then PaperAppend(log, prev + 1, entries[1..])
    else log[..prev] + entries
  }

  /** The unconditional truncation does what the paper's rule does exactly when the frame
      reaches the end of the follower's log or conflicts with it. */
  lemma {:induction false} TruncationMatchesPaper(log: Log, l: Log, logs: Logs, prev: nat, entries: Log)
    requires Sound(log, logs) && Sound(l, logs)
    requires prev + |entries| <= |l| && entries == l[prev..prev + |entries|]
    requires prev <= |log| && log[..prev] == l[..prev]
    ensures log[..prev] + entries == PaperAppend(log, prev, entries) <==> TruncatesOnlyConflict(log, prev, entries)
    decreases |entries|
  {
    if entries == [] {
      assert log[..prev] + entries == log[..prev];
    } else if prev < |log| && log[prev].term == entries[0].term {
      SharedFirst(log, l, logs, prev, entries);
      hide Sound, TruncatesOnlyConflict;
      TruncationMatchesPaper(log, l, logs, prev + 1, entries[1..]);
      ShiftConflict(log, prev, entries);
    } else if prev < |log| {
      assert log[prev + 0].term != entries[0].term;
    }
  }

  lemma SharedFirst(log: Log, l: Log, logs: Logs, prev: nat, entries: Log)
    requires Sound(log, logs) && Sound(l, logs) && entries != []
    requires prev + |entries| <= |l| && entries == l[prev..prev + |entries|]
    requires prev < |log| && log[prev].term == entries[0].term
    ensures log[..prev + 1] == l[..prev + 1] && log[..prev] + entries == log[..prev + 1] + entries[1..]
  {
    assert entries[0] == l[prev];
    SameTermSamePrefix(log, l, logs, prev + 1);
    hide Sound;
    assert log[..prev + 1] == log[..prev] + [log[prev]];
    assert log[prev] == log[..prev + 1][prev] == l[..prev + 1][prev];
  }

  lemma ShiftConflict(log: Log, prev: nat, entries: Log)
    requires prev < |log| && entries != [] && log[prev].term == entries[0].term
    ensures TruncatesOnlyConflict(log, prev, entries) <==> TruncatesOnlyConflict(log, prev + 1, entries[1..])
  {
    forall k | 0 <= k < |entries| && prev + k < |log| && log[prev + k].term != entries[k].term
      ensures 0 <= k - 1 < |entries[1..]| && log[prev + 1 + (k - 1)].term != entries[1..][k - 1].term
    {}
    forall k | 0 <= k < |entries[1..]| && prev + 1 + k < |log| && log[prev + 1 + k].term != entries[1..][k].term
      ensures log[prev + (k + 1)].term != entries[k + 1].term
    {}
  }

  /** What the policy counts on: the whole log, or the part of it that is on disk. */
  function Firm(x: Node): Log {
    if x.durableCommit then x.log[..Min(x.durable, |x.log|)] else x.log
  }

  /** The five rules of discipline, each a guard the acting node could check before it acts. */
  datatype Rule = CutsConflictsOnly | DropsOldAnswers | RestartKeepsFirm | CoversDurable | RejectsClaimMatched

  ghost predicate Obeys(x: Node, a: Action, rule: Rule)
    requires x.Shaped() && (a.Deliver? ==> a.m.src < x.n)
  {
    match rule
    case CutsConflictsOnly =>
      !x.durableCommit && a.Deliver? && a.m.Append? && Accepts(x, a.m) ==>
        TruncatesOnlyConflict(x.log, a.m.prevIdx, a.m.entries)
    case DropsOldAnswers => a.Deliver? && a.m.AppendResp? ==> a.m.term >= x.term
    case RestartKeepsFirm => a.Crash? ==> a.keep >= |Firm(x)|
    case CoversDurable =>
      x.durableCommit && a.Deliver? && a.m.Append? && Accepts(x, a.m) ==> a.m.prevIdx + |a.m.entries| >= x.durable
    case RejectsClaimMatched =>
      x.durableCommit && x.role == Leader && a.Deliver? && a.m.AppendResp? && a.m.term == x.term && !a.m.success ==>
        a.m.durable <= x.matched[a.m.src]
  }

  ghost predicate Disciplined(s: System, a: Action)
    requires WF(s) && Enabled(s, a)
  {
    forall rule: Rule :: Obeys(s.nodes[Actor(a)], a, rule)
  }

  // ----- commitment -----

  ghost predicate Quorum(n: nat, q: set<nat>) {
    |q| >= n / 2 + 1 && forall v :: v in q ==> v < n
  }

  /** Index `k` ends in an entry that the leader of term `t` created. */
  ghost predicate OwnEntry(h: History, t: nat, k: nat) {
    t in h.leaderLog && 1 <= k <= |h.leaderLog[t]| && h.leaderLog[t][k - 1].term == t
  }

  /** `v` has acknowledged index `k` of term `t`, or is still free to. */
  ghost predicate MayAck(s: System, v: nat, t: nat, k: nat)
    requires WF(s) && v < s.n
  {
    s.nodes[v].term <= t || AckOf(s.h, v, t) >= k
  }

  ghost predicate SupportedBy(s: System, q: set<nat>, t: nat, k: nat)
    requires WF(s)
  {
    Quorum(s.n, q) && forall v :: v in q ==> MayAck(s, v, t, k)
  }

  /** The entry may still come to be acknowledged by a majority. */
  ghost predicate Choosable(s: System, t: nat, k: nat)
    requires WF(s)
  {
    OwnEntry(s.h, t, k) && exists q :: SupportedBy(s, q, t, k)
  }

  ghost predicate AckedBy(s: System, q: set<nat>, t: nat, k: nat)
    requires WF(s)
  {
    Quorum(s.n, q) && forall v :: v in q ==> AckOf(s.h, v, t) >= k
  }

  /** The entry is acknowledged by a majority, in the term that created it. */
  ghost predicate Chosen(s: System, t: nat, k: nat)
    requires WF(s)
  {
    OwnEntry(s.h, t, k) && exists q :: AckedBy(s, q, t, k)
  }

  /** The prefix `p` lies within a chosen prefix of a term up to `t`. */
  ghost predicate Backed(s: System, p: Log, t: nat)
    requires WF(s)
  {
    p == [] || exists u: nat, k: nat :: u <= t && Chosen(s, u, k) && |p| <= k && p <= s.h.leaderLog[u]
  }

  // ----- the invariant -----

  ghost predicate TakenBounded(s: System, v: nat, t: nat)
    requires WF(s)
  {
    v < s.n && t <= s.nodes[v].term && t in s.h.leaderLog && TakenOf(s.h, v, t) <= |s.h.leaderLog[t]|
  }

  ghost predicate AckBounded(s: System, v: nat, t: nat)
    requires WF(s)
  {
    && v < s.n && t <= s.nodes[v].term && t in s.h.leaderLog
    && AckOf(s.h, v, t) <= TakenOf(s.h, v, t) <= |s.h.leaderLog[t]|
  }

  /** What a node has accepted in its current term is its log, and what it vouches for has been recorded. */
  ghost predicate Vouches(s: System, v: nat)
    requires WF(s) && v < s.n
  {
    var x := s.nodes[v];
    && Vouched(s.h, x) <= AckOf(s.h, v, x.term)
    && (x.durableCommit ==> x.durable <= |x.log|)
    && (TakenOf(s.h, v, x.term) > 0 ==>
          && x.term in s.h.leaderLog && x.log <= s.h.leaderLog[x.term]
          && (!x.durableCommit ==> TakenOf(s.h, v, x.term) <= |x.log|))
  }

  /** Without the durable policy everything accepted is vouched for. */
  ghost predicate TakenIsGiven(s: System, v: nat, t: nat)
    requires WF(s) && v < s.n
  {
    !s.nodes[v].durableCommit ==> TakenOf(s.h, v, t) <= AckOf(s.h, v, t)
  }

  ghost predicate AnswerKnown(s: System, m: Message)
    requires WF(s) && m.AppendResp?
  {
    && m.src < s.n && (m.success ==> m.hint <= TakenOf(s.h, m.src, m.term))
    && (s.nodes[m.src].durableCommit ==>
          && m.durable <= s.nodes[m.src].durable && (m.success ==> m.durable <= m.hint)
          && Min(m.durable, TakenOf(s.h, m.src, m.term)) <= AckOf(s.h, m.src, m.term))
  }

  /** What a leader has recorded about a peer is no more than the peer accepted, and vouches for. */
  ghost predicate PeerKnown(s: System, i: nat, j: nat)
    requires WF(s) && i < s.n && j < s.n && s.nodes[i].role == Leader && i != j
  {
    var x := s.nodes[i];
    && x.matched[j] <= TakenOf(s.h, j, x.term)
    && (x.durableCommit ==> x.peerDurable[j] <= AckOf(s.h, j, x.term))
  }

  ghost predicate AcksKnown(s: System)
    requires WF(s)
  {
    && (forall v, t :: (v, t) in s.h.acks.taken ==> TakenBounded(s, v, t))
    && (forall v, t :: (v, t) in s.h.acks.given ==> AckBounded(s, v, t))
    && (forall v :: 0 <= v < s.n ==> Vouches(s, v))
    && (forall v, t: nat :: 0 <= v < s.n ==> TakenIsGiven(s, v, t))
    && (forall m :: m in s.net && m.AppendResp? ==> AnswerKnown(s, m))
    && (forall i, j :: 0 <= i < s.n && s.nodes[i].role == Leader && 0 <= j < s.n && j != i ==> PeerKnown(s, i, j))
  }

  /** The log a candidate ran with is at least as up to date as the voter's at the time of its vote. */
  ghost predicate GoodVote(s: System, v: nat, t: nat)
    requires (v, t) in s.h.votes
  {
    var c := s.h.votes[(v, t)];
    && VotedFor(s, c, t, c) && (c, t) in s.h.voteLog && (v, t) in s.h.voteLog
    && LogIsCurrent(s.h.voteLog[(v, t)], |s.h.voteLog[(c, t)]|, LastTerm(s.h.voteLog[(c, t)]))
    && Sound(s.h.voteLog[(v, t)], s.h.leaderLog) && TermsUpTo(s.h.voteLog[(v, t)], t)
  }

  ghost predicate VoteLogs(s: System)
    requires WF(s)
  {
    && s.h.voteLog.Keys == s.h.votes.Keys
    && (forall v, t :: (v, t) in s.h.votes ==> GoodVote(s, v, t))
    && (forall m :: m in s.net && m.VoteReq? ==>
          && VotedFor(s, m.src, m.term, m.src)
          && m.lastIdx == |s.h.voteLog[(m.src, m.term)]| && m.lastTerm == LastTerm(s.h.voteLog[(m.src, m.term)]))
    && (forall i :: 0 <= i < s.n && s.nodes[i].role == Candidate ==>
          (i, s.nodes[i].term) in s.h.voteLog && s.h.voteLog[(i, s.nodes[i].term)] == s.nodes[i].log)
  }

  /** Leader Completeness: what may still be chosen is in the log of every later leader. */
  ghost predicate LeadersComplete(s: System)
    requires WF(s)
  {
    forall t: nat, k: nat, u: nat :: Choosable(s, t, k) && t < u && u in s.h.leaderLog ==>
      s.h.leaderLog[t][..k] <= s.h.leaderLog[u]
  }

  ghost predicate AckersHold(s: System)
    requires WF(s)
  {
    forall t: nat, k: nat, v: nat :: Choosable(s, t, k) && v < s.n && t <= s.nodes[v].term && AckOf(s.h, v, t) >= k ==>
      s.h.leaderLog[t][..k] <= Firm(s.nodes[v])
  }

  ghost predicate VotersHeld(s: System)
    requires WF(s)
  {
    forall t: nat, k: nat, v: nat, u: nat ::
      Choosable(s, t, k) && t < u && (v, u) in s.h.voteLog && AckOf(s.h, v, t) >= k ==>
      s.h.leaderLog[t][..k] <= s.h.voteLog[(v, u)]
  }

  ghost predicate CommitOk(s: System, i: nat)
    requires WF(s) && i < s.n
  {
    var x := s.nodes[i];
    |x.applied| == x.commit && Backed(s, x.applied, x.term)
  }

  ghost predicate FrameCommitOk(s: System, m: Message)
    requires WF(s) && m.Append?
  {
    && m.term in s.h.leaderLog && m.leaderCommit <= |s.h.leaderLog[m.term]|
    && Backed(s, s.h.leaderLog[m.term][..m.leaderCommit], m.term)
  }

  ghost predicate CommitsBacked(s: System)
    requires WF(s)
  {
    && (forall i :: 0 <= i < s.n ==> CommitOk(s, i))
    && (forall m :: m in s.net && m.Append? ==> FrameCommitOk(s, m))
  }

  /** The commit policy is configured alike on all nodes. */
  ghost predicate SamePolicy(s: System)
    requires WF(s)
  {
    forall i :: 0 <= i < s.n ==> s.nodes[i].durableCommit == s.nodes[0].durableCommit
  }

  ghost predicate SafeInv(s: System) {
    && LogInv(s) && SamePolicy(s)
    && AcksKnown(s) && VoteLogs(s)
    && LeadersComplete(s) && AckersHold(s) && VotersHeld(s)
    && CommitsBacked(s)
  }

  // ----- about logs alone -----

  /** Truncating only conflicts never removes what the follower shares with the leader. */
  lemma KeepsShared(log: Log, l: Log, p: Log, prev: nat, entries: Log)
    requires prev + |entries| <= |l| && entries == l[prev..prev + |entries|]
    requires TruncatesOnlyConflict(log, prev, entries)
    requires p <= log && p <= l
    ensures p <= l[..prev + |entries|]
  {
    if |log| > prev + |entries| {
      var k :| 0 <= k < |entries| && prev + k < |log| && log[prev + k].term != entries[k].term;
      assert entries[k] == l[prev + k];
      assert prev + k >= |p|;
    }
  }

  /** The election restriction at work: a log at least as up to date as one that holds index `k`
      of term `t` holds it too, provided the leaders in between do. */
  lemma UpToDateHolds(cand: Log, vote: Log, logs: Logs, t: nat, k: nat)
    requires Sound(cand, logs) && Sound(vote, logs)
    requires forall u :: u in logs ==> TermsUpTo(logs[u], u)
    requires t in logs && 1 <= k <= |logs[t]| && logs[t][k - 1].term == t
    requires logs[t][..k] <= vote
    requires LogIsCurrent(vote, |cand|, LastTerm(cand))
    requires forall u :: u in logs && t < u <= LastTerm(cand) ==> logs[t][..k] <= logs[u]
    ensures logs[t][..k] <= cand
  {
    assert vote[k - 1] == logs[t][k - 1];
    SoundAscends(vote, logs, k - 1, |vote| - 1);
    var b := LastTerm(vote);
    assert t <= b;
    if LastTerm(cand) == b {
      SameTermSamePrefix(cand, vote, logs, |vote|);
    } else {
      var u := LastTerm(cand);
      assert cand[..|cand| - 1 + 1] <= logs[u];
      assert cand <= logs[u];
      assert cand[|cand| - 1] == logs[u][|cand| - 1];
      assert |cand| > k;
    }
  }

  // ----- a disciplined step -----

  ghost predicate NewVote(s: System, r: System, i: nat, m: Message)
    requires OnlyNode(s, r, i)
  {
    var x, y := s.nodes[i], r.nodes[i];
    && y.votedFor >= 0 && (i, y.term) !in s.h.votes
    && r.h.votes == s.h.votes[(i, y.term) := y.votedFor] && r.h.voteLog == s.h.voteLog[(i, y.term) := x.log]
    && (y.votedFor == i
        || (m in s.net && m.VoteReq? && m.src == y.votedFor && m.term == y.term
            && LogIsCurrent(x.log, m.lastIdx, m.lastTerm)))
  }

  ghost predicate VoteStep(s: System, r: System, i: nat, m: Message)
    requires OnlyNode(s, r, i)
  {
    var x, y := s.nodes[i], r.nodes[i];
    && (NewVote(s, r, i, m) || (r.h.votes == s.h.votes && r.h.voteLog == s.h.voteLog))
    && (forall f :: f in r.net && f.VoteReq? && f !in s.net ==>
          NewVote(s, r, i, m) && f.src == i == y.votedFor && f.term == y.term
          && f.lastIdx == |x.log| && f.lastTerm == LastTerm(x.log))
    && (y.role == Candidate ==>
          y.log == x.log && ((x.role == Candidate && y.term == x.term) || (NewVote(s, r, i, m) && y.votedFor == i)))
    && (y.role == Leader && !(x.role == Leader && y.term == x.term) ==>
          Appended(x, y) && ((x.role == Candidate && y.term == x.term) || (NewVote(s, r, i, m) && y.votedFor == i)))
  }

  /** After a restart nothing counts as committed until a leader says so again. */
  ghost predicate Restarted(x: Node, y: Node) {
    Lost(x, y) && y.commit == 0 && y.applied == []
  }

  ghost predicate AckStep(s: System, r: System, i: nat, m: Message)
    requires OnlyNode(s, r, i)
  {
    var x, y := s.nodes[i], r.nodes[i];
    && y.durableCommit == x.durableCommit
    && (SameLog(x, y) || Appended(x, y) || TookFrame(x, y, m) || (Restarted(x, y) && |y.log| >= |Firm(x)|))
    && (TookFrame(x, y, m) ==> m in s.net && (!x.durableCommit ==> TruncatesOnlyConflict(x.log, m.prevIdx, m.entries)))
    && (x.durableCommit && x.durable <= |x.log| ==> x.durable <= y.durable <= |y.log|)
    && r.h.acks.taken == (if y.role == Leader then s.h.acks.taken[(i, y.term) := |y.log|]
                          else if TookFrame(x, y, m) then
                            s.h.acks.taken[(i, y.term) := Max(TakenOf(s.h, i, y.term), |y.log|)]
                          else s.h.acks.taken)
    && r.h.acks.given == (if Vouched(r.h, y) > AckOf(s.h, i, y.term) then s.h.acks.given[(i, y.term) := Vouched(r.h, y)]
                          else s.h.acks.given)
    && (forall f :: f in r.net && f.AppendResp? && f !in s.net ==>
          && f.src == i && f.term == y.term && f.durable == y.durable
          && (f.success ==> TookFrame(x, y, m) && f.hint == |y.log|))
    && (y.role == Leader ==> forall j :: 0 <= j < s.n && j != i ==> PeerStep(s, x, y, m, j))
  }

  /** Where a leader's record of a peer comes from: nowhere, an earlier moment of the term, or an answer of the term. */
  ghost predicate PeerStep(s: System, x: Node, y: Node, m: Message, j: nat)
    requires x.Shaped() && y.Shaped() && j < x.n && y.n == x.n
  {
    var kept := x.role == Leader && x.term == y.term;
    var heard := kept && m in s.net && m.AppendResp? && m.src == j && m.term == y.term;
    && (|| y.matched[j] == 0
        || (kept && y.matched[j] <= x.matched[j])
        || (heard && m.success && y.matched[j] <= m.hint))
    && (x.durableCommit ==>
          || y.peerDurable[j] == 0
          || (kept && y.peerDurable[j] == x.peerDurable[j])
          || (heard && y.peerDurable[j] == m.durable && (m.success || m.durable <= x.matched[j])))
  }

  ghost predicate CommitStep(s: System, r: System, i: nat, m: Message)
    requires OnlyNode(s, r, i)
  {
    var x, y := s.nodes[i], r.nodes[i];
    || (y.commit == x.commit && y.applied == x.applied)
    || (y.commit == 0 && y.applied == [])
    || (x.role == Leader && y.role == Leader && y.term == x.term && y.log == x.log && y.commit > x.commit
        && y.commit == QuorumIndex(Recorded(y), s.n / 2 + 1) && TermAt(y.log, y.commit) == y.term
        && y.applied == x.applied + Pending(y.log, |x.applied|, y.commit))
    || (TookFrame(x, y, m) && y.commit == Min(m.leaderCommit, |y.log|) && y.commit > x.commit
        && y.applied == x.applied + Pending(y.log, |x.applied|, y.commit))
  }

  ghost predicate SafeStep(s: System, r: System, i: nat, m: Message) {
    && LogStep(s, r, i, m)
    && VoteStep(s, r, i, m) && AckStep(s, r, i, m) && CommitStep(s, r, i, m)
    && r.nodes[i].term >= s.nodes[i].term
  }

  // ----- what may still be chosen only shrinks -----

  lemma AcksGrow(s: System, r: System, i: nat, m: Message, v: nat, t: nat)
    requires OnlyNode(s, r, i) && AckStep(s, r, i, m)
    ensures AckOf(r.h, v, t) >= AckOf(s.h, v, t)
    ensures AckOf(r.h, v, t) > AckOf(s.h, v, t) ==>
              v == i && t == r.nodes[i].term && AckOf(r.h, v, t) == Vouched(r.h, r.nodes[i])
  {
    hide SameLog, Appended, TookFrame, Lost, TruncatesOnlyConflict, PeerStep, Vouched;
  }

  lemma TakenGrows(s: System, r: System, i: nat, m: Message, v: nat, t: nat)
    requires LogFacts(s) && AcksKnown(s) && RightfulLeaders(s) && SafeStep(s, r, i, m)
    ensures TakenOf(r.h, v, t) >= TakenOf(s.h, v, t)
    ensures TakenOf(r.h, v, t) > TakenOf(s.h, v, t) ==> v == i && t == r.nodes[i].term
  {
    hide VoteStep, CommitStep, Vouches, TakenIsGiven, AnswerKnown, PeerKnown, AckBounded, PeerStep, Vouched;
  }

  lemma NewOwnEntry(s: System, r: System, i: nat, m: Message, t: nat, k: nat)
    requires LogFacts(s) && SafeStep(s, r, i, m)
    requires OwnEntry(r.h, t, k) && !OwnEntry(s.h, t, k)
    ensures Appended(s.nodes[i], r.nodes[i]) && t == r.nodes[i].term && k == |r.nodes[i].log|
  {
    HistoryExtends(s, r, i, m);
  }

  lemma ChoosableBefore(s: System, r: System, i: nat, m: Message, t: nat, k: nat)
    requires LogFacts(s) && AcksKnown(s) && RightfulLeaders(s) && SafeStep(s, r, i, m)
    requires Choosable(r, t, k) && OwnEntry(s.h, t, k)
    ensures Choosable(s, t, k) && s.h.leaderLog[t][..k] == r.h.leaderLog[t][..k]
  {
    HistoryExtends(s, r, i, m);
    var q :| SupportedBy(r, q, t, k);
    forall v | v in q
      ensures MayAck(s, v, t, k)
    {
      assert MayAck(r, v, t, k);
      AcksGrow(s, r, i, m, v, t);
    }
    assert SupportedBy(s, q, t, k);
  }

  lemma ChosenStays(s: System, r: System, i: nat, m: Message, t: nat, k: nat)
    requires LogFacts(s) && AcksKnown(s) && RightfulLeaders(s) && SafeStep(s, r, i, m)
    requires Chosen(s, t, k)
    ensures Chosen(r, t, k) && s.h.leaderLog[t][..k] == r.h.leaderLog[t][..k]
  {
    HistoryExtends(s, r, i, m);
    var q :| AckedBy(s, q, t, k);
    forall v | v in q
      ensures AckOf(r.h, v, t) >= k
    {
      AcksGrow(s, r, i, m, v, t);
    }
    assert AckedBy(r, q, t, k);
  }

  lemma ChosenIsChoosable(s: System, t: nat, k: nat)
    requires WF(s) && Chosen(s, t, k)
    ensures Choosable(s, t, k)
  {
    var q :| AckedBy(s, q, t, k);
    assert SupportedBy(s, q, t, k);
  }

  lemma BackedStays(s: System, r: System, i: nat, m: Message, p: Log, t: nat, t': nat)
    requires LogFacts(s) && AcksKnown(s) && RightfulLeaders(s) && SafeStep(s, r, i, m)
    requires Backed(s, p, t) && t <= t'
    ensures Backed(r, p, t')
  {
    if p != [] {
      var u: nat, k: nat :| u <= t && Chosen(s, u, k) && |p| <= k && p <= s.h.leaderLog[u];
      ChosenStays(s, r, i, m, u, k);
      assert p <= r.h.leaderLog[u];
    }
  }

  // ----- the invariant is kept -----

  lemma KeepsTakenBounded(s: System, r: System, i: nat, m: Message, v: nat, t: nat)
    requires OnlyNode(s, r, i) && AckStep(s, r, i, m) && Extends(s.h.leaderLog, r.h.leaderLog)
    requires var x, y := s.nodes[i], r.nodes[i];
             && y.term >= x.term
             && (y.role == Leader ==> y.term in r.h.leaderLog && r.h.leaderLog[y.term] == y.log)
             && (TookFrame(x, y, m) ==> m.term in s.h.leaderLog && y.log <= s.h.leaderLog[m.term])
    requires (v, t) in r.h.acks.taken && ((v, t) in s.h.acks.taken ==> TakenBounded(s, v, t))
    ensures TakenBounded(r, v, t)
  {
    hide Vouched, PeerStep;
  }

  lemma KeepsAckBounded(s: System, r: System, i: nat, m: Message, v: nat, t: nat)
    requires OnlyNode(s, r, i) && AckStep(s, r, i, m) && Extends(s.h.leaderLog, r.h.leaderLog)
    requires r.nodes[i].term >= s.nodes[i].term && TakenOf(r.h, v, t) >= TakenOf(s.h, v, t)
    requires (v, t) in r.h.acks.taken ==> TakenBounded(r, v, t)
    requires (v, t) in r.h.acks.given && ((v, t) in s.h.acks.given ==> AckBounded(s, v, t))
    ensures AckBounded(r, v, t)
  {
    hide PeerStep, SameLog, Appended, TookFrame, Lost, TruncatesOnlyConflict;
  }

  /** A node that has accepted frames of its term never has its log shortened by another of them. */
  lemma NeverShortened(x: Log, y: Log, l: Log, prev: nat, entries: Log)
    requires x <= l && prev + |entries| <= |l| && entries == l[prev..prev + |entries|] && y == l[..prev + |entries|]
    requires TruncatesOnlyConflict(x, prev, entries)
    ensures |x| <= |y|
  {
    KeepsShared(x, l, x, prev, entries);
  }

  lemma ActorVouches(s: System, r: System, i: nat, m: Message)
    requires OnlyNode(s, r, i) && AckStep(s, r, i, m) && Vouches(s, i) && Extends(s.h.leaderLog, r.h.leaderLog)
    requires var x, y := s.nodes[i], r.nodes[i];
             && y.term >= x.term
             && (y.role == Leader ==> y.term in r.h.leaderLog && r.h.leaderLog[y.term] == y.log)
             && (TookFrame(x, y, m) ==>
                   && m.term in s.h.leaderLog && m.prevIdx + |m.entries| <= |s.h.leaderLog[m.term]|
                   && m.entries == s.h.leaderLog[m.term][m.prevIdx..m.prevIdx + |m.entries|]
                   && y.log == s.h.leaderLog[m.term][..m.prevIdx + |m.entries|])
             && (TakenOf(s.h, i, y.term) > 0 ==> y.term == x.term)
    ensures Vouches(r, i)
  {
    hide PeerStep, Accepts, TruncatesOnlyConflict;
    var x, y := s.nodes[i], r.nodes[i];
    if TookFrame(x, y, m) && y.term == x.term && TakenOf(s.h, i, x.term) > 0 && !x.durableCommit {
      NeverShortened(x.log, y.log, s.h.leaderLog[m.term], m.prevIdx, m.entries);
    }
  }

  lemma KeepsVouches(s: System, r: System, i: nat, m: Message, v: nat)
    requires LogFacts(s) && AcksKnown(s) && RightfulLeaders(s) && SafeStep(s, r, i, m) && LeaderLogs(r) && v < s.n
    ensures Vouches(r, v)
  {
    hide VoteStep, CommitStep, TakenIsGiven, AnswerKnown, PeerKnown, AckBounded, RightfulLeaders;
    HistoryExtends(s, r, i, m);
    var x, y := s.nodes[i], r.nodes[i];
    if v == i {
      if TookFrame(x, y, m) { FrameTaken(s, x, y, m); }
      ActorVouches(s, r, i, m);
    } else {
      OtherVouches(s, r, i, m, v);
    }
  }

  /** What an accepted frame carries and leaves, in terms of its leader's log. */
  lemma FrameTaken(s: System, x: Node, y: Node, m: Message)
    requires LogFacts(s) && m in s.net && TookFrame(x, y, m) && Sound(x.log, s.h.leaderLog)
    ensures m.term in s.h.leaderLog && m.prevIdx + |m.entries| <= |s.h.leaderLog[m.term]|
    ensures m.entries == s.h.leaderLog[m.term][m.prevIdx..m.prevIdx + |m.entries|]
    ensures y.log == s.h.leaderLog[m.term][..m.prevIdx + |m.entries|]
  {
    hide LeaderLogs, NodeLogs;
    FrameLog(s, x, y, m);
    assert FrameOf(s, m);
  }

  lemma OtherVouches(s: System, r: System, i: nat, m: Message, v: nat)
    requires OnlyNode(s, r, i) && AckStep(s, r, i, m) && v < s.n && v != i && Vouches(s, v)
    requires Extends(s.h.leaderLog, r.h.leaderLog)
    ensures Vouches(r, v)
  {
    hide PeerStep, SameLog, Appended, TookFrame, Lost, TruncatesOnlyConflict;
  }

  lemma KeepsTakenGiven(s: System, r: System, i: nat, m: Message, v: nat, t: nat)
    requires OnlyNode(s, r, i) && AckStep(s, r, i, m) && v < s.n && TakenIsGiven(s, v, t)
    requires TakenOf(r.h, v, t) > TakenOf(s.h, v, t) ==> v == i && t == r.nodes[i].term
    ensures TakenIsGiven(r, v, t)
  {
    hide PeerStep, SameLog, Appended, TookFrame, Lost, TruncatesOnlyConflict;
    AcksGrow(s, r, i, m, v, t);
  }

  lemma KeepsAnswer(s: System, r: System, i: nat, m: Message, f: Message)
    requires OnlyNode(s, r, i) && AckStep(s, r, i, m) && f in r.net && f.AppendResp?
    requires f in s.net ==> AnswerKnown(s, f)
    requires s.nodes[i].durableCommit ==> s.nodes[i].durable <= |s.nodes[i].log|
    requires TakenOf(r.h, f.src, f.term) >= TakenOf(s.h, f.src, f.term)
    requires TakenOf(r.h, f.src, f.term) > TakenOf(s.h, f.src, f.term) ==> f.src == i && f.term == r.nodes[i].term
    ensures AnswerKnown(r, f)
  {
    hide PeerStep, SameLog, Appended, Lost, TruncatesOnlyConflict, Accepts;
    AcksGrow(s, r, i, m, f.src, f.term);
  }

  lemma KeepsPeer(s: System, r: System, i: nat, m: Message, l: nat, j: nat)
    requires OnlyNode(s, r, i) && AckStep(s, r, i, m) && SamePolicy(s)
    requires l < s.n && j < s.n && l != j && r.nodes[l].role == Leader
    requires s.nodes[l].role == Leader ==> PeerKnown(s, l, j)
    requires m in s.net && m.AppendResp? && l == i && m.src == j && s.nodes[i].role == Leader ==> AnswerKnown(s, m)
    requires TakenOf(r.h, j, r.nodes[l].term) >= TakenOf(s.h, j, r.nodes[l].term)
    ensures PeerKnown(r, l, j)
  {
    hide SameLog, Appended, TookFrame, Lost, TruncatesOnlyConflict, Vouched;
    AcksGrow(s, r, i, m, j, r.nodes[l].term);
    if l == i { assert PeerStep(s, s.nodes[i], r.nodes[i], m, j); }
  }

  lemma KeepsBounds(s: System, r: System, i: nat, m: Message)
    requires LogFacts(s) && AcksKnown(s) && RightfulLeaders(s) && SafeStep(s, r, i, m) && LeaderLogs(r)
    ensures forall v, t :: (v, t) in r.h.acks.taken ==> TakenBounded(r, v, t)
    ensures forall v, t :: (v, t) in r.h.acks.given ==> AckBounded(r, v, t)
  {
    assert TookFrame(s.nodes[i], r.nodes[i], m) ==> m in s.net;
    hide VoteStep, CommitStep, Vouches, TakenIsGiven, AnswerKnown, PeerKnown, TakenBounded, AckBounded, AckStep,
         RightfulLeaders;
    HistoryExtends(s, r, i, m);
    if TookFrame(s.nodes[i], r.nodes[i], m) { FrameLog(s, s.nodes[i], r.nodes[i], m); }
    forall v, t | (v, t) in r.h.acks.taken
      ensures TakenBounded(r, v, t)
    {
      KeepsTakenBounded(s, r, i, m, v, t);
    }
    forall v, t | (v, t) in r.h.acks.given
      ensures AckBounded(r, v, t)
    {
      TakenGrows(s, r, i, m, v, t);
      KeepsAckBounded(s, r, i, m, v, t);
    }
  }

  lemma KeepsAcksKnown(s: System, r: System, i: nat, m: Message)
    requires LogFacts(s) && AcksKnown(s) && RightfulLeaders(s) && SafeStep(s, r, i, m) && LeaderLogs(r) && SamePolicy(s)
    ensures AcksKnown(r)
  {
    assert OnlyNode(s, r, i);
    hide LogFacts, RightfulLeaders, LogStep, VoteStep, AckStep, CommitStep, LeaderLogs;
    hide TakenIsGiven, AnswerKnown, PeerKnown, TakenBounded, AckBounded;
    KeepsBounds(s, r, i, m);
    forall v | 0 <= v < s.n
      ensures Vouches(r, v)
    {
      KeepsVouches(s, r, i, m, v);
    }
    forall v, t: nat | 0 <= v < s.n
      ensures TakenIsGiven(r, v, t)
    {
      TakenGrows(s, r, i, m, v, t);
      KeepsTakenGiven(s, r, i, m, v, t);
    }
    assert Vouches(s, i);
    forall f | f in r.net && f.AppendResp?
      ensures AnswerKnown(r, f)
    {
      TakenGrows(s, r, i, m, f.src, f.term);
      KeepsAnswer(s, r, i, m, f);
    }
    forall l: nat, j: nat | l < s.n && r.nodes[l].role == Leader && j < s.n && j != l
      ensures PeerKnown(r, l, j)
    {
      TakenGrows(s, r, i, m, j, r.nodes[l].term);
      KeepsPeer(s, r, i, m, l, j);
    }
  }

  lemma KeepsGoodVote(s: System, r: System, i: nat, m: Message, v: nat, t: nat)
    requires OnlyNode(s, r, i) && VoteStep(s, r, i, m) && VoteLogs(s)
    requires Extends(s.h.leaderLog, r.h.leaderLog) && r.nodes[i].term >= s.nodes[i].term
    requires Sound(s.nodes[i].log, s.h.leaderLog) && TermsUpTo(s.nodes[i].log, s.nodes[i].term)
    requires (v, t) in r.h.votes
    ensures GoodVote(r, v, t)
  {
    SoundExtends(r.h.voteLog[(v, t)], s.h.leaderLog, r.h.leaderLog);
    assert (v, t) in s.h.votes ==> GoodVote(s, v, t);
  }

  lemma KeepsRequests(s: System, r: System, i: nat, m: Message)
    requires OnlyNode(s, r, i) && VoteStep(s, r, i, m) && VoteLogs(s) && r.nodes[i].term >= s.nodes[i].term
    ensures r.h.voteLog.Keys == r.h.votes.Keys
    ensures forall f :: f in r.net && f.VoteReq? ==>
              && VotedFor(r, f.src, f.term, f.src)
              && f.lastIdx == |r.h.voteLog[(f.src, f.term)]| && f.lastTerm == LastTerm(r.h.voteLog[(f.src, f.term)])
    ensures forall j :: 0 <= j < r.n && r.nodes[j].role == Candidate ==>
              (j, r.nodes[j].term) in r.h.voteLog && r.h.voteLog[(j, r.nodes[j].term)] == r.nodes[j].log
  {
    hide GoodVote;
  }

  lemma KeepsVoteLogs(s: System, r: System, i: nat, m: Message)
    requires OnlyNode(s, r, i) && VoteStep(s, r, i, m) && VoteLogs(s)
    requires Extends(s.h.leaderLog, r.h.leaderLog) && r.nodes[i].term >= s.nodes[i].term
    requires Sound(s.nodes[i].log, s.h.leaderLog) && TermsUpTo(s.nodes[i].log, s.nodes[i].term)
    ensures VoteLogs(r)
  {
    KeepsRequests(s, r, i, m);
    hide GoodVote, VoteStep, Sound, TermsUpTo;
    forall v, t | (v, t) in r.h.votes
      ensures GoodVote(r, v, t)
    {
      KeepsGoodVote(s, r, i, m, v, t);
    }
  }

  lemma KeepsAckersHold(s: System, r: System, i: nat, m: Message)
    requires LogFacts(s) && AcksKnown(s) && RightfulLeaders(s) && SafeStep(s, r, i, m) && AcksKnown(r)
    requires AckersHold(s) && LeadersComplete(s)
    ensures AckersHold(r)
  {
    forall t: nat, k: nat, v: nat | Choosable(r, t, k) && v < s.n && t <= r.nodes[v].term && AckOf(r.h, v, t) >= k
      ensures r.h.leaderLog[t][..k] <= Firm(r.nodes[v])
    {
      AckerHolds(s, r, i, m, t, k, v);
    }
  }

  lemma AckerHolds(s: System, r: System, i: nat, m: Message, t: nat, k: nat, v: nat)
    requires LogFacts(s) && AcksKnown(s) && RightfulLeaders(s) && SafeStep(s, r, i, m) && AcksKnown(r)
    requires AckersHold(s) && LeadersComplete(s)
    requires Choosable(r, t, k) && v < s.n && t <= r.nodes[v].term && AckOf(r.h, v, t) >= k
    ensures r.h.leaderLog[t][..k] <= Firm(r.nodes[v])
  {
    assert OnlyNode(s, r, i);
    HistoryExtends(s, r, i, m);
    hide LogFacts, RightfulLeaders, LogStep, VoteStep, AckStep, CommitStep, AckersHold, LeadersComplete, Choosable,
         AcksKnown;
    AcksGrow(s, r, i, m, v, t);
    ChoosableOwn(r, t, k);
    if AckOf(s.h, v, t) < k {
      VouchedHeld(r, i, k);
    } else {
      OwnBefore(s, v, t, k, r.h);
      ChoosableBefore(s, r, i, m, t, k);
      OldAckerHolds(s, r, i, m, t, k, v);
    }
  }

  /** What is acknowledged is an entry the leader's log already had. */
  lemma OwnBefore(s: System, v: nat, t: nat, k: nat, h: History)
    requires WF(s) && AcksKnown(s) && AckOf(s.h, v, t) >= k && OwnEntry(h, t, k) && Extends(s.h.leaderLog, h.leaderLog)
    ensures OwnEntry(s.h, t, k)
  {
    assert AckBounded(s, v, t);
  }

  /** What a node vouches for in its own term, it holds firmly. */
  lemma VouchedHeld(r: System, i: nat, k: nat)
    requires WF(r) && i < r.n && AcksKnown(r) && 1 <= k <= Vouched(r.h, r.nodes[i])
    ensures r.nodes[i].term in r.h.leaderLog && k <= |r.h.leaderLog[r.nodes[i].term]|
    ensures r.h.leaderLog[r.nodes[i].term][..k] <= Firm(r.nodes[i])
  {
    assert Vouches(r, i);
  }

  lemma OldAckerHolds(s: System, r: System, i: nat, m: Message, t: nat, k: nat, v: nat)
    requires LogFacts(s) && AcksKnown(s) && LeadersComplete(s) && AckersHold(s) && SafeStep(s, r, i, m)
             && Choosable(s, t, k)
    requires v < s.n && t <= r.nodes[v].term && AckOf(s.h, v, t) >= k
    ensures s.h.leaderLog[t][..k] <= Firm(r.nodes[v])
  {
    HeldBefore(s, t, k, v);
    assert Vouches(s, i) && OnlyNode(s, r, i);
    var x, y := s.nodes[i], r.nodes[i];
    assert TookFrame(x, y, m) ==> m in s.net && Sound(x.log, s.h.leaderLog);
    assert TookFrame(x, y, m) ==>
        if x.durableCommit then |Firm(x)| <= |y.log| else TruncatesOnlyConflict(x.log, m.prevIdx, m.entries);
    hide AcksKnown, AckersHold, LogStep, VoteStep, AckStep, CommitStep, TruncatesOnlyConflict;
    if v == i {
      if TookFrame(x, y, m) { FrameHolds(s, x, y, m, t, k); }
      hide LogFacts, LeadersComplete, Choosable, TookFrame;
      StillFirm(s, r, i, m, s.h.leaderLog[t][..k]);
    }
  }

  /** A step keeps firmly held what is firmly held, unless it takes a frame that removes it. */
  lemma StillFirm(s: System, r: System, i: nat, m: Message, p: Log)
    requires OnlyNode(s, r, i) && AckStep(s, r, i, m) && p <= Firm(s.nodes[i])
    requires s.nodes[i].durableCommit ==> s.nodes[i].durable <= |s.nodes[i].log|
    requires TookFrame(s.nodes[i], r.nodes[i], m) ==> p <= r.nodes[i].log
    ensures p <= Firm(r.nodes[i])
  {
    hide PeerStep, TookFrame, TruncatesOnlyConflict, Vouched;
  }

  lemma HeldBefore(s: System, t: nat, k: nat, v: nat)
    requires WF(s) && AcksKnown(s) && AckersHold(s) && Choosable(s, t, k) && v < s.n && AckOf(s.h, v, t) >= k
    ensures s.h.leaderLog[t][..k] <= Firm(s.nodes[v]) && s.h.leaderLog[t][..k] <= s.nodes[v].log
  {
    assert AckBounded(s, v, t);
  }

  lemma CompleteUpTo(s: System, t: nat, k: nat, u: nat)
    requires WF(s) && LeadersComplete(s) && Choosable(s, t, k) && t <= u && u in s.h.leaderLog
    ensures s.h.leaderLog[t][..k] <= s.h.leaderLog[u]
  {}

  /** An accepted frame leaves a prefix of its leader's log, as long as the frame reaches. */
  lemma FrameReach(s: System, x: Node, y: Node, m: Message)
    requires LogFacts(s) && m in s.net && TookFrame(x, y, m) && Sound(x.log, s.h.leaderLog)
    ensures m.term in s.h.leaderLog
    ensures var l, end := s.h.leaderLog[m.term], m.prevIdx + |m.entries|;
            end <= |l| && m.entries == l[m.prevIdx..end] && y.log == l[..end]
  {
    FrameLog(s, x, y, m);
    assert FrameOf(s, m);
  }

  /** Accepting a frame keeps what may be chosen. */
  lemma FrameHolds(s: System, x: Node, y: Node, m: Message, t: nat, k: nat)
    requires LogFacts(s) && LeadersComplete(s) && m in s.net && TookFrame(x, y, m) && Sound(x.log, s.h.leaderLog)
    requires Choosable(s, t, k) && t <= m.term && k <= |s.h.leaderLog[t]|
    requires (s.h.leaderLog[t][..k] <= x.log && TruncatesOnlyConflict(x.log, m.prevIdx, m.entries)) || k <= |y.log|
    ensures s.h.leaderLog[t][..k] <= y.log
  {
    FrameReach(s, x, y, m);
    CompleteUpTo(s, t, k, m.term);
    hide LogFacts, LeadersComplete, TookFrame, Sound, Choosable, TruncatesOnlyConflict;
    if s.h.leaderLog[t][..k] <= x.log && TruncatesOnlyConflict(x.log, m.prevIdx, m.entries) {
      KeepsShared(x.log, s.h.leaderLog[m.term], s.h.leaderLog[t][..k], m.prevIdx, m.entries);
    }
  }

  lemma KeepsVotersHeld(s: System, r: System, i: nat, m: Message)
    requires LogFacts(s) && AcksKnown(s) && RightfulLeaders(s) && SafeStep(s, r, i, m) && ElectionInv(s)
    requires VoteLogs(s) && AckersHold(s) && VotersHeld(s)
    ensures VotersHeld(r)
  {
    forall t: nat, k: nat, v: nat, u: nat | Choosable(r, t, k) && t < u && (v, u) in r.h.voteLog && AckOf(r.h, v, t) >= k
      ensures r.h.leaderLog[t][..k] <= r.h.voteLog[(v, u)]
    {
      VoteLogAt(s, r, i, m, v, u);
      VoterHeld(s, r, i, m, t, k, v, u);
    }
  }

  lemma VoteLogAt(s: System, r: System, i: nat, m: Message, v: nat, u: nat)
    requires OnlyNode(s, r, i) && VoteStep(s, r, i, m) && VoteLogs(s) && VotesRecorded(s) && (v, u) in r.h.voteLog
    ensures (v, u) in s.h.voteLog ==> v < s.n && s.nodes[v].term >= u && r.h.voteLog[(v, u)] == s.h.voteLog[(v, u)]
    ensures (v, u) !in s.h.voteLog ==> v == i && u == r.nodes[i].term && r.h.voteLog[(v, u)] == s.nodes[i].log
  {}

  lemma VoterHeld(s: System, r: System, i: nat, m: Message, t: nat, k: nat, v: nat, u: nat)
    requires WF(s) && LogFacts(s) && AcksKnown(s) && RightfulLeaders(s) && SafeStep(s, r, i, m) && WF(r) && i < s.n
    requires LogStep(s, r, i, m) && AckersHold(s) && VotersHeld(s) && r.nodes[i].term >= s.nodes[i].term
    requires Choosable(r, t, k) && t < u && (v, u) in r.h.voteLog && AckOf(r.h, v, t) >= k
    requires (v, u) in s.h.voteLog ==> v < s.n && s.nodes[v].term >= u && r.h.voteLog[(v, u)] == s.h.voteLog[(v, u)]
    requires (v, u) !in s.h.voteLog ==> v == i && u == r.nodes[i].term && r.h.voteLog[(v, u)] == s.nodes[i].log
    ensures r.h.leaderLog[t][..k] <= r.h.voteLog[(v, u)]
  {
    assert OnlyNode(s, r, i) && AckStep(s, r, i, m);
    hide SafeStep, LogStep, LogFacts, RightfulLeaders, AckersHold, Choosable, AckStep;
    AcksGrow(s, r, i, m, v, t);
    HistoryExtends(s, r, i, m);
    ChoosableOwn(r, t, k);
    if !OwnEntry(s.h, t, k) {
      NewOwnEntry(s, r, i, m, t, k);
    } else {
      ChoosableBefore(s, r, i, m, t, k);
      HeldBefore(s, t, k, v);
    }
  }

  lemma ChoosableOwn(s: System, t: nat, k: nat)
    requires WF(s) && Choosable(s, t, k)
    ensures OwnEntry(s.h, t, k)
  {}

  /** A later leader's electors had all left the term, so nothing it did not already hold can be chosen in it. */
  lemma LateEntryNotChoosable(s: System, r: System, i: nat, m: Message, t: nat, k: nat, u: nat)
    requires LogFacts(s) && AcksKnown(s) && RightfulLeaders(s) && SafeStep(s, r, i, m)
    requires VotesRecorded(s) && u in s.h.leaderOf && Elected(s, u)
    requires OwnEntry(r.h, t, k) && !OwnEntry(s.h, t, k) && t < u
    ensures !Choosable(r, t, k)
  {
    NewOwnEntry(s, r, i, m, t, k);
    if Choosable(r, t, k) {
      var q :| SupportedBy(r, q, t, k);
      var v := QuorumsMeet(q, s.h.electors[u], s.n);
      assert MayAck(r, v, t, k);
      assert VotedFor(s, v, u, s.h.leaderOf[u]);
      AcksGrow(s, r, i, m, v, t);
      assert false;
    }
  }

  /** Some elector of the new leader acknowledged the entry, and held it when it voted. */
  lemma ElectorHeld(r: System, i: nat, t: nat, k: nat) returns (v: nat)
    requires WF(r) && i < r.n && VotesRecorded(r) && VoteLogs(r) && VotersHeld(r) && Choosable(r, t, k)
    requires var u := r.nodes[i].term;
             u in r.h.leaderOf && Elected(r, u) && r.h.leaderOf[u] == i && t < u
    ensures var u := r.nodes[i].term;
            && (v, u) in r.h.votes && r.h.votes[(v, u)] == i && GoodVote(r, v, u)
            && r.h.leaderLog[t][..k] <= r.h.voteLog[(v, u)]
  {
    var u := r.nodes[i].term;
    var q :| SupportedBy(r, q, t, k);
    v := QuorumsMeet(q, r.h.electors[u], r.n);
    assert MayAck(r, v, t, k) && VotedFor(r, v, u, i);
  }

  /** The log a new leader takes office with holds everything of earlier terms that may be chosen. */
  lemma NewLeaderComplete(s: System, r: System, i: nat, m: Message, t: nat, k: nat, v: nat)
    requires WF(s) && OnlyNode(s, r, i) && VoteStep(s, r, i, m) && VoteLogs(s) && LeadersComplete(s)
    requires forall u :: u in s.h.leaderLog ==> TermsUpTo(s.h.leaderLog[u], u)
    requires Sound(s.nodes[i].log, s.h.leaderLog)
    requires var u := r.nodes[i].term;
             && r.nodes[i].role == Leader && !(s.nodes[i].role == Leader && s.nodes[i].term == u)
             && (v, u) in r.h.votes && r.h.votes[(v, u)] == i && GoodVote(r, v, u)
    requires Choosable(s, t, k) && s.h.leaderLog[t][..k] <= r.h.voteLog[(v, r.nodes[i].term)]
    ensures s.h.leaderLog[t][..k] <= s.nodes[i].log
  {
    var x, u := s.nodes[i], r.nodes[i].term;
    assert r.h.voteLog[(i, u)] == x.log;
    var vote := r.h.voteLog[(v, u)];
    assert Sound(vote, s.h.leaderLog) by {
      if (v, u) in s.h.votes { assert GoodVote(s, v, u) && s.h.voteLog[(v, u)] == vote; }
    }
    UpToDateHolds(x.log, vote, s.h.leaderLog, t, k);
  }

  lemma KnownLeaderComplete(s: System, r: System, i: nat, m: Message, t: nat, k: nat, u: nat)
    requires LogFacts(s) && AcksKnown(s) && RightfulLeaders(s) && SafeStep(s, r, i, m) && LeadersComplete(s)
    requires Choosable(r, t, k) && OwnEntry(s.h, t, k) && t < u && u in s.h.leaderLog
    ensures r.h.leaderLog[t][..k] <= r.h.leaderLog[u]
  {
    HistoryExtends(s, r, i, m);
    ChoosableBefore(s, r, i, m, t, k);
  }

  lemma ElectedLeaderComplete(s: System, r: System, i: nat, m: Message, t: nat, k: nat)
    requires LogFacts(s) && AcksKnown(s) && RightfulLeaders(s) && SafeStep(s, r, i, m) && LeadersComplete(s)
    requires VoteLogs(s) && VotesRecorded(r) && VoteLogs(r) && VotersHeld(r)
    requires var u := r.nodes[i].term;
             && Appended(s.nodes[i], r.nodes[i]) && u !in s.h.leaderOf && t < u
             && u in r.h.leaderOf && Elected(r, u) && r.h.leaderOf[u] == i
    requires Choosable(r, t, k) && OwnEntry(s.h, t, k)
    ensures r.h.leaderLog[t][..k] <= r.nodes[i].log
  {
    assert OnlyNode(s, r, i);
    hide AcksKnown, AckStep, CommitStep, Choosable, VotesRecorded, VotersHeld;
    ChoosableBefore(s, r, i, m, t, k);
    var v := ElectorHeld(r, i, t, k);
    NewLeaderComplete(s, r, i, m, t, k, v);
  }

  lemma LaterLeaderComplete(s: System, r: System, i: nat, m: Message, t: nat, k: nat, u: nat)
    requires LogFacts(s) && AcksKnown(s) && RightfulLeaders(s) && SafeStep(s, r, i, m) && LeadersComplete(s)
    requires VoteLogs(s) && VotesRecorded(r) && VoteLogs(r) && VotersHeld(r)
    requires VotesRecorded(s) && (u in s.h.leaderOf ==> Elected(s, u)) && (u in r.h.leaderOf ==> Elected(r, u))
    requires RightfulLeaders(r) && Choosable(r, t, k) && t < u && u in r.h.leaderLog
    ensures r.h.leaderLog[t][..k] <= r.h.leaderLog[u]
  {
    HistoryExtends(s, r, i, m);
    if !OwnEntry(s.h, t, k) {
      NewOwnEntry(s, r, i, m, t, k);
      LateEntryNotChoosable(s, r, i, m, t, k, u);
    } else if u in s.h.leaderLog {
      KnownLeaderComplete(s, r, i, m, t, k, u);
    } else {
      ElectedLeaderComplete(s, r, i, m, t, k);
    }
  }

  lemma KeepsLeadersComplete(s: System, r: System, i: nat, m: Message)
    requires LogFacts(s) && AcksKnown(s) && RightfulLeaders(s) && SafeStep(s, r, i, m) && LeadersComplete(s)
    requires VoteLogs(s) && VotesRecorded(r) && VoteLogs(r) && VotersHeld(r)
    requires VotesRecorded(s) && LeadersElected(s) && LeadersElected(r)
    ensures LeadersComplete(r)
  {
    forall t: nat, k: nat, u: nat | Choosable(r, t, k) && t < u && u in r.h.leaderLog
      ensures r.h.leaderLog[t][..k] <= r.h.leaderLog[u]
    {
      LaterLeaderComplete(s, r, i, m, t, k, u);
    }
  }

  // ----- commit -----

  lemma BackedPrefix(s: System, p: Log, q: Log, t: nat)
    requires WF(s) && Backed(s, q, t) && p <= q
    ensures Backed(s, p, t)
  {
    if p != [] {
      var u: nat, k: nat :| u <= t && Chosen(s, u, k) && |q| <= k && q <= s.h.leaderLog[u];
    }
  }

  /** What is backed up to a term is in the log of that term's leader. */
  lemma BackedInLeaderLog(s: System, p: Log, t: nat, u: nat)
    requires WF(s) && LeadersComplete(s) && Backed(s, p, t) && t <= u && u in s.h.leaderLog
    ensures p <= s.h.leaderLog[u]
  {
    if p != [] {
      var w: nat, k: nat :| w <= t && Chosen(s, w, k) && |p| <= k && p <= s.h.leaderLog[w];
      ChosenIsChoosable(s, w, k);
      assert p <= s.h.leaderLog[w][..k];
    }
  }

  /** The majority position of a leader's own term is chosen. */
  lemma LeaderCommitChosen(r: System, i: nat)
    requires WF(r) && AcksKnown(r) && i < r.n && SamePolicy(r)
    requires TakenOf(r.h, i, r.nodes[i].term) == |r.nodes[i].log|
    requires var y := r.nodes[i];
             && y.role == Leader && y.term >= 1 && y.term in r.h.leaderLog && r.h.leaderLog[y.term] == y.log
             && y.commit == QuorumIndex(Recorded(y), r.n / 2 + 1) && y.commit > 0
             && TermAt(y.log, y.commit) == y.term
    ensures Chosen(r, r.nodes[i].term, r.nodes[i].commit)
  {
    var y := r.nodes[i];
    var rec := Recorded(y);
    CountIsCardinality(rec, y.commit);
    var q := set k: nat | k < |rec| && rec[k] >= y.commit;
    forall v | v in q ensures AckOf(r.h, v, y.term) >= y.commit {
      RecordedKnown(r, i, v);
    }
    assert AckedBy(r, q, y.term, y.commit);
  }

  /** A leader counts for no node more than that node vouches for. */
  lemma RecordedKnown(r: System, i: nat, v: nat)
    requires WF(r) && AcksKnown(r) && i < r.n && v < r.n && r.nodes[i].role == Leader && SamePolicy(r)
    requires TakenOf(r.h, i, r.nodes[i].term) == |r.nodes[i].log|
    ensures Recorded(r.nodes[i])[v] <= AckOf(r.h, v, r.nodes[i].term)
  {
    if v == i {
      assert Vouches(r, i);
    } else {
      assert PeerKnown(r, i, v) && TakenIsGiven(r, v, r.nodes[i].term);
    }
  }

  lemma ApplyExtends(old_: Log, log: Log, c: nat, d: nat)
    requires c < d <= |log| && old_ == log[..c]
    ensures old_ + Pending(log, |old_|, d) == log[..d]
  {}

  lemma FollowerCommit(s: System, r: System, i: nat, m: Message)
    requires LogFacts(s) && AcksKnown(s) && RightfulLeaders(s) && SafeStep(s, r, i, m)
    requires m.Append? && FrameCommitOk(s, m) && TookFrame(s.nodes[i], r.nodes[i], m)
    ensures Backed(r, r.nodes[i].log[..Min(m.leaderCommit, |r.nodes[i].log|)], m.term)
  {
    hide AcksKnown, RightfulLeaders, VoteStep, CommitStep, Backed;
    var x, y := s.nodes[i], r.nodes[i];
    FrameLog(s, x, y, m);
    var l := s.h.leaderLog[m.term];
    BackedPrefix(s, y.log[..Min(m.leaderCommit, |y.log|)], l[..m.leaderCommit], m.term);
    BackedStays(s, r, i, m, y.log[..Min(m.leaderCommit, |y.log|)], m.term, m.term);
  }

  lemma BackedComparable(s: System, p: Log, t: nat, q: Log, u: nat)
    requires WF(s) && LeadersComplete(s) && Backed(s, p, t) && Backed(s, q, u)
    ensures p <= q || q <= p
  {
    if p != [] && q != [] {
      var w: nat, k: nat :| w <= t && Chosen(s, w, k) && |p| <= k && p <= s.h.leaderLog[w];
      var x: nat, l: nat :| x <= u && Chosen(s, x, l) && |q| <= l && q <= s.h.leaderLog[x];
      var z := Max(w, x);
      assert Backed(s, p, w) && Backed(s, q, x);
      BackedInLeaderLog(s, p, w, z);
      BackedInLeaderLog(s, q, x, z);
    }
  }

  /** Raising the commit index over a backed prefix applies exactly the new entries, also where the log
      had been cut below the old one. */
  lemma RaisedCommitOk(s: System, r: System, i: nat, m: Message)
    requires OnlyNode(s, r, i) && CommitStep(s, r, i, m) && LeadersComplete(r)
    requires var x, y := s.nodes[i], r.nodes[i];
             && |x.applied| == x.commit && Backed(r, x.applied, y.term)
             && (y.commit > x.commit ==> y.commit <= |y.log| && Backed(r, y.log[..y.commit], y.term))
    ensures CommitOk(r, i)
  {
    var x, y := s.nodes[i], r.nodes[i];
    assert Backed(r, [], y.term);
    hide Backed, LeadersComplete, QuorumIndex, Recorded;
    if y.commit > x.commit {
      BackedComparable(r, x.applied, y.term, y.log[..y.commit], y.term);
      assert x.applied == y.log[..y.commit][..x.commit] == y.log[..x.commit];
      ApplyExtends(x.applied, y.log, x.commit, y.commit);
    }
  }

  lemma ActorCommitOk(s: System, r: System, i: nat, m: Message)
    requires LogFacts(s) && AcksKnown(s) && RightfulLeaders(s) && SafeStep(s, r, i, m) && LeadersComplete(r)
    requires CommitOk(s, i) && (m in s.net && m.Append? ==> FrameCommitOk(s, m))
    requires var y := r.nodes[i];
             y.role == Leader && y.commit > s.nodes[i].commit ==>
               Chosen(r, y.term, y.commit) && r.h.leaderLog[y.term] == y.log
    ensures CommitOk(r, i)
  {
    var x, y := s.nodes[i], r.nodes[i];
    assert |x.applied| == x.commit && Backed(s, x.applied, x.term);
    hide LogFacts, AcksKnown, RightfulLeaders, LeadersComplete, VoteStep, CommitOk;
    BackedStays(s, r, i, m, x.applied, x.term, y.term);
    if y.commit > x.commit {
      if TookFrame(x, y, m) {
        FollowerCommit(s, r, i, m);
      } else {
        assert Backed(r, y.log[..y.commit], y.term);
      }
    }
    RaisedCommitOk(s, r, i, m);
  }

  lemma OtherCommitOk(s: System, r: System, i: nat, m: Message, j: nat)
    requires LogFacts(s) && AcksKnown(s) && RightfulLeaders(s) && SafeStep(s, r, i, m)
    requires j < s.n && j != i && CommitOk(s, j)
    ensures CommitOk(r, j)
  {
    BackedStays(s, r, i, m, s.nodes[j].applied, s.nodes[j].term, s.nodes[j].term);
  }

  lemma FrameStaysOk(s: System, r: System, i: nat, m: Message, f: Message)
    requires LogFacts(s) && AcksKnown(s) && RightfulLeaders(s) && SafeStep(s, r, i, m)
    requires f.Append? && FrameCommitOk(s, f)
    ensures FrameCommitOk(r, f)
  {
    hide LogFacts, AcksKnown, RightfulLeaders, VoteStep, AckStep, CommitStep;
    HistoryExtends(s, r, i, m);
    var p := s.h.leaderLog[f.term][..f.leaderCommit];
    BackedStays(s, r, i, m, p, f.term, f.term);
    assert p == r.h.leaderLog[f.term][..f.leaderCommit];
  }

  /** A leader announces its own commit index. */
  lemma SentFrameOk(s: System, i: nat, f: Message)
    requires WF(s) && i < s.n && LeaderLogs(s) && CommitOk(s, i) && s.nodes[i].role == Leader && LeadersComplete(s)
    requires f.dst < s.n && f == AppendFrame(s.nodes[i], f.dst)
    ensures FrameCommitOk(s, f)
  {
    var x := s.nodes[i];
    assert x.term in s.h.leaderLog && s.h.leaderLog[x.term] == x.log;
    BackedInLeaderLog(s, x.applied, x.term, x.term);
    hide Backed, LeadersComplete, LeaderLogs;
    assert x.log[..x.commit] == x.applied;
  }

  lemma LeaderRaised(s: System, r: System, i: nat, m: Message)
    requires SafeStep(s, r, i, m) && AcksKnown(r) && LeaderLogs(r) && SamePolicy(r)
    requires r.nodes[i].role == Leader ==> r.nodes[i].term >= 1
    requires r.nodes[i].role == Leader && r.nodes[i].commit > s.nodes[i].commit
    ensures Chosen(r, r.nodes[i].term, r.nodes[i].commit) && r.h.leaderLog[r.nodes[i].term] == r.nodes[i].log
  {
    assert OnlyNode(s, r, i) && r.nodes[i].term in r.h.leaderLog && r.h.leaderLog[r.nodes[i].term] == r.nodes[i].log;
    hide AcksKnown, LogStep, VoteStep, LeaderLogs, Chosen, PeerStep, SamePolicy, Recorded, QuorumIndex;
    LeaderCommitChosen(r, i);
  }

  lemma FramesStayOk(s: System, r: System, i: nat, m: Message)
    requires LogFacts(s) && AcksKnown(s) && RightfulLeaders(s) && SafeStep(s, r, i, m) && CommitsBacked(s)
    requires LeadersComplete(s)
    ensures forall f :: f in r.net && f.Append? ==> FrameCommitOk(r, f)
  {
    hide AcksKnown, RightfulLeaders, VoteStep, AckStep, CommitStep, CommitOk, FrameCommitOk, LeadersComplete;
    forall f | f in r.net && f.Append?
      ensures FrameCommitOk(r, f)
    {
      if f !in s.net { SentFrameOk(s, i, f); }
      FrameStaysOk(s, r, i, m, f);
    }
  }

  lemma KeepsCommitsBacked(s: System, r: System, i: nat, m: Message)
    requires LogFacts(s) && AcksKnown(s) && RightfulLeaders(s) && SafeStep(s, r, i, m)
    requires CommitsBacked(s) && LeadersComplete(s) && LeadersComplete(r) && AcksKnown(r) && LeaderLogs(r)
             && SamePolicy(r)
    requires OnlyNode(s, r, i) && (r.nodes[i].role == Leader ==> r.nodes[i].term >= 1)
    ensures CommitsBacked(r)
  {
    hide LogFacts, AcksKnown, RightfulLeaders, SafeStep, LeadersComplete, LeaderLogs, SamePolicy, CommitOk,
         FrameCommitOk, Chosen;
    if r.nodes[i].role == Leader && r.nodes[i].commit > s.nodes[i].commit { LeaderRaised(s, r, i, m); }
    ActorCommitOk(s, r, i, m);
    forall j | 0 <= j < s.n && j != i
      ensures CommitOk(r, j)
    {
      OtherCommitOk(s, r, i, m, j);
    }
    FramesStayOk(s, r, i, m);
  }

  // ----- every disciplined step is a safe step -----

  ghost predicate CastsVote(x: Node, y: Node) {
    y.votedFor >= 0 && (y.term > x.term || x.votedFor < 0)
  }

  ghost predicate VoteEffect(x: Node, o: Out, a: Action) {
    var y := o.node;
    && (CastsVote(x, y) ==>
          || y.votedFor == x.id
          || (a.Deliver? && a.m.VoteReq? && a.m.src == y.votedFor && a.m.term == y.term
              && LogIsCurrent(x.log, a.m.lastIdx, a.m.lastTerm)))
    && (forall f :: f in o.msgs && f.VoteReq? ==>
          CastsVote(x, y) && f.src == x.id == y.votedFor && f.term == y.term
          && f.lastIdx == |x.log| && f.lastTerm == LastTerm(x.log))
    && (y.role == Candidate ==>
          y.log == x.log && ((x.role == Candidate && y.term == x.term) || (CastsVote(x, y) && y.votedFor == x.id)))
    && (y.role == Leader && !(x.role == Leader && y.term == x.term) ==>
          Appended(x, y) && ((x.role == Candidate && y.term == x.term) || (CastsVote(x, y) && y.votedFor == x.id)))
    && y.term >= x.term
  }

  ghost predicate AckEffect(x: Node, o: Out, a: Action)
    requires x.Shaped() && o.node.Shaped() && o.node.n == x.n
  {
    var y := o.node;
    && y.durableCommit == x.durableCommit
    && (SameLog(x, y) || Appended(x, y) || (a.Deliver? && TookFrame(x, y, a.m))
        || (Restarted(x, y) && |y.log| >= |Firm(x)|))
    && (x.durableCommit && x.durable <= |x.log| ==> x.durable <= y.durable <= |y.log|)
    && (forall f :: f in o.msgs && f.AppendResp? ==>
          && f.src == x.id && f.term == y.term && f.durable == y.durable
          && (f.success ==> a.Deliver? && TookFrame(x, y, a.m) && f.hint == |y.log|))
    && (y.role == Leader ==> forall j :: 0 <= j < x.n && j != x.id ==> PeerEffect(x, y, a, j))
  }

  ghost predicate PeerEffect(x: Node, y: Node, a: Action, j: nat)
    requires x.Shaped() && y.Shaped() && j < x.n && y.n == x.n
  {
    var kept := x.role == Leader && x.term == y.term;
    var heard := kept && a.Deliver? && a.m.AppendResp? && a.m.src == j && a.m.term == y.term;
    && (|| y.matched[j] == 0
        || (kept && y.matched[j] <= x.matched[j])
        || (heard && a.m.success && y.matched[j] <= a.m.hint))
    && (x.durableCommit ==>
          || y.peerDurable[j] == 0
          || (kept && y.peerDurable[j] == x.peerDurable[j])
          || (heard && y.peerDurable[j] == a.m.durable && (a.m.success || a.m.durable <= x.matched[j])))
  }

  ghost predicate CommitEffect(x: Node, o: Out, a: Action)
    requires o.node.Shaped()
  {
    var y := o.node;
    || (y.commit == x.commit && y.applied == x.applied)
    || (y.commit == 0 && y.applied == [])
    || (x.role == Leader && y.role == Leader && y.term == x.term && y.log == x.log && y.commit > x.commit
        && y.commit == QuorumIndex(Recorded(y), y.n / 2 + 1) && TermAt(y.log, y.commit) == y.term
        && y.applied == x.applied + Pending(y.log, |x.applied|, y.commit))
    || (a.Deliver? && TookFrame(x, y, a.m) && y.commit == Min(a.m.leaderCommit, |y.log|) && y.commit > x.commit
        && y.applied == x.applied + Pending(y.log, |x.applied|, y.commit))
  }

  ghost predicate CanAct(x: Node, a: Action) {
    && x.Shaped()
    && (a.Deliver? ==> a.m.src < x.n)
    && (a.Replicate? || a.Reconnect? ==> a.j < x.n)
    && (a.Crash? ==> a.keep <= |x.log|)
    && (a.ClientAppend? || a.Flush? ==> x.role == Leader)
    && (forall rule: Rule :: Obeys(x, a, rule))
  }

  /** Frames of the log plane, as opposed to ballots. */
  ghost predicate LogFrame(a: Action) {
    a.Deliver? && (a.m.Append? || a.m.AppendResp?)
  }

  lemma BallotVoteEffect(x: Node, a: Action)
    requires CanAct(x, a) && a.Deliver? && !LogFrame(a)
    ensures VoteEffect(x, Effect(x, a), a)
  {
    match a.m {
      case PreVote(_, _, _, _, _) =>
      case PreVoteResp(_, _, _, _) =>
      case VoteReq(_, _, _, _, _) =>
      case VoteResp(_, _, _, _) =>
    }
  }

  lemma LogFrameVoteEffect(x: Node, a: Action)
    requires CanAct(x, a) && LogFrame(a)
    ensures VoteEffect(x, Effect(x, a), a)
  {
    hide QuorumIndex, Recorded, Pending;
    match a.m {
      case Append(_, _, _, _, _, _, _) =>
      case AppendResp(_, _, _, _, _, _) =>
    }
  }

  lemma LocalVoteEffect(x: Node, a: Action)
    requires CanAct(x, a) && !a.Deliver?
    ensures VoteEffect(x, Effect(x, a), a)
  {
    match a {
      case Timeout(_) =>
      case ClientAppend(_, _, _) =>
      case Replicate(_, _) =>
      case Flush(_) =>
      case Fsync(_) =>
      case Reconnect(_, _) =>
      case Crash(_, _) =>
    }
  }

  lemma BallotAckEffect(x: Node, a: Action)
    requires CanAct(x, a) && SameNode(x, Effect(x, a).node) && a.Deliver? && !LogFrame(a)
    ensures AckEffect(x, Effect(x, a), a)
  {
    match a.m {
      case PreVote(_, _, _, _, _) =>
      case PreVoteResp(_, _, _, _) =>
      case VoteReq(_, _, _, _, _) =>
      case VoteResp(_, _, _, _) =>
    }
  }

  lemma AppendAckEffect(x: Node, a: Action)
    requires CanAct(x, a) && SameNode(x, Effect(x, a).node) && a.Deliver? && a.m.Append?
    ensures AckEffect(x, Effect(x, a), a)
  {
    hide QuorumIndex, Recorded, Pending;
    assert Obeys(x, a, CoversDurable);
  }

  lemma AnswerAckEffect(x: Node, a: Action)
    requires CanAct(x, a) && SameNode(x, Effect(x, a).node) && a.Deliver? && a.m.AppendResp?
    ensures AckEffect(x, Effect(x, a), a)
  {
    hide QuorumIndex, Recorded, Pending;
    assert Obeys(x, a, RejectsClaimMatched) && Obeys(x, a, DropsOldAnswers);
  }

  lemma TurnAckEffect(x: Node, a: Action)
    requires CanAct(x, a) && SameNode(x, Effect(x, a).node) && (a.Timeout? || a.Crash?)
    ensures AckEffect(x, Effect(x, a), a)
  {
    hide TookFrame, QuorumIndex;
    assert Obeys(x, a, RestartKeepsFirm);
    match a {
      case Timeout(_) =>
      case Crash(_, _) =>
    }
  }

  lemma LocalAckEffect(x: Node, a: Action)
    requires CanAct(x, a) && SameNode(x, Effect(x, a).node) && !a.Deliver?
    ensures AckEffect(x, Effect(x, a), a)
  {
    hide TookFrame, QuorumIndex;
    match a {
      case Timeout(_) => TurnAckEffect(x, a);
      case ClientAppend(_, _, _) =>
      case Replicate(_, _) =>
      case Flush(_) =>
      case Fsync(_) =>
      case Reconnect(_, _) =>
      case Crash(_, _) => TurnAckEffect(x, a);
    }
  }

  lemma BallotCommitEffect(x: Node, a: Action)
    requires CanAct(x, a) && SameNode(x, Effect(x, a).node) && a.Deliver? && !LogFrame(a)
    ensures CommitEffect(x, Effect(x, a), a)
  {
    match a.m {
      case PreVote(_, _, _, _, _) =>
      case PreVoteResp(_, _, _, _) =>
      case VoteReq(_, _, _, _, _) =>
      case VoteResp(_, _, _, _) =>
    }
  }

  lemma AppendCommitEffect(x: Node, a: Action)
    requires CanAct(x, a) && SameNode(x, Effect(x, a).node) && a.Deliver? && a.m.Append?
    ensures CommitEffect(x, Effect(x, a), a)
  {
    hide QuorumIndex, Recorded, Pending;
  }

  lemma AnswerCommitEffect(x: Node, a: Action)
    requires CanAct(x, a) && SameNode(x, Effect(x, a).node) && a.Deliver? && a.m.AppendResp?
    ensures CommitEffect(x, Effect(x, a), a)
  {
    hide QuorumIndex, Pending;
  }

  lemma LocalCommitEffect(x: Node, a: Action)
    requires CanAct(x, a) && SameNode(x, Effect(x, a).node) && !a.Deliver?
    ensures CommitEffect(x, Effect(x, a), a)
  {
    match a {
      case Timeout(_) =>
      case ClientAppend(_, _, _) =>
      case Replicate(_, _) =>
      case Flush(_) =>
      case Fsync(_) =>
      case Reconnect(_, _) =>
      case Crash(_, _) =>
    }
  }

  lemma EveryEffectSafe(x: Node, a: Action)
    requires CanAct(x, a) && SameNode(x, Effect(x, a).node)
    ensures VoteEffect(x, Effect(x, a), a) && AckEffect(x, Effect(x, a), a) && CommitEffect(x, Effect(x, a), a)
  {
    if LogFrame(a) {
      LogFrameVoteEffect(x, a);
      if a.m.Append? {
        AppendAckEffect(x, a);
        AppendCommitEffect(x, a);
      } else {
        AnswerAckEffect(x, a);
        AnswerCommitEffect(x, a);
      }
    } else if a.Deliver? {
      BallotVoteEffect(x, a);
      BallotAckEffect(x, a);
      BallotCommitEffect(x, a);
    } else {
      LocalVoteEffect(x, a);
      LocalAckEffect(x, a);
      LocalCommitEffect(x, a);
    }
  }

  lemma BecameVoteStep(s: System, i: nat, o: Out, a: Action, acks: bool)
    requires WF(s) && VotesRecorded(s) && Enabled(s, a) && i == Actor(a) && SameNode(s.nodes[i], o.node)
    requires VoteEffect(s.nodes[i], o, a)
    ensures VoteStep(s, Became(s, i, o, Used(a), Counted(s.nodes[i], a), acks), i,
                     if a.Deliver? then a.m else VoteResp(0, 0, 0, false))
  {
    var r := Became(s, i, o, Used(a), Counted(s.nodes[i], a), acks);
    var m := if a.Deliver? then a.m else VoteResp(0, 0, 0, false);
    if CastsVote(s.nodes[i], o.node) { assert NewVote(s, r, i, m); }
  }

  lemma BecameAckStep(s: System, i: nat, o: Out, a: Action, acks: bool)
    requires WF(s) && Enabled(s, a) && i == Actor(a) && SameNode(s.nodes[i], o.node)
    requires AckEffect(s.nodes[i], o, a)
    requires acks <==> a.Deliver? && TookFrame(s.nodes[i], o.node, a.m)
    requires !s.nodes[i].durableCommit && a.Deliver? && TookFrame(s.nodes[i], o.node, a.m) ==>
               TruncatesOnlyConflict(s.nodes[i].log, a.m.prevIdx, a.m.entries)
    ensures AckStep(s, Became(s, i, o, Used(a), Counted(s.nodes[i], a), acks), i,
                    if a.Deliver? then a.m else VoteResp(0, 0, 0, false))
  {
    var r := Became(s, i, o, Used(a), Counted(s.nodes[i], a), acks);
    var m := if a.Deliver? then a.m else VoteResp(0, 0, 0, false);
    ObservedAcks(s, i, o, Used(a), Counted(s.nodes[i], a), acks);
    hide Observe, Vouched, ObserveTaken, TookFrame, SameLog, Appended, Restarted, TruncatesOnlyConflict;
    if o.node.role == Leader {
      forall j | 0 <= j < s.n && j != i
        ensures PeerStep(s, s.nodes[i], o.node, m, j)
      {
        assert PeerEffect(s.nodes[i], o.node, a, j);
      }
    }
  }

  /** What the history records of the acknowledgements a step gives. */
  lemma ObservedAcks(s: System, i: nat, o: Out, used: set<Message>, counted: set<nat>, acks: bool)
    requires WF(s) && i < s.n && SameNode(s.nodes[i], o.node)
    ensures var r, y := Became(s, i, o, used, counted, acks), o.node;
            && r.h.acks.taken == ObserveTaken(s.h, y, acks)
            && r.h.acks.given == (if Vouched(r.h, y) > AckOf(s.h, i, y.term)
                                  then s.h.acks.given[(i, y.term) := Vouched(r.h, y)]
                                  else s.h.acks.given)
  {
    hide ObserveTaken, ObserveVote, ObserveGrant, ObserveLeader;
  }

  lemma BecameCommitStep(s: System, i: nat, o: Out, a: Action, acks: bool)
    requires WF(s) && Enabled(s, a) && i == Actor(a) && SameNode(s.nodes[i], o.node)
    requires CommitEffect(s.nodes[i], o, a)
    ensures CommitStep(s, Became(s, i, o, Used(a), Counted(s.nodes[i], a), acks), i,
                       if a.Deliver? then a.m else VoteResp(0, 0, 0, false))
  {}

  lemma DisciplinedStepSafe(s: System, a: Action)
    requires LogInv(s) && Enabled(s, a) && Disciplined(s, a)
    ensures SafeStep(s, Step(s, a), Actor(a), if a.Deliver? then a.m else VoteResp(0, 0, 0, false))
  {
    var i := Actor(a);
    var x := s.nodes[i];
    var o := Effect(x, a);
    EffectShaped(x, a);
    EveryLogEffect(x, a);
    assert Obeys(x, a, CutsConflictsOnly);
    EveryEffectSafe(x, a);
    StepIsLogStep(s, a);
    BecameVoteStep(s, i, o, a, Accepted(x, a));
    BecameAckStep(s, i, o, a, Accepted(x, a));
    BecameCommitStep(s, i, o, a, Accepted(x, a));
  }

  lemma SafeStepKeeps(s: System, r: System, i: nat, m: Message)
    requires SafeInv(s) && LogInv(r) && SafeStep(s, r, i, m)
    ensures AcksKnown(r) && VoteLogs(r) && AckersHold(r) && VotersHeld(r)
  {
    hide AcksKnown, VoteLogs, LeadersComplete, AckersHold, VotersHeld, CommitsBacked, SafeStep, SamePolicy;
    hide NodeLogs, LeaderLogs, Frames, RightfulLeaders;
    hide VotesRecorded, CountersHonest, BallotsHonest, BallotsUnique, LeadersElected;
    ActorRules(s, r, i, m);
    VotesStayLogged(s, r, i, m);
    KeepsAcksKnown(s, r, i, m);
    KeepsAckersHold(s, r, i, m);
    KeepsVotersHeld(s, r, i, m);
  }

  lemma VotesStayLogged(s: System, r: System, i: nat, m: Message)
    requires LogFacts(s) && VoteLogs(s) && SafeStep(s, r, i, m) && AcksKnown(s) && RightfulLeaders(s)
    ensures VoteLogs(r)
  {
    hide AcksKnown, VoteLogs, AckStep, CommitStep, VoteStep, LeaderLogs, Frames;
    HistoryExtends(s, r, i, m);
    hide LogStep;
    KeepsVoteLogs(s, r, i, m);
  }

  lemma ActorRules(s: System, r: System, i: nat, m: Message)
    requires LogInv(s) && LogInv(r) && SafeStep(s, r, i, m)
    ensures OnlyNode(s, r, i) && RightfulLeaders(s) && (r.nodes[i].role == Leader ==> r.nodes[i].term >= 1)
  {
    hide VoteStep, AckStep, CommitStep, LogFacts, VotesRecorded, CountersHonest, BallotsHonest, BallotsUnique;
    assert r.nodes[i].role == Leader ==> Elected(r, r.nodes[i].term);
  }

  lemma SafeStepKeepsInv(s: System, r: System, i: nat, m: Message)
    requires SafeInv(s) && LogInv(r) && SamePolicy(r) && SafeStep(s, r, i, m)
    ensures SafeInv(r)
  {
    hide AcksKnown, VoteLogs, LeadersComplete, AckersHold, VotersHeld, CommitsBacked, SafeStep, SamePolicy;
    hide NodeLogs, LeaderLogs, Frames, RightfulLeaders;
    hide VotesRecorded, CountersHonest, BallotsHonest, BallotsUnique, LeadersElected;
    ActorRules(s, r, i, m);
    SafeStepKeeps(s, r, i, m);
    KeepsLeadersComplete(s, r, i, m);
    KeepsCommitsBacked(s, r, i, m);
  }

  lemma StepKeepsPolicy(s: System, a: Action)
    requires WF(s) && Enabled(s, a) && SamePolicy(s)
    ensures SamePolicy(Step(s, a))
  {
    EffectShaped(s.nodes[Actor(a)], a);
  }

  lemma StepKeepsSafeInv(s: System, a: Action)
    requires SafeInv(s) && Enabled(s, a) && Disciplined(s, a)
    ensures SafeInv(Step(s, a))
  {
    StepKeepsLogInv(s, a);
    StepKeepsPolicy(s, a);
    DisciplinedStepSafe(s, a);
    SafeStepKeepsInv(s, Step(s, a), Actor(a), if a.Deliver? then a.m else VoteResp(0, 0, 0, false));
  }

  ghost predicate DisciplinedRun(s: System, run: seq<Action>)
    requires WF(s) && ValidRun(s, run)
    decreases |run|
  {
    run == [] || (Disciplined(s, run[0]) && DisciplinedRun(Step(s, run[0]), run[1..]))
  }

  lemma {:induction false} RunKeepsSafeInv(s: System, run: seq<Action>)
    requires SafeInv(s) && ValidRun(s, run) && DisciplinedRun(s, run)
    ensures SafeInv(Exec(s, run))
    decreases |run|
  {
    if run != [] {
      StepKeepsSafeInv(s, run[0]);
      RunKeepsSafeInv(Step(s, run[0]), run[1..]);
    }
  }

  lemma InitSafeInv(s: System)
    requires Init(s) && SamePolicy(s)
    ensures SafeInv(s)
  {
    InitLogInv(s);
  }

  /** Leader Completeness: in every disciplined run, an entry acknowledged by a majority in the
      term that created it is in the log of the leader of every later term. */
  lemma LeaderCompleteness(s: System, run: seq<Action>, t: nat, k: nat, u: nat)
    requires Init(s) && SamePolicy(s) && ValidRun(s, run) && DisciplinedRun(s, run)
    requires Chosen(Exec(s, run), t, k) && t < u && u in Exec(s, run).h.leaderLog
    ensures Exec(s, run).h.leaderLog[t][..k] <= Exec(s, run).h.leaderLog[u]
  {
    InitSafeInv(s);
    RunKeepsSafeInv(s, run);
    ChosenIsChoosable(Exec(s, run), t, k);
  }

  /** State Machine Safety: in every disciplined run, of any two nodes one has applied exactly
      the first operations that the other has applied. */
  lemma StateMachineSafety(s: System, run: seq<Action>, i: nat, j: nat)
    requires Init(s) && SamePolicy(s) && ValidRun(s, run) && DisciplinedRun(s, run) && i < s.n && j < s.n
    ensures var a, b := Exec(s, run).nodes[i].applied, Exec(s, run).nodes[j].applied;
            a <= b || b <= a
  {
    InitSafeInv(s);
    RunKeepsSafeInv(s, run);
    var r := Exec(s, run);
    assert CommitOk(r, i) && CommitOk(r, j);
    BackedComparable(r, r.nodes[i].applied, r.nodes[i].term, r.nodes[j].applied, r.nodes[j].term);
  }
}
