/** Log Matching: in every run, two logs that hold the same term at an index are identical
    up to that index. */
module LogMatching {
  import opened QuorumCommit
  import opened RaftNode
  import opened RaftSystem
  import opened ElectionSafety

  type Logs = map<nat, Log>

  /** Every prefix of `log` that ends in a term-t entry is a prefix of the log of the leader of t. */
  ghost predicate Sound(log: Log, logs: Logs) {
    forall k :: 0 <= k < |log| ==> log[k].term in logs && log[..k + 1] <= logs[log[k].term]
  }

  ghost predicate TermsUpTo(log: Log, t: nat) {
    forall k :: 0 <= k < |log| ==> log[k].term <= t
  }

  /** Leaders only ever append. */
  ghost predicate Extends(logs: Logs, later: Logs) {
    forall t :: t in logs ==> t in later && logs[t] <= later[t]
  }

  /** The frame carries a slice of the log of the leader of its term. */
  ghost predicate FrameOf(s: System, m: Message)
    requires m.Append?
  {
    && m.term in s.h.leaderOf && s.h.leaderOf[m.term] == m.src && m.src != m.dst
    && m.term in s.h.leaderLog
    && var l := s.h.leaderLog[m.term];
       m.prevIdx + |m.entries| <= |l|
       && m.entries == l[m.prevIdx..m.prevIdx + |m.entries|]
       && m.prevTerm == TermAt(l, m.prevIdx)
  }

  ghost predicate LeaderLogs(s: System)
    requires WF(s)
  {
    && s.h.leaderLog.Keys == s.h.leaderOf.Keys
    && (forall t :: t in s.h.leaderLog ==> Sound(s.h.leaderLog[t], s.h.leaderLog) && TermsUpTo(s.h.leaderLog[t], t))
    && (forall i :: 0 <= i < s.n && s.nodes[i].role == Leader ==>
          s.nodes[i].term in s.h.leaderLog && s.h.leaderLog[s.nodes[i].term] == s.nodes[i].log)
    && (forall i, j :: 0 <= i < s.n && s.nodes[i].role == Leader && 0 <= j < s.n ==>
          s.nodes[i].next[j] <= |s.nodes[i].log| + 1)
  }

  ghost predicate NodeLogs(s: System)
    requires WF(s)
  {
    forall i :: 0 <= i < s.n ==> Sound(s.nodes[i].log, s.h.leaderLog) && TermsUpTo(s.nodes[i].log, s.nodes[i].term)
  }

  ghost predicate Frames(s: System) {
    forall m :: m in s.net && m.Append? ==> FrameOf(s, m)
  }

  ghost predicate RightfulLeaders(s: System)
    requires WF(s)
  {
    forall i :: 0 <= i < s.n && s.nodes[i].role == Leader ==>
      s.nodes[i].term in s.h.leaderOf && s.h.leaderOf[s.nodes[i].term] == i
  }

  ghost predicate LogFacts(s: System) {
    WF(s) && LeaderLogs(s) && NodeLogs(s) && Frames(s)
  }

  ghost predicate LogInv(s: System) {
    ElectionInv(s) && LogFacts(s)
  }

  // ----- about logs alone -----

  lemma SoundExtends(log: Log, logs: Logs, later: Logs)
    requires Sound(log, logs) && Extends(logs, later)
    ensures Sound(log, later)
  {}

  lemma SoundPrefix(log: Log, p: Log, logs: Logs)
    requires Sound(log, logs) && p <= log
    ensures Sound(p, logs)
  {
    forall k | 0 <= k < |p|
      ensures p[k].term in logs && p[..k + 1] <= logs[p[k].term]
    {
      assert p[..k + 1] == log[..k + 1];
    }
  }

  /** The leader of term t appends an entry of its own term. */
  lemma SoundAppend(log: Log, e: Entry, logs: Logs, later: Logs)
    requires Sound(log, logs) && Extends(logs, later)
    requires e.term in later && later[e.term] == log + [e]
    ensures Sound(log + [e], later)
  {
    SoundExtends(log, logs, later);
    forall k | 0 <= k < |log + [e]|
      ensures (log + [e])[k].term in later && (log + [e])[..k + 1] <= later[(log + [e])[k].term]
    {
      if k < |log| { assert (log + [e])[..k + 1] == log[..k + 1]; }
    }
  }

  /** Two sound logs that agree on the term at an index agree up to that index. */
  lemma SameTermSamePrefix(a: Log, b: Log, logs: Logs, k: nat)
    requires Sound(a, logs) && Sound(b, logs)
    requires 1 <= k <= |a| && k <= |b| && a[k - 1].term == b[k - 1].term
    ensures a[..k] == b[..k]
  {
    assert a[..k - 1 + 1] <= logs[a[k - 1].term] && b[..k - 1 + 1] <= logs[a[k - 1].term];
  }

  /** An accepted frame leaves the follower with a prefix of the sender's log, whatever it held before. */
  lemma AcceptedLog(log: Log, l: Log, logs: Logs, prev: nat, entries: Log)
    requires Sound(log, logs) && Sound(l, logs)
    requires prev + |entries| <= |l| && entries == l[prev..prev + |entries|]
    requires LogMatches(log, prev, TermAt(l, prev))
    ensures log[..prev] == l[..prev]
    ensures TruncateFrom(log, prev + 1) + entries == l[..prev + |entries|]
  {
    if prev > 0 { SameTermSamePrefix(log, l, logs, prev); }
    assert TruncateFrom(log, prev + 1) == log[..prev];
    assert l[..prev] + l[prev..prev + |entries|] == l[..prev + |entries|];
  }

  lemma SoundAscends(log: Log, logs: Logs, a: nat, b: nat)
    requires Sound(log, logs) && a <= b < |log|
    requires forall t :: t in logs ==> TermsUpTo(logs[t], t)
    ensures log[a].term <= log[b].term
  {
    var t := log[b].term;
    assert log[..b + 1] <= logs[t];
    assert log[a] == log[..b + 1][a] == logs[t][a];
  }

  // ----- what a step does to logs -----

  ghost predicate SameLog(x: Node, y: Node) {
    y.log == x.log && y.term >= x.term && (y.role == Leader ==> x.role == Leader && y.term == x.term)
  }

  ghost predicate Appended(x: Node, y: Node) {
    && y.role == Leader && |y.log| == |x.log| + 1 && y.log[..|x.log|] == x.log && y.log[|x.log|].term == y.term
    && y.term >= x.term
  }

  ghost predicate TookFrame(x: Node, y: Node, m: Message) {
    && m.Append? && Accepts(x, m) && y.term == m.term && y.role == Follower
    && y.log == TruncateFrom(x.log, m.prevIdx + 1) + m.entries
  }

  ghost predicate Lost(x: Node, y: Node) {
    y.log <= x.log && y.role == Follower && y.term == x.term
  }

  ghost predicate LogEffect(x: Node, o: Out, a: Action)
    requires x.Shaped() && (a.Replicate? ==> a.j < x.n)
  {
    && (SameLog(x, o.node) || Appended(x, o.node) || (a.Deliver? && TookFrame(x, o.node, a.m)) || Lost(x, o.node))
    && (a.Deliver? && a.m.Append? && Accepts(x, a.m) ==> TookFrame(x, o.node, a.m))
    && (forall m :: m in o.msgs && m.Append? ==> a.Replicate? && m == AppendFrame(x, a.j))
  }

  ghost predicate NextBounded(x: Node) {
    x.role == Leader ==> forall j :: 0 <= j < |x.next| ==> x.next[j] <= |x.log| + 1
  }

  lemma BallotLogEffect(x: Node, m: Message, heardLeader: bool)
    requires x.Shaped() && m.src < x.n && NextBounded(x) && !m.Append? && !m.AppendResp?
    ensures LogEffect(x, Dispatch(x, m, heardLeader), Deliver(m, heardLeader))
    ensures NextBounded(Dispatch(x, m, heardLeader).node)
  {
    hide LogIsCurrent, LastTerm;
    match m {
      case PreVote(_, _, _, _, _) =>
      case PreVoteResp(_, _, _, _) =>
      case VoteReq(_, _, _, _, _) =>
      case VoteResp(_, _, _, _) =>
    }
  }

  lemma AppendLogEffect(x: Node, m: Message, heardLeader: bool)
    requires x.Shaped() && m.src < x.n && NextBounded(x) && m.Append?
    ensures LogEffect(x, OnAppend(x, m), Deliver(m, heardLeader)) && NextBounded(OnAppend(x, m).node)
  {
    hide Pending;
  }

  lemma AppendRespLogEffect(x: Node, m: Message, heardLeader: bool)
    requires x.Shaped() && m.src < x.n && NextBounded(x) && m.AppendResp?
    ensures LogEffect(x, OnAppendResp(x, m), Deliver(m, heardLeader)) && NextBounded(OnAppendResp(x, m).node)
  {
    hide QuorumIndex, Recorded, Pending;
  }

  lemma EveryLogEffect(x: Node, a: Action)
    requires x.Shaped() && NextBounded(x)
    requires a.Deliver? ==> a.m.src < x.n
    requires a.Replicate? || a.Reconnect? ==> a.j < x.n
    requires a.Crash? ==> a.keep <= |x.log|
    requires a.ClientAppend? ==> x.role == Leader
    ensures LogEffect(x, Effect(x, a), a) && NextBounded(Effect(x, a).node)
  {
    hide QuorumIndex, Recorded, Pending, LogIsCurrent, LastTerm;
    match a {
      case Deliver(m, heardLeader) =>
        if m.Append? {
          AppendLogEffect(x, m, heardLeader);
        } else if m.AppendResp? {
          AppendRespLogEffect(x, m, heardLeader);
        } else {
          BallotLogEffect(x, m, heardLeader);
        }
      case Timeout(_) =>
      case ClientAppend(_, _, _) =>
      case Replicate(_, _) =>
      case Flush(_) =>
      case Fsync(_) =>
      case Reconnect(_, _) =>
      case Crash(_, _) =>
    }
  }

  /** A step as far as logs are concerned: who changed, how, and what the log history became. */
  ghost predicate LogStep(s: System, r: System, i: nat, m: Message) {
    && OnlyNode(s, r, i)
    && (forall t :: t in s.h.leaderOf ==> t in r.h.leaderOf && r.h.leaderOf[t] == s.h.leaderOf[t])
    && var x, y := s.nodes[i], r.nodes[i];
       && NextBounded(y)
       && (SameLog(x, y) || Appended(x, y) || Lost(x, y) || (m in s.net && TookFrame(x, y, m)))
       && r.h.leaderLog == (if Appended(x, y) then s.h.leaderLog[y.term := y.log] else s.h.leaderLog)
       && r.h.leaderOf.Keys == s.h.leaderOf.Keys + (if Appended(x, y) then {y.term} else {})
       && (Appended(x, y) && y.term in s.h.leaderOf ==> x.role == Leader && x.term == y.term)
       && (forall f :: f in r.net && f.Append? && f !in s.net ==>
             x.role == Leader && f.dst < s.n && f.dst != i && f == AppendFrame(x, f.dst))
  }

  /** What observing the step does to the recorded leaders and their logs. */
  lemma ObservedLogs(h: History, x: Node, y: Node, counted: set<nat>, acks: bool)
    requires y.id < |h.grantors| && h.leaderLog.Keys == h.leaderOf.Keys
    requires x.role == Leader ==> x.term in h.leaderLog && h.leaderLog[x.term] == x.log
    requires y.role == Leader && !(x.role == Leader && x.term == y.term) ==> Appended(x, y) && y.term !in h.leaderOf
    requires y.role == Leader ==> Appended(x, y) || y.log == x.log
    ensures var g := Observe(h, x, y, counted, acks);
            && g.leaderLog == (if Appended(x, y) then h.leaderLog[y.term := y.log] else h.leaderLog)
            && g.leaderOf.Keys == h.leaderOf.Keys + (if Appended(x, y) then {y.term} else {})
  {
    if y.role == Leader && !Appended(x, y) {
      assert h.leaderLog[y.term := y.log] == h.leaderLog;
    }
  }

  lemma BecameLogStep(s: System, i: nat, o: Out, a: Action, acks: bool)
    requires WF(s) && Enabled(s, a) && i == Actor(a) && SameNode(s.nodes[i], o.node)
    requires s.h.leaderLog.Keys == s.h.leaderOf.Keys
    requires var x := s.nodes[i];
             x.role == Leader ==> x.term in s.h.leaderLog && s.h.leaderLog[x.term] == x.log
    requires LogEffect(s.nodes[i], o, a) && NextBounded(o.node)
    requires KeepsLeaders(s, Became(s, i, o, Used(a), Counted(s.nodes[i], a), acks))
    ensures LogStep(s, Became(s, i, o, Used(a), Counted(s.nodes[i], a), acks), i,
                    if a.Deliver? then a.m else VoteResp(0, 0, 0, false))
  {
    var x, y := s.nodes[i], o.node;
    var r := Became(s, i, o, Used(a), Counted(x, a), acks);
    assert r.nodes[i] == y;
    ObservedLogs(s.h, x, y, Counted(x, a), acks);
    hide BatchCount, LogMatches, TruncateFrom, Observe;
  }

  lemma StepIsLogStep(s: System, a: Action)
    requires LogInv(s) && Enabled(s, a)
    ensures LogStep(s, Step(s, a), Actor(a), if a.Deliver? then a.m else VoteResp(0, 0, 0, false))
  {
    var x := s.nodes[Actor(a)];
    assert NextBounded(x);
    EffectShaped(x, a);
    StepKeepsLeaders(s, a);
    hide ElectionInv, NodeLogs, Frames, Effect, LogEffect, KeepsLeaders;
    EveryLogEffect(x, a);
    BecameLogStep(s, Actor(a), Effect(x, a), a, Accepted(x, a));
    hide Became;
  }

  lemma HistoryExtends(s: System, r: System, i: nat, m: Message)
    requires LogFacts(s) && LogStep(s, r, i, m)
    ensures Extends(s.h.leaderLog, r.h.leaderLog) && r.h.leaderLog.Keys == r.h.leaderOf.Keys
  {}

  /** What accepting a frame leaves in the log. */
  lemma FrameLog(s: System, x: Node, y: Node, m: Message)
    requires LogFacts(s) && m in s.net && TookFrame(x, y, m) && Sound(x.log, s.h.leaderLog)
    ensures m.term in s.h.leaderLog && y.log == s.h.leaderLog[m.term][..m.prevIdx + |m.entries|]
    ensures y.log <= s.h.leaderLog[m.term] && x.log[..m.prevIdx] <= y.log
  {
    assert FrameOf(s, m);
    AcceptedLog(x.log, s.h.leaderLog[m.term], s.h.leaderLog, m.prevIdx, m.entries);
  }

  lemma NewNodeLog(s: System, r: System, i: nat, m: Message)
    requires LogFacts(s) && LogStep(s, r, i, m)
    ensures Sound(r.nodes[i].log, r.h.leaderLog) && TermsUpTo(r.nodes[i].log, r.nodes[i].term)
  {
    var x, y := s.nodes[i], r.nodes[i];
    var logs, later := s.h.leaderLog, r.h.leaderLog;
    HistoryExtends(s, r, i, m);
    if SameLog(x, y) {
      SoundExtends(x.log, logs, later);
    } else if Appended(x, y) {
      assert y.log == x.log + [y.log[|x.log|]];
      SoundAppend(x.log, y.log[|x.log|], logs, later);
    } else if Lost(x, y) {
      SoundPrefix(x.log, y.log, logs);
    } else {
      FrameLog(s, x, y, m);
      SoundPrefix(logs[m.term], y.log, logs);
    }
  }

  lemma LogStepKeepsNodeLogs(s: System, r: System, i: nat, m: Message)
    requires LogFacts(s) && LogStep(s, r, i, m)
    ensures NodeLogs(r)
  {
    HistoryExtends(s, r, i, m);
    NewNodeLog(s, r, i, m);
    forall j | 0 <= j < s.n && j != i
      ensures Sound(r.nodes[j].log, r.h.leaderLog) && TermsUpTo(r.nodes[j].log, r.nodes[j].term)
    {
      SoundExtends(s.nodes[j].log, s.h.leaderLog, r.h.leaderLog);
    }
  }

  lemma LogStepKeepsLeaderLogs(s: System, r: System, i: nat, m: Message)
    requires LogFacts(s) && LogStep(s, r, i, m)
    requires RightfulLeaders(r)
    ensures LeaderLogs(r)
  {
    HistoryExtends(s, r, i, m);
    NewNodeLog(s, r, i, m);
    forall t | t in r.h.leaderLog
      ensures Sound(r.h.leaderLog[t], r.h.leaderLog) && TermsUpTo(r.h.leaderLog[t], t)
    {
      if !(Appended(s.nodes[i], r.nodes[i]) && t == r.nodes[i].term) {
        SoundExtends(s.h.leaderLog[t], s.h.leaderLog, r.h.leaderLog);
      }
    }
  }

  /** What a leader sends is a slice of its log. */
  lemma SentFrame(x: Node, j: nat)
    requires x.Shaped() && j < x.n && x.role == Leader && NextBounded(x)
    ensures var m := AppendFrame(x, j);
            && m.term == x.term && m.src == x.id && m.dst == j
            && m.prevIdx + |m.entries| <= |x.log|
            && m.entries == x.log[m.prevIdx..m.prevIdx + |m.entries|]
            && m.prevTerm == TermAt(x.log, m.prevIdx)
  {}

  lemma FrameExtends(l: Log, later: Log, m: Message)
    requires m.Append? && l <= later
    requires m.prevIdx + |m.entries| <= |l| && m.entries == l[m.prevIdx..m.prevIdx + |m.entries|]
    ensures m.entries == later[m.prevIdx..m.prevIdx + |m.entries|] && TermAt(later, m.prevIdx) == TermAt(l, m.prevIdx)
  {}

  lemma FrameStays(s: System, r: System, f: Message)
    requires f.Append? && FrameOf(s, f) && Extends(s.h.leaderLog, r.h.leaderLog)
    requires forall t :: t in s.h.leaderOf ==> t in r.h.leaderOf && r.h.leaderOf[t] == s.h.leaderOf[t]
    ensures FrameOf(r, f)
  {
    FrameExtends(s.h.leaderLog[f.term], r.h.leaderLog[f.term], f);
  }

  lemma SentFrameIsFrame(s: System, i: nat, f: Message)
    requires LogFacts(s) && RightfulLeaders(s) && i < s.n && s.nodes[i].role == Leader
    requires f.dst < s.n && f.dst != i && f == AppendFrame(s.nodes[i], f.dst)
    ensures FrameOf(s, f)
  {
    SentFrame(s.nodes[i], f.dst);
  }

  lemma LogStepKeepsFrames(s: System, r: System, i: nat, m: Message)
    requires LogFacts(s) && RightfulLeaders(s) && LogStep(s, r, i, m)
    ensures Frames(r)
  {
    HistoryExtends(s, r, i, m);
    forall f | f in r.net && f.Append?
      ensures FrameOf(r, f)
    {
      if f !in s.net { SentFrameIsFrame(s, i, f); }
      FrameStays(s, r, f);
    }
  }

  lemma StepKeepsLogInv(s: System, a: Action)
    requires LogInv(s) && Enabled(s, a)
    ensures LogInv(Step(s, a))
  {
    var r, i := Step(s, a), Actor(a);
    var m := if a.Deliver? then a.m else VoteResp(0, 0, 0, false);
    StepIsLogStep(s, a);
    StepKeepsElectionInv(s, a);
    LogStepKeepsNodeLogs(s, r, i, m);
    LogStepKeepsLeaderLogs(s, r, i, m);
    LogStepKeepsFrames(s, r, i, m);
  }

  lemma InitLogInv(s: System)
    requires Init(s)
    ensures LogInv(s)
  {
    InitElectionInv(s);
  }

  lemma {:induction false} RunKeepsLogInv(s: System, run: seq<Action>)
    requires LogInv(s) && ValidRun(s, run)
    ensures LogInv(Exec(s, run))
    decreases |run|
  {
    if run != [] {
      StepKeepsLogInv(s, run[0]);
      RunKeepsLogInv(Step(s, run[0]), run[1..]);
    }
  }

  /** Log Matching, for every run: an equal term at an index means equal entries up to that index. */
  lemma LogsMatch(s: System, run: seq<Action>, i: nat, j: nat, k: nat)
    requires Init(s) && ValidRun(s, run) && i < s.n && j < s.n
    requires var a, b := Exec(s, run).nodes[i].log, Exec(s, run).nodes[j].log;
             1 <= k <= |a| && k <= |b| && TermAt(a, k) == TermAt(b, k)
    ensures Exec(s, run).nodes[i].log[..k] == Exec(s, run).nodes[j].log[..k]
  {
    InitLogInv(s);
    RunKeepsLogInv(s, run);
    var r := Exec(s, run);
    SameTermSamePrefix(r.nodes[i].log, r.nodes[j].log, r.h.leaderLog, k);
  }
}
