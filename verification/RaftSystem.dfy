/** The cluster as a transition system: any number of nodes, a network, and a history that
    only observes. A vote request and a granted vote are delivered at most once; any other
    frame may be delivered any number of times, in any order, or never. */
module RaftSystem {
  import opened RaftNode

  datatype Action =
    | Timeout(i: nat)
    | Deliver(m: Message, heardLeader: bool)
    | ClientAppend(i: nat, op: nat, payload: seq<nat>)
    | Replicate(i: nat, j: nat)
    | Flush(i: nat)
    | Fsync(i: nat)
    | Reconnect(i: nat, j: nat)
    | Crash(i: nat, keep: nat)

  /** What has happened, for stating and proving properties of whole runs; no handler reads it.
      votes/voteLog: whom (node, term) voted for, and the voter's log at that moment;
      grantors: the distinct nodes behind a candidate's vote counter;
      leaderOf/electors/leaderLog: each term's leader, the votes that elected it, its log as last seen;
      acks: what nodes have acknowledged. */
  datatype History = History(
    votes: map<(nat, nat), nat>, voteLog: map<(nat, nat), Log>, grantors: seq<set<nat>>,
    leaderOf: map<nat, nat>, electors: map<nat, set<nat>>, leaderLog: map<nat, Log>,
    acks: Acks)

  /** taken: how much of the term's leader log (node, term) has accepted;
      given: how much of it the node vouches for: all of it, or under the durable policy what is on its disk. */
  datatype Acks = Acks(taken: map<(nat, nat), nat>, given: map<(nat, nat), nat>)

  datatype System = System(n: nat, nodes: seq<Node>, net: set<Message>, h: History)

  ghost predicate WF(s: System) {
    && s.n >= 1 && |s.nodes| == s.n && |s.h.grantors| == s.n
    && (forall i :: 0 <= i < s.n ==> s.nodes[i].Shaped() && s.nodes[i].id == i && s.nodes[i].n == s.n)
  }

  ghost predicate Init(s: System) {
    && WF(s) && s.net == {}
    && (forall i :: 0 <= i < s.n ==> s.nodes[i] == Fresh(i, s.n, s.nodes[i].durableCommit))
    && s.h == History(map[], map[], s.h.grantors, map[], map[], map[], Acks(map[], map[]))
    && (forall i :: 0 <= i < s.n ==> s.h.grantors[i] == {})
  }

  function Actor(a: Action): nat {
    match a
    case Deliver(m, _) => m.dst
    case Timeout(i) => i
    case ClientAppend(i, _, _) => i
    case Replicate(i, _) => i
    case Flush(i) => i
    case Fsync(i) => i
    case Reconnect(i, _) => i
    case Crash(i, _) => i
  }

  predicate Enabled(s: System, a: Action)
    requires |s.nodes| == s.n
  {
    && Actor(a) < s.n
    && var x := s.nodes[Actor(a)];
       match a
       case Timeout(_) => x.role != Leader
       case Deliver(m, _) => m in s.net && m.src < s.n && m.src != m.dst
       case ClientAppend(_, _, _) => x.role == Leader
       case Replicate(i, j) => x.role == Leader && j < s.n && j != i
       case Flush(_) => x.role == Leader
       case Fsync(_) => true
       case Reconnect(i, j) => j < s.n && j != i
       case Crash(_, keep) => keep <= |x.log|
  }

  function Dispatch(x: Node, m: Message, heardLeader: bool): Out
    requires x.Shaped() && m.src < x.n
  {
    match m
    case PreVote(_, _, _, _, _) => OnPreVote(x, m, heardLeader)
    case PreVoteResp(_, _, _, _) => OnPreVoteResp(x, m)
    case VoteReq(_, _, _, _, _) => OnVoteReq(x, m)
    case VoteResp(_, _, _, _) => OnVoteResp(x, m)
    case Append(_, _, _, _, _, _, _) => OnAppend(x, m)
    case AppendResp(_, _, _, _, _, _) => OnAppendResp(x, m)
  }

  /** What the action makes of the acting node, and the frames it sends. */
  function Effect(x: Node, a: Action): Out
    requires x.Shaped()
    requires a.Deliver? ==> a.m.src < x.n
    requires a.Replicate? || a.Reconnect? ==> a.j < x.n
    requires a.Crash? ==> a.keep <= |x.log|
  {
    match a
    case Timeout(_) => StartPrevote(x)
    case Deliver(m, heardLeader) => Dispatch(x, m, heardLeader)
    case ClientAppend(_, op, payload) => Out(LeaderAppend(x, op, payload), {})
    case Replicate(_, j) => SendAppend(x, j)
    case Flush(_) => Out(AdvanceCommit(x), {})
    case Fsync(_) => Out(Sync(x), {})
    case Reconnect(_, j) => Out(LinkUp(x, j), {})
    case Crash(_, keep) => Out(Restart(x, keep), {})
  }

  /** Frames that are delivered at most once. */
  predicate Once(m: Message) {
    m.VoteReq? || (m.VoteResp? && m.granted)
  }

  function Used(a: Action): set<Message> {
    if a.Deliver? && Once(a.m) then {a.m} else {}
  }

  /** The voter whose grant this action counts, if any. */
  function Counted(x: Node, a: Action): set<nat> {
    if a.Deliver? && a.m.VoteResp? && a.m.granted && x.role == Candidate && a.m.term == x.term then {a.m.src} else {}
  }

  predicate Accepted(x: Node, a: Action) {
    a.Deliver? && a.m.Append? && Accepts(x, a.m)
  }

  function AckOf(h: History, v: nat, t: nat): nat {
    if (v, t) in h.acks.given then h.acks.given[(v, t)] else 0
  }

  function TakenOf(h: History, v: nat, t: nat): nat {
    if (v, t) in h.acks.taken then h.acks.taken[(v, t)] else 0
  }

  /** How much of the current term's leader log a node vouches for. */
  function Vouched(h: History, y: Node): nat {
    var t := TakenOf(h, y.id, y.term);
    if y.durableCommit then Min(t, y.durable) else t
  }

  function ObserveVote(h: History, x: Node, y: Node): History {
    if y.votedFor >= 0 && (y.term > x.term || x.votedFor < 0) then
      h.(votes := h.votes[(y.id, y.term) := y.votedFor], voteLog := h.voteLog[(y.id, y.term) := x.log])
    else h
  }

  function ObserveGrant(h: History, x: Node, y: Node, counted: set<nat>): History
    requires y.id < |h.grantors|
  {
    h.(grantors := h.grantors[y.id := if y.term == x.term then h.grantors[y.id] + counted
                                      else if y.votedFor == y.id then {y.id} else {}])
  }

  function ObserveLeader(h: History, x: Node, y: Node): History
    requires y.id < |h.grantors|
  {
    if y.role != Leader then h
    else
      var g := h.(leaderLog := h.leaderLog[y.term := y.log]);
      if x.role == Leader && x.term == y.term then g
      else g.(leaderOf := g.leaderOf[y.term := y.id], electors := g.electors[y.term := g.grantors[y.id]])
  }

  function ObserveTaken(h: History, y: Node, accepted: bool): map<(nat, nat), nat> {
    if y.role == Leader then h.acks.taken[(y.id, y.term) := |y.log|]
    else if accepted then h.acks.taken[(y.id, y.term) := Max(TakenOf(h, y.id, y.term), |y.log|)]
    else h.acks.taken
  }

  function ObserveAcks(h: History, y: Node, accepted: bool): Acks {
    var k := h.acks.(taken := ObserveTaken(h, y, accepted));
    var v := Vouched(h.(acks := k), y);
    if v > AckOf(h, y.id, y.term) then k.(given := k.given[(y.id, y.term) := v]) else k
  }

  function Observe(h: History, x: Node, y: Node, counted: set<nat>, accepted: bool): (r: History)
    requires y.id < |h.grantors|
    ensures |r.grantors| == |h.grantors|
  {
    ObserveLeader(ObserveGrant(ObserveVote(h, x, y), x, y, counted), x, y).(acks := ObserveAcks(h, y, accepted))
  }

  /** The system after node `i` changed to `o.node` and sent `o.msgs`, having used up `used`. */
  function Became(s: System, i: nat, o: Out, used: set<Message>, counted: set<nat>, accepted: bool): (r: System)
    requires WF(s) && i < s.n && SameNode(s.nodes[i], o.node)
    ensures WF(r) && r.n == s.n
  {
    System(s.n, s.nodes[i := o.node], s.net - used + o.msgs, Observe(s.h, s.nodes[i], o.node, counted, accepted))
  }

  function Step(s: System, a: Action): (r: System)
    requires WF(s) && Enabled(s, a)
    ensures WF(r) && r.n == s.n
  {
    var i := Actor(a);
    var x := s.nodes[i];
    var o := Effect(x, a);
    assert SameNode(x, o.node) by { EffectShaped(x, a); }
    Became(s, i, o, Used(a), Counted(x, a), Accepted(x, a))
  }

  lemma EffectShaped(x: Node, a: Action)
    requires x.Shaped()
    requires a.Deliver? ==> a.m.src < x.n
    requires a.Replicate? || a.Reconnect? ==> a.j < x.n
    requires a.Crash? ==> a.keep <= |x.log|
    ensures SameNode(x, Effect(x, a).node)
  {
    match a {
      case Deliver(m, heardLeader) => assert Effect(x, a) == Dispatch(x, m, heardLeader);
      case _ =>
    }
  }

  ghost predicate ValidRun(s: System, run: seq<Action>)
    requires WF(s)
    decreases |run|
  {
    run == [] || (Enabled(s, run[0]) && ValidRun(Step(s, run[0]), run[1..]))
  }

  ghost function Exec(s: System, run: seq<Action>): (r: System)
    requires WF(s) && ValidRun(s, run)
    ensures WF(r) && r.n == s.n
    decreases |run|
  {
    if run == [] then s else Exec(Step(s, run[0]), run[1..])
  }

  /** A run is a run of its first part, continued from where that part ends. */
  lemma {:induction false} RunSplits(s: System, first: seq<Action>, rest: seq<Action>)
    requires WF(s)
    ensures ValidRun(s, first + rest) <==> ValidRun(s, first) && ValidRun(Exec(s, first), rest)
    ensures ValidRun(s, first + rest) ==> Exec(s, first + rest) == Exec(Exec(s, first), rest)
    decreases |first|
  {
    if first == [] {
      assert first + rest == rest;
    } else {
      assert (first + rest)[0] == first[0] && (first + rest)[1..] == first[1..] + rest;
      if Enabled(s, first[0]) {
        RunSplits(Step(s, first[0]), first[1..], rest);
      }
    }
  }

  lemma OneStepRun(s: System, a: Action)
    requires WF(s) && Enabled(s, a)
    ensures ValidRun(s, [a]) && Exec(s, [a]) == Step(s, a)
  {
    hide Step, Enabled, WF;
    assert [a][0] == a && [a][1..] == [];
    assert ValidRun(Step(s, a), []);
    assert Exec(Step(s, a), []) == Step(s, a);
  }

  lemma RunExtends(s: System, run: seq<Action>, a: Action)
    requires WF(s) && ValidRun(s, run) && Enabled(Exec(s, run), a)
    ensures ValidRun(s, run + [a]) && Exec(s, run + [a]) == Step(Exec(s, run), a)
  {
    OneStepRun(Exec(s, run), a);
    RunSplits(s, run, [a]);
  }
}
