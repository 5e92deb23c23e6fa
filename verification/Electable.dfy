/** Elections can succeed: in a cluster of any size, a node that a majority is not ahead of can always be elected by
    it. */
module Electable {
  import opened RaftNode
  import opened RaftSystem
  import opened StableLeader

  /** `y` will support `x`: neither leads, its term is not ahead, and its log is not ahead. */
  ghost predicate Supports(x: Node, y: Node) {
    x.role != Leader && y.role != Leader && y.term <= x.term
    && NotBehind(y, |x.log|, if x.log == [] then 0 else x.log[|x.log| - 1].term)
  }

  /** Different supporters that, with the node itself, make the smallest majority. */
  ghost predicate Support(s: System, c: nat, vs: seq<nat>)
    requires WF(s) && c < s.n
  {
    && 2 * |vs| <= s.n < 2 * (|vs| + 1)
    && (forall i :: 0 <= i < |vs| ==> vs[i] < s.n && vs[i] != c && Supports(s.nodes[c], s.nodes[vs[i]]))
    && (forall i, j :: 0 <= i < j < |vs| ==> vs[i] != vs[j])
    && s.nodes[c].role != Leader
  }

  // ---- what each frame does ----

  function Polled(x: Node, i: nat): Node {
    x.(inPrevote := true, prevotes := 1 + i)
  }

  function Candidacy(x: Node, k: nat, i: nat): Node {
    x.(inPrevote := false, prevotes := 1 + k, term := x.term + 1, votedFor := x.id, role := Candidate, votes := 1 + i)
  }

  function Ask(x: Node, v: nat): Message {
    VoteReq(x.id, v, x.term + 1, |x.log|, LastTerm(x.log))
  }

  function Sound(x: Node, v: nat): Message {
    PreVote(x.id, v, x.term + 1, |x.log|, LastTerm(x.log))
  }

  lemma TimeoutPolls(x: Node, i: nat)
    requires x.Shaped() && x.n >= 2
    ensures Effect(x, Timeout(i)).node == Polled(x, 0)
    ensures forall v :: 0 <= v < x.n && v != x.id ==> Sound(x, v) in Effect(x, Timeout(i)).msgs
  {
  }

  lemma SupporterGrants(x: Node, y: Node)
    requires x.Shaped() && y.Shaped() && y.n == x.n && Supports(x, y)
    ensures Effect(y, Deliver(Sound(x, y.id), false)) == Out(y, {PreVoteResp(y.id, x.id, y.term, true)})
  {
  }

  /** The last grant needed starts the election; the others are counted. */
  lemma GrantCounts(x: Node, v: nat, t: nat, i: nat, k: nat)
    requires x.Shaped() && v < x.n && t <= x.term && i < k && 2 * k <= x.n < 2 * (k + 1)
    ensures var o := Effect(Polled(x, i), Deliver(PreVoteResp(v, x.id, t, true), false));
            if i + 1 < k then o == Out(Polled(x, i + 1), {})
            else o.node == Candidacy(x, k, 0) && forall w :: 0 <= w < x.n && w != x.id ==> Ask(x, w) in o.msgs
  {
  }

  lemma SupporterVotes(x: Node, y: Node)
    requires x.Shaped() && y.Shaped() && y.n == x.n && Supports(x, y)
    ensures Effect(y, Deliver(Ask(x, y.id), false)).msgs == {VoteResp(y.id, x.id, x.term + 1, true)}
  {
  }

  lemma VoteCounts(x: Node, v: nat, i: nat, k: nat)
    requires x.Shaped() && v < x.n && i < k && 2 * k <= x.n < 2 * (k + 1)
    ensures var y := Effect(Candidacy(x, k, i), Deliver(VoteResp(v, x.id, x.term + 1, true), false)).node;
            if i + 1 < k then y == Candidacy(x, k, i + 1) else y.role == Leader && y.term == x.term + 1
  {
  }

  // ---- runs ----

  /** One more action at the end of a run. */
  lemma Then(s: System, run: seq<Action>, t: System, a: Action) returns (more: seq<Action>, u: System)
    requires WF(s) && ValidRun(s, run) && t == Exec(s, run) && Enabled(t, a)
    ensures ValidRun(s, more) && u == Exec(s, more) && u.n == s.n
    ensures WF(t) && WF(u) && u.nodes == t.nodes[Actor(a) := Effect(t.nodes[Actor(a)], a).node]
    ensures u.net == t.net - Used(a) + Effect(t.nodes[Actor(a)], a).msgs
  {
    more, u := run + [a], Step(t, a);
    EffectShaped(t.nodes[Actor(a)], a);
    hide Effect, Enabled;
    RunExtends(s, run, a);
  }

  /** Nothing has changed since `s` but for node `c`, and every request is still in flight. */
  ghost predicate Polling(s: System, t: System, c: nat, vs: seq<nat>, i: nat)
    requires WF(s) && c < s.n
  {
    && WF(t) && t.n == s.n && t.nodes == s.nodes[c := Polled(s.nodes[c], i)]
    && forall j :: 0 <= j < |vs| ==> Sound(s.nodes[c], vs[j]) in t.net
  }

  /** The requests of those who have not voted yet are in flight, and they are as they were. */
  ghost predicate Voting(s: System, t: System, c: nat, vs: seq<nat>, i: nat)
    requires WF(s) && c < s.n
  {
    && WF(t) && t.n == s.n && t.nodes[c] == Candidacy(s.nodes[c], |vs|, i)
    && forall j :: i <= j < |vs| ==>
         vs[j] < s.n && t.nodes[vs[j]] == s.nodes[vs[j]] && Ask(s.nodes[c], vs[j]) in t.net
  }

  /** A request is put to a supporter, who grants it. */
  lemma PollAsk(s: System, run: seq<Action>, t: System, c: nat, v: nat) returns (more: seq<Action>, u: System)
    requires WF(s) && ValidRun(s, run) && t == Exec(s, run) && c < s.n && v < s.n && v != c
    requires WF(t) && t.nodes[v] == s.nodes[v] && Supports(s.nodes[c], s.nodes[v]) && Sound(s.nodes[c], v) in t.net
    ensures ValidRun(s, more) && u == Exec(s, more) && WF(u) && u.n == s.n && u.nodes == t.nodes && t.net <= u.net
    ensures PreVoteResp(v, c, s.nodes[v].term, true) in u.net
  {
    SupporterGrants(s.nodes[c], s.nodes[v]);
    hide Effect, Exec, ValidRun, Supports;
    more, u := Then(s, run, t, Deliver(Sound(s.nodes[c], v), false));
    assert u.nodes == t.nodes;
  }

  lemma PollHear(s: System, run: seq<Action>, t: System, c: nat, v: nat, i: nat, k: nat)
    returns (more: seq<Action>, u: System)
    requires WF(s) && c < s.n && v < s.n && v != c && ValidRun(s, run) && t == Exec(s, run) && t.n == s.n && WF(t)
    requires i < k && 2 * k <= s.n < 2 * (k + 1) && s.nodes[v].term <= s.nodes[c].term
    requires t.nodes[c] == Polled(s.nodes[c], i) && PreVoteResp(v, c, s.nodes[v].term, true) in t.net
    ensures ValidRun(s, more) && u == Exec(s, more) && WF(u) && u.n == s.n && t.net <= u.net
    ensures u.nodes == t.nodes[c := if i + 1 < k then Polled(s.nodes[c], i + 1) else Candidacy(s.nodes[c], k, 0)]
    ensures i + 1 == k ==> forall w :: 0 <= w < s.n && w != c ==> Ask(s.nodes[c], w) in u.net
  {
    GrantCounts(s.nodes[c], v, s.nodes[v].term, i, k);
    hide Effect, Exec, ValidRun, Candidacy, Polled, Ask;
    more, u := Then(s, run, t, Deliver(PreVoteResp(v, c, s.nodes[v].term, true), false));
  }

  lemma PollNext(s: System, run: seq<Action>, t: System, c: nat, vs: seq<nat>, i: nat)
    returns (more: seq<Action>, u: System)
    requires WF(s) && c < s.n && Support(s, c, vs) && ValidRun(s, run) && t == Exec(s, run)
    requires i < |vs| && Polling(s, t, c, vs, i)
    ensures ValidRun(s, more) && u == Exec(s, more)
    ensures if i + 1 < |vs| then Polling(s, u, c, vs, i + 1) else Voting(s, u, c, vs, 0)
  {
    var x, v, k := s.nodes[c], vs[i], |vs|;
    assert v < s.n && v != c && Supports(x, s.nodes[v]) && 2 * k <= x.n < 2 * (k + 1) && s.nodes[v].term <= x.term;
    assert forall j :: 0 <= j < k ==> vs[j] < s.n && vs[j] != c;
    hide Support, Supports, Exec, ValidRun, Polled, Candidacy, WF, Ask, Sound;
    more, u := PollAsk(s, run, t, c, v);
    more, u := PollHear(s, more, u, c, v, i, k);
  }

  /** A supporter votes. */
  lemma VoteAsk(s: System, run: seq<Action>, t: System, c: nat, v: nat) returns (more: seq<Action>, u: System)
    requires WF(s) && ValidRun(s, run) && t == Exec(s, run) && c < s.n && v < s.n && v != c
    requires WF(t) && t.nodes[v] == s.nodes[v] && Supports(s.nodes[c], s.nodes[v]) && Ask(s.nodes[c], v) in t.net
    ensures ValidRun(s, more) && u == Exec(s, more) && WF(u) && u.n == s.n
    ensures forall j :: 0 <= j < s.n && j != v ==> u.nodes[j] == t.nodes[j]
    ensures forall m :: m in t.net && m != Ask(s.nodes[c], v) ==> m in u.net
    ensures VoteResp(v, c, s.nodes[c].term + 1, true) in u.net
  {
    SupporterVotes(s.nodes[c], s.nodes[v]);
    hide Effect, Exec, ValidRun, Supports;
    more, u := Then(s, run, t, Deliver(Ask(s.nodes[c], v), false));
  }

  lemma VoteHear(s: System, run: seq<Action>, t: System, c: nat, v: nat, i: nat, k: nat)
    returns (more: seq<Action>, u: System)
    requires WF(s) && c < s.n && v < s.n && v != c && ValidRun(s, run) && t == Exec(s, run) && t.n == s.n && WF(t)
    requires i < k && 2 * k <= s.n < 2 * (k + 1) && t.nodes[c] == Candidacy(s.nodes[c], k, i)
    requires VoteResp(v, c, s.nodes[c].term + 1, true) in t.net
    ensures ValidRun(s, more) && u == Exec(s, more) && WF(u) && u.n == s.n
    ensures forall j :: 0 <= j < s.n && j != c ==> u.nodes[j] == t.nodes[j]
    ensures forall m :: m in t.net && m.VoteReq? ==> m in u.net
    ensures if i + 1 < k then u.nodes[c] == Candidacy(s.nodes[c], k, i + 1)
            else u.nodes[c].role == Leader && u.nodes[c].term == s.nodes[c].term + 1
  {
    VoteCounts(s.nodes[c], v, i, k);
    hide Effect, Exec, ValidRun, Candidacy;
    more, u := Then(s, run, t, Deliver(VoteResp(v, c, s.nodes[c].term + 1, true), false));
  }

  /** Another supporter is untouched by all this. */
  lemma Waits(s: System, t: System, w: System, u: System, c: nat, v: nat, j: nat)
    requires c < |s.nodes| && j < |s.nodes| == |t.nodes| == |w.nodes| == |u.nodes| && j != v && j != c
    requires t.nodes[j] == s.nodes[j] && w.nodes[j] == t.nodes[j] && u.nodes[j] == w.nodes[j]
             && Ask(s.nodes[c], j) in t.net
    requires forall m :: m in t.net && m != Ask(s.nodes[c], v) ==> m in w.net
    requires forall m :: m in w.net && m.VoteReq? ==> m in u.net
    ensures u.nodes[j] == s.nodes[j] && Ask(s.nodes[c], j) in u.net
  {
  }

  lemma VoteNext(s: System, run: seq<Action>, t: System, c: nat, vs: seq<nat>, i: nat)
    returns (more: seq<Action>, u: System)
    requires WF(s) && c < s.n && Support(s, c, vs) && ValidRun(s, run) && t == Exec(s, run)
    requires i < |vs| && Voting(s, t, c, vs, i)
    ensures ValidRun(s, more) && u == Exec(s, more) && u.n == s.n
    ensures if i + 1 < |vs| then Voting(s, u, c, vs, i + 1)
            else u.nodes[c].role == Leader && u.nodes[c].term == s.nodes[c].term + 1
  {
    var x, v, k := s.nodes[c], vs[i], |vs|;
    assert v < s.n && v != c && Supports(x, s.nodes[v]) && 2 * k <= x.n < 2 * (k + 1);
    assert forall j :: i < j < k ==> vs[j] < s.n && vs[j] != c && vs[j] != v;
    hide Support, Supports, Exec, ValidRun, Candidacy, WF;
    more, u := VoteAsk(s, run, t, c, v);
    var w := u;
    more, u := VoteHear(s, more, u, c, v, i, k);
    hide Ask;
    forall j | i < j < k ensures u.nodes[vs[j]] == s.nodes[vs[j]] && Ask(x, vs[j]) in u.net {
      Waits(s, t, w, u, c, v, vs[j]);
    }
  }

  lemma {:induction false} PollAll(s: System, run: seq<Action>, t: System, c: nat, vs: seq<nat>, i: nat)
    returns (more: seq<Action>, u: System)
    requires WF(s) && c < s.n && Support(s, c, vs) && ValidRun(s, run) && t == Exec(s, run)
    requires i < |vs| && Polling(s, t, c, vs, i)
    ensures ValidRun(s, more) && u == Exec(s, more) && Voting(s, u, c, vs, 0)
    decreases |vs| - i
  {
    hide Exec, ValidRun, Polling, Voting, Support;
    more, u := PollNext(s, run, t, c, vs, i);
    if i + 1 < |vs| { more, u := PollAll(s, more, u, c, vs, i + 1); }
  }

  lemma {:induction false} VoteAll(s: System, run: seq<Action>, t: System, c: nat, vs: seq<nat>, i: nat)
    returns (more: seq<Action>, u: System)
    requires WF(s) && c < s.n && Support(s, c, vs) && ValidRun(s, run) && t == Exec(s, run)
    requires i < |vs| && Voting(s, t, c, vs, i)
    ensures ValidRun(s, more) && u == Exec(s, more) && u.n == s.n
    ensures u.nodes[c].role == Leader && u.nodes[c].term == s.nodes[c].term + 1
    decreases |vs| - i
  {
    hide Exec, ValidRun, Voting, Support;
    more, u := VoteNext(s, run, t, c, vs, i);
    if i + 1 < |vs| { more, u := VoteAll(s, more, u, c, vs, i + 1); }
  }

  lemma Alone(s: System, c: nat) returns (run: seq<Action>)
    requires WF(s) && c < s.n && s.n == 1 && s.nodes[c].role != Leader
    ensures ValidRun(s, run) && Exec(s, run).nodes[c].role == Leader
    ensures Exec(s, run).nodes[c].term == s.nodes[c].term + 1
  {
    run := [Timeout(c)];
    EffectShaped(s.nodes[c], Timeout(c));
    OneStepRun(s, Timeout(c));
  }

  /** From every state of a cluster of any size, whatever else is in flight: a node that does not lead, with enough
      supporters to make a majority with it, has a run that makes it leader of the term after its own. */
  lemma MajorityElects(s: System, c: nat, vs: seq<nat>) returns (run: seq<Action>)
    requires WF(s) && c < s.n && Support(s, c, vs)
    ensures ValidRun(s, run) && Exec(s, run).nodes[c].role == Leader
    ensures Exec(s, run).nodes[c].term == s.nodes[c].term + 1
  {
    if vs == [] {
      run := Alone(s, c);
    } else {
      TimeoutPolls(s.nodes[c], c);
      assert s.n >= 2 && ValidRun(s, []) && Exec(s, []) == s;
      hide Effect, Exec, ValidRun, Supports;
      var t;
      run, t := Then(s, [], s, Timeout(c));
      assert Polling(s, t, c, vs, 0);
      hide Polling, Support, Voting;
      run, t := PollAll(s, run, t, c, vs, 0);
      run, t := VoteAll(s, run, t, c, vs, 0);
    }
  }
}
