/** Who gets how much of a servicing pass. */
module Fairness {
  import opened Exchanges
  import opened Queues
  import opened Dispatch
  import opened RoundRobin

  /** How many messages a pass hands to the consumers in `ks`. */
  ghost function Got(s: State, q: Id, env: nat -> Turn, i: nat, ks: iset<nat>): (n: nat)
    requires Serviceable(s, q)
    decreases |s.queues[q].ready|
  {
    var p := Pick(s.groups[q], s.consumers, env(i).blocked, 0);
    if p.1.NoOne? || s.queues[q].ready == [] || !env(i).sendOk then 0
    else
      var u := TakeOut(SetGroup(s, q, p.0), q);
      Bit(p.1.k in ks) + Got(Accept(u, q, p.1.k, s.queues[q].ready[0]), q, env, i + 1, ks)
  }

  // ---- what a share is ----

  lemma AcceptAdds(s: State, q: Id, k: nat, m: Message, l: nat)
    requires Serviceable(s, q) && k in s.consumers && l in s.consumers
    ensures var r := Accept(s, q, k, m);
            && l in r.consumers && q in r.settled && r.consumers[l].noAck == s.consumers[l].noAck
            && |r.consumers[l].unacked| == |s.consumers[l].unacked| + Bit(k == l && !s.consumers[l].noAck)
            && |r.settled[q]| == |s.settled[q]| + Bit(s.consumers[k].noAck)
  {}

  /** A manual-ack consumer holds its share of the pass on top of what it held; an auto-ack one holds what it held. */
  lemma {:induction false} ShareIsHeld(s: State, q: Id, env: nat -> Turn, i: nat, k: nat)
    requires Serviceable(s, q) && k in s.consumers
    ensures var r := Service(s, q, env, i);
            && k in r.consumers
            && |r.consumers[k].unacked| ==
               |s.consumers[k].unacked| + if s.consumers[k].noAck then 0 else Got(s, q, env, i, iset{k})
    decreases |s.queues[q].ready|
  {
    hide Pick, Accept;
    var p := Pick(s.groups[q], s.consumers, env(i).blocked, 0);
    if !p.1.NoOne? && s.queues[q].ready != [] && env(i).sendOk {
      var u := TakeOut(SetGroup(s, q, p.0), q);
      var m := s.queues[q].ready[0];
      AcceptAdds(u, q, p.1.k, m, k);
      AcceptKeepsQueues(u, q, p.1.k, m);
      ShareIsHeld(Accept(u, q, p.1.k, m), q, env, i + 1, k);
    }
  }

  ghost predicate SameModes(s: State, t: State) {
    forall k :: k in s.consumers ==> k in t.consumers && t.consumers[k].noAck == s.consumers[k].noAck
  }

  /** What leaves the queue in a pass is handed over, and the auto-ack consumers' share of it is settled at once. */
  lemma {:induction false} PassIsHandedOut(s: State, q: Id, env: nat -> Turn, i: nat, all: iset<nat>, auto: iset<nat>)
    requires Serviceable(s, q)
    requires forall k :: k in s.consumers ==> k in all && (k in auto <==> s.consumers[k].noAck)
    ensures var r := Service(s, q, env, i);
            && q in r.queues && q in r.settled
            && |r.queues[q].ready| + Got(s, q, env, i, all) == |s.queues[q].ready|
            && |r.settled[q]| == |s.settled[q]| + Got(s, q, env, i, auto)
    decreases |s.queues[q].ready|
  {
    hide Pick, Accept;
    var p := Pick(s.groups[q], s.consumers, env(i).blocked, 0);
    if !p.1.NoOne? && s.queues[q].ready != [] {
      var u := TakeOut(SetGroup(s, q, p.0), q);
      var m := s.queues[q].ready[0];
      if env(i).sendOk {
        AcceptAdds(u, q, p.1.k, m, p.1.k);
        AcceptKeepsQueues(u, q, p.1.k, m);
        AcceptKeepsModes(u, q, p.1.k, m);
        PassIsHandedOut(Accept(u, q, p.1.k, m), q, env, i + 1, all, auto);
      }
    }
  }

  lemma AcceptKeepsModes(s: State, q: Id, k: nat, m: Message)
    requires Serviceable(s, q) && k in s.consumers
    ensures SameModes(s, Accept(s, q, k, m)) && Accept(s, q, k, m).consumers.Keys == s.consumers.Keys
  {}

  // ---- a pass in which every look finds a taker ----

  /** The state after the front message went to consumer `k` and the cursor moved on by one. */
  function Handed(s: State, q: Id, k: nat): (r: State)
    requires Serviceable(s, q) && k in s.consumers && s.queues[q].ready != []
    ensures Serviceable(r, q) && r.queues[q].ready == s.queues[q].ready[1..]
    ensures r.groups[q] == s.groups[q].(rr := s.groups[q].rr + 1)
  {
    var g := s.groups[q];
    Accept(TakeOut(SetGroup(s, q, g.(rr := g.rr + 1)), q), q, k, s.queues[q].ready[0])
  }

  /** The consumer the next look falls on. */
  function Candidate(s: State, q: Id): (k: nat)
    requires Serviceable(s, q) && s.groups[q].arr != []
    ensures k in s.consumers
  {
    var g := s.groups[q];
    g.arr[Slot(g.rr, |g.arr|)]
  }

  /** Each look of the pass finds its candidate able, and each send succeeds. */
  ghost predicate EveryLookTakes(s: State, q: Id, env: nat -> Turn, i: nat)
    requires Serviceable(s, q)
    decreases |s.queues[q].ready|
  {
    s.queues[q].ready == [] ||
    (&& s.groups[q].arr != [] && env(i).sendOk
     && var k := Candidate(s, q);
        && Able(s.consumers[k], k, env(i).blocked)
        && EveryLookTakes(Handed(s, q, k), q, env, i + 1))
  }

  /** When the candidate is able, the look takes it. */
  lemma LookTakes(s: State, q: Id, env: nat -> Turn, i: nat)
    requires Serviceable(s, q) && s.groups[q].arr != [] && s.queues[q].ready != [] && env(i).sendOk
    requires var k := Candidate(s, q); Able(s.consumers[k], k, env(i).blocked)
    ensures var r, k := Handed(s, q, Candidate(s, q)), Candidate(s, q);
            && Service(s, q, env, i) == Service(r, q, env, i + 1)
            && forall ks :: Got(s, q, env, i, ks) == Bit(k in ks) + Got(r, q, env, i + 1, ks)
  {
    var g, k := s.groups[q], Candidate(s, q);
    assert Pick(g, s.consumers, env(i).blocked, 0) == (g.(rr := g.rr + 1), Chosen(k));
    hide Pick, Slot;
  }

  lemma FirstLook(s: State, q: Id, env: nat -> Turn, i: nat)
    requires Serviceable(s, q) && EveryLookTakes(s, q, env, i) && s.queues[q].ready != [] && s.groups[q].arr != []
    ensures var r, k := Handed(s, q, Candidate(s, q)), Candidate(s, q);
            && EveryLookTakes(r, q, env, i + 1)
            && r.queues[q].ready == s.queues[q].ready[1..] && r.groups[q] == s.groups[q].(rr := s.groups[q].rr + 1)
            && Service(s, q, env, i) == Service(r, q, env, i + 1)
            && forall ks :: Got(s, q, env, i, ks) == Bit(k in ks) + Got(r, q, env, i + 1, ks)
  {
    hide Handed, Slot, Service, Got;
    LookTakes(s, q, env, i);
  }

  /** Such a pass empties the queue, and hands each consumer as many messages as the cursor comes by its slot. */
  lemma {:induction false} ServiceShares(s: State, q: Id, env: nat -> Turn, i: nat, j: nat)
    requires Serviceable(s, q) && EveryLookTakes(s, q, env, i) && Distinct(s.groups[q].arr) && j < |s.groups[q].arr|
    ensures var r, g := Service(s, q, env, i), s.groups[q];
            && q in r.queues && r.queues[q].ready == []
            && Got(s, q, env, i, iset{g.arr[j]}) == Turns(g.rr, |s.queues[q].ready|, |g.arr|, j)
    decreases |s.queues[q].ready|
  {
    hide Turns, Handed, Slot, Distinct, Service, Got, EveryLookTakes;
    var g, n := s.groups[q], |s.queues[q].ready|;
    if n > 0 {
      var k := Candidate(s, q);
      FirstLook(s, q, env, i);
      ServiceShares(Handed(s, q, k), q, env, i + 1, j);
      FirstTurn(g.rr, n, |g.arr|, j);
      DistinctAt(g.arr, j, Slot(g.rr, |g.arr|));
    } else {
      NoTurns(g.rr, |g.arr|, j);
      NothingToHand(s, q, env, i, iset{g.arr[j]});
    }
  }

  lemma NothingToHand(s: State, q: Id, env: nat -> Turn, i: nat, ks: iset<nat>)
    requires Serviceable(s, q) && s.queues[q].ready == []
    ensures Service(s, q, env, i).queues == s.queues && Got(s, q, env, i, ks) == 0
  {
    hide Pick;
  }

  lemma DistinctAt(arr: seq<nat>, i: nat, j: nat)
    requires Distinct(arr) && i < |arr| && j < |arr|
    ensures arr[i] == arr[j] <==> i == j
  {}

  lemma NoTurns(rr: nat, n: nat, j: nat)
    requires n > 0
    ensures Turns(rr, 0, n, j) == 0
  {}

  lemma FirstTurn(rr: nat, k: nat, n: nat, j: nat)
    requires k > 0 && n > 0
    ensures Turns(rr, k, n, j) == Bit(Slot(rr, n) == j) + Turns(rr + 1, k - 1, n, j)
  {
    hide Slot;
    TurnsSplit(rr, 1, k - 1, n, j);
    assert Turns(rr, 1, n, j) == Turns(rr, 0, n, j) + Bit(Falls(rr, 0, n, j));
    assert rr + 0 == rr;
  }

  /** When every look finds a taker, any two consumers' shares of the pass differ by at most one, whatever mix of
      manual acknowledgement, automatic acknowledgement and prefetch windows the group has. */
  lemma SharesDifferByOne(s: State, q: Id, env: nat -> Turn, i: nat, j: nat)
    requires Serviceable(s, q) && EveryLookTakes(s, q, env, 0) && Distinct(s.groups[q].arr)
    requires i < |s.groups[q].arr| && j < |s.groups[q].arr|
    ensures var g := s.groups[q];
            Got(s, q, env, 0, iset{g.arr[i]}) <= Got(s, q, env, 0, iset{g.arr[j]}) + 1
  {
    hide Service, Got;
    ServiceShares(s, q, env, 0, i);
    ServiceShares(s, q, env, 0, j);
    TurnsEven(s.groups[q].rr, |s.queues[q].ready|, |s.groups[q].arr|, i, j);
  }

  // ---- which passes those are ----

  /** No connection is closing or full, and every send succeeds. */
  ghost predicate Open(env: nat -> Turn) {
    forall i :: env(i).blocked == {} && env(i).sendOk
  }

  /** The consumer's window has room for its turns. */
  ghost predicate HasRoom(c: Consumer, turns: nat) {
    c.noAck || c.prefetch == 0 || turns == 0 || |c.unacked| + turns <= c.prefetch
  }

  /** Each consumer's window has room for the turns the cursor will give it. */
  ghost predicate WindowsSuffice(s: State, q: Id)
    requires Serviceable(s, q)
  {
    var g, n := s.groups[q], |s.queues[q].ready|;
    && (n > 0 ==> g.arr != [])
    && forall j :: 0 <= j < |g.arr| ==> HasRoom(s.consumers[g.arr[j]], Turns(g.rr, n, |g.arr|, j))
  }

  lemma HandedConsumer(s: State, q: Id, k: nat, l: nat)
    requires Serviceable(s, q) && k in s.consumers && l in s.consumers && s.queues[q].ready != []
    ensures var r := Handed(s, q, k);
            && l in r.consumers
            && r.consumers[l].noAck == s.consumers[l].noAck && r.consumers[l].prefetch == s.consumers[l].prefetch
            && |r.consumers[l].unacked| == |s.consumers[l].unacked| + Bit(k == l && !s.consumers[l].noAck)
  {}

  /** A slot's turns after the first look, and the room they need. */
  lemma RoomAfterLook(s: State, q: Id, j: nat)
    requires Serviceable(s, q) && s.queues[q].ready != [] && Distinct(s.groups[q].arr) && j < |s.groups[q].arr|
    ensures var g, n, k := s.groups[q], |s.queues[q].ready|, Candidate(s, q);
            var r, l := Handed(s, q, k), s.groups[q].arr[j];
            && l in r.consumers
            && (HasRoom(s.consumers[l], Turns(g.rr, n, |g.arr|, j)) <==>
                  (l == k ==> Able(s.consumers[l], l, {})) && HasRoom(r.consumers[l], Turns(g.rr + 1, n - 1, |g.arr|, j)))
  {
    hide Turns, Handed, Slot, Distinct;
    var g, n, k := s.groups[q], |s.queues[q].ready|, Candidate(s, q);
    HandedConsumer(s, q, k, g.arr[j]);
    FirstTurn(g.rr, n, |g.arr|, j);
    DistinctAt(g.arr, j, Slot(g.rr, |g.arr|));
  }

  lemma NoRoomNeeded(s: State, q: Id)
    requires Serviceable(s, q) && s.queues[q].ready == []
    ensures WindowsSuffice(s, q)
  {
    var g := s.groups[q];
    forall j | 0 <= j < |g.arr| ensures HasRoom(s.consumers[g.arr[j]], Turns(g.rr, 0, |g.arr|, j)) {
      NoTurns(g.rr, |g.arr|, j);
    }
  }

  lemma WindowsAfterLook(s: State, q: Id)
    requires Serviceable(s, q) && s.queues[q].ready != [] && s.groups[q].arr != [] && Distinct(s.groups[q].arr)
    ensures var k := Candidate(s, q);
            WindowsSuffice(s, q) <==> Able(s.consumers[k], k, {}) && WindowsSuffice(Handed(s, q, k), q)
  {
    hide Turns, Handed, Slot, Distinct, HasRoom, Able;
    var g, k := s.groups[q], Candidate(s, q);
    forall j | 0 <= j < |g.arr|
      ensures var l := g.arr[j];
              HasRoom(s.consumers[l], Turns(g.rr, |s.queues[q].ready|, |g.arr|, j)) <==>
                (l == k ==> Able(s.consumers[l], l, {}))
                && HasRoom(Handed(s, q, k).consumers[l], Turns(g.rr + 1, |s.queues[q].ready| - 1, |g.arr|, j))
    {
      RoomAfterLook(s, q, j);
    }
    assert k == g.arr[Slot(g.rr, |g.arr|)];
  }

  /** While connections stay open, every look of a pass finds a taker exactly when, at its start, each consumer's window
      has room for the turns it will get. */
  lemma {:induction false} LooksTakeIff(s: State, q: Id, env: nat -> Turn, i: nat)
    requires Serviceable(s, q) && Open(env) && Distinct(s.groups[q].arr)
    ensures EveryLookTakes(s, q, env, i) <==> WindowsSuffice(s, q)
    decreases |s.queues[q].ready|
  {
    hide Handed, Slot, Distinct, WindowsSuffice, Able;
    if s.queues[q].ready == [] {
      NoRoomNeeded(s, q);
    } else if s.groups[q].arr != [] {
      var k := Candidate(s, q);
      WindowsAfterLook(s, q);
      LooksTakeIff(Handed(s, q, k), q, env, i + 1);
    } else {
      NoWindows(s, q);
    }
  }

  lemma NoWindows(s: State, q: Id)
    requires Serviceable(s, q) && s.queues[q].ready != [] && s.groups[q].arr == []
    ensures !WindowsSuffice(s, q)
  {}
}
