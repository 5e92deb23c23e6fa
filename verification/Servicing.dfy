/** One servicing pass: what is handed to whom, in what order, and why it ends. */
module Servicing {
  import opened Exchanges
  import opened Queues
  import opened Dispatch
  import opened RoundRobin

  datatype Handover = Handover(to: nat, tag: nat, msg: Message)

  /** What a pass hands over, one by one. */
  ghost function Handovers(s: State, q: Id, env: nat -> Turn, i: nat): (hs: seq<Handover>)
    requires Serviceable(s, q)
    decreases |s.queues[q].ready|
  {
    var p := Pick(s.groups[q], s.consumers, env(i).blocked, 0);
    if p.1.NoOne? || s.queues[q].ready == [] || !env(i).sendOk then []
    else
      var u := TakeOut(SetGroup(s, q, p.0), q);
      [Handover(p.1.k, u.nextTag, s.queues[q].ready[0])]
      + Handovers(Accept(u, q, p.1.k, s.queues[q].ready[0]), q, env, i + 1)
  }

  /** The deliveries among them for one consumer. */
  ghost function For(hs: seq<Handover>, k: nat): (ds: seq<Delivery>) {
    if hs == [] then [] else (if hs[0].to == k then [Delivery(hs[0].tag, hs[0].msg)] else []) + For(hs[1..], k)
  }

  // ---- in queue order ----

  lemma DequeuedIs(q: Queue, d: Defaults)
    requires q.ready != []
    ensures Dequeue(q, d).0.ready == q.ready[1..]
  {
  }

  /** For every pass, whoever is blocked and whichever send fails: messages leave from the front in queue order, with
      consecutive tags, and what is left is the rest; only a message whose send failed is behind it instead. */
  lemma {:induction false} PassInOrder(s: State, q: Id, env: nat -> Turn, i: nat)
    requires Serviceable(s, q)
    ensures var hs, r, ready := Handovers(s, q, env, i), Service(s, q, env, i), s.queues[q].ready;
            var n := |hs|;
            && q in r.queues && n <= |ready|
            && (forall j :: 0 <= j < n ==> hs[j].msg == ready[j] && hs[j].tag == s.nextTag + 1 + j)
            && (r.queues[q].ready == ready[n..] || (n < |ready| && r.queues[q].ready == ready[n + 1..] + [ready[n]]))
            && forall p :: p in s.queues && p != q ==> p in r.queues && r.queues[p] == s.queues[p]
    decreases |s.queues[q].ready|
  {
    hide Pick, Dequeue;
    var ready := s.queues[q].ready;
    var p := Pick(s.groups[q], s.consumers, env(i).blocked, 0);
    if !p.1.NoOne? && ready != [] {
      DequeuedIs(s.queues[q], s.defaults);
      var u := TakeOut(SetGroup(s, q, p.0), q);
      if env(i).sendOk {
        AcceptKeepsQueues(u, q, p.1.k, ready[0]);
        var t := Accept(u, q, p.1.k, ready[0]);
        assert t.nextTag == s.nextTag + 1 && Service(s, q, env, i) == Service(t, q, env, i + 1);
        assert Handovers(s, q, env, i) == [Handover(p.1.k, s.nextTag + 1, ready[0])] + Handovers(t, q, env, i + 1);
        hide Accept, Service, Handovers;
        PassInOrder(t, q, env, i + 1);
        FirstThenRest(s, t, q, env, i, p.1.k);
      }
    }
  }

  lemma FirstThenRest(s: State, t: State, q: Id, env: nat -> Turn, i: nat, k: nat)
    requires Serviceable(s, q) && Serviceable(t, q) && s.queues[q].ready != [] && t.nextTag == s.nextTag + 1
    requires t.queues[q].ready == s.queues[q].ready[1..]
    requires Handovers(s, q, env, i) ==
             [Handover(k, s.nextTag + 1, s.queues[q].ready[0])] + Handovers(t, q, env, i + 1)
    requires var rest, ready := Handovers(t, q, env, i + 1), t.queues[q].ready;
             |rest| <= |ready|
             && forall j :: 0 <= j < |rest| ==> rest[j].msg == ready[j] && rest[j].tag == t.nextTag + 1 + j
    ensures var hs, ready := Handovers(s, q, env, i), s.queues[q].ready;
            && |hs| == 1 + |Handovers(t, q, env, i + 1)| <= |ready|
            && (forall j :: 0 <= j < |hs| ==> hs[j].msg == ready[j] && hs[j].tag == s.nextTag + 1 + j)
            && ready[|hs|..] == t.queues[q].ready[|hs| - 1..]
            && (|hs| < |ready| ==> ready[|hs|] == t.queues[q].ready[|hs| - 1]
                                   && ready[|hs| + 1..] == t.queues[q].ready[|hs|..])
  {
    hide Handovers;
    var hs, rest := Handovers(s, q, env, i), Handovers(t, q, env, i + 1);
    forall j | 0 <= j < |hs| ensures hs[j].msg == s.queues[q].ready[j] && hs[j].tag == s.nextTag + 1 + j {
      if j > 0 { assert hs[j] == rest[j - 1]; }
    }
  }

  // ---- to the consumers ----

  /** A manual-ack consumer holds what it was handed behind what it held; an auto-ack one holds what it held. */
  lemma {:induction false} HandedIsHeld(s: State, q: Id, env: nat -> Turn, i: nat, k: nat)
    requires Serviceable(s, q) && k in s.consumers
    ensures var r, c := Service(s, q, env, i), s.consumers[k];
            k in r.consumers
            && r.consumers[k] ==
               c.(unacked := c.unacked + if c.noAck then [] else For(Handovers(s, q, env, i), k))
    decreases |s.queues[q].ready|
  {
    hide Pick, Dequeue;
    var c := s.consumers[k];
    assert c.unacked + [] == c.unacked;
    var p := Pick(s.groups[q], s.consumers, env(i).blocked, 0);
    if !p.1.NoOne? && s.queues[q].ready != [] && env(i).sendOk {
      var u := TakeOut(SetGroup(s, q, p.0), q);
      var m := s.queues[q].ready[0];
      var t := Accept(u, q, p.1.k, m);
      AcceptKeepsQueues(u, q, p.1.k, m);
      DequeuedIs(s.queues[q], s.defaults);
      assert t.consumers[k].unacked == c.unacked + if p.1.k == k && !c.noAck then [Delivery(u.nextTag, m)] else [];
      HandedIsHeld(t, q, env, i + 1, k);
      var rest := Handovers(t, q, env, i + 1);
      assert Handovers(s, q, env, i) == [Handover(p.1.k, u.nextTag, m)] + rest;
      ForFirst(Handover(p.1.k, u.nextTag, m), rest, k, c.unacked);
    }
  }

  lemma ForFirst(h: Handover, rest: seq<Handover>, k: nat, held: seq<Delivery>)
    ensures held + For([h] + rest, k) == (held + if h.to == k then [Delivery(h.tag, h.msg)] else []) + For(rest, k)
  {
    assert ([h] + rest)[1..] == rest;
  }

  /** Nobody is handed anything while blocked. */
  lemma {:induction false} BlockedGetsNothing(s: State, q: Id, env: nat -> Turn, i: nat, k: nat)
    requires Serviceable(s, q) && forall j :: j >= i ==> k in env(j).blocked
    ensures For(Handovers(s, q, env, i), k) == []
    decreases |s.queues[q].ready|
  {
    var p := Pick(s.groups[q], s.consumers, env(i).blocked, 0);
    if !p.1.NoOne? && s.queues[q].ready != [] && env(i).sendOk {
      var u := TakeOut(SetGroup(s, q, p.0), q);
      var m := s.queues[q].ready[0];
      assert p.1.k != k;
      AcceptKeepsQueues(u, q, p.1.k, m);
      hide Pick, Accept, Dequeue;
      BlockedGetsNothing(Accept(u, q, p.1.k, m), q, env, i + 1, k);
      ForFirst(Handover(p.1.k, u.nextTag, m), Handovers(Accept(u, q, p.1.k, m), q, env, i + 1), k, []);
    }
  }

  // ---- why it ends ----

  /** The scan gives up only after having looked at everybody. */
  lemma {:induction false} PickLooksAtAll(g: Group, consumers: map<nat, Consumer>, blocked: set<nat>, tries: nat, t: nat)
    requires (forall i :: 0 <= i < |g.arr| ==> g.arr[i] in consumers) && tries <= t < |g.arr|
    requires Pick(g, consumers, blocked, tries).1.NoOne?
    ensures var k := g.arr[Slot(g.rr + t - tries, |g.arr|)];
            k in consumers && !Able(consumers[k], k, blocked)
    decreases |g.arr| - tries
  {
    if tries < t { PickLooksAtAll(g.(rr := g.rr + 1), consumers, blocked, tries + 1, t); }
  }

  lemma NobodyAble(g: Group, consumers: map<nat, Consumer>, blocked: set<nat>, k: nat)
    requires (forall i :: 0 <= i < |g.arr| ==> g.arr[i] in consumers) && k in g.arr
    requires Pick(g, consumers, blocked, 0).1.NoOne?
    ensures k in consumers && !Able(consumers[k], k, blocked)
  {
    var j :| 0 <= j < |g.arr| && g.arr[j] == k;
    var t := EverySlotOnce(g.rr, |g.arr|, j);
    hide Pick, Slot;
    PickLooksAtAll(g, consumers, blocked, 0, t);
  }

  /** A pass whose sends all work ends with the queue empty, or at a turn at which every consumer of the group is blocked
      or has its window full. */
  lemma {:induction false} PassEnds(s: State, q: Id, env: nat -> Turn, i: nat) returns (at: nat)
    requires Serviceable(s, q) && forall j :: j >= i ==> env(j).sendOk
    ensures at >= i
    ensures var r := Service(s, q, env, i);
            && q in r.queues && q in r.groups && r.groups[q].arr == s.groups[q].arr
            && (r.queues[q].ready == [] || forall k :: k in s.groups[q].arr ==>
                  && k in r.consumers
                  && var c := r.consumers[k];
                     k in env(at).blocked || (!c.noAck && c.prefetch > 0 && |c.unacked| >= c.prefetch))
    decreases |s.queues[q].ready|
  {
    hide Dequeue;
    at := i;
    var p := Pick(s.groups[q], s.consumers, env(i).blocked, 0);
    if p.1.NoOne? {
      forall k | k in s.groups[q].arr ensures k in s.consumers && !Able(s.consumers[k], k, env(i).blocked) {
        NobodyAble(s.groups[q], s.consumers, env(i).blocked, k);
      }
    } else if s.queues[q].ready != [] {
      var u := TakeOut(SetGroup(s, q, p.0), q);
      AcceptKeepsQueues(u, q, p.1.k, s.queues[q].ready[0]);
      DequeuedIs(s.queues[q], s.defaults);
      hide Pick, Accept;
      at := PassEnds(Accept(u, q, p.1.k, s.queues[q].ready[0]), q, env, i + 1);
    }
  }
}
