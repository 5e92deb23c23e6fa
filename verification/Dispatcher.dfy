/** The dispatcher object: the loops that deliver, settle and tear down, changing its tables in place. */
module Dispatcher {
  import opened Exchanges
  import opened Queues
  import opened Dispatch
  import opened DispatchRuns

  /** The swap-remove loop over one consumer's deliveries. */
  method SettleConsumer(u: seq<Delivery>, tag: nat, multiple: bool) returns (kept: seq<Delivery>, taken: seq<Delivery>)
    ensures Split(kept, taken) == Settle(u, 0, tag, multiple)
  {
    kept, taken := u, [];
    var i := 0;
    assert [] + Settle(u, 0, tag, multiple).taken == Settle(u, 0, tag, multiple).taken;
    while i < |kept|
      invariant 0 <= i <= |kept|
      invariant var rest := Settle(kept, i, tag, multiple);
                Settle(u, 0, tag, multiple) == Split(rest.kept, taken + rest.taken)
      decreases |kept| - i
    {
      if !TagMatches(kept[i], tag, multiple) {
        i := i + 1;
      } else {
        var d := kept[i];
        var left := kept[i := kept[|kept| - 1]][..|kept| - 1];
        SettleTakes(kept, i, tag, multiple, taken);
        kept, taken := left, taken + [d];
        if !multiple { return; }
      }
    }
    assert taken + [] == taken;
  }

  lemma SettleTakes(u: seq<Delivery>, i: nat, tag: nat, multiple: bool, so: seq<Delivery>)
    requires i < |u| && TagMatches(u[i], tag, multiple)
    ensures var left := u[i := u[|u| - 1]][..|u| - 1];
            var all, rest := Settle(u, i, tag, multiple), Settle(left, i, tag, multiple);
            if multiple then all.kept == rest.kept && so + all.taken == (so + [u[i]]) + rest.taken
            else all.kept == left && so + all.taken == so + [u[i]]
  {
    var left := u[i := u[|u| - 1]][..|u| - 1];
    var rest := Settle(left, i, tag, multiple);
    assert so + ([u[i]] + rest.taken) == (so + [u[i]]) + rest.taken;
  }

  /** One turn of a servicing pass. */
  lemma ServiceTurn(s: State, q: Id, env: nat -> Turn, i: nat)
    requires Serviceable(s, q)
    ensures var p := Pick(s.groups[q], s.consumers, env(i).blocked, 0);
            var t := SetGroup(s, q, p.0);
            Service(s, q, env, i) ==
            if p.1.NoOne? || s.queues[q].ready == [] then t
            else if !env(i).sendOk then PutBack(TakeOut(t, q), q, s.queues[q].ready[0])
            else Service(Accept(TakeOut(t, q), q, p.1.k, s.queues[q].ready[0]), q, env, i + 1)
  {
    hide Pick, Accept;
  }

  class BeaverDispatcher {
    const defaults: Defaults
    var queues: map<Id, Queue>
    var consumers: map<nat, Consumer>
    var order: seq<nat>
    var groups: map<Id, Group>
    var nextTag: nat
    ghost var settled: map<Id, multiset<Message>>

    ghost function Value(): (s: State) reads this {
      State(defaults, queues, consumers, order, groups, nextTag, settled)
    }

    constructor (d: Defaults, qs: map<Id, Queue>)
      ensures Value() == State(d, qs, map[], [], map[], 0, map q | q in qs :: multiset{})
      ensures WF(Value()) && TagsOk(Value())
    {
      defaults, queues, consumers, order, groups, nextTag := d, qs, map[], [], map[], 0;
      settled := map q | q in qs :: multiset{};
    }

    /** The scan for the next consumer that can take a message. */
    method PickConsumer(q: Id, blocked: set<nat>) returns (c: Choice)
      requires Serviceable(Value(), q)
      modifies this`groups
      ensures var p := Pick(old(groups)[q], consumers, blocked, 0);
              c == p.1 && Value() == SetGroup(old(Value()), q, p.0)
    {
      var g := groups[q];
      var tries := 0;
      while tries < |g.arr|
        invariant 0 <= tries <= |g.arr| && g.arr == groups[q].arr && groups == old(groups)
        invariant Pick(g, consumers, blocked, tries) == Pick(groups[q], consumers, blocked, 0)
      {
        var k := g.arr[g.rr % |g.arr|];
        g := g.(rr := g.rr + 1);
        if Able(consumers[k], k, blocked) {
          groups := groups[q := g];
          return Chosen(k);
        }
        tries := tries + 1;
      }
      groups := groups[q := g];
      return NoOne;
    }

    /** One servicing pass; `env` says what the connections allow at each turn. */
    method ServiceGroup(q: Id, env: nat -> Turn)
      requires Serviceable(Value(), q)
      modifies this
      ensures Value() == Service(old(Value()), q, env, 0)
    {
      hide Pick, Service, Accept;
      var i := 0;
      while true
        invariant Serviceable(Value(), q) && Service(Value(), q, env, i) == Service(old(Value()), q, env, 0)
        decreases |queues[q].ready|
      {
        ServiceTurn(Value(), q, env, i);
        var c := PickConsumer(q, env(i).blocked);
        if c.NoOne? { return; }
        var t := TakeNext(q);
        if t.Nothing? { return; }
        if !env(i).sendOk {
          queues := queues[q := Requeue(queues[q], defaults, t.msg)];
          return;
        }
        ghost var taken := Value();
        AcceptKeepsQueues(taken, q, c.k, t.msg);
        Hand(q, c.k, t.msg);
        i := i + 1;
      }
    }

    /** Takes the front message, if there is one, and gives it the next tag. */
    method TakeNext(q: Id) returns (t: Taken)
      requires Serviceable(Value(), q)
      modifies this`queues, this`nextTag
      ensures if old(queues)[q].ready == [] then t == Nothing && Value() == old(Value())
              else t == Taken(old(queues)[q].ready[0]) && Value() == TakeOut(old(Value()), q)
      ensures t.Taken? ==> |queues[q].ready| < |old(queues)[q].ready|
    {
      var (rest, m) := Dequeue(queues[q], defaults);
      t := m;
      if t.Nothing? { return; }
      queues := queues[q := rest];
      nextTag := nextTag + 1;
    }

    /** Records a successful delivery under the tag just given out. */
    method Hand(q: Id, k: nat, m: Message)
      requires Serviceable(Value(), q) && k in consumers
      modifies this`consumers, this`settled
      ensures Value() == Accept(old(Value()), q, k, m)
    {
      var c := consumers[k];
      if c.noAck {
        settled := settled[q := settled[q] + multiset{m}];
      } else {
        consumers := consumers[k := c.(unacked := c.unacked + [Delivery(nextTag, m)])];
      }
    }

    /** Returns deliveries to their queue one by one, or lets them go. */
    method GiveUp(k: nat, kept: seq<Delivery>, taken: seq<Delivery>, requeue: bool)
      requires Shaped(Value()) && k in consumers
      modifies this`queues, this`consumers, this`settled
      ensures Value() == Release(old(Value()), k, kept, taken, requeue)
    {
      var c := consumers[k];
      if requeue {
        var i := 0;
        assert taken[0..] == taken;
        while i < |taken|
          invariant 0 <= i <= |taken| && c.queue in queues && consumers == old(consumers) && settled == old(settled)
          invariant queues == old(queues)[c.queue := queues[c.queue]]
          invariant RequeueAll(queues[c.queue], defaults, taken[i..]) == RequeueAll(old(queues)[c.queue], defaults, taken)
        {
          assert taken[i..][1..] == taken[i + 1..] && taken[i..][0] == taken[i];
          queues := queues[c.queue := Requeue(queues[c.queue], defaults, taken[i].msg)];
          i := i + 1;
        }
        assert taken[i..] == [];
      } else {
        settled := settled[c.queue := settled[c.queue] + multiset(Msgs(taken))];
      }
      consumers := consumers[k := c.(unacked := kept)];
    }

    /** Acknowledge or reject: the loop over all consumers of the connection and channel. */
    method SettleUnacked(a: Ask) returns (n: nat)
      requires Shaped(Value())
      modifies this`queues, this`consumers, this`settled
      ensures (Value(), n) == SettleFrom(old(Value()), 0, a)
    {
      hide Settle, Release;
      n := 0;
      var i := 0;
      while i < |order|
        invariant 0 <= i <= |order| && order == old(order) && Shaped(Value())
        invariant var rest := SettleFrom(Value(), i, a);
                  SettleFrom(old(Value()), 0, a) == (rest.0, n + rest.1)
      {
        var c := consumers[order[i]];
        if On(c, a.conn, a.channel) {
          var kept, taken := SettleConsumer(c.unacked, a.tag, a.multiple);
          if taken != [] {
            ReleaseTouchesOne(Value(), order[i], kept, taken, a.requeue);
            GiveUp(order[i], kept, taken, a.requeue);
            n := n + |taken|;
            if !a.multiple { return; }
          }
        }
        i := i + 1;
      }
    }

    /** A consumer is cancelled or its connection goes. */
    method ConsumerDestroy(k: nat, requeue: bool)
      requires Shaped(Value()) && k in consumers && consumers[k].queue in groups
      modifies this
      ensures Value() == Destroy(old(Value()), k, requeue)
    {
      hide Release, IndexOf, Unlink;
      var c := consumers[k];
      ReleaseTouchesOne(Value(), k, [], c.unacked, requeue);
      GiveUp(k, [], c.unacked, requeue);
      LeaveGroup(c.queue, k);
      order := UnlinkFrom(order, k);
      consumers := consumers - {k};
    }

    /** Swap-removes the consumer from its group; an empty group is dropped. */
    method LeaveGroup(q: Id, k: nat)
      requires q in groups
      modifies this`groups
      ensures var g := Leave(old(groups)[q], k);
              groups == if g.arr == [] then old(groups) - {q} else old(groups)[q := g]
    {
      var g := groups[q];
      var i := 0;
      while i < |g.arr| && g.arr[i] != k
        invariant 0 <= i <= |g.arr| && forall j :: 0 <= j < i ==> g.arr[j] != k
      {
        i := i + 1;
      }
      assert i == IndexOf(g.arr, k);
      if i < |g.arr| {
        var arr := g.arr[i := g.arr[|g.arr| - 1]][..|g.arr| - 1];
        g := Group(arr, if g.rr > |arr| then 0 else g.rr);
      }
      groups := if |g.arr| == 0 then groups - {q} else groups[q := g];
    }
  }

  /** Takes one consumer out of the list. */
  method UnlinkFrom(order: seq<nat>, k: nat) returns (r: seq<nat>)
    ensures r == Unlink(order, k)
  {
    var i := 0;
    assert order[0..] == order && [] + Unlink(order, k) == Unlink(order, k) && order[..0] == [];
    while i < |order| && order[i] != k
      invariant 0 <= i <= |order| && Unlink(order, k) == order[..i] + Unlink(order[i..], k)
    {
      assert order[i..][1..] == order[i + 1..];
      assert order[..i] + ([order[i]] + Unlink(order[i + 1..], k)) == order[..i + 1] + Unlink(order[i + 1..], k);
      i := i + 1;
    }
    r := if i < |order| then order[..i] + order[i + 1..] else order;
    if i < |order| { assert order[i..][1..] == order[i + 1..]; }
    assert i == |order| ==> order[i..] == [] && order[..i] + [] == order;
  }
}
