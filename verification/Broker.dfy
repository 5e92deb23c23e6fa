/** The broker object: the registry, and routing as loops that re-enter each other. */
module Broker {
  import opened Exchanges
  import opened Queues
  import opened Cascade

  datatype Outcome = Done | Missing | InUse | NotEmpty

  class BeaverBroker {
    const defaults: Defaults
    var queues: map<Id, Queue>
    var exchanges: map<Id, Table>
    var published: nat

    ghost function Value(): (s: State) reads this {
      State(queues, exchanges, defaults, published)
    }

    /** Every binding leads to a registered queue, and no exchange holds a binding twice. */
    ghost predicate Valid() reads this {
      WF(Value()) && forall x :: x in exchanges ==> Distinct(exchanges[x].bindings)
    }

    constructor (d: Defaults)
      ensures Valid() && Value() == State(map[], map[], d, 0)
    {
      defaults, queues, exchanges, published := d, map[], map[], 0;
    }

    /** Binding needs both ends; otherwise nothing changes. */
    method Bind(vhost: string, queue: string, exchange: string, key: string) returns (o: Outcome)
      requires Valid()
      modifies this`exchanges
      ensures Valid()
      ensures o == if Id(vhost, exchange) in old(exchanges) && Id(vhost, queue) in queues then Done else Missing
      ensures var x, b := Id(vhost, exchange), Binding(key, Id(vhost, queue));
              exchanges == if o == Missing then old(exchanges)
                           else old(exchanges)[x := Table(old(exchanges)[x].kind, Bound(old(exchanges)[x].bindings, b))]
    {
      var x, b := Id(vhost, exchange), Binding(key, Id(vhost, queue));
      if x !in exchanges || b.queue !in queues { return Missing; }
      var bound := AddBinding(exchanges[x].bindings, b);
      exchanges := exchanges[x := Table(exchanges[x].kind, bound)];
      return Done;
    }

    /** Deleting a queue drops every binding to it, so none is left dangling; a queue in use or not empty can be
        spared. */
    method DeleteQueue(q: Id, ifUnused: bool, ifEmpty: bool, consumers: nat) returns (o: Outcome, depth: nat)
      requires Valid()
      modifies this`queues, this`exchanges
      ensures Valid()
      ensures o == if q !in old(queues) then Missing
                   else if ifUnused && consumers > 0 then InUse
                   else if ifEmpty && old(queues)[q].ready != [] then NotEmpty
                   else Done
      ensures o != Done ==> exchanges == old(exchanges) && queues == old(queues)
      ensures o == Done ==>
                && depth == |old(queues)[q].ready| && queues == old(queues) - {q} && exchanges.Keys == old(exchanges).Keys
                && forall x :: x in exchanges ==> Unbound(old(exchanges)[x], exchanges[x], q)
    {
      if q !in queues { return Missing, 0; }
      if ifUnused && consumers > 0 { return InUse, 0; }
      depth := |queues[q].ready|;
      if ifEmpty && depth > 0 { return NotEmpty, depth; }
      var todo := exchanges.Keys;
      while todo != {}
        invariant todo <= exchanges.Keys && exchanges.Keys == old(exchanges).Keys && queues == old(queues)
        invariant forall x :: x in todo ==> exchanges[x] == old(exchanges)[x]
        invariant forall x :: x in exchanges.Keys - todo ==> Unbound(old(exchanges)[x], exchanges[x], q)
        decreases todo
      {
        var x :| x in todo;
        var left, removed := RemoveQueue(exchanges[x].bindings, q);
        UnboundExactly(exchanges[x].bindings, left, q);
        exchanges := exchanges[x := Table(exchanges[x].kind, left)];
        todo := todo - {x};
      }
      queues := queues - {q};
      UnboundKeepsWF(old(Value()), Value(), q);
      return Done, depth;
    }

    /** Routes a message and everything its admission sets off. */
    method Route(vhost: string, m: Message) returns (r: Routed)
      requires Valid()
      modifies this`queues, this`published
      ensures Valid() && (Value(), r) == Cascade.Route(old(Value()), vhost, m)
      decreases Potential(Value()) + Shares(|queues.Keys|, Cost(Value(), m.hops)), 2, 0
    {
      hide Cascade.Route, OfferAll, Potential, Shares, Weight, TargetsOf, WF, Within;
      ghost var start := Value();
      var ts := FindTargets(vhost, m);
      RouteUnfolds(start, vhost, m);
      var routed, failed := OfferEach(ts, m);
      ghost var offered := Value();
      if routed > 0 { published := published + 1; }
      assert Value() == Counted(offered, routed);
      r := if routed == 0 && failed then ResourceError else Routed(routed);
    }

    method FindTargets(vhost: string, m: Message) returns (ts: seq<Id>)
      ensures ts == TargetsOf(Value(), vhost, m)
    {
      ts := [];
      if m.exchange == "" {
        if Id(vhost, m.key) in queues { ts := [Id(vhost, m.key)]; }
      } else if Id(vhost, m.exchange) in exchanges {
        ts := RouteTargets(exchanges[Id(vhost, m.exchange)], m.key);
      }
    }

    /** The loop over the targets. */
    method OfferEach(ts: seq<Id>, m: Message) returns (routed: nat, failed: bool)
      requires Valid() && forall i :: 0 <= i < |ts| ==> ts[i] in queues
      modifies this`queues, this`published
      ensures Offers(Value(), routed, failed) == OfferAll(old(Value()), ts, m) && Valid()
      decreases Potential(Value()) + Shares(|ts|, Cost(Value(), m.hops)), 1, |ts|
    {
      hide WF, OfferAll, Offer, Potential, Attempts, Shares, Weight, Cost, Within, Remaining;
      ghost var start := Value();
      routed, failed := 0, false;
      var i := 0;
      RemainingStart(start, ts, m);
      while i < |ts|
        invariant 0 <= i <= |ts| && WF(start) && (forall j :: 0 <= j < |ts| ==> ts[j] in start.queues)
        invariant Remaining(start, Value(), ts, i, m, routed, failed)
      {
        RemainingAffords(start, Value(), ts, i, m, routed, failed);
        RemainingStep(start, Value(), ts, i, m, routed, failed);
        var ok := OfferTo(ts[i], m);
        if ok { routed := routed + 1; } else { failed := true; }
        i := i + 1;
      }
      RemainingDone(start, Value(), ts, m, routed, failed);
    }

    /** Enqueue on one queue, then dead-letter the evicted messages in order. */
    method OfferTo(t: Id, m: Message) returns (ok: bool)
      requires Valid() && t in queues
      modifies this`queues, this`published
      ensures (Value(), ok) == Offer(old(Value()), t, m) && Valid()
      decreases Potential(Value()) + Cost(Value(), m.hops), 0, 0
    {
      hide Enqueue, DeadLetterAll, Potential, Attempts, Weight, Load;
      var e := Enqueue(queues[t], defaults, m);
      LocalEnqueue(Value(), t, m);
      EnqueueKeepsPolicy(queues[t], defaults, m);
      queues := queues[t := e.queue];
      ok := !e.full;
      if e.queue.policy.deadLetter.Target? { DeadLetterEach(t, e.evicted); }
    }

    method DeadLetterEach(src: Id, ms: seq<Message>)
      requires Valid() && src in queues
      modifies this`queues, this`published
      ensures Value() == DeadLetterAll(old(Value()), src, ms) && Valid()
      decreases Potential(Value()) + Load(|queues.Keys|, ms), 4, |ms|
    {
      var i := 0;
      assert ms[0..] == ms;
      while i < |ms|
        invariant 0 <= i <= |ms| && Valid() && src in queues && queues.Keys == old(queues.Keys)
        invariant Potential(Value()) + Load(|queues.Keys|, ms[i..]) <=
                  old(Potential(Value()) + Load(|queues.Keys|, ms))
        invariant DeadLetterAll(Value(), src, ms[i..]) == DeadLetterAll(old(Value()), src, ms)
      {
        assert ms[i..][1..] == ms[i + 1..] && ms[i..][0] == ms[i];
        DeadLetter(src, ms[i]);
        i := i + 1;
      }
    }

    /** The dead-letter callback. */
    method DeadLetter(src: Id, m: Message)
      requires Valid() && src in queues
      modifies this`queues, this`published
      ensures Value() == DeadLetterOne(old(Value()), src, m) && Valid()
      decreases Potential(Value()) + Weight(|queues.Keys|, m.hops), 3, 0
    {
      if m.hops >= MAX_HOPS { return; }
      var target := queues[src].policy.deadLetter;
      if target.NoTarget? || target.exchange == "" { return; }
      var r := Route(src.vhost, Republished(target, m));
    }
  }

  /** Part-way through the targets: the ones left exist, the measure has not risen, and offering to the rest
      from here completes what offering to all of them from the start yields. */
  ghost predicate Remaining(start: State, s: State, ts: seq<Id>, i: nat, m: Message, routed: nat, failed: bool)
    requires WF(start) && i <= |ts| && forall j :: 0 <= j < |ts| ==> ts[j] in start.queues
  {
    && WF(s) && (forall j :: 0 <= j < |ts[i..]| ==> ts[i..][j] in s.queues)
    && Potential(s) + Shares(|ts[i..]|, Cost(s, m.hops)) <= Potential(start) + Shares(|ts|, Cost(start, m.hops))
    && var rest := OfferAll(s, ts[i..], m);
       OfferAll(start, ts, m) == Offers(rest.state, routed + rest.routed, failed || rest.failed)
  }

  lemma EnqueueKeepsPolicy(q: Queue, d: Defaults, m: Message)
    ensures Enqueue(q, d, m).queue.policy == q.policy
  {
  }

  /** What a route reports once every target has answered. */
  ghost function Settled(o: Offers): (r: (State, Routed)) {
    (Counted(o.state, o.routed), if o.routed == 0 && o.failed then ResourceError else Routed(o.routed))
  }

  lemma RouteUnfolds(s: State, vhost: string, m: Message)
    requires WF(s)
    ensures var ts, f := TargetsOf(s, vhost, m), |s.queues.Keys|;
            && (forall j :: 0 <= j < |ts| ==> ts[j] in s.queues)
            && Shares(|ts|, Cost(s, m.hops)) <= Shares(f, Cost(s, m.hops))
            && Cascade.Route(s, vhost, m) == Settled(OfferAll(s, ts, m)) && WF(Settled(OfferAll(s, ts, m)).0)
  {
    var ts := TargetsOf(s, vhost, m);
    TargetsBounded(s, vhost, m);
    SharesMono(|ts|, |s.queues.Keys|, Cost(s, m.hops));
    assert Cascade.Route(s, vhost, m).0 == Counted(OfferAll(s, ts, m).state, OfferAll(s, ts, m).routed);
    hide OfferAll, Potential, Shares, Weight, TargetsOf, Within;
  }

  lemma RemainingStart(start: State, ts: seq<Id>, m: Message)
    requires WF(start) && forall j :: 0 <= j < |ts| ==> ts[j] in start.queues
    ensures Remaining(start, start, ts, 0, m, 0, false)
  {
    assert ts[0..] == ts;
    hide OfferAll, Potential, Shares, Weight;
  }

  lemma ShareOfFirst(n: nat, c: nat)
    requires n > 0
    ensures Shares(n, c) >= c
  {
  }

  /** The next target exists and offering to it is within the measure. */
  lemma RemainingAffords(start: State, s: State, ts: seq<Id>, i: nat, m: Message, routed: nat, failed: bool)
    requires WF(start) && i < |ts| && forall j :: 0 <= j < |ts| ==> ts[j] in start.queues
    requires Remaining(start, s, ts, i, m, routed, failed)
    ensures WF(s) && ts[i] in s.queues
    ensures Potential(s) + Cost(s, m.hops) <= Potential(start) + Shares(|ts|, Cost(start, m.hops))
  {
    assert ts[i..][0] == ts[i];
    ShareOfFirst(|ts[i..]|, Cost(s, m.hops));
    hide OfferAll, Potential, Shares, Cost, WF;
  }

  lemma RemainingStep(start: State, s: State, ts: seq<Id>, i: nat, m: Message, routed: nat, failed: bool)
    requires WF(start) && i < |ts| && forall j :: 0 <= j < |ts| ==> ts[j] in start.queues
    requires Remaining(start, s, ts, i, m, routed, failed) && WF(s) && ts[i] in s.queues
    ensures var o := Offer(s, ts[i], m);
            Remaining(start, o.0, ts, i + 1, m, routed + Bit(o.1), failed || !o.1)
  {
    hide OfferAll, Offer, Potential, Attempts, Shares, Weight, Within, Cost, WF;
    var left := ts[i..];
    assert left[1..] == ts[i + 1..] && left[0] == ts[i];
    FirstOffer(s, left, m);
    OfferAllUnfolds(s, left, m);
    var o := Offer(s, ts[i], m);
    var later := ts[i + 1..];
    assert WF(o.0) && forall j :: 0 <= j < |later| ==> later[j] in o.0.queues;
    assert Potential(o.0) + Shares(|ts[i + 1..]|, Cost(o.0, m.hops))
           <= Potential(start) + Shares(|ts|, Cost(start, m.hops));
  }

  lemma RemainingDone(start: State, s: State, ts: seq<Id>, m: Message, routed: nat, failed: bool)
    requires WF(start) && forall j :: 0 <= j < |ts| ==> ts[j] in start.queues
    requires Remaining(start, s, ts, |ts|, m, routed, failed)
    ensures OfferAll(start, ts, m) == Offers(s, routed, failed) && WF(s)
  {
    assert ts[|ts|..] == [];
  }

  /** Every binding to the queue is gone, every other is held as before, and none twice. */
  ghost predicate Unbound(before: Table, after: Table, q: Id) {
    && after.kind == before.kind && multiset(after.bindings) == multiset(Without(before.bindings, q))
    && Distinct(after.bindings)
  }

  lemma UnboundKeepsWF(s: State, r: State, q: Id)
    requires WF(s) && r.queues == s.queues - {q} && r.exchanges.Keys == s.exchanges.Keys
    requires forall x :: x in r.exchanges ==> Unbound(s.exchanges[x], r.exchanges[x], q)
    ensures WF(r)
  {
    forall x, i | x in r.exchanges && 0 <= i < |r.exchanges[x].bindings|
      ensures r.exchanges[x].bindings[i].queue in r.queues
    {
      var b := r.exchanges[x].bindings[i];
      assert b in multiset(r.exchanges[x].bindings);
      assert b in Without(s.exchanges[x].bindings, q);
      var j :| 0 <= j < |s.exchanges[x].bindings| && s.exchanges[x].bindings[j] == b;
    }
  }
}
