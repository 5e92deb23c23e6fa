/** Routing and the dead-letter cascade. Admitting a message can evict others, each evicted message is
    routed again to its queue's dead-letter exchange, and that can evict further messages. */
module Cascade {
  import opened Exchanges
  import opened Queues

  const MAX_HOPS: nat := 8

  /** The broker: its queues and exchanges, the default limits, and how many routes reached a queue. */
  datatype State = State(queues: map<Id, Queue>, exchanges: map<Id, Table>, defaults: Defaults, published: nat)

  /** Bindings lead to queues that exist. */
  ghost predicate WF(s: State) {
    forall x, i :: x in s.exchanges && 0 <= i < |s.exchanges[x].bindings| ==>
      s.exchanges[x].bindings[i].queue in s.queues
  }

  /** Same queues, policies aside from contents, and same exchanges. */
  ghost predicate SameTopology(s: State, r: State) {
    s.queues.Keys == r.queues.Keys && s.exchanges == r.exchanges && s.defaults == r.defaults
  }

  // ---- sums over the registry ----

  ghost function Total(w: map<Id, nat>): (n: nat)
    decreases |w|
  {
    if w == map[] then 0
    else
      var k :| k in w;
      w[k] + Total(w - {k})
  }

  lemma {:induction false} TotalAt(w: map<Id, nat>, k: Id)
    requires k in w
    ensures Total(w) == w[k] + Total(w - {k})
    decreases |w|
  {
    var j :| j in w && Total(w) == w[j] + Total(w - {j});
    if j != k {
      TotalAt(w - {j}, k);
      TotalAt(w - {k}, j);
      assert w - {j} - {k} == w - {k} - {j};
    }
  }

  lemma TotalUpdate(w: map<Id, nat>, k: Id, v: nat)
    requires k in w
    ensures Total(w[k := v]) == Total(w) - w[k] + v
  {
    TotalAt(w, k);
    TotalAt(w[k := v], k);
    assert w[k := v] - {k} == w - {k};
  }

  // ---- the measure ----

  /** `n` shares of `c` each. */
  ghost function Shares(n: nat, c: nat): (t: nat) {
    if n == 0 then 0 else c + Shares(n - 1, c)
  }

  /** The most enqueues that dead-lettering one message with `hops` hops behind it can cause, among `f` queues. */
  ghost function Weight(f: nat, hops: nat): (w: nat)
    decreases MAX_HOPS - hops
  {
    if hops >= MAX_HOPS then 0 else Shares(f, Weight(f, hops + 1) + 1)
  }

  ghost function Load(f: nat, ms: seq<Message>): (n: nat) {
    if ms == [] then 0 else Weight(f, ms[0].hops) + Load(f, ms[1..])
  }

  lemma {:induction false} LoadConcat(f: nat, a: seq<Message>, b: seq<Message>)
    ensures Load(f, a + b) == Load(f, a) + Load(f, b)
  {
    if a == [] {
      assert a + b == b;
    } else {
      LoadConcat(f, a[1..], b);
      assert (a + b)[1..] == a[1..] + b;
    }
  }

  ghost function Loads(s: State): (w: map<Id, nat>) {
    map k | k in s.queues :: Load(|s.queues.Keys|, s.queues[k].ready)
  }

  ghost function Tries(s: State): (w: map<Id, nat>) {
    map k | k in s.queues :: s.queues[k].enqueued + s.queues[k].rejected
  }

  /** What the messages now queued could still cause. */
  ghost function Potential(s: State): (n: nat) {
    Total(Loads(s))
  }

  /** How many enqueues have been tried so far, admitted or refused. */
  ghost function Attempts(s: State): (n: nat) {
    Total(Tries(s))
  }

  /** The cost of offering a message with `hops` hops to one queue. */
  ghost function Cost(s: State, hops: nat): (n: nat) {
    Weight(|s.queues.Keys|, hops) + 1
  }

  /** Topology is kept, and the enqueues tried are paid for by the potential and the given budget. */
  ghost predicate Within(s: State, r: State, budget: nat) {
    SameTopology(s, r) && Attempts(s) <= Attempts(r) && Potential(r) + Attempts(r) <= Potential(s) + Attempts(s) + budget
  }

  lemma WithinTrans(s: State, t: State, r: State, x: nat, y: nat)
    requires Within(s, t, x) && Within(t, r, y)
    ensures Within(s, r, x + y)
  {
    hide Potential, Attempts;
  }

  ghost function Replace(s: State, t: Id, q: Queue): (r: State)
    requires t in s.queues
    ensures SameTopology(s, r)
  {
    s.(queues := s.queues[t := q])
  }

  lemma ReplaceLoad(s: State, t: Id, q: Queue)
    requires t in s.queues
    ensures var f := |s.queues.Keys|;
            Potential(Replace(s, t, q)) == Potential(s) - Load(f, s.queues[t].ready) + Load(f, q.ready)
  {
    var n := Load(|s.queues.Keys|, q.ready);
    assert Loads(Replace(s, t, q)) == Loads(s)[t := n];
    TotalUpdate(Loads(s), t, n);
    hide Total, Load;
  }

  lemma ReplaceTries(s: State, t: Id, q: Queue)
    requires t in s.queues
    ensures Attempts(Replace(s, t, q)) ==
            Attempts(s) - (s.queues[t].enqueued + s.queues[t].rejected) + (q.enqueued + q.rejected)
  {
    assert Tries(Replace(s, t, q)) == Tries(s)[t := q.enqueued + q.rejected];
    TotalUpdate(Tries(s), t, q.enqueued + q.rejected);
    hide Total;
  }

  /** The local part of an enqueue moves the newcomer's weight in and the evicted weights out. */
  lemma LocalEnqueue(s: State, t: Id, m: Message)
    requires t in s.queues
    ensures var e := Enqueue(s.queues[t], s.defaults, m);
            var r := Replace(s, t, e.queue);
            && Attempts(r) == Attempts(s) + 1
            && Potential(r) + Load(|s.queues.Keys|, e.evicted) <= Potential(s) + Weight(|s.queues.Keys|, m.hops)
  {
    var q, f := s.queues[t], |s.queues.Keys|;
    var e := Enqueue(q, s.defaults, m);
    EnqueueFlows(q, s.defaults, m);
    hide Enqueue, Potential, Attempts, Load, Weight;
    ReplaceLoad(s, t, e.queue);
    ReplaceTries(s, t, e.queue);
    EnqueueLoad(q, m, e, f);
  }

  lemma EnqueueLoad(q: Queue, m: Message, e: Enqueued, f: nat)
    requires EnqueuePromise(q, m, e)
    ensures Load(f, e.queue.ready) + Load(f, e.evicted) <= Load(f, q.ready) + Weight(f, m.hops)
  {
    if !e.full {
      var rest := q.ready[|e.evicted|..];
      assert q.ready == e.evicted + rest;
      LoadConcat(f, e.evicted, rest);
      LoadConcat(f, rest, [m]);
      assert Load(f, [m]) == Weight(f, m.hops);
    }
  }

  // ---- routing ----

  /** The queues a message goes to: the named queue on the default exchange, else what the exchange says. */
  ghost function TargetsOf(s: State, vhost: string, m: Message): (ts: seq<Id>) {
    if m.exchange == "" then
      if Id(vhost, m.key) in s.queues then [Id(vhost, m.key)] else []
    else if Id(vhost, m.exchange) in s.exchanges then
      var x := s.exchanges[Id(vhost, m.exchange)];
      Targets(x.kind, x.bindings, m.key)
    else []
  }

  /** Every target exists and none occurs twice, so there are at most as many as there are queues. */
  lemma TargetsBounded(s: State, vhost: string, m: Message)
    requires WF(s)
    ensures var ts := TargetsOf(s, vhost, m);
            && |ts| <= |s.queues.Keys|
            && forall i :: 0 <= i < |ts| ==> ts[i] in s.queues
  {
    var ts := TargetsOf(s, vhost, m);
    if m.exchange != "" && Id(vhost, m.exchange) in s.exchanges {
      var x := s.exchanges[Id(vhost, m.exchange)];
      TargetsExact(x.kind, x.bindings, m.key);
      forall i | 0 <= i < |ts| ensures ts[i] in s.queues {
        assert Reaches(x.kind, x.bindings, m.key, ts[i]);
      }
    }
    DistinctFits(ts, s.queues.Keys);
  }

  lemma {:induction false} SharesMono(a: nat, b: nat, c: nat)
    requires a <= b
    ensures Shares(a, c) <= Shares(b, c)
  {
    if a < b { SharesMono(a, b - 1, c); }
  }

  /** A route that reached some queue is counted. */
  ghost function Counted(s: State, routed: nat): (r: State)
    ensures SameTopology(s, r) && Potential(r) == Potential(s) && Attempts(r) == Attempts(s)
  {
    var r := s.(published := s.published + if routed > 0 then 1 else 0);
    assert Loads(r) == Loads(s) && Tries(r) == Tries(s);
    r
  }

  /** The result of routing: how many queues admitted the message, or that every target refused it. */
  datatype Routed = Routed(count: nat) | ResourceError

  datatype Offers = Offers(state: State, routed: nat, failed: bool)

  /** The copy that dead-lettering publishes: the queue's exchange and key, one hop more, not replicated. */
  function Republished(target: DeadLetter, m: Message): (c: Message)
    requires target.Target?
  {
    Message(target.exchange, if target.key != "" then target.key else m.key, m.body, m.props, 0, m.hops + 1)
  }

  /** Offer to each target, then count the route if some queue admitted the message. */
  ghost function Route(s: State, vhost: string, m: Message): (r: (State, Routed))
    requires WF(s)
    ensures Within(s, r.0, Shares(|s.queues.Keys|, Cost(s, m.hops))) && WF(r.0)
    decreases Potential(s) + Shares(|s.queues.Keys|, Cost(s, m.hops)), 2, 0
  {
    var ts := TargetsOf(s, vhost, m);
    TargetsBounded(s, vhost, m);
    SharesMono(|ts|, |s.queues.Keys|, Cost(s, m.hops));
    var o := OfferAll(s, ts, m);
    (Counted(o.state, o.routed), if o.routed == 0 && o.failed then ResourceError else Routed(o.routed))
  }

  /** Offering to one queue leaves fewer offers and less to pay for them. */
  lemma AfterFirst(s: State, t: State, ts: seq<Id>, hops: nat)
    requires ts != [] && Within(s, t, Cost(s, hops)) && Attempts(t) > Attempts(s)
    requires forall i :: 0 <= i < |ts| ==> ts[i] in s.queues
    ensures forall i :: 0 <= i < |ts[1..]| ==> ts[1..][i] in t.queues
    ensures Potential(t) + Shares(|ts[1..]|, Cost(t, hops)) < Potential(s) + Shares(|ts|, Cost(s, hops))
  {
    hide Potential, Attempts, Weight;
    assert Cost(t, hops) == Cost(s, hops);
    forall i | 0 <= i < |ts[1..]| ensures ts[1..][i] in t.queues {
      assert ts[1..][i] == ts[i + 1] && ts[i + 1] in t.queues.Keys;
    }
  }

  lemma AllWithin(s: State, t: State, r: State, ts: seq<Id>, hops: nat)
    requires ts != [] && Within(s, t, Cost(s, hops)) && Within(t, r, Shares(|ts[1..]|, Cost(t, hops)))
    ensures Within(s, r, Shares(|ts|, Cost(s, hops)))
  {
    hide Potential, Attempts, Weight;
    assert Cost(t, hops) == Cost(s, hops);
    WithinTrans(s, t, r, Cost(s, hops), Shares(|ts| - 1, Cost(s, hops)));
  }

  ghost function OfferAll(s: State, ts: seq<Id>, m: Message): (o: Offers)
    requires WF(s) && forall i :: 0 <= i < |ts| ==> ts[i] in s.queues
    ensures Within(s, o.state, Shares(|ts|, Cost(s, m.hops))) && WF(o.state)
    decreases Potential(s) + Shares(|ts|, Cost(s, m.hops)), 1, |ts|
  {
    if ts == [] then Offers(s, 0, false)
    else
      var first := Offer(s, ts[0], m);
      AfterFirst(s, first.0, ts, m.hops);
      var rest := OfferAll(first.0, ts[1..], m);
      AllWithin(s, first.0, rest.state, ts, m.hops);
      if first.1 then rest.(routed := rest.routed + 1) else rest.(failed := true)
  }

  /** Offer to one queue, then dead-letter what it evicted. */
  ghost function Offer(s: State, t: Id, m: Message): (r: (State, bool))
    requires WF(s) && t in s.queues
    ensures Within(s, r.0, Cost(s, m.hops)) && WF(r.0) && Attempts(r.0) > Attempts(s)
    decreases Potential(s) + Cost(s, m.hops), 0, 0
  {
    var e := Enqueue(s.queues[t], s.defaults, m);
    LocalEnqueue(s, t, m);
    var admitted := Replace(s, t, e.queue);
    if s.queues[t].policy.deadLetter.Target? then (DeadLetterAll(admitted, t, e.evicted), !e.full)
    else (admitted, !e.full)
  }

  ghost function DeadLetterAll(s: State, src: Id, ms: seq<Message>): (r: State)
    requires WF(s) && src in s.queues
    ensures Within(s, r, Load(|s.queues.Keys|, ms)) && WF(r)
    decreases Potential(s) + Load(|s.queues.Keys|, ms), 4, |ms|
  {
    if ms == [] then s
    else DeadLetterAll(DeadLetterOne(s, src, ms[0]), src, ms[1..])
  }

  /** Re-publish one message to the source's dead-letter exchange, unless it has used up its hops. */
  ghost function DeadLetterOne(s: State, src: Id, m: Message): (r: State)
    requires WF(s) && src in s.queues
    ensures Within(s, r, Weight(|s.queues.Keys|, m.hops)) && WF(r)
    decreases Potential(s) + Weight(|s.queues.Keys|, m.hops), 3, 0
  {
    if m.hops >= MAX_HOPS then s
    else
      match s.queues[src].policy.deadLetter
      case NoTarget => s
      case Target(x, k) => if x == "" then s else Route(s, src.vhost, Republished(Target(x, k), m)).0
  }

  // ---- the bound in closed form ----

  ghost function Power(b: nat, e: nat): (p: nat) {
    if e == 0 then 1 else Shares(b, Power(b, e - 1))
  }

  lemma {:induction false} SharesProduct(n: nat, c: nat)
    ensures Shares(n, c) == n * c
  {
    if n > 0 { SharesProduct(n - 1, c); }
  }

  lemma {:induction false} LargerShares(n: nat, c: nat, d: nat)
    requires c <= d
    ensures Shares(n, c) <= Shares(n, d)
  {
    if n > 0 { LargerShares(n - 1, c, d); }
  }

  /** A message's weight stays below the number of queues plus one, to the power of its remaining hops. */
  lemma {:induction false} WeightBelowPower(f: nat, hops: nat)
    requires hops <= MAX_HOPS
    ensures Weight(f, hops) < Power(f + 1, MAX_HOPS - hops)
    decreases MAX_HOPS - hops
  {
    if hops < MAX_HOPS {
      WeightBelowPower(f, hops + 1);
      var p := Power(f + 1, MAX_HOPS - hops - 1);
      LargerShares(f, Weight(f, hops + 1) + 1, p);
      assert Power(f + 1, MAX_HOPS - hops) == p + Shares(f, p);
    }
  }

  /** Every publish ends, having tried at most a fixed number of enqueues beyond what the queued messages allow:
      whatever the limits and dead-letter bindings are, cycles and fan-out included. */
  lemma PublishBounded(s: State, vhost: string, m: Message)
    requires WF(s) && m.hops <= MAX_HOPS
    ensures var f := |s.queues.Keys|;
            var r := Route(s, vhost, m).0;
            Attempts(r) - Attempts(s) <= Potential(s) + Shares(f, Power(f + 1, MAX_HOPS - m.hops))
  {
    var f := |s.queues.Keys|;
    WeightBelowPower(f, m.hops);
    LargerShares(f, Cost(s, m.hops), Power(f + 1, MAX_HOPS - m.hops));
    var r := Route(s, vhost, m).0;
    assert Potential(r) + Attempts(r) <= Potential(s) + Attempts(s) + Shares(f, Cost(s, m.hops));
    hide *;
  }

  // ---- what the cascade does to each queue ----

  ghost predicate HopsBounded(ms: seq<Message>) {
    forall i :: 0 <= i < |ms| ==> ms[i].hops <= MAX_HOPS
  }

  /** A queue loses messages only at the front, by eviction, and gains only at the back; it stays in its limits. */
  ghost predicate QueueEvolves(q: Queue, r: Queue, d: Defaults) {
    && r.dequeued == q.dequeued
    && (exists added :: Flows(q, r, added) && HopsBounded(added))
    && (WithinLimits(q, d) ==> WithinLimits(r, d))
  }

  ghost predicate Evolves(s: State, r: State) {
    SameTopology(s, r) && forall k :: k in s.queues ==> QueueEvolves(s.queues[k], r.queues[k], s.defaults)
  }

  lemma FlowsHops(q: Queue, r: Queue, added: seq<Message>)
    requires Flows(q, r, added) && HopsBounded(q.ready) && HopsBounded(added)
    ensures HopsBounded(r.ready)
  {
  }

  lemma QueueStays(q: Queue, d: Defaults)
    ensures QueueEvolves(q, q, d)
  {
    StaysFlows(q);
    assert HopsBounded([]);
    hide Flows;
  }

  lemma QueueEvolvesTrans(a: Queue, b: Queue, c: Queue, d: Defaults)
    requires QueueEvolves(a, b, d) && QueueEvolves(b, c, d)
    ensures QueueEvolves(a, c, d)
  {
    var x :| Flows(a, b, x) && HopsBounded(x);
    var y :| Flows(b, c, y) && HopsBounded(y);
    FlowsTrans(a, b, c, x, y);
    assert HopsBounded(x + y);
    hide Flows, WithinLimits;
  }

  lemma Stays(s: State)
    ensures Evolves(s, s)
  {
    forall k | k in s.queues ensures QueueEvolves(s.queues[k], s.queues[k], s.defaults) {
      QueueStays(s.queues[k], s.defaults);
    }
  }

  lemma EvolvesTrans(s: State, t: State, r: State)
    requires Evolves(s, t) && Evolves(t, r)
    ensures Evolves(s, r)
  {
    hide QueueEvolves;
    forall k | k in s.queues ensures QueueEvolves(s.queues[k], r.queues[k], s.defaults) {
      assert k in t.queues.Keys;
      QueueEvolvesTrans(s.queues[k], t.queues[k], r.queues[k], s.defaults);
    }
  }

  lemma EnqueueEvolves(q: Queue, d: Defaults, m: Message)
    requires m.hops <= MAX_HOPS
    ensures QueueEvolves(q, Enqueue(q, d, m).queue, d)
  {
    var e := Enqueue(q, d, m);
    EnqueueFlows(q, d, m);
    if WithinLimits(q, d) { EnqueueWithinLimits(q, d, m); }
    hide Enqueue, Flows, WithinLimits;
    assert HopsBounded([m]) && HopsBounded([]);
    assert Flows(q, e.queue, if e.full then [] else [m]);
  }

  lemma AdmitEvolves(s: State, t: Id, m: Message)
    requires t in s.queues && m.hops <= MAX_HOPS
    ensures Evolves(s, Replace(s, t, Enqueue(s.queues[t], s.defaults, m).queue))
  {
    EnqueueEvolves(s.queues[t], s.defaults, m);
    Stays(s);
    hide QueueEvolves, Enqueue;
  }

  lemma RouteEvolves(s: State, vhost: string, m: Message)
    requires WF(s) && m.hops <= MAX_HOPS
    ensures Evolves(s, Route(s, vhost, m).0)
    decreases Potential(s) + Shares(|s.queues.Keys|, Cost(s, m.hops)), 2, 0
  {
    var ts := TargetsOf(s, vhost, m);
    TargetsBounded(s, vhost, m);
    SharesMono(|ts|, |s.queues.Keys|, Cost(s, m.hops));
    OfferAllEvolves(s, ts, m);
    var o := OfferAll(s, ts, m);
    assert Route(s, vhost, m).0 == Counted(o.state, o.routed);
    hide QueueEvolves, Route, OfferAll;
  }

  /** After the first offer the remaining targets exist and the remaining measure is smaller. */
  lemma FirstOffer(s: State, ts: seq<Id>, m: Message)
    requires WF(s) && ts != [] && forall i :: 0 <= i < |ts| ==> ts[i] in s.queues
    ensures var first := Offer(s, ts[0], m).0;
            && WF(first) && (forall i :: 0 <= i < |ts[1..]| ==> ts[1..][i] in first.queues)
            && Potential(first) + Shares(|ts[1..]|, Cost(first, m.hops)) < Potential(s) + Shares(|ts|, Cost(s, m.hops))
  {
    hide Offer, Potential, Attempts, Weight, WF;
    var first := Offer(s, ts[0], m).0;
    assert first.queues.Keys == s.queues.Keys;
    assert forall i :: 0 <= i < |ts[1..]| ==> ts[1..][i] == ts[i + 1] && ts[i + 1] in first.queues.Keys;
  }

  lemma OfferAllUnfolds(s: State, ts: seq<Id>, m: Message)
    requires WF(s) && ts != [] && forall i :: 0 <= i < |ts| ==> ts[i] in s.queues
    requires var first := Offer(s, ts[0], m).0;
             WF(first) && forall i :: 0 <= i < |ts[1..]| ==> ts[1..][i] in first.queues
    ensures var first, all := Offer(s, ts[0], m), OfferAll(s, ts, m);
            var rest := OfferAll(first.0, ts[1..], m);
            && all.state == rest.state && all.routed == rest.routed + Bit(first.1)
            && all.failed == (rest.failed || !first.1)
  {
    hide Offer, Potential, Attempts, Weight, Shares, Within;
  }

  lemma {:induction false} OfferAllEvolves(s: State, ts: seq<Id>, m: Message)
    requires WF(s) && m.hops <= MAX_HOPS && forall i :: 0 <= i < |ts| ==> ts[i] in s.queues
    ensures Evolves(s, OfferAll(s, ts, m).state)
    decreases Potential(s) + Shares(|ts|, Cost(s, m.hops)), 1, |ts|
  {
    if ts == [] {
      Stays(s);
    } else {
      FirstOffer(s, ts, m);
      OfferAllUnfolds(s, ts, m);
      OfferEvolves(s, ts[0], m);
      var first := Offer(s, ts[0], m).0;
      hide Evolves, Potential, Weight, OfferAll, Offer, Within;
      OfferAllEvolves(first, ts[1..], m);
      EvolvesTrans(s, first, OfferAll(first, ts[1..], m).state);
    }
  }

  lemma OfferEvolves(s: State, t: Id, m: Message)
    requires WF(s) && t in s.queues && m.hops <= MAX_HOPS
    ensures Evolves(s, Offer(s, t, m).0)
    decreases Potential(s) + Cost(s, m.hops), 0, 0
  {
    var e := Enqueue(s.queues[t], s.defaults, m);
    LocalEnqueue(s, t, m);
    AdmitEvolves(s, t, m);
    var admitted := Replace(s, t, e.queue);
    if s.queues[t].policy.deadLetter.Target? {
      DeadLetterAllEvolves(admitted, t, e.evicted);
      EvolvesTrans(s, admitted, DeadLetterAll(admitted, t, e.evicted));
    }
  }

  lemma {:induction false} DeadLetterAllEvolves(s: State, src: Id, ms: seq<Message>)
    requires WF(s) && src in s.queues
    ensures Evolves(s, DeadLetterAll(s, src, ms))
    decreases Potential(s) + Load(|s.queues.Keys|, ms), 4, |ms|
  {
    if ms == [] {
      Stays(s);
    } else {
      var one := DeadLetterOne(s, src, ms[0]);
      DeadLetterOneEvolves(s, src, ms[0]);
      DeadLetterAllEvolves(one, src, ms[1..]);
      EvolvesTrans(s, one, DeadLetterAll(one, src, ms[1..]));
    }
  }

  lemma DeadLetterOneEvolves(s: State, src: Id, m: Message)
    requires WF(s) && src in s.queues
    ensures Evolves(s, DeadLetterOne(s, src, m))
    decreases Potential(s) + Weight(|s.queues.Keys|, m.hops), 3, 0
  {
    Stays(s);
    if m.hops < MAX_HOPS {
      match s.queues[src].policy.deadLetter {
        case NoTarget =>
        case Target(x, k) => if x != "" { RouteEvolves(s, src.vhost, Republished(Target(x, k), m)); }
      }
    }
  }

  /** After any publish and its whole cascade, each queue still accounts for every message, has kept the order
      of what it held, holds no message past the hop limit if it held none before, and is inside its limits if it was. */
  lemma CascadeKeepsQueues(s: State, vhost: string, m: Message, k: Id)
    requires WF(s) && m.hops <= MAX_HOPS && k in s.queues
    ensures var r := Route(s, vhost, m).0;
            && k in r.queues
            && (Conserves(s.queues[k]) <==> Conserves(r.queues[k]))
            && (WithinLimits(s.queues[k], s.defaults) ==> WithinLimits(r.queues[k], s.defaults))
            && (HopsBounded(s.queues[k].ready) ==> HopsBounded(r.queues[k].ready))
            && exists added :: Flows(s.queues[k], r.queues[k], added)
  {
    RouteEvolves(s, vhost, m);
    var r := Route(s, vhost, m).0;
    hide Route;
    assert k in r.queues.Keys;
    var q, p := s.queues[k], r.queues[k];
    var added :| Flows(q, p, added) && HopsBounded(added);
    FlowsConserves(q, p, added);
    if HopsBounded(q.ready) { FlowsHops(q, p, added); }
    hide Flows, Conserves, HopsBounded, WithinLimits;
  }

  // ---- what a route reports, and where evicted messages go ----

  /** Every target either admitted the message or refused it. */
  lemma {:induction false} OffersAddUp(s: State, ts: seq<Id>, m: Message)
    requires WF(s) && forall i :: 0 <= i < |ts| ==> ts[i] in s.queues
    ensures var o := OfferAll(s, ts, m);
            o.routed <= |ts| && (o.failed <==> o.routed < |ts|)
    decreases |ts|
  {
    if ts != [] {
      FirstOffer(s, ts, m);
      OfferAllUnfolds(s, ts, m);
      hide Offer, OfferAll, WF;
      OffersAddUp(Offer(s, ts[0], m).0, ts[1..], m);
    }
  }

  /** A queue without limits. */
  ghost predicate Unlimited(s: State, u: Id)
    requires u in s.queues
  {
    Limit(s.queues[u].policy.maxLength, s.defaults.maxLength) == 0
        && Limit(s.queues[u].policy.maxBytes, s.defaults.maxBytes) == 0
  }

  /** The copies that dead-lettering these messages publishes: those with a hop left, in order. */
  function Copies(target: DeadLetter, ms: seq<Message>): (cs: seq<Message>)
    requires target.Target?
  {
    if ms == [] then []
    else (if ms[0].hops < MAX_HOPS then [Republished(target, ms[0])] else []) + Copies(target, ms[1..])
  }

  lemma OfferToUnlimited(s: State, u: Id, m: Message)
    requires WF(s) && u in s.queues && Unlimited(s, u)
    ensures var r := Offer(s, u, m);
            && r.1 && r.0 == Replace(s, u, Push(s.queues[u], s.defaults, m))
  {
    hide Potential, Attempts, Push;
    var e := Enqueue(s.queues[u], s.defaults, m);
    assert e == Enqueued(Push(s.queues[u], s.defaults, m), [], false);
    assert DeadLetterAll(Replace(s, u, e.queue), u, []) == Replace(s, u, e.queue);
  }

  /** A message whose only target has no limits is appended there, and nothing else happens. */
  lemma RouteToUnlimited(s: State, vhost: string, m: Message, u: Id)
    requires WF(s) && u in s.queues && Unlimited(s, u) && TargetsOf(s, vhost, m) == [u]
    ensures var r := Route(s, vhost, m);
            && r.1 == Routed(1) && r.0.exchanges == s.exchanges && r.0.defaults == s.defaults
            && r.0.queues == s.queues[u := Push(s.queues[u], s.defaults, m)] && r.0.published == s.published + 1
  {
    hide Potential, Attempts, Push, Offer, Weight, TargetsOf;
    OfferToUnlimited(s, u, m);
    OfferAllUnfoldsOnce(s, u, m);
  }

  lemma OfferAllUnfoldsOnce(s: State, u: Id, m: Message)
    requires WF(s) && u in s.queues && Offer(s, u, m).1
    ensures OfferAll(s, [u], m) == Offers(Offer(s, u, m).0, 1, false)
  {
    hide Offer, Potential, Attempts, Weight, Shares, Within;
    assert [u][1..] == [];
    assert OfferAll(Offer(s, u, m).0, [], m) == Offers(Offer(s, u, m).0, 0, false);
  }

  /** Every key leads the dead-letter exchange of `src` to the one queue `u`, which has no limits. */
  ghost predicate LeadsTo(s: State, src: Id, u: Id) {
    && src in s.queues && u in s.queues && src != u && Unlimited(s, u)
    && s.queues[src].policy.deadLetter.Target? && s.queues[src].policy.deadLetter.exchange != ""
    && forall m: Message :: m.exchange == s.queues[src].policy.deadLetter.exchange ==> TargetsOf(s, src.vhost, m) == [u]
  }

  /** Dead-lettered messages arrive at the dead-letter queue, each once and in order, one hop older; those without
      a hop left do not. */
  lemma {:induction false} DeadLettersArrive(s: State, src: Id, ms: seq<Message>, u: Id)
    requires WF(s) && LeadsTo(s, src, u)
    ensures var r := DeadLetterAll(s, src, ms);
            && u in r.queues
            && r.queues[u].ready == s.queues[u].ready + Copies(s.queues[src].policy.deadLetter, ms)
            && forall k :: k in s.queues && k != u ==> k in r.queues && r.queues[k] == s.queues[k]
    decreases |ms|
  {
    hide Potential, Attempts, Weight, Load, Route, TargetsOf;
    if ms == [] {
      assert s.queues[u].ready + [] == s.queues[u].ready;
    } else {
      var one := DeadLetterOne(s, src, ms[0]);
      OneArrives(s, src, ms[0], u);
      DeadLettersArrive(one, src, ms[1..], u);
      var target := s.queues[src].policy.deadLetter;
      var first := if ms[0].hops < MAX_HOPS then [Republished(target, ms[0])] else [];
      assert s.queues[u].ready + first + Copies(target, ms[1..]) == s.queues[u].ready + Copies(target, ms);
    }
  }

  lemma OneArrives(s: State, src: Id, m: Message, u: Id)
    requires WF(s) && LeadsTo(s, src, u)
    ensures var r, target := DeadLetterOne(s, src, m), s.queues[src].policy.deadLetter;
            && LeadsTo(r, src, u) && r.queues[src] == s.queues[src]
            && r.queues[u].ready == s.queues[u].ready + (if m.hops < MAX_HOPS then [Republished(target, m)] else [])
            && forall k :: k in s.queues && k != u ==> k in r.queues && r.queues[k] == s.queues[k]
  {
    hide Potential, Attempts, Weight, Load, Route;
    var target := s.queues[src].policy.deadLetter;
    var r := DeadLetterOne(s, src, m);
    if m.hops < MAX_HOPS {
      var c := Republished(target, m);
      RouteToUnlimited(s, src.vhost, c, u);
      assert r == Route(s, src.vhost, c).0;
      assert forall x: Message :: x.exchange == target.exchange ==>
               TargetsOf(r, src.vhost, x) == TargetsOf(s, src.vhost, x);
    } else {
      assert s.queues[u].ready + [] == s.queues[u].ready;
    }
  }

  /** Drop-head with a dead-letter queue loses nothing that has a hop left: the newcomer is admitted, the evicted
      messages are at the dead-letter queue in the order they were in. */
  lemma EvictedArrive(s: State, t: Id, m: Message, u: Id)
    requires WF(s) && LeadsTo(s, t, u)
    ensures var e, r := Enqueue(s.queues[t], s.defaults, m), Offer(s, t, m);
            && t in r.0.queues && u in r.0.queues && r.0.queues[t] == e.queue && r.1 == !e.full
            && r.0.queues[u].ready == s.queues[u].ready + Copies(s.queues[t].policy.deadLetter, e.evicted)
  {
    hide Potential, Attempts, Weight, Load, Route, Enqueue, DeadLetterAll, TargetsOf;
    var e := Enqueue(s.queues[t], s.defaults, m);
    EnqueueFlows(s.queues[t], s.defaults, m);
    var a := Replace(s, t, e.queue);
    AdmitLeads(s, t, u, e.queue);
    DeadLettersArrive(a, t, e.evicted, u);
  }

  lemma AdmitLeads(s: State, t: Id, u: Id, q: Queue)
    requires WF(s) && LeadsTo(s, t, u) && q.policy == s.queues[t].policy
    ensures WF(Replace(s, t, q)) && LeadsTo(Replace(s, t, q), t, u)
  {
    var r := Replace(s, t, q);
    assert forall x: Message :: TargetsOf(r, t.vhost, x) == TargetsOf(s, t.vhost, x);
  }
}
