/** What a publish does, said without naming how targets are found or copies made: who is offered the message, what each
    queue holds afterwards, what is reported, and what a dead-lettered copy carries. */
module Publishing {
  import opened Exchanges
  import opened Queues
  import opened TopicMatch
  import opened Cascade
  import Broker

  // ---- who is offered a message ----

  /** A binding takes a key: always on a fanout exchange, by equality on a direct one, by pattern on a topic one. */
  ghost predicate Takes(x: Table, b: Binding, key: string) {
    x.kind == Fanout || (x.kind == Direct && b.key == key) || (x.kind == Topic && Meaning(Words(b.key), Words(key)))
  }

  /** The queue is to be offered the message: the one named by the key on the default exchange, else those with a binding
      that takes the key on the exchange named, if it exists. */
  ghost predicate Addressed(s: State, vhost: string, m: Message, t: Id) {
    if m.exchange == "" then t == Id(vhost, m.key) && t in s.queues
    else
      && Id(vhost, m.exchange) in s.exchanges
      && var x := s.exchanges[Id(vhost, m.exchange)];
         exists b :: b in x.bindings && b.queue == t && Takes(x, b, m.key)
  }

  lemma TargetsAddressed(s: State, vhost: string, m: Message)
    ensures Distinct(TargetsOf(s, vhost, m)) && forall t :: t in TargetsOf(s, vhost, m) <==> Addressed(s, vhost, m, t)
  {
    if m.exchange != "" && Id(vhost, m.exchange) in s.exchanges {
      var x := s.exchanges[Id(vhost, m.exchange)];
      TargetsExact(x.kind, x.bindings, m.key);
      forall t ensures Reaches(x.kind, x.bindings, m.key, t) <==> Addressed(s, vhost, m, t) {
        ReachesIff(x, m.key, t);
      }
      hide Targets, Reaches;
    }
  }

  lemma ReachesIff(x: Table, key: string, t: Id)
    ensures Reaches(x.kind, x.bindings, key, t) <==> exists b :: b in x.bindings && b.queue == t && Takes(x, b, key)
  {
    hide Meaning, Words;
    if Reaches(x.kind, x.bindings, key, t) {
      var i :| 0 <= i < |x.bindings| && x.bindings[i].queue == t && BindingMatches(x.kind, x.bindings[i], key);
      assert x.bindings[i] in x.bindings && Takes(x, x.bindings[i], key);
    }
    if b :| b in x.bindings && b.queue == t && Takes(x, b, key) {
      var i :| 0 <= i < |x.bindings| && x.bindings[i] == b;
      assert BindingMatches(x.kind, x.bindings[i], key);
    }
  }

  lemma OnlyOne(ts: seq<Id>, t: Id)
    requires Distinct(ts) && forall x :: x in ts <==> x == t
    ensures ts == [t]
  {
    assert t in ts;
    assert forall i :: 0 <= i < |ts| ==> ts[i] in ts;
    DistinctFits(ts, {t});
  }

  lemma NoneAtAll(ts: seq<Id>)
    ensures ts == [] <==> forall x :: x !in ts
  {
    assert |ts| > 0 ==> ts[0] in ts;
  }

  /** For every message: it is offered to exactly the queues addressed, each once, and that is all a route does. */
  lemma OfferedExactly(s: State, vhost: string, m: Message) returns (ts: seq<Id>)
    requires WF(s)
    ensures Distinct(ts) && forall t :: t in ts <==> Addressed(s, vhost, m, t)
    ensures forall i :: 0 <= i < |ts| ==> ts[i] in s.queues
    ensures var r, o := Route(s, vhost, m), OfferAll(s, ts, m);
            && r.0 == o.state.(published := o.state.published + if o.routed > 0 then 1 else 0)
            && r.1 == if o.routed == 0 && o.failed then ResourceError else Routed(o.routed)
  {
    hide TargetsOf, Addressed, OfferAll, Route, Potential, Attempts, Shares, Weight, Within, WF, Distinct;
    ts := TargetsOf(s, vhost, m);
    TargetsAddressed(s, vhost, m);
    Broker.RouteUnfolds(s, vhost, m);
  }

  /** Nobody addressed, nothing happens. */
  lemma UnaddressedIsDropped(s: State, vhost: string, m: Message)
    requires WF(s) && forall t :: !Addressed(s, vhost, m, t)
    ensures Route(s, vhost, m) == (s, Routed(0))
  {
    var ts := OfferedExactly(s, vhost, m);
    hide Addressed, Route;
    NoneAtAll(ts);
    assert OfferAll(s, [], m) == Offers(s, 0, false);
  }

  // ---- queues that do not dead-letter ----

  /** What a route leaves when no queue addressed has a dead-letter exchange. */
  ghost predicate OfferedOnly(s: State, r: State, m: Message, to: set<Id>) {
    && r.queues.Keys == s.queues.Keys && r.exchanges == s.exchanges && r.defaults == s.defaults
    && forall k :: k in s.queues ==>
         r.queues[k] == if k in to then Enqueue(s.queues[k], s.defaults, m).queue else s.queues[k]
  }

  /** The queues among these that admit the message. */
  ghost function Admitting(s: State, ts: seq<Id>, m: Message): (a: set<Id>) {
    set t | t in ts && t in s.queues && !Enqueue(s.queues[t], s.defaults, m).full
  }

  lemma OfferPlain(s: State, t: Id, m: Message)
    requires WF(s) && t in s.queues && s.queues[t].policy.deadLetter.NoTarget?
    ensures var e := Enqueue(s.queues[t], s.defaults, m);
            Offer(s, t, m) == (s.(queues := s.queues[t := e.queue]), !e.full)
  {
    hide Enqueue, Potential, Attempts;
  }

  lemma AdmittingRest(s: State, r: State, ts: seq<Id>, m: Message)
    requires ts != [] && Distinct(ts) && ts[0] in s.queues && ts[0] in r.queues && r.defaults == s.defaults
    requires r.queues == s.queues[ts[0] := r.queues[ts[0]]]
    ensures |Admitting(s, ts, m)| == |Admitting(r, ts[1..], m)| + Bit(!Enqueue(s.queues[ts[0]], s.defaults, m).full)
  {
    hide Enqueue;
    var t := ts[0];
    assert t !in ts[1..] && ts == [t] + ts[1..];
    if Enqueue(s.queues[t], s.defaults, m).full {
      assert Admitting(s, ts, m) == Admitting(r, ts[1..], m);
    } else {
      assert Admitting(s, ts, m) == Admitting(r, ts[1..], m) + {t};
    }
  }

  lemma {:induction false} OfferAllPlain(s: State, ts: seq<Id>, m: Message)
    requires WF(s) && Distinct(ts) && forall i :: 0 <= i < |ts| ==> ts[i] in s.queues
    requires forall i :: 0 <= i < |ts| ==> s.queues[ts[i]].policy.deadLetter.NoTarget?
    ensures var o := OfferAll(s, ts, m);
            && OfferedOnly(s, o.state, m, set t | t in ts) && o.state.published == s.published
            && o.routed == |Admitting(s, ts, m)|
    decreases |ts|
  {
    hide Enqueue, Potential, Attempts, Weight;
    if ts == [] {
      assert Admitting(s, ts, m) == {};
    } else {
      FirstOffer(s, ts, m);
      OfferAllUnfolds(s, ts, m);
      OfferPlain(s, ts[0], m);
      hide Offer, OfferAll, WF;
      var first := Offer(s, ts[0], m).0;
      assert ts[0] !in ts[1..] && ts == [ts[0]] + ts[1..];
      forall i | 0 <= i < |ts[1..]| ensures first.queues[ts[1..][i]].policy.deadLetter.NoTarget? {
        assert ts[1..][i] == ts[i + 1];
      }
      OfferAllPlain(first, ts[1..], m);
      AdmittingRest(s, first, ts, m);
    }
  }

  /** The queues a message is to be offered to. */
  ghost function To(s: State, vhost: string, m: Message): (to: set<Id>) {
    set t | t in s.queues && Addressed(s, vhost, m, t)
  }

  lemma ToIs(s: State, vhost: string, m: Message, ts: seq<Id>)
    requires (forall t :: t in ts <==> Addressed(s, vhost, m, t)) && forall i :: 0 <= i < |ts| ==> ts[i] in s.queues
    ensures To(s, vhost, m) == (set t | t in ts) && (To(s, vhost, m) == {} <==> ts == [])
  {
    hide Addressed;
    NoneAtAll(ts);
    assert forall t :: t in ts ==> t in s.queues;
    assert |ts| > 0 ==> ts[0] in To(s, vhost, m);
  }

  /** For every message whose queues do not dead-letter: each queue addressed has been offered it once and no other queue
      has changed; the report is the number that admitted it, or an error if some refused it and none admitted it. */
  lemma PublishedExactly(s: State, vhost: string, m: Message)
    requires WF(s) && forall t :: t in To(s, vhost, m) ==> s.queues[t].policy.deadLetter.NoTarget?
    ensures var r, to := Route(s, vhost, m), To(s, vhost, m);
            var admit := set t | t in to && !Enqueue(s.queues[t], s.defaults, m).full;
            && OfferedOnly(s, r.0, m, to)
            && r.1 == (if admit == {} && to != {} then ResourceError else Routed(|admit|))
            && r.0.published == s.published + if admit == {} then 0 else 1
  {
    hide Addressed, Route, Enqueue, To, WF, OfferAll, OfferedOnly, Distinct;
    var ts := OfferedExactly(s, vhost, m);
    ToIs(s, vhost, m, ts);
    PlainOffers(s, ts, m);
    OffersAddUp(s, ts, m);
    PlainReport(s, Route(s, vhost, m), OfferAll(s, ts, m), m, ts, To(s, vhost, m));
  }

  lemma PlainReport(s: State, r: (State, Routed), o: Offers, m: Message, ts: seq<Id>, to: set<Id>)
    requires to == (set t | t in ts) && (to == {} <==> ts == []) && forall t :: t in to ==> t in s.queues
    requires OfferedOnly(s, o.state, m, to) && o.state.published == s.published && o.routed == |Admitting(s, ts, m)|
    requires o.routed <= |ts| && (o.failed <==> o.routed < |ts|)
    requires r.0 == o.state.(published := o.state.published + if o.routed > 0 then 1 else 0)
    requires r.1 == if o.routed == 0 && o.failed then ResourceError else Routed(o.routed)
    ensures var admit := set t | t in to && !Enqueue(s.queues[t], s.defaults, m).full;
            && OfferedOnly(s, r.0, m, to)
            && r.1 == (if admit == {} && to != {} then ResourceError else Routed(|admit|))
            && r.0.published == s.published + if admit == {} then 0 else 1
  {
    hide Enqueue;
    var admit := set t | t in to && !Enqueue(s.queues[t], s.defaults, m).full;
    assert admit == Admitting(s, ts, m);
    assert admit == {} <==> |admit| == 0;
  }

  lemma PlainOffers(s: State, ts: seq<Id>, m: Message)
    requires WF(s) && Distinct(ts) && forall i :: 0 <= i < |ts| ==> ts[i] in s.queues
    requires forall t :: t in ts && t in s.queues ==> s.queues[t].policy.deadLetter.NoTarget?
    ensures var o := OfferAll(s, ts, m);
            && OfferedOnly(s, o.state, m, set t | t in ts) && o.state.published == s.published
            && o.routed == |Admitting(s, ts, m)|
  {
    hide Enqueue, OfferAll;
    forall i | 0 <= i < |ts| ensures s.queues[ts[i]].policy.deadLetter.NoTarget? { assert ts[i] in ts; }
    OfferAllPlain(s, ts, m);
  }

  // ---- no limits ----

  /** Neither the queue's own policy nor the defaults limit it. */
  ghost predicate NoLimits(s: State, t: Id)
    requires t in s.queues
  {
    && s.queues[t].policy.maxLength == 0 && s.defaults.maxLength == 0
    && s.queues[t].policy.maxBytes == 0 && s.defaults.maxBytes == 0
  }

  lemma AdmitsAlways(s: State, t: Id, m: Message)
    requires t in s.queues && NoLimits(s, t)
    ensures var e := Enqueue(s.queues[t], s.defaults, m);
            !e.full && e.evicted == [] && e.queue.ready == s.queues[t].ready + [m]
  {
  }

  /** On the default exchange an existing queue without limits, dead-lettering or not, gets the message at its back
      and no other queue changes. */
  lemma DefaultExchangeDelivers(s: State, vhost: string, m: Message)
    requires WF(s) && m.exchange == "" && Id(vhost, m.key) in s.queues && NoLimits(s, Id(vhost, m.key))
    ensures var r, t := Route(s, vhost, m), Id(vhost, m.key);
            && r.1 == Routed(1) && r.0.published == s.published + 1 && r.0.queues.Keys == s.queues.Keys
            && r.0.queues[t].ready == s.queues[t].ready + [m]
            && forall k :: k in s.queues && k != t ==> r.0.queues[k] == s.queues[k]
  {
    var t := Id(vhost, m.key);
    var ts := OfferedExactly(s, vhost, m);
    AdmitsAlways(s, t, m);
    OnlyOne(ts, t);
    OfferToUnlimited(s, t, m);
    hide Offer, OfferAll, Route, Enqueue;
    OfferAllUnfoldsOnce(s, t, m);
  }

  /** A missing queue on the default exchange, and an unknown exchange, drop the message and change nothing. */
  lemma UnknownNameIsDropped(s: State, vhost: string, m: Message)
    requires WF(s)
    requires if m.exchange == "" then Id(vhost, m.key) !in s.queues else Id(vhost, m.exchange) !in s.exchanges
    ensures Route(s, vhost, m) == (s, Routed(0))
  {
    UnaddressedIsDropped(s, vhost, m);
  }

  // ---- every queue addressed is offered the message, whatever dead-lettering follows ----

  ghost function Tried(q: Queue): (n: nat) {
    q.enqueued + q.rejected
  }

  lemma EvolvesTries(s: State, r: State, k: Id)
    requires Evolves(s, r) && k in s.queues
    ensures k in r.queues && Tried(r.queues[k]) >= Tried(s.queues[k])
  {
    assert k in r.queues.Keys && QueueEvolves(s.queues[k], r.queues[k], s.defaults);
  }

  lemma OfferTries(s: State, t: Id, m: Message)
    requires WF(s) && t in s.queues && m.hops <= MAX_HOPS
    ensures t in Offer(s, t, m).0.queues && Tried(Offer(s, t, m).0.queues[t]) > Tried(s.queues[t])
  {
    var e := Enqueue(s.queues[t], s.defaults, m);
    EnqueueFlows(s.queues[t], s.defaults, m);
    var a := Replace(s, t, e.queue);
    hide Enqueue;
    if s.queues[t].policy.deadLetter.Target? {
      LocalEnqueue(s, t, m);
      DeadLetterAllEvolves(a, t, e.evicted);
      assert Offer(s, t, m).0 == DeadLetterAll(a, t, e.evicted);
      hide DeadLetterAll, Offer;
      EvolvesTries(a, DeadLetterAll(a, t, e.evicted), t);
    }
  }

  lemma {:induction false} OfferAllTries(s: State, ts: seq<Id>, m: Message, t: Id)
    requires WF(s) && t in ts && m.hops <= MAX_HOPS && forall i :: 0 <= i < |ts| ==> ts[i] in s.queues
    ensures t in OfferAll(s, ts, m).state.queues && Tried(OfferAll(s, ts, m).state.queues[t]) > Tried(s.queues[t])
    decreases |ts|
  {
    FirstOffer(s, ts, m);
    OfferAllUnfolds(s, ts, m);
    OfferEvolves(s, ts[0], m);
    OfferTries(s, ts[0], m);
    var first := Offer(s, ts[0], m).0;
    EvolvesTries(s, first, t);
    hide Offer, OfferAll, Potential, Weight, Evolves;
    if t in ts[1..] {
      OfferAllTries(first, ts[1..], m, t);
    } else {
      assert t == ts[0];
      OfferAllEvolves(first, ts[1..], m);
      EvolvesTries(first, OfferAll(first, ts[1..], m).state, t);
    }
  }

  /** With any dead-letter bindings: after a publish every queue addressed has tried at least one more enqueue. */
  lemma EveryAddressedIsTried(s: State, vhost: string, m: Message, t: Id)
    requires WF(s) && m.hops <= MAX_HOPS && Addressed(s, vhost, m, t)
    ensures t in s.queues && t in Route(s, vhost, m).0.queues
    ensures Tried(Route(s, vhost, m).0.queues[t]) > Tried(s.queues[t])
  {
    var ts := OfferedExactly(s, vhost, m);
    hide Addressed, OfferAll, Route;
    OfferAllTries(s, ts, m, t);
  }

  // ---- what a dead-lettered copy carries ----

  /** The messages that may still be dead-lettered. */
  function WithHop(ms: seq<Message>): (r: seq<Message>) {
    if ms == [] then [] else (if ms[0].hops < MAX_HOPS then [ms[0]] else []) + WithHop(ms[1..])
  }

  /** Body and properties of the original, the exchange configured, the key configured or else the original's, no longer
      replicated, one hop older. */
  ghost predicate CopyOf(c: Message, m: Message, exchange: string, key: string) {
    && c.body == m.body && c.props == m.props && c.exchange == exchange && c.clusterId == 0 && c.hops == m.hops + 1
    && c.key == if key == "" then m.key else key
  }

  /** What has been added behind is, one by one, copies of these. */
  ghost predicate AddsCopies(before: seq<Message>, after: seq<Message>, of: seq<Message>, exchange: string, key: string) {
    && before <= after && |after| == |before| + |of|
    && forall i :: 0 <= i < |of| ==> CopyOf(after[|before| + i], of[i], exchange, key)
  }

  lemma {:induction false} CopiesAre(target: DeadLetter, ms: seq<Message>, i: nat)
    requires target.Target?
    ensures |Copies(target, ms)| == |WithHop(ms)|
    ensures i < |WithHop(ms)| ==> CopyOf(Copies(target, ms)[i], WithHop(ms)[i], target.exchange, target.key)
    decreases |ms|
  {
    if ms != [] {
      if ms[0].hops < MAX_HOPS && i > 0 {
        CopiesAre(target, ms[1..], i - 1);
      } else {
        CopiesAre(target, ms[1..], i);
      }
    }
  }

  lemma CopiesCarry(target: DeadLetter, ms: seq<Message>, before: seq<Message>)
    requires target.Target?
    ensures AddsCopies(before, before + Copies(target, ms), WithHop(ms), target.exchange, target.key)
  {
    CopiesAre(target, ms, 0);
    var cs := Copies(target, ms);
    forall i | 0 <= i < |WithHop(ms)|
      ensures CopyOf((before + cs)[|before| + i], WithHop(ms)[i], target.exchange, target.key)
    {
      CopiesAre(target, ms, i);
    }
  }

  /** Dead-lettered messages with a hop left arrive whole, in order, behind what the dead-letter queue held. */
  lemma DeadLettersCarry(s: State, src: Id, ms: seq<Message>, u: Id)
    requires WF(s) && LeadsTo(s, src, u)
    ensures var r, target := DeadLetterAll(s, src, ms), s.queues[src].policy.deadLetter;
            u in r.queues
            && AddsCopies(s.queues[u].ready, r.queues[u].ready, WithHop(ms), target.exchange, target.key)
  {
    hide DeadLetterAll, LeadsTo;
    DeadLettersArrive(s, src, ms, u);
    assert u in s.queues && s.queues[src].policy.deadLetter.Target? by { LeadsSomewhere(s, src, u); }
    CopiesCarry(s.queues[src].policy.deadLetter, ms, s.queues[u].ready);
  }

  lemma LeadsSomewhere(s: State, src: Id, u: Id)
    requires LeadsTo(s, src, u)
    ensures src in s.queues && u in s.queues && s.queues[src].policy.deadLetter.Target?
  {
  }

  /** The dead-letter exchange of `t` exists, is a fanout, and has bindings to `u` only, which has no limits. */
  ghost predicate FansInto(s: State, t: Id, u: Id) {
    && t in s.queues && u in s.queues && t != u && NoLimits(s, u) && s.queues[t].policy.deadLetter.Target?
    && var x := s.queues[t].policy.deadLetter.exchange;
       && x != "" && Id(t.vhost, x) in s.exchanges && s.exchanges[Id(t.vhost, x)].kind == Fanout
       && s.exchanges[Id(t.vhost, x)].bindings != []
       && forall b :: b in s.exchanges[Id(t.vhost, x)].bindings ==> b.queue == u
  }

  lemma FanLeads(s: State, t: Id, u: Id)
    requires FansInto(s, t, u)
    ensures LeadsTo(s, t, u)
  {
    hide Meaning, Words;
    var x := s.queues[t].policy.deadLetter.exchange;
    forall m: Message | m.exchange == x ensures TargetsOf(s, t.vhost, m) == [u] {
      TargetsAddressed(s, t.vhost, m);
      var ts := TargetsOf(s, t.vhost, m);
      hide TargetsOf;
      var bs := s.exchanges[Id(t.vhost, x)].bindings;
      assert bs[0] in bs && Addressed(s, t.vhost, m, u);
      OnlyOne(ts, u);
    }
  }

  /** A publish on the default exchange to a drop-head queue that dead-letters into `u`: the message is admitted, what
      had to give way is the shortest prefix that makes room, and exactly those of it with a hop left arrive at `u`,
      whole and in order. */
  lemma OverflowIsDeadLettered(s: State, m: Message, t: Id, u: Id)
    requires WF(s) && m.exchange == "" && m.key == t.name && FansInto(s, t, u) && s.queues[t].policy.dropHead
    ensures var q, r, target := s.queues[t], Route(s, t.vhost, m), s.queues[t].policy.deadLetter;
            && r.1 == Routed(1) && t in r.0.queues && u in r.0.queues
            && exists k ::
                 && 0 <= k <= |q.ready| && r.0.queues[t].ready == q.ready[k..] + [m]
                 && Admits(q.policy, s.defaults, q.ready[k..], |m.body|)
                 && (forall j :: 0 <= j < k ==> !Admits(q.policy, s.defaults, q.ready[j..], |m.body|))
                 && AddsCopies(s.queues[u].ready, r.0.queues[u].ready, WithHop(q.ready[..k]), target.exchange, target.key)
  {
    FanLeads(s, t, u);
    var e := Enqueue(s.queues[t], s.defaults, m);
    EnqueueDecides(s.queues[t], s.defaults, m);
    EnqueueFlows(s.queues[t], s.defaults, m);
    DefaultOffers(s, m, t);
    hide Enqueue, Route, Offer, LeadsTo, FansInto, Evictions, Overflows, Size;
    EvictedArrive(s, t, m, u);
    assert t in s.queues && u in s.queues && s.queues[t].policy.deadLetter.Target? by { LeadsSomewhere(s, t, u); }
    var k := |e.evicted|;
    assert e.evicted == s.queues[t].ready[..k];
    CopiesCarry(s.queues[t].policy.deadLetter, e.evicted, s.queues[u].ready);
  }

  /** On the default exchange a route is one offer. */
  lemma DefaultOffers(s: State, m: Message, t: Id)
    requires WF(s) && m.exchange == "" && m.key == t.name && t in s.queues
    ensures var r, o := Route(s, t.vhost, m), Offer(s, t, m);
            && r.0.queues == o.0.queues && r.1 == if o.1 then Routed(1) else ResourceError
  {
    var ts := OfferedExactly(s, t.vhost, m);
    OnlyOne(ts, t);
    FirstOffer(s, [t], m);
    OfferAllUnfolds(s, [t], m);
    hide Offer, Route, Potential, Weight;
    assert [t][1..] == [];
    assert OfferAll(Offer(s, t, m).0, [], m) == Offers(Offer(s, t, m).0, 0, false);
  }
}
