/** Where deliveries go when they are settled or their consumer leaves, in every run. */
module Settlement {
  import opened Exchanges
  import opened Queues
  import opened Sequences
  import opened Dispatch
  import opened DispatchRuns

  /** The delivery has the tag asked for, or with `multiple` a lower one, or any for tag 0. */
  ghost predicate AsksFor(a: Ask, d: Delivery) {
    d.tag == a.tag || (a.multiple && (a.tag == 0 || d.tag < a.tag))
  }

  /** The deliveries asked for among these. */
  ghost function Wanted(u: seq<Delivery>, a: Ask): (w: seq<Delivery>) {
    if u == [] then [] else (if AsksFor(a, u[0]) then [u[0]] else []) + Wanted(u[1..], a)
  }

  /** What a consumer has to give up: nothing unless it is on that connection and channel. */
  ghost function Surrendered(c: Consumer, a: Ask): (w: seq<Delivery>) {
    if c.conn == a.conn && c.channel == a.channel then Wanted(c.unacked, a) else []
  }

  /** The messages of one queue that these consumers have to give up. */
  ghost function FromQueue(order: seq<nat>, consumers: map<nat, Consumer>, a: Ask, q: Id): (ms: seq<Message>)
    requires forall i :: 0 <= i < |order| ==> order[i] in consumers
  {
    if order == [] then []
    else
      var c := consumers[order[0]];
      (if c.queue == q then Msgs(Surrendered(c, a)) else []) + FromQueue(order[1..], consumers, a, q)
  }

  /** How many deliveries these consumers have to give up. */
  ghost function HowMany(order: seq<nat>, consumers: map<nat, Consumer>, a: Ask): (n: nat)
    requires forall i :: 0 <= i < |order| ==> order[i] in consumers
  {
    if order == [] then 0 else |Surrendered(consumers[order[0]], a)| + HowMany(order[1..], consumers, a)
  }

  // ---- one consumer ----

  lemma SwapRemoveSet(u: seq<Delivery>, i: nat)
    requires i < |u|
    ensures multiset(u[i := u[|u| - 1]][..|u| - 1]) + multiset{u[i]} == multiset(u)
  {
    var left := u[i := u[|u| - 1]][..|u| - 1];
    forall d ensures (multiset(left) + multiset{u[i]})[d] == multiset(u)[d] { SwapRemoveCounts(u, i, d); }
  }

  /** Every delivery is kept or taken. */
  lemma {:induction false} SettlePermutes(u: seq<Delivery>, i: nat, tag: nat, multiple: bool)
    ensures var r := Settle(u, i, tag, multiple);
            multiset(r.kept) + multiset(r.taken) == multiset(u)
    decreases |u| - i
  {
    if i < |u| {
      if !TagMatches(u[i], tag, multiple) {
        SettlePermutes(u, i + 1, tag, multiple);
      } else {
        SwapRemoveSet(u, i);
        if multiple {
          var left := u[i := u[|u| - 1]][..|u| - 1];
          SettlePermutes(left, i, tag, multiple);
          var rest := Settle(left, i, tag, multiple);
          assert multiset([u[i]] + rest.taken) == multiset{u[i]} + multiset(rest.taken);
        }
      }
    }
  }

  lemma {:induction false} WantedCounts(u: seq<Delivery>, a: Ask, d: Delivery)
    ensures multiset(Wanted(u, a))[d] == if AsksFor(a, d) then multiset(u)[d] else 0
  {
    if u != [] {
      WantedCounts(u[1..], a, d);
      assert u == [u[0]] + u[1..];
      var first := if AsksFor(a, u[0]) then [u[0]] else [];
      assert multiset(Wanted(u, a)) == multiset(first) + multiset(Wanted(u[1..], a));
    }
  }

  /** What the loop takes is what is asked for. */
  lemma TakenIsWanted(u: seq<Delivery>, a: Ask)
    requires DistinctTags(u)
    ensures multiset(Settle(u, 0, a.tag, a.multiple).taken) == multiset(Wanted(u, a))
  {
    SettlePermutes(u, 0, a.tag, a.multiple);
    SettleExact(u, 0, a.tag, a.multiple);
    var r := Settle(u, 0, a.tag, a.multiple);
    hide Settle, Wanted, DistinctTags;
    forall d ensures multiset(r.taken)[d] == multiset(Wanted(u, a))[d] {
      WantedCounts(u, a, d);
      assert AsksFor(a, d) <==> TagMatches(d, a.tag, a.multiple);
      assert multiset(r.kept)[d] + multiset(r.taken)[d] == multiset(u)[d];
      if AsksFor(a, d) { assert d !in r.kept; } else { assert d !in r.taken; }
    }
  }

  lemma WithoutOne(w: seq<Delivery>, i: nat)
    requires i < |w|
    ensures var rest := w[..i] + w[i + 1..];
            && multiset(rest) == multiset(w) - multiset{w[i]} && |w| == |rest| + 1
            && multiset(Msgs(w)) == multiset{w[i].msg} + multiset(Msgs(rest))
  {
    TakeOutCounts(w, i);
    TakeOutCounts(Msgs(w), i);
    assert Msgs(w[..i] + w[i + 1..]) == Msgs(w)[..i] + Msgs(w)[i + 1..];
  }

  lemma SameRest(v: seq<Delivery>, w: seq<Delivery>, vr: seq<Delivery>, wr: seq<Delivery>, d: Delivery)
    requires multiset(v) == multiset(w)
    requires multiset(vr) == multiset(v) - multiset{d} && multiset(wr) == multiset(w) - multiset{d}
    ensures multiset(vr) == multiset(wr)
  {
  }

  lemma SomewhereIn(w: seq<Delivery>, d: Delivery) returns (i: nat)
    requires d in multiset(w)
    ensures i < |w| && w[i] == d
  {
    i :| 0 <= i < |w| && w[i] == d;
  }

  /** Reordered deliveries are as many and hold the same messages. */
  lemma {:induction false} SameMessages(v: seq<Delivery>, w: seq<Delivery>)
    requires multiset(v) == multiset(w)
    ensures |v| == |w| && multiset(Msgs(v)) == multiset(Msgs(w))
    decreases |v|
  {
    if v == [] {
      assert |multiset(v)| == 0 == |multiset(w)|;
    } else {
      assert v[0] in multiset(v);
      var i := SomewhereIn(w, v[0]);
      var vr, wr := v[..0] + v[1..], w[..i] + w[i + 1..];
      WithoutOne(v, 0);
      WithoutOne(w, i);
      SameRest(v, w, vr, wr, v[0]);
      SameMessages(vr, wr);
    }
  }

  // ---- all consumers ----

  /** What came back is behind what was there, and is these messages in some order. */
  ghost predicate CameBack(before: seq<Message>, after: seq<Message>, ms: seq<Message>) {
    before <= after && multiset(after[|before|..]) == multiset(ms)
  }

  lemma CameBackTwice(a: seq<Message>, b: seq<Message>, c: seq<Message>, x: seq<Message>, y: seq<Message>)
    requires CameBack(a, b, x) && CameBack(b, c, y)
    ensures CameBack(a, c, x + y)
  {
    assert c[|a|..] == b[|a|..] + c[|b|..];
  }

  lemma NothingBack(a: seq<Message>)
    ensures CameBack(a, a, [])
  {
    assert a[|a|..] == [];
  }

  /** The destination of what was asked for, for one queue. */
  ghost predicate Destination(s: State, r: State, q: Id, ms: seq<Message>, requeue: bool)
    requires q in s.queues && q in s.settled
  {
    && q in r.queues && q in r.settled
    && (if requeue then CameBack(s.queues[q].ready, r.queues[q].ready, ms) && r.settled[q] == s.settled[q]
        else r.queues[q] == s.queues[q] && r.settled[q] == s.settled[q] + multiset(ms))
  }

  lemma DestinationTwice(s: State, t: State, r: State, q: Id, x: seq<Message>, y: seq<Message>, requeue: bool)
    requires q in s.queues && q in s.settled && Destination(s, t, q, x, requeue) && Destination(t, r, q, y, requeue)
    ensures Destination(s, r, q, x + y, requeue)
  {
    if requeue { CameBackTwice(s.queues[q].ready, t.queues[q].ready, r.queues[q].ready, x, y); }
    assert multiset(x + y) == multiset(x) + multiset(y);
    hide CameBack;
  }

  lemma DestinationNone(s: State, q: Id, requeue: bool)
    requires q in s.queues && q in s.settled
    ensures Destination(s, s, q, [], requeue)
  {
    NothingBack(s.queues[q].ready);
  }

  /** One consumer gives up deliveries. */
  lemma ReleaseGoes(s: State, k: nat, kept: seq<Delivery>, taken: seq<Delivery>, w: seq<Delivery>, requeue: bool, q: Id)
    requires Shaped(s) && k in s.consumers && q in s.queues && q in s.settled && multiset(taken) == multiset(w)
    ensures Destination(s, Release(s, k, kept, taken, requeue), q, if s.consumers[k].queue == q then Msgs(w) else [],
            requeue)
  {
    SameMessages(taken, w);
    ReleaseDestination(s, k, kept, taken, requeue, q);
    NothingBack(s.queues[q].ready);
    var c := s.consumers[k];
    assert requeue && c.queue == q ==> CameBack(s.queues[q].ready, s.queues[q].ready + Msgs(taken), Msgs(w));
    hide RequeueAll, CameBack;
  }

  /** A consumer that is not among these does not matter. */
  lemma {:induction false} OthersOnly(order: seq<nat>, consumers: map<nat, Consumer>, k: nat, c: Consumer, a: Ask, q: Id)
    requires (forall i :: 0 <= i < |order| ==> order[i] in consumers) && k !in order
    ensures FromQueue(order, consumers[k := c], a, q) == FromQueue(order, consumers, a, q)
    ensures HowMany(order, consumers[k := c], a) == HowMany(order, consumers, a)
  {
    hide Surrendered;
    if order != [] { OthersOnly(order[1..], consumers, k, c, a, q); }
  }

  lemma {:induction false} NoneWanted(u: seq<Delivery>, a: Ask)
    requires forall d :: d in u ==> !AsksFor(a, d)
    ensures Wanted(u, a) == []
  {
    if u != [] { NoneWanted(u[1..], a); }
  }

  /** With tags given out once, nobody else has the one asked for. */
  lemma {:induction false} NoneElse(s: State, order: seq<nat>, j: nat, a: Ask, q: Id)
    requires TagsOk(s) && j in s.consumers && !a.multiple && j !in order
    requires forall i :: 0 <= i < |order| ==> order[i] in s.consumers
    requires Settle(s.consumers[j].unacked, 0, a.tag, a.multiple).taken != []
    ensures FromQueue(order, s.consumers, a, q) == [] && HowMany(order, s.consumers, a) == 0
  {
    hide TagsOk, Settle;
    if order != [] {
      NoneElse(s, order[1..], j, a, q);
      OthersHaveNoMatch(s, j, order[0], a);
      NoneWanted(s.consumers[order[0]].unacked, a);
    }
  }

  /** The consumer at position `i`, then those behind it. */
  lemma FromHere(s: State, i: nat, a: Ask, q: Id)
    requires Shaped(s) && Distinct(s.order) && i < |s.order|
    ensures var c, rest := s.consumers[s.order[i]], s.order[i + 1..];
            && s.order[i] !in rest && (forall j :: 0 <= j < |rest| ==> rest[j] in s.consumers)
            && FromQueue(s.order[i..], s.consumers, a, q) ==
               (if c.queue == q then Msgs(Surrendered(c, a)) else []) + FromQueue(rest, s.consumers, a, q)
            && HowMany(s.order[i..], s.consumers, a) == |Surrendered(c, a)| + HowMany(rest, s.consumers, a)
  {
    hide Surrendered;
    var rest := s.order[i + 1..];
    assert s.order[i..][0] == s.order[i] && s.order[i..][1..] == rest;
    forall j | 0 <= j < |rest| ensures rest[j] != s.order[i] { assert rest[j] == s.order[i + 1 + j]; }
  }

  lemma OwnShare(s: State, k: nat, a: Ask)
    requires TagsOk(s) && k in s.consumers
    ensures var c := s.consumers[k];
            var taken := Settle(c.unacked, 0, a.tag, a.multiple).taken;
            multiset(taken) == multiset(Wanted(c.unacked, a)) && |taken| == |Wanted(c.unacked, a)|
  {
    hide TagsOk, Settle, Wanted;
    OwnTags(s, k);
    TakenIsWanted(s.consumers[k].unacked, a);
    SameMessages(Settle(s.consumers[k].unacked, 0, a.tag, a.multiple).taken, Wanted(s.consumers[k].unacked, a));
  }

  /** What the loop does from position `i` on. */
  lemma {:induction false} SettleGoes(s: State, i: nat, a: Ask, q: Id)
    requires Shaped(s) && Distinct(s.order) && TagsOk(s) && i <= |s.order| && q in s.queues && q in s.settled
    ensures Destination(s, SettleFrom(s, i, a).0, q, FromQueue(s.order[i..], s.consumers, a, q), a.requeue)
    ensures SettleFrom(s, i, a).1 == HowMany(s.order[i..], s.consumers, a)
    decreases |s.order| - i
  {
    hide Settle, Release, TagsOk, Distinct, Destination;
    if i == |s.order| {
      assert s.order[i..] == [];
      DestinationNone(s, q, a.requeue);
    } else {
      FromHere(s, i, a, q);
      var c := s.consumers[s.order[i]];
      OwnShare(s, s.order[i], a);
      hide FromQueue, HowMany, Wanted;
      if !On(c, a.conn, a.channel) || Settle(c.unacked, 0, a.tag, a.multiple).taken == [] {
        assert Surrendered(c, a) == [] && Msgs([]) == [];
        SettleGoes(s, i + 1, a, q);
        assert [] + FromQueue(s.order[i + 1..], s.consumers, a, q) == FromQueue(s.order[i + 1..], s.consumers, a, q);
      } else {
        SettleHits(s, i, a, q);
      }
    }
  }

  lemma SettleHits(s: State, i: nat, a: Ask, q: Id)
    requires Shaped(s) && Distinct(s.order) && TagsOk(s) && i < |s.order| && q in s.queues && q in s.settled
    requires var c := s.consumers[s.order[i]];
             On(c, a.conn, a.channel) && Settle(c.unacked, 0, a.tag, a.multiple).taken != []
    ensures Destination(s, SettleFrom(s, i, a).0, q, FromQueue(s.order[i..], s.consumers, a, q), a.requeue)
    ensures SettleFrom(s, i, a).1 == HowMany(s.order[i..], s.consumers, a)
    decreases |s.order| - i, 0
  {
    hide Settle, Release, TagsOk, Distinct, Destination, FromQueue, HowMany, Wanted;
    var k := s.order[i];
    var c := s.consumers[k];
    FromHere(s, i, a, q);
    OwnShare(s, k, a);
    var sp := Settle(c.unacked, 0, a.tag, a.multiple);
    var t := Release(s, k, sp.kept, sp.taken, a.requeue);
    var own := if c.queue == q then Msgs(Surrendered(c, a)) else [];
    ReleaseGoes(s, k, sp.kept, sp.taken, Surrendered(c, a), a.requeue, q);
    ReleaseTouchesOne(s, k, sp.kept, sp.taken, a.requeue);
    if a.multiple {
      ReleaseKeepsTags(s, k, a, t);
      assert q in t.queues && q in t.settled by { DestinationThere(s, t, q, own, a.requeue); }
      SettleGoes(t, i + 1, a, q);
      OthersOnly(s.order[i + 1..], s.consumers, k, c.(unacked := sp.kept), a, q);
      DestinationTwice(s, t, SettleFrom(t, i + 1, a).0, q, own, FromQueue(s.order[i + 1..], s.consumers, a, q),
          a.requeue);
    } else {
      NoneElse(s, s.order[i + 1..], k, a, q);
      assert own + [] == own;
    }
  }

  lemma DestinationThere(s: State, r: State, q: Id, ms: seq<Message>, requeue: bool)
    requires q in s.queues && q in s.settled && Destination(s, r, q, ms, requeue)
    ensures q in r.queues && q in r.settled
  {
  }

  // ---- in every run ----

  /** In every run, for every queue: a settle with requeue puts exactly the deliveries asked for, of that queue's
      consumers on that connection and channel, behind what is ready and settles none; without, it leaves the queue as
      it is and settles exactly those; and the number reported is how many there were over all queues. */
  lemma SettledGoesWhere(s: State, run: seq<Act>, a: Ask, q: Id)
    requires WF(s) && TagsOk(s) && q in s.queues
    ensures var e := Exec(s, run);
            && Shaped(e) && q in e.queues && q in e.settled
            && Destination(e, SettleFrom(e, 0, a).0, q, FromQueue(e.order, e.consumers, a, q), a.requeue)
            && SettleFrom(e, 0, a).1 == HowMany(e.order, e.consumers, a)
  {
    hide Exec, SettleFrom, TagsOk, Destination, Holdings;
    RunKeepsTags(s, run, q);
    EveryMessageIsSomewhere(s, run, q, Message("", "", [], [], 0, 0));
    var e := Exec(s, run);
    assert e.order[0..] == e.order;
    SettleGoes(e, 0, a, q);
  }

  /** In every run: when a consumer goes, its deliveries return to its queue in order, or are settled there; no other
      queue changes. */
  lemma DepartedGoesWhere(s: State, run: seq<Act>, k: nat, requeue: bool, q: Id)
    requires WF(s) && TagsOk(s) && q in s.queues && k in Exec(s, run).consumers
    ensures var e := Exec(s, run);
            && q in e.queues && q in e.settled && Enabled(e, Depart(k, requeue))
            && var r, c := Step(e, Depart(k, requeue)), e.consumers[k];
               var ms := if c.queue == q then Msgs(c.unacked) else [];
               && k !in r.consumers && k !in r.order && q in r.queues && q in r.settled
               && r.queues[q].ready == e.queues[q].ready + (if requeue then ms else [])
               && r.settled[q] == e.settled[q] + multiset(if requeue then [] else ms)
               && forall l :: l in e.consumers && l != k ==> l in r.consumers && r.consumers[l] == e.consumers[l]
  {
    hide Exec, TagsOk, Holdings;
    RunKeepsTags(s, run, q);
    EveryMessageIsSomewhere(s, run, q, Message("", "", [], [], 0, 0));
    var e := Exec(s, run);
    EnabledIff(e, Depart(k, requeue));
    DestroyGoes(e, k, requeue, q);
  }

  lemma DestroyGoes(e: State, k: nat, requeue: bool, q: Id)
    requires WF(e) && q in e.queues && k in e.consumers && e.consumers[k].queue in e.groups
    ensures q in e.settled
    ensures var r, c := Destroy(e, k, requeue), e.consumers[k];
            var ms := if c.queue == q then Msgs(c.unacked) else [];
            && k !in r.consumers && k !in r.order && q in r.queues && q in r.settled
            && r.queues[q].ready == e.queues[q].ready + (if requeue then ms else [])
            && r.settled[q] == e.settled[q] + multiset(if requeue then [] else ms)
            && forall l :: l in e.consumers && l != k ==> l in r.consumers && r.consumers[l] == e.consumers[l]
  {
    hide Unlink, Leave, RequeueAll, Distinct;
    var c := e.consumers[k];
    UnlinkMembers(e.order, k);
    ReleaseDestination(e, k, [], c.unacked, requeue, q);
    assert e.queues[q].ready + [] == e.queues[q].ready;
  }
}
