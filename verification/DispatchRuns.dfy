/** Every run of subscribing, arriving, servicing, settling, cancelling and disconnecting. */
module DispatchRuns {
  import opened Exchanges
  import opened Queues
  import opened Dispatch

  // ---- consumers come and go ----

  /** A new consumer joins the end of its queue's group and the head of the list. */
  function Subscribe(s: State, k: nat, c: Consumer): (r: State)
    requires k !in s.consumers && c.unacked == []
  {
    var g := if c.queue in s.groups then s.groups[c.queue] else Group([], 0);
    s.(consumers := s.consumers[k := c], order := [k] + s.order,
       groups := s.groups[c.queue := g.(arr := g.arr + [k])])
  }

  /** The list without one consumer. */
  function Unlink(order: seq<nat>, k: nat): (r: seq<nat>) {
    if order == [] then [] else if order[0] == k then order[1..] else [order[0]] + Unlink(order[1..], k)
  }

  function IndexOf(arr: seq<nat>, k: nat): (i: nat)
    ensures i <= |arr| && (i < |arr| ==> arr[i] == k) && forall j :: 0 <= j < i ==> arr[j] != k
  {
    if arr == [] || arr[0] == k then 0 else 1 + IndexOf(arr[1..], k)
  }

  /** A group after swap-removing one consumer; a cursor left beyond the end starts over. */
  function Leave(g: Group, k: nat): (r: Group) {
    var i := IndexOf(g.arr, k);
    if i == |g.arr| then g
    else
      var arr := g.arr[i := g.arr[|g.arr| - 1]][..|g.arr| - 1];
      Group(arr, if g.rr > |arr| then 0 else g.rr)
  }

  /** A consumer goes: its deliveries return to the queue or are dropped, and nothing refers to it any more. */
  function Destroy(s: State, k: nat, requeue: bool): (r: State)
    requires k in s.consumers && s.consumers[k].queue in s.queues && s.consumers[k].queue in s.settled
    requires s.consumers[k].queue in s.groups
  {
    var c := s.consumers[k];
    var t := Release(s, k, [], c.unacked, requeue);
    var g := Leave(s.groups[c.queue], k);
    t.(consumers := t.consumers - {k}, order := Unlink(t.order, k),
       groups := if g.arr == [] then t.groups - {c.queue} else t.groups[c.queue := g])
  }

  lemma {:induction false} UnlinkMembers(order: seq<nat>, k: nat)
    requires Distinct(order)
    ensures Distinct(Unlink(order, k)) && forall x :: x in Unlink(order, k) <==> x in order && x != k
  {
    if order != [] {
      UnlinkMembers(order[1..], k);
      assert order == [order[0]] + order[1..];
      if order[0] != k {
        forall j | 0 <= j < |Unlink(order[1..], k)| ensures Unlink(order[1..], k)[j] != order[0] {
          assert Unlink(order[1..], k)[j] in order[1..];
        }
      }
    }
  }

  lemma LeaveMembers(g: Group, k: nat)
    requires Distinct(g.arr)
    ensures Distinct(Leave(g, k).arr) && forall x :: x in Leave(g, k).arr <==> x in g.arr && x != k
    ensures k in g.arr ==> Leave(g, k).rr == if g.rr < |g.arr| then g.rr else 0
  {
    hide IndexOf;
    var i := IndexOf(g.arr, k);
    if i < |g.arr| {
      var arr := Leave(g, k).arr;
      forall x ensures x in arr <==> x in g.arr && x != k {
        if x in g.arr && x != k {
          var j :| 0 <= j < |g.arr| && g.arr[j] == x;
          assert x == arr[if j == |g.arr| - 1 then i else j];
        }
      }
    }
  }

  lemma {:induction false} HeldWithout(order: seq<nat>, consumers: map<nat, Consumer>, k: nat, q: Id, x: Message)
    requires Distinct(order) && (forall i :: 0 <= i < |order| ==> order[i] in consumers) && k in order
    requires consumers[k].unacked == []
    ensures forall i :: 0 <= i < |Unlink(order, k)| ==> Unlink(order, k)[i] in consumers - {k}
    ensures Held(Unlink(order, k), consumers - {k}, q, x) == Held(order, consumers, q, x)
  {
    UnlinkMembers(order, k);
    if order[0] == k {
      HeldRestrict(order[1..], consumers, k, q, x);
    } else {
      HeldWithout(order[1..], consumers, k, q, x);
      assert Unlink(order, k)[1..] == Unlink(order[1..], k);
    }
  }

  lemma {:induction false} HeldRestrict(order: seq<nat>, consumers: map<nat, Consumer>, k: nat, q: Id, x: Message)
    requires (forall i :: 0 <= i < |order| ==> order[i] in consumers) && k !in order
    ensures Held(order, consumers - {k}, q, x) == Held(order, consumers, q, x)
  {
    if order != [] { HeldRestrict(order[1..], consumers, k, q, x); }
  }

  lemma DestroyListed(s: State, k: nat, requeue: bool)
    requires WF(s) && k in s.consumers && s.consumers[k].queue in s.groups
    ensures Listed(Destroy(s, k, requeue))
  {
    hide Unlink, Leave, Release, Distinct, Grouped;
    var c := s.consumers[k];
    var t := Release(s, k, [], c.unacked, requeue);
    ReleaseWF(s, k, [], c.unacked, requeue);
    ReleaseTouchesOne(s, k, [], c.unacked, requeue);
    UnlinkMembers(s.order, k);
    LeaveMembers(s.groups[c.queue], k);
    var r := Destroy(s, k, requeue);
    forall i | 0 <= i < |r.order| ensures r.order[i] in r.consumers {
      assert r.order[i] in Unlink(s.order, k);
    }
    forall q | q in r.groups ensures q in r.queues && Distinct(r.groups[q].arr) {
      assert q in s.groups;
    }
    forall q, i | q in r.groups && 0 <= i < |r.groups[q].arr|
      ensures r.groups[q].arr[i] in r.consumers && r.consumers[r.groups[q].arr[i]].queue == q
    {
      var l := r.groups[q].arr[i];
      assert l in r.groups[q].arr;
      assert l in s.groups[q].arr && (q == c.queue ==> l != k);
      ChosenIsOfQueue(s, q, l);
    }
  }

  lemma DestroyGrouped(s: State, k: nat, requeue: bool)
    requires WF(s) && k in s.consumers && s.consumers[k].queue in s.groups
    ensures Grouped(Destroy(s, k, requeue))
  {
    hide Unlink, Leave, Release, Distinct;
    var c := s.consumers[k];
    ReleaseTouchesOne(s, k, [], c.unacked, requeue);
    LeaveMembers(s.groups[c.queue], k);
    var r := Destroy(s, k, requeue);
    forall l | l in r.consumers ensures InGroup(r, l) {
      assert InGroup(s, l) && l != k;
    }
  }

  lemma DestroyWF(s: State, k: nat, requeue: bool)
    requires WF(s) && k in s.consumers && s.consumers[k].queue in s.groups
    ensures WF(Destroy(s, k, requeue))
  {
    hide Destroy, Listed, Grouped;
    DestroyListed(s, k, requeue);
    DestroyGrouped(s, k, requeue);
  }

  /** A consumer's departure, whether its deliveries are requeued or dropped, accounts for every message. */
  lemma DestroyConserves(s: State, k: nat, requeue: bool, q: Id, x: Message)
    requires WF(s) && k in s.consumers && s.consumers[k].queue in s.groups && q in s.queues
    ensures var r := Destroy(s, k, requeue);
            WF(r) && q in r.queues && Holdings(r, q, x) == Holdings(s, q, x)
  {
    hide Held, Unlink, Leave, Release, Distinct;
    var c := s.consumers[k];
    var t := Release(s, k, [], c.unacked, requeue);
    NoneCounted(x);
    ReleaseConserves(s, k, [], c.unacked, requeue, q, x);
    ReleaseTouchesOne(s, k, [], c.unacked, requeue);
    DestroyWF(s, k, requeue);
    HeldWithout(t.order, t.consumers, k, q, x);
  }

  lemma NoneCounted(x: Message)
    ensures Count([], x) == 0
  {
  }

  lemma SubscribeListed(s: State, k: nat, c: Consumer)
    requires WF(s) && k !in s.consumers && c.unacked == [] && c.queue in s.queues
    ensures Listed(Subscribe(s, k, c))
  {
    hide Grouped;
    var r := Subscribe(s, k, c);
    assert forall q, i :: q in s.groups && 0 <= i < |s.groups[q].arr| ==> s.groups[q].arr[i] != k;
    assert forall i :: 0 <= i < |s.order| ==> s.order[i] != k;
    assert Distinct(r.order);
  }

  lemma SubscribeWF(s: State, k: nat, c: Consumer)
    requires WF(s) && k !in s.consumers && c.unacked == [] && c.queue in s.queues
    ensures WF(Subscribe(s, k, c))
  {
    hide Listed;
    SubscribeListed(s, k, c);
    var r := Subscribe(s, k, c);
    forall l | l in r.consumers ensures InGroup(r, l) {
      assert l != k ==> InGroup(s, l);
    }
  }

  lemma SubscribeConserves(s: State, k: nat, c: Consumer, q: Id, x: Message)
    requires WF(s) && k !in s.consumers && c.unacked == [] && c.queue in s.queues && q in s.queues
    ensures var r := Subscribe(s, k, c);
            WF(r) && q in r.queues && Holdings(r, q, x) == Holdings(s, q, x)
  {
    SubscribeWF(s, k, c);
    var r := Subscribe(s, k, c);
    hide WF, Distinct;
    assert r.order[1..] == s.order;
    HeldFresh(s.order, s.consumers, q, x, k, c);
  }

  lemma {:induction false} HeldFresh(order: seq<nat>, consumers: map<nat, Consumer>, q: Id, x: Message, k: nat,
                                     c: Consumer)
    requires (forall i :: 0 <= i < |order| ==> order[i] in consumers) && k !in consumers
    ensures Held(order, consumers[k := c], q, x) == Held(order, consumers, q, x)
  {
    if order != [] { HeldFresh(order[1..], consumers, q, x, k, c); }
  }

  // ---- runs ----

  datatype Act =
    | Arrive(q: Id, m: Message)
    | Join(k: nat, c: Consumer)
    | Serve(g: Id, env: nat -> Turn)
    | Answer(a: Ask)
    | Depart(k: nat, requeue: bool)

  ghost predicate Enabled(s: State, a: Act) {
    match a
    case Arrive(q, _) => q in s.queues
    case Join(k, c) => k !in s.consumers && c.unacked == [] && c.queue in s.queues
    case Serve(g, _) => g in s.groups && Serviceable(s, g)
    case Answer(_) => Shaped(s)
    case Depart(k, _) =>
      && k in s.consumers && s.consumers[k].queue in s.queues && s.consumers[k].queue in s.settled
      && s.consumers[k].queue in s.groups
  }

  ghost function Step(s: State, a: Act): (r: State)
    requires Enabled(s, a)
  {
    match a
    case Arrive(q, m) => PutBack(s, q, m)
    case Join(k, c) => Subscribe(s, k, c)
    case Serve(g, env) => Service(s, g, env, 0)
    case Answer(b) => SettleFrom(s, 0, b).0
    case Depart(k, requeue) => Destroy(s, k, requeue)
  }

  /** In a well-formed state an act is enabled exactly when what it names is there. */
  lemma EnabledIff(s: State, a: Act)
    requires WF(s)
    ensures Enabled(s, a) <==>
              && (a.Arrive? ==> a.q in s.queues)
              && (a.Join? ==> a.k !in s.consumers && a.c.unacked == [] && a.c.queue in s.queues)
              && (a.Serve? ==> a.g in s.groups)
              && (a.Depart? ==> a.k in s.consumers)
  {
    if a.Depart? && a.k in s.consumers { assert InGroup(s, a.k); }
  }

  /** An act on a queue, group or consumer that is not there changes nothing. */
  ghost function Exec(s: State, run: seq<Act>): (r: State)
    decreases |run|
  {
    if run == [] then s
    else if Enabled(s, run[0]) then Exec(Step(s, run[0]), run[1..])
    else Exec(s, run[1..])
  }

  lemma ArriveCounts(s: State, q: Id, m: Message, p: Id, x: Message)
    requires WF(s) && q in s.queues && p in s.queues
    ensures var r := PutBack(s, q, m);
            WF(r) && p in r.queues && Holdings(r, p, x) == Holdings(s, p, x) + Bit(p == q && m == x)
  {
    assert multiset(s.queues[q].ready + [m]) == multiset(s.queues[q].ready) + multiset{m};
  }

  lemma StepCounts(s: State, a: Act, q: Id, x: Message)
    requires WF(s) && q in s.queues && Enabled(s, a)
    ensures var r := Step(s, a);
            WF(r) && q in r.queues
            && Holdings(r, q, x) == Holdings(s, q, x) + Bit(a.Arrive? && a.q == q && a.m == x)
  {
    hide WF, Holdings, PutBack, Subscribe, Service, SettleFrom, Destroy;
    match a {
      case Arrive(p, m) => ArriveCounts(s, p, m, q, x);
      case Join(k, c) => SubscribeConserves(s, k, c, q, x);
      case Serve(g, env) => ServiceConserves(s, g, env, 0, q, x);
      case Answer(b) => SettleConserves(s, 0, b, q, x);
      case Depart(k, requeue) => DestroyConserves(s, k, requeue, q, x);
    }
  }

  /** Over every run, each arrival of a message at a queue is accounted for exactly once: it is ready there, in one
      consumer's hands, or settled. */
  lemma {:induction false} EveryMessageIsSomewhere(s: State, run: seq<Act>, q: Id, x: Message)
    requires WF(s) && q in s.queues
    ensures var r := Exec(s, run);
            WF(r) && q in r.queues && Holdings(r, q, x) == Holdings(s, q, x) + Arrived(s, run, q, x)
    decreases |run|
  {
    hide WF, Holdings, Step, Enabled;
    if run != [] {
      if Enabled(s, run[0]) {
        StepCounts(s, run[0], q, x);
        EveryMessageIsSomewhere(Step(s, run[0]), run[1..], q, x);
      } else {
        EveryMessageIsSomewhere(s, run[1..], q, x);
      }
    }
  }

  /** The arrivals that took place. */
  ghost function Arrived(s: State, run: seq<Act>, q: Id, x: Message): (n: nat)
    decreases |run|
  {
    if run == [] then 0
    else if Enabled(s, run[0]) then
      Bit(run[0].Arrive? && run[0].q == q && run[0].m == x) + Arrived(Step(s, run[0]), run[1..], q, x)
    else Arrived(s, run[1..], q, x)
  }

  // ---- tags, and what a settle takes, in every run ----

  ghost predicate Below(u: seq<Delivery>, n: nat) {
    forall d :: d in u ==> d.tag < n
  }

  lemma NewTag(u: seq<Delivery>, n: nat, m: Message)
    requires DistinctTags(u) && Below(u, n)
    ensures DistinctTags(u + [Delivery(n, m)]) && UpTo(u + [Delivery(n, m)], n)
  {
    assert forall i :: 0 <= i < |u| ==> u[i] in u;
  }

  lemma NewTagApart(u: seq<Delivery>, v: seq<Delivery>, n: nat, m: Message)
    requires Apart(u, v) && Apart(v, u) && Below(v, n)
    ensures Apart(u + [Delivery(n, m)], v) && Apart(v, u + [Delivery(n, m)])
  {
  }

  lemma AcceptKeepsTags(s: State, q: Id, k: nat, m: Message)
    requires TagsOk(s) && Serviceable(s, q) && k in s.consumers
    requires forall l :: l in s.consumers ==> Below(s.consumers[l].unacked, s.nextTag)
    ensures TagsOk(Accept(s, q, k, m))
  {
    hide DistinctTags, UpTo, Apart, Below;
    var c := s.consumers[k];
    NewTag(c.unacked, s.nextTag, m);
    forall l | l in s.consumers && l != k
      ensures var v := c.unacked + [Delivery(s.nextTag, m)];
              Apart(v, s.consumers[l].unacked) && Apart(s.consumers[l].unacked, v)
    {
      NewTagApart(c.unacked, s.consumers[l].unacked, s.nextTag, m);
    }
  }

  lemma {:induction false} ServiceKeepsTags(s: State, q: Id, env: nat -> Turn, i: nat)
    requires TagsOk(s) && Serviceable(s, q)
    ensures TagsOk(Service(s, q, env, i))
    decreases |s.queues[q].ready|
  {
    hide Pick, TagsOk, Accept;
    var pk := Pick(s.groups[q], s.consumers, env(i).blocked, 0);
    var t := SetGroup(s, q, pk.0);
    SameConsumersSameTags(s, t);
    if !pk.1.NoOne? && s.queues[q].ready != [] {
      var m := s.queues[q].ready[0];
      var u := TakeOut(t, q);
      NextTagRoom(s, u);
      if !env(i).sendOk {
        SameConsumersSameTags(u, PutBack(u, q, m));
      } else {
        AcceptKeepsTags(u, q, pk.1.k, m);
        AcceptKeepsQueues(u, q, pk.1.k, m);
        ServiceKeepsTags(Accept(u, q, pk.1.k, m), q, env, i + 1);
      }
    }
  }

  lemma SameConsumersSameTags(s: State, t: State)
    requires TagsOk(s) && t.consumers == s.consumers && t.nextTag >= s.nextTag
    ensures TagsOk(t)
  {
    hide DistinctTags, Apart;
  }

  lemma NextTagRoom(s: State, u: State)
    requires TagsOk(s) && u.consumers == s.consumers && u.nextTag == s.nextTag + 1
    ensures TagsOk(u) && forall l :: l in u.consumers ==> Below(u.consumers[l].unacked, u.nextTag)
  {
    hide DistinctTags, Apart;
  }

  lemma {:induction false} SettleKeepsTags(s: State, i: nat, a: Ask)
    requires Shaped(s) && TagsOk(s)
    ensures TagsOk(SettleFrom(s, i, a).0)
    decreases |s.order| - i
  {
    hide TagsOk, Settle, Release;
    if i < |s.order| {
      var k := s.order[i];
      var c := s.consumers[k];
      var sp := Settle(c.unacked, 0, a.tag, a.multiple);
      if !On(c, a.conn, a.channel) || sp.taken == [] {
        SettleKeepsTags(s, i + 1, a);
      } else {
        var t := Release(s, k, sp.kept, sp.taken, a.requeue);
        ReleaseTouchesOne(s, k, sp.kept, sp.taken, a.requeue);
        ReleaseKeepsTags(s, k, a, t);
        if a.multiple { SettleKeepsTags(t, i + 1, a); }
      }
    }
  }

  lemma JoinOrDepartKeepsTags(s: State, t: State, k: nat)
    requires TagsOk(s) && t.nextTag == s.nextTag
    requires forall l :: l in t.consumers ==>
               if l == k then t.consumers[l].unacked == [] else l in s.consumers && t.consumers[l] == s.consumers[l]
    ensures TagsOk(t)
  {
    assert DistinctTags([]) && UpTo([], t.nextTag) && forall u :: Apart([], u) && Apart(u, []);
    hide DistinctTags, Apart, UpTo;
  }

  lemma StepKeepsTags(s: State, a: Act)
    requires WF(s) && TagsOk(s) && Enabled(s, a)
    ensures TagsOk(Step(s, a))
  {
    hide TagsOk, Service, SettleFrom, Release, Unlink, Leave, Distinct;
    match a {
      case Arrive(q, m) => SameConsumersSameTags(s, PutBack(s, q, m));
      case Join(k, c) => JoinOrDepartKeepsTags(s, Subscribe(s, k, c), k);
      case Serve(g, env) => ServiceKeepsTags(s, g, env, 0);
      case Answer(b) => SettleKeepsTags(s, 0, b);
      case Depart(k, requeue) =>
        ReleaseTouchesOne(s, k, [], s.consumers[k].unacked, requeue);
        JoinOrDepartKeepsTags(s, Destroy(s, k, requeue), k);
    }
  }

  lemma {:induction false} RunKeepsTags(s: State, run: seq<Act>, q: Id)
    requires WF(s) && TagsOk(s) && q in s.queues
    ensures WF(Exec(s, run)) && TagsOk(Exec(s, run))
    decreases |run|
  {
    hide WF, TagsOk, Step, Enabled, Holdings;
    if run != [] {
      if Enabled(s, run[0]) {
        StepCounts(s, run[0], q, Message("", "", [], [], 0, 0));
        StepKeepsTags(s, run[0]);
        RunKeepsTags(Step(s, run[0]), run[1..], q);
      } else {
        RunKeepsTags(s, run[1..], q);
      }
    }
  }

  /** In every run, a settle takes from each consumer exactly the deliveries with the tag, or all at or below it, on
      that connection and channel, and nothing else. */
  lemma SettleExactInEveryRun(s: State, run: seq<Act>, a: Ask, q: Id, k: nat)
    requires WF(s) && TagsOk(s) && q in s.queues
    ensures var e := Exec(s, run);
            Shaped(e) && (k in e.consumers ==> k in SettleFrom(e, 0, a).0.consumers
                                               && SettledExactly(e.consumers[k], SettleFrom(e, 0, a).0.consumers[k], a))
  {
    hide Exec, SettleFrom, SettledExactly, TagsOk;
    RunKeepsTags(s, run, q);
    var e := Exec(s, run);
    if k in e.consumers {
      var p :| 0 <= p < |e.order| && e.order[p] == k;
      SettleReaches(e, 0, a, p);
    }
  }
}
