/** Deliveries: which consumer gets which message, and what settling, cancelling and disconnecting do to them. */
module Dispatch {
  import opened Exchanges
  import opened Queues

  datatype Delivery = Delivery(tag: nat, msg: Message)

  datatype Consumer = Consumer(conn: nat, channel: nat, queue: Id, noAck: bool, prefetch: nat, unacked: seq<Delivery>)

  /** The consumers of one queue, by id, with the round-robin cursor. */
  datatype Group = Group(arr: seq<nat>, rr: nat)

  /** `order` is the list of all consumers; `settled` records, per queue, the messages that are done with. */
  datatype State = State(defaults: Defaults, queues: map<Id, Queue>, consumers: map<nat, Consumer>, order: seq<nat>,
                         groups: map<Id, Group>, nextTag: nat, settled: map<Id, multiset<Message>>)

  // ---- well-formedness ----

  /** Listed consumers exist, and so do their queues. */
  predicate Shaped(s: State) {
    && (forall i :: 0 <= i < |s.order| ==> s.order[i] in s.consumers)
    && (forall k :: k in s.consumers ==> s.consumers[k].queue in s.queues && s.consumers[k].queue in s.settled)
  }

  ghost predicate WF(s: State) {
    Listed(s) && Grouped(s)
  }

  /** The list names each consumer once; groups name consumers of their queue, each once. */
  ghost predicate Listed(s: State) {
    && Shaped(s) && Distinct(s.order) && (forall k :: k in s.consumers ==> k in s.order)
    && s.settled.Keys == s.queues.Keys
    && (forall q, i :: q in s.groups && 0 <= i < |s.groups[q].arr| ==>
          s.groups[q].arr[i] in s.consumers && s.consumers[s.groups[q].arr[i]].queue == q)
    && (forall q :: q in s.groups ==> q in s.queues && Distinct(s.groups[q].arr))
  }

  /** Every consumer is in the group of its queue. */
  ghost predicate Grouped(s: State) {
    forall k :: k in s.consumers ==> InGroup(s, k)
  }

  ghost predicate InGroup(s: State, k: nat)
    requires k in s.consumers
  {
    s.consumers[k].queue in s.groups && k in s.groups[s.consumers[k].queue].arr
  }

  /** Delivery tags are given out once: none is above the counter and no two outstanding deliveries share one. */
  ghost predicate TagsOk(s: State) {
    && (forall k :: k in s.consumers ==> DistinctTags(s.consumers[k].unacked) && UpTo(s.consumers[k].unacked, s.nextTag))
    && (forall k, l :: k in s.consumers && l in s.consumers && k != l ==>
          Apart(s.consumers[k].unacked, s.consumers[l].unacked))
  }

  ghost predicate UpTo(u: seq<Delivery>, n: nat) {
    forall d :: d in u ==> d.tag <= n
  }

  ghost predicate Apart(u: seq<Delivery>, v: seq<Delivery>) {
    forall d, e :: d in u && e in v ==> d.tag != e.tag
  }

  // ---- where messages are ----

  /** How often a message is among these deliveries. */
  ghost function Count(ds: seq<Delivery>, x: Message): (n: nat) {
    if ds == [] then 0 else Bit(ds[0].msg == x) + Count(ds[1..], x)
  }

  lemma {:induction false} CountConcat(a: seq<Delivery>, b: seq<Delivery>, x: Message)
    ensures Count(a + b, x) == Count(a, x) + Count(b, x)
  {
    if a == [] {
      assert a + b == b;
    } else {
      CountConcat(a[1..], b, x);
      assert (a + b)[1..] == a[1..] + b;
    }
  }

  ghost function Share(c: Consumer, q: Id, x: Message): (n: nat) {
    if c.queue == q then Count(c.unacked, x) else 0
  }

  /** How often a message of a queue is in its consumers' hands. */
  ghost function Held(order: seq<nat>, consumers: map<nat, Consumer>, q: Id, x: Message): (n: nat)
    requires forall i :: 0 <= i < |order| ==> order[i] in consumers
  {
    if order == [] then 0 else Share(consumers[order[0]], q, x) + Held(order[1..], consumers, q, x)
  }

  /** How often a queue accounts for a message: ready, in consumers' hands, or settled. */
  ghost function Holdings(s: State, q: Id, x: Message): (n: nat)
    requires Shaped(s) && q in s.queues && q in s.settled
  {
    multiset(s.queues[q].ready)[x] + Held(s.order, s.consumers, q, x) + s.settled[q][x]
  }

  lemma {:induction false} HeldElsewhere(order: seq<nat>, consumers: map<nat, Consumer>, q: Id, x: Message, k: nat,
                                         c: Consumer)
    requires (forall i :: 0 <= i < |order| ==> order[i] in consumers) && k !in order
    ensures Held(order, consumers[k := c], q, x) == Held(order, consumers, q, x)
  {
    if order != [] { HeldElsewhere(order[1..], consumers, q, x, k, c); }
  }

  /** Changing one consumer changes what is held by exactly its own share. */
  lemma {:induction false} HeldUpdate(order: seq<nat>, consumers: map<nat, Consumer>, q: Id, x: Message, k: nat,
                                      c: Consumer)
    requires Distinct(order) && (forall i :: 0 <= i < |order| ==> order[i] in consumers) && k in order
    ensures Held(order, consumers[k := c], q, x) ==
            Held(order, consumers, q, x) - Share(consumers[k], q, x) + Share(c, q, x)
  {
    hide Share;
    if order[0] == k {
      HeldElsewhere(order[1..], consumers, q, x, k, c);
    } else {
      HeldUpdate(order[1..], consumers, q, x, k, c);
    }
  }

  // ---- settling ----

  predicate TagMatches(d: Delivery, tag: nat, multiple: bool) {
    if multiple then tag == 0 || d.tag <= tag else d.tag == tag
  }

  datatype Split = Split(kept: seq<Delivery>, taken: seq<Delivery>)

  /** The swap-remove loop over one consumer's deliveries, from position `i`. */
  function Settle(u: seq<Delivery>, i: nat, tag: nat, multiple: bool): (r: Split)
    decreases |u| - i
  {
    if i >= |u| then Split(u, [])
    else if !TagMatches(u[i], tag, multiple) then Settle(u, i + 1, tag, multiple)
    else
      var left := u[i := u[|u| - 1]][..|u| - 1];
      if !multiple then Split(left, [u[i]])
      else
        var rest := Settle(left, i, tag, multiple);
        Split(rest.kept, [u[i]] + rest.taken)
  }

  lemma {:induction false} CountUpdate(u: seq<Delivery>, i: nat, d: Delivery, x: Message)
    requires i < |u|
    ensures Count(u[i := d], x) == Count(u, x) - Bit(u[i].msg == x) + Bit(d.msg == x)
  {
    if i == 0 {
      assert u[i := d][1..] == u[1..];
    } else {
      CountUpdate(u[1..], i - 1, d, x);
      assert u[i := d][1..] == u[1..][i - 1 := d];
    }
  }

  lemma CountLast(u: seq<Delivery>, x: Message)
    requires u != []
    ensures Count(u, x) == Count(u[..|u| - 1], x) + Bit(u[|u| - 1].msg == x)
  {
    var last := [u[|u| - 1]];
    assert u == u[..|u| - 1] + last;
    CountConcat(u[..|u| - 1], last, x);
    assert Count(last, x) == Bit(last[0].msg == x) + Count(last[1..], x);
  }

  /** Swap-removal takes out one delivery and keeps every other. */
  lemma SwapRemoveTakesOne(u: seq<Delivery>, i: nat, x: Message)
    requires i < |u|
    ensures Count(u[i := u[|u| - 1]][..|u| - 1], x) + Bit(u[i].msg == x) == Count(u, x)
  {
    var w := u[i := u[|u| - 1]];
    CountUpdate(u, i, u[|u| - 1], x);
    CountLast(w, x);
  }

  /** Settling keeps or takes each delivery, never both. */
  lemma {:induction false} SettleSplits(u: seq<Delivery>, i: nat, tag: nat, multiple: bool, x: Message)
    ensures var r := Settle(u, i, tag, multiple);
            Count(r.kept, x) + Count(r.taken, x) == Count(u, x)
    decreases |u| - i
  {
    if i < |u| {
      if !TagMatches(u[i], tag, multiple) {
        SettleSplits(u, i + 1, tag, multiple, x);
      } else {
        SwapRemoveTakesOne(u, i, x);
        var left := u[i := u[|u| - 1]][..|u| - 1];
        if multiple {
          SettleSplits(left, i, tag, multiple, x);
          var rest := Settle(left, i, tag, multiple);
          assert ([u[i]] + rest.taken)[1..] == rest.taken;
        } else {
          assert [u[i]][1..] == [];
        }
      }
    }
  }

  ghost predicate DistinctTags(u: seq<Delivery>) {
    forall i, j :: 0 <= i < j < |u| ==> u[i].tag != u[j].tag
  }

  /** What swap-removal leaves: the same deliveries but one, still with distinct tags. */
  lemma SwapRemoveMembers(u: seq<Delivery>, i: nat)
    requires i < |u| && DistinctTags(u)
    ensures var left := u[i := u[|u| - 1]][..|u| - 1];
            DistinctTags(left) && forall d :: d in left <==> d in u && d != u[i]
  {
    var left := u[i := u[|u| - 1]][..|u| - 1];
    forall d ensures d in left <==> d in u && d != u[i] {
      if d in u && d != u[i] {
        var j :| 0 <= j < |u| && u[j] == d;
        assert d == left[if j == |u| - 1 then i else j];
      }
    }
  }

  /** Settling takes exactly the matching deliveries: those with the tag, or all at or below it. */
  lemma {:induction false} SettleExact(u: seq<Delivery>, i: nat, tag: nat, multiple: bool)
    requires DistinctTags(u) && forall j :: 0 <= j < i && j < |u| ==> !TagMatches(u[j], tag, multiple)
    ensures var r := Settle(u, i, tag, multiple);
            && DistinctTags(r.kept)
            && (forall d :: d in r.kept <==> d in u && !TagMatches(d, tag, multiple))
            && (forall d :: d in r.taken <==> d in u && TagMatches(d, tag, multiple))
    decreases |u| - i
  {
    if i < |u| {
      if !TagMatches(u[i], tag, multiple) {
        SettleExact(u, i + 1, tag, multiple);
      } else {
        SwapRemoveMembers(u, i);
        if multiple {
          var left := u[i := u[|u| - 1]][..|u| - 1];
          SettleExact(left, i, tag, multiple);
        }
      }
    }
  }

  function Msgs(ds: seq<Delivery>): (ms: seq<Message>)
    ensures |ms| == |ds| && forall i :: 0 <= i < |ds| ==> ms[i] == ds[i].msg
  {
    seq(|ds|, i requires 0 <= i < |ds| => ds[i].msg)
  }

  lemma {:induction false} CountIsMultiplicity(ds: seq<Delivery>, x: Message)
    ensures multiset(Msgs(ds))[x] == Count(ds, x)
  {
    if ds != [] {
      CountIsMultiplicity(ds[1..], x);
      assert Msgs(ds) == [ds[0].msg] + Msgs(ds[1..]);
    }
  }

  function RequeueAll(q: Queue, d: Defaults, ds: seq<Delivery>): (r: Queue)
    decreases |ds|
  {
    if ds == [] then q else RequeueAll(Requeue(q, d, ds[0].msg), d, ds[1..])
  }

  lemma {:induction false} RequeueAllReady(q: Queue, d: Defaults, ds: seq<Delivery>)
    ensures RequeueAll(q, d, ds).ready == q.ready + Msgs(ds)
    decreases |ds|
  {
    if ds == [] {
      assert q.ready + Msgs(ds) == q.ready;
    } else {
      RequeueAllReady(Requeue(q, d, ds[0].msg), d, ds[1..]);
      assert q.ready + Msgs(ds) == q.ready + [ds[0].msg] + Msgs(ds[1..]);
    }
  }

  /** One consumer gives up deliveries: back to its queue's tail, or done with. */
  function Release(s: State, k: nat, kept: seq<Delivery>, taken: seq<Delivery>, requeue: bool): (r: State)
    requires k in s.consumers && s.consumers[k].queue in s.queues && s.consumers[k].queue in s.settled
  {
    var c := s.consumers[k];
    var t := s.(consumers := s.consumers[k := c.(unacked := kept)]);
    if requeue then t.(queues := t.queues[c.queue := RequeueAll(t.queues[c.queue], t.defaults, taken)])
    else t.(settled := t.settled[c.queue := t.settled[c.queue] + multiset(Msgs(taken))])
  }

  /** Requeued deliveries return to the tail of their queue in order; others leave every queue as it is. */
  lemma ReleaseDestination(s: State, k: nat, kept: seq<Delivery>, taken: seq<Delivery>, requeue: bool, q: Id)
    requires Shaped(s) && k in s.consumers && q in s.queues
    ensures var r := Release(s, k, kept, taken, requeue);
            && q in r.queues && r.consumers[k].unacked == kept
            && r.queues[q].ready == (if requeue && q == s.consumers[k].queue then s.queues[q].ready + Msgs(taken)
                                     else s.queues[q].ready)
            && (requeue ==> r.settled == s.settled)
  {
    hide RequeueAll;
    RequeueAllReady(s.queues[q], s.defaults, taken);
  }

  /** No message of any queue is lost or doubled when deliveries are given up. */
  lemma ReleaseConserves(s: State, k: nat, kept: seq<Delivery>, taken: seq<Delivery>, requeue: bool, q: Id, x: Message)
    requires WF(s) && k in s.consumers && q in s.queues
    requires Count(kept, x) + Count(taken, x) == Count(s.consumers[k].unacked, x)
    ensures var r := Release(s, k, kept, taken, requeue);
            WF(r) && q in r.queues && Holdings(r, q, x) == Holdings(s, q, x)
  {
    hide Held, Count, RequeueAll, Holdings, Release;
    ReleaseWF(s, k, kept, taken, requeue);
    ReleaseCounts(s, k, kept, taken, requeue, q, x);
  }

  lemma ReleaseCounts(s: State, k: nat, kept: seq<Delivery>, taken: seq<Delivery>, requeue: bool, q: Id, x: Message)
    requires Shaped(s) && Distinct(s.order) && k in s.consumers && k in s.order && q in s.queues && q in s.settled
    requires Count(kept, x) + Count(taken, x) == Count(s.consumers[k].unacked, x)
    ensures var r := Release(s, k, kept, taken, requeue);
            Shaped(r) && q in r.queues && q in r.settled && Holdings(r, q, x) == Holdings(s, q, x)
  {
    hide Held, Count, RequeueAll, Distinct;
    var c := s.consumers[k];
    HeldUpdate(s.order, s.consumers, q, x, k, c.(unacked := kept));
    if q == c.queue {
      RequeueAllReady(s.queues[q], s.defaults, taken);
      CountIsMultiplicity(taken, x);
      assert multiset(s.queues[q].ready + Msgs(taken)) == multiset(s.queues[q].ready) + multiset(Msgs(taken));
    }
  }

  lemma ReleaseWF(s: State, k: nat, kept: seq<Delivery>, taken: seq<Delivery>, requeue: bool)
    requires WF(s) && k in s.consumers
    ensures WF(Release(s, k, kept, taken, requeue))
  {
    hide RequeueAll, Distinct;
    ReleaseTouchesOne(s, k, kept, taken, requeue);
    var r := Release(s, k, kept, taken, requeue);
    assert r.settled.Keys == s.settled.Keys && r.queues.Keys == s.queues.Keys;
    SameMembersWF(s, r);
  }

  /** Well-formedness is about who consumes what, not about what they hold. */
  lemma SameMembersWF(s: State, r: State)
    requires WF(s) && Shaped(r) && r.order == s.order && r.groups == s.groups
    requires r.settled.Keys == s.settled.Keys && r.queues.Keys == s.queues.Keys && r.consumers.Keys == s.consumers.Keys
    requires forall k :: k in s.consumers ==> r.consumers[k].queue == s.consumers[k].queue
    ensures WF(r)
  {
    hide Distinct;
    forall k | k in r.consumers ensures InGroup(r, k) {
      assert InGroup(s, k);
    }
  }

  // ---- settling across consumers ----

  predicate On(c: Consumer, conn: nat, channel: nat) {
    c.conn == conn && c.channel == channel
  }

  /** What a settle asks for. */
  datatype Ask = Ask(conn: nat, channel: nat, tag: nat, multiple: bool, requeue: bool)

  /** The loop over the consumers from position `i`; a single settle ends at the first consumer that had the tag. */
  function SettleFrom(s: State, i: nat, a: Ask): (r: (State, nat))
    requires Shaped(s)
    ensures Shaped(r.0) && r.0.order == s.order
    decreases |s.order| - i
  {
    if i >= |s.order| then (s, 0)
    else
      var k := s.order[i];
      var c := s.consumers[k];
      if !On(c, a.conn, a.channel) then SettleFrom(s, i + 1, a)
      else
        var sp := Settle(c.unacked, 0, a.tag, a.multiple);
        if sp.taken == [] then SettleFrom(s, i + 1, a)
        else
          var t := Release(s, k, sp.kept, sp.taken, a.requeue);
          if !a.multiple then (t, |sp.taken|)
          else
            var rest := SettleFrom(t, i + 1, a);
            (rest.0, rest.1 + |sp.taken|)
  }

  /** A settle neither loses nor doubles a message of any queue. */
  lemma {:induction false} SettleConserves(s: State, i: nat, a: Ask, q: Id, x: Message)
    requires WF(s) && q in s.queues
    ensures var r := SettleFrom(s, i, a).0;
            WF(r) && q in r.queues && Holdings(r, q, x) == Holdings(s, q, x)
    decreases |s.order| - i
  {
    if i < |s.order| {
      var k := s.order[i];
      var c := s.consumers[k];
      var sp := Settle(c.unacked, 0, a.tag, a.multiple);
      if !On(c, a.conn, a.channel) || sp.taken == [] {
        SettleConserves(s, i + 1, a, q, x);
      } else {
        SettleSplits(c.unacked, 0, a.tag, a.multiple, x);
        ReleaseConserves(s, k, sp.kept, sp.taken, a.requeue, q, x);
        hide Holdings, Settle;
        if a.multiple { SettleConserves(Release(s, k, sp.kept, sp.taken, a.requeue), i + 1, a, q, x); }
      }
    }
  }

  /** After a settle a consumer holds exactly: what it held, less the matching deliveries if it is on that connection
      and channel. */
  ghost predicate SettledExactly(c: Consumer, r: Consumer, a: Ask) {
    && r == c.(unacked := r.unacked) && DistinctTags(r.unacked)
    && forall d :: d in r.unacked <==> d in c.unacked && !(On(c, a.conn, a.channel) && TagMatches(d, a.tag, a.multiple))
  }

  lemma UntouchedIsExact(c: Consumer, a: Ask)
    requires DistinctTags(c.unacked)
    requires On(c, a.conn, a.channel) ==> forall d :: d in c.unacked ==> !TagMatches(d, a.tag, a.multiple)
    ensures SettledExactly(c, c, a)
  {
  }

  lemma SettledOnce(c: Consumer, a: Ask)
    requires DistinctTags(c.unacked) && On(c, a.conn, a.channel)
    ensures SettledExactly(c, c.(unacked := Settle(c.unacked, 0, a.tag, a.multiple).kept), a)
    ensures Settle(c.unacked, 0, a.tag, a.multiple).taken == [] ==> SettledExactly(c, c, a)
  {
    SettleExact(c.unacked, 0, a.tag, a.multiple);
    hide Settle;
    var sp := Settle(c.unacked, 0, a.tag, a.multiple);
    if sp.taken == [] {
      assert forall d :: d in c.unacked && TagMatches(d, a.tag, a.multiple) ==> d in sp.taken;
      UntouchedIsExact(c, a);
    }
  }

  lemma ReleaseTouchesOne(s: State, k: nat, kept: seq<Delivery>, taken: seq<Delivery>, requeue: bool)
    requires Shaped(s) && k in s.consumers
    ensures var r := Release(s, k, kept, taken, requeue);
            Shaped(r) && r.order == s.order && r.consumers == s.consumers[k := s.consumers[k].(unacked := kept)]
            && r.groups == s.groups && r.nextTag == s.nextTag
  {
    hide RequeueAll;
  }

  /** Members of the list from position `i` on are settled exactly; those before it, and all on other connections or
      channels, are untouched. */
  lemma {:induction false} SettleReaches(s: State, i: nat, a: Ask, p: nat)
    requires Shaped(s) && Distinct(s.order) && TagsOk(s) && p < |s.order|
    ensures var k, r := s.order[p], SettleFrom(s, i, a).0;
            && k in r.consumers
            && (p < i ==> r.consumers[k] == s.consumers[k])
            && (p >= i ==> SettledExactly(s.consumers[k], r.consumers[k], a))
    decreases |s.order| - i
  {
    hide Settle, Release, SettledExactly, TagsOk, Distinct;
    if i < |s.order| {
      var k, j := s.order[p], s.order[i];
      var c := s.consumers[j];
      assert DistinctTags(c.unacked) by { OwnTags(s, j); }
      var sp := Settle(c.unacked, 0, a.tag, a.multiple);
      if !On(c, a.conn, a.channel) {
        SettleReaches(s, i + 1, a, p);
        UntouchedIsExact(c, a);
      } else {
        SettledOnce(c, a);
        if sp.taken == [] {
          SettleReaches(s, i + 1, a, p);
        } else {
          StepReaches(s, i, a, p);
        }
      }
    }
  }

  lemma OwnTags(s: State, k: nat)
    requires TagsOk(s) && k in s.consumers
    ensures DistinctTags(s.consumers[k].unacked)
  {
  }

  lemma StepReaches(s: State, i: nat, a: Ask, p: nat)
    requires Shaped(s) && Distinct(s.order) && TagsOk(s) && p < |s.order| && i < |s.order|
    requires var c := s.consumers[s.order[i]];
             On(c, a.conn, a.channel) && Settle(c.unacked, 0, a.tag, a.multiple).taken != []
    ensures var k, r := s.order[p], SettleFrom(s, i, a).0;
            && k in r.consumers
            && (p < i ==> r.consumers[k] == s.consumers[k])
            && (p >= i ==> SettledExactly(s.consumers[k], r.consumers[k], a))
    decreases |s.order| - i, 0
  {
    hide Settle, Release, SettledExactly, TagsOk, Distinct;
    var k, j := s.order[p], s.order[i];
    var c := s.consumers[j];
    var sp := Settle(c.unacked, 0, a.tag, a.multiple);
    var t := Release(s, j, sp.kept, sp.taken, a.requeue);
    ReleaseTouchesOne(s, j, sp.kept, sp.taken, a.requeue);
    assert DistinctTags(c.unacked) by { OwnTags(s, j); }
    SettledOnce(c, a);
    SameWhenDistinct(s.order, p, i);
    if a.multiple {
      ReleaseKeepsTags(s, j, a, t);
      SettleReaches(t, i + 1, a, p);
    } else if p > i {
      OthersHaveNoMatch(s, j, k, a);
      OwnTags(s, k);
      UntouchedIsExact(s.consumers[k], a);
    }
  }

  lemma SameWhenDistinct(order: seq<nat>, p: nat, i: nat)
    requires Distinct(order) && p < |order| && i < |order|
    ensures order[p] == order[i] <==> p == i
  {}

  /** Fewer deliveries keep their tags distinct. */
  lemma FewerKeepsTags(s: State, t: State, j: nat)
    requires TagsOk(s) && j in s.consumers && t.nextTag == s.nextTag && t.consumers.Keys == s.consumers.Keys
    requires forall k :: k in s.consumers && k != j ==> t.consumers[k] == s.consumers[k]
    requires DistinctTags(t.consumers[j].unacked)
    requires forall d :: d in t.consumers[j].unacked ==> d in s.consumers[j].unacked
    ensures TagsOk(t)
  {
    hide DistinctTags;
    assert UpTo(s.consumers[j].unacked, s.nextTag);
    forall k | k in s.consumers && k != j
      ensures Apart(t.consumers[k].unacked, t.consumers[j].unacked)
              && Apart(t.consumers[j].unacked, t.consumers[k].unacked)
    {
      assert Apart(s.consumers[k].unacked, s.consumers[j].unacked)
             && Apart(s.consumers[j].unacked, s.consumers[k].unacked);
    }
    hide Apart, UpTo;
  }

  lemma ReleaseKeepsTags(s: State, j: nat, a: Ask, t: State)
    requires TagsOk(s) && j in s.consumers && t.nextTag == s.nextTag
    requires var c := s.consumers[j];
             t.consumers == s.consumers[j := c.(unacked := Settle(c.unacked, 0, a.tag, a.multiple).kept)]
    ensures TagsOk(t)
  {
    hide Settle, TagsOk, DistinctTags;
    OwnTags(s, j);
    SettleExact(s.consumers[j].unacked, 0, a.tag, a.multiple);
    FewerKeepsTags(s, t, j);
  }

  /** With tags given out once, the consumer that had the tag is the only one. */
  lemma OthersHaveNoMatch(s: State, j: nat, k: nat, a: Ask)
    requires TagsOk(s) && j in s.consumers && k in s.consumers && j != k && !a.multiple
    requires Settle(s.consumers[j].unacked, 0, a.tag, a.multiple).taken != []
    ensures forall d :: d in s.consumers[k].unacked ==> !TagMatches(d, a.tag, a.multiple)
  {
    hide Settle;
    SettleExact(s.consumers[j].unacked, 0, a.tag, a.multiple);
    var e := Settle(s.consumers[j].unacked, 0, a.tag, a.multiple).taken[0];
    assert e in s.consumers[j].unacked && e.tag == a.tag;
    assert Apart(s.consumers[j].unacked, s.consumers[k].unacked);
  }

  // ---- servicing ----

  /** What the connections allow during one turn: the consumers that cannot take a message, and whether the send
      works. */
  datatype Turn = Turn(blocked: set<nat>, sendOk: bool)

  datatype Choice = NoOne | Chosen(k: nat)

  /** Not blocked, and its prefetch window is open. */
  predicate Able(c: Consumer, k: nat, blocked: set<nat>) {
    k !in blocked && (c.noAck || c.prefetch == 0 || |c.unacked| < c.prefetch)
  }

  /** The scan for the next consumer that can take a message, advancing the cursor at every look. */
  function Pick(g: Group, consumers: map<nat, Consumer>, blocked: set<nat>, tries: nat): (r: (Group, Choice))
    requires forall i :: 0 <= i < |g.arr| ==> g.arr[i] in consumers
    ensures r.0.arr == g.arr && (r.1.Chosen? ==> r.1.k in g.arr && Able(consumers[r.1.k], r.1.k, blocked))
    decreases |g.arr| - tries
  {
    if tries >= |g.arr| then (g, NoOne)
    else
      var k := g.arr[g.rr % |g.arr|];
      var next := g.(rr := g.rr + 1);
      if Able(consumers[k], k, blocked) then (next, Chosen(k)) else Pick(next, consumers, blocked, tries + 1)
  }

  predicate Serviceable(s: State, q: Id) {
    && q in s.queues && q in s.settled && q in s.groups
    && forall i :: 0 <= i < |s.groups[q].arr| ==> s.groups[q].arr[i] in s.consumers
  }

  /** A message was sent: it waits for its settlement, or is done with at once. */
  function Accept(s: State, q: Id, k: nat, m: Message): (r: State)
    requires Serviceable(s, q) && k in s.consumers
    ensures Serviceable(r, q)
  {
    var c := s.consumers[k];
    if c.noAck then s.(settled := s.settled[q := s.settled[q] + multiset{m}])
    else s.(consumers := s.consumers[k := c.(unacked := c.unacked + [Delivery(s.nextTag, m)])])
  }

  /** The queue's front message leaves it and gets the next delivery tag. */
  function TakeOut(s: State, q: Id): (r: State)
    requires Serviceable(s, q)
    ensures Serviceable(r, q)
  {
    s.(queues := s.queues[q := Dequeue(s.queues[q], s.defaults).0], nextTag := s.nextTag + 1)
  }

  function PutBack(s: State, q: Id, m: Message): (r: State)
    requires q in s.queues
  {
    s.(queues := s.queues[q := Requeue(s.queues[q], s.defaults, m)])
  }

  function SetGroup(s: State, q: Id, g: Group): (r: State)
    requires Serviceable(s, q) && g.arr == s.groups[q].arr
    ensures Serviceable(r, q)
  {
    s.(groups := s.groups[q := g])
  }

  /** One servicing pass: deliver round-robin until the queue is empty, nobody can take more, or a send fails. */
  function Service(s: State, q: Id, env: nat -> Turn, i: nat): (r: State)
    requires Serviceable(s, q)
    decreases |s.queues[q].ready|
  {
    var p := Pick(s.groups[q], s.consumers, env(i).blocked, 0);
    var t := SetGroup(s, q, p.0);
    if p.1.NoOne? || s.queues[q].ready == [] then t
    else
      var m := s.queues[q].ready[0];
      var u := TakeOut(t, q);
      if !env(i).sendOk then PutBack(u, q, m) else Service(Accept(u, q, p.1.k, m), q, env, i + 1)
  }

  lemma SetGroupConserves(s: State, q: Id, g: Group, p: Id, x: Message)
    requires WF(s) && p in s.queues && Serviceable(s, q) && g.arr == s.groups[q].arr
    ensures var r := SetGroup(s, q, g);
            WF(r) && Holdings(r, p, x) == Holdings(s, p, x)
  {
  }

  /** Putting back or handing over what was taken from the front accounts for it again. */
  lemma PutBackConserves(s: State, q: Id, p: Id, x: Message)
    requires WF(s) && p in s.queues && Serviceable(s, q) && s.queues[q].ready != []
    ensures var r := PutBack(TakeOut(s, q), q, s.queues[q].ready[0]);
            WF(r) && p in r.queues && Holdings(r, p, x) == Holdings(s, p, x)
  {
    var ready := s.queues[q].ready;
    assert ready == [ready[0]] + ready[1..];
    assert multiset(ready[1..] + [ready[0]]) == multiset(ready);
  }

  lemma HandOverConserves(s: State, q: Id, k: nat, p: Id, x: Message)
    requires WF(s) && p in s.queues && Serviceable(s, q) && s.queues[q].ready != []
    requires k in s.consumers && s.consumers[k].queue == q
    ensures var r := Accept(TakeOut(s, q), q, k, s.queues[q].ready[0]);
            WF(r) && p in r.queues && q in r.groups && Holdings(r, p, x) == Holdings(s, p, x)
  {
    hide Holdings, Dequeue;
    HandOverCounts(s, q, k, p, x);
  }

  lemma HandOverCounts(s: State, q: Id, k: nat, p: Id, x: Message)
    requires Shaped(s) && Distinct(s.order) && p in s.queues && p in s.settled && Serviceable(s, q)
    requires s.queues[q].ready != [] && k in s.consumers && k in s.order && s.consumers[k].queue == q
    ensures var r := Accept(TakeOut(s, q), q, k, s.queues[q].ready[0]);
            Shaped(r) && p in r.queues && p in r.settled && Holdings(r, p, x) == Holdings(s, p, x)
  {
    hide Held, Count, Distinct;
    var ready, c := s.queues[q].ready, s.consumers[k];
    var m := ready[0];
    assert ready == [m] + ready[1..];
    assert multiset(ready) == multiset{m} + multiset(ready[1..]);
    var d := [Delivery(s.nextTag + 1, m)];
    CountConcat(c.unacked, d, x);
    SingleCount(d, x);
    HeldUpdate(s.order, s.consumers, p, x, k, c.(unacked := c.unacked + d));
  }

  lemma SingleCount(d: seq<Delivery>, x: Message)
    requires |d| == 1
    ensures Count(d, x) == Bit(d[0].msg == x)
  {
    assert d[1..] == [];
  }

  /** A servicing pass, with sends that work or fail, accounts for every message of every queue. */
  lemma {:induction false} ServiceConserves(s: State, q: Id, env: nat -> Turn, i: nat, p: Id, x: Message)
    requires WF(s) && q in s.groups && p in s.queues && Serviceable(s, q)
    ensures var r := Service(s, q, env, i);
            WF(r) && p in r.queues && Holdings(r, p, x) == Holdings(s, p, x)
    decreases |s.queues[q].ready|
  {
    hide WF, Holdings, Pick, Accept;
    var pk := Pick(s.groups[q], s.consumers, env(i).blocked, 0);
    var t := SetGroup(s, q, pk.0);
    SetGroupConserves(s, q, pk.0, p, x);
    if !pk.1.NoOne? && s.queues[q].ready != [] {
      var m := s.queues[q].ready[0];
      if !env(i).sendOk {
        PutBackConserves(t, q, p, x);
      } else {
        ChosenIsOfQueue(s, q, pk.1.k);
        HandOverConserves(t, q, pk.1.k, p, x);
        AcceptKeepsQueues(TakeOut(t, q), q, pk.1.k, m);
        ServiceConserves(Accept(TakeOut(t, q), q, pk.1.k, m), q, env, i + 1, p, x);
      }
    }
  }

  lemma AcceptKeepsQueues(s: State, q: Id, k: nat, m: Message)
    requires Serviceable(s, q) && k in s.consumers
    ensures Accept(s, q, k, m).queues == s.queues && Accept(s, q, k, m).groups == s.groups
  {
  }

  lemma ChosenIsOfQueue(s: State, q: Id, k: nat)
    requires WF(s) && q in s.groups && k in s.groups[q].arr
    ensures k in s.consumers && s.consumers[k].queue == q
  {
    var i :| 0 <= i < |s.groups[q].arr| && s.groups[q].arr[i] == k;
  }

  /** No pass takes a manual-ack consumer with a prefetch limit beyond that limit, or beyond where it already was. */
  lemma {:induction false} WindowKept(s: State, q: Id, env: nat -> Turn, i: nat, k: nat)
    requires Serviceable(s, q) && k in s.consumers && !s.consumers[k].noAck && s.consumers[k].prefetch > 0
    ensures var r := Service(s, q, env, i);
            && k in r.consumers && r.consumers[k].prefetch == s.consumers[k].prefetch
            && (|r.consumers[k].unacked| <= |s.consumers[k].unacked|
                || |r.consumers[k].unacked| <= s.consumers[k].prefetch)
    decreases |s.queues[q].ready|
  {
    hide Pick;
    var pk := Pick(s.groups[q], s.consumers, env(i).blocked, 0);
    if !pk.1.NoOne? && s.queues[q].ready != [] && env(i).sendOk {
      var u := TakeOut(SetGroup(s, q, pk.0), q);
      WindowKept(Accept(u, q, pk.1.k, s.queues[q].ready[0]), q, env, i + 1, k);
    }
  }
}
