/** Queues as values: what each queue operation does to the messages, counters and congestion state. */
module Queues {
  import opened Bytes

  /** `clusterId` is the replicated log index of the publish, 0 when it was not replicated. */
  datatype Message = Message(exchange: string, key: string, body: seq<Byte>, props: seq<Byte>, clusterId: nat, hops: nat)

  datatype DeadLetter = NoTarget | Target(exchange: string, key: string)

  /** A limit of 0 means that the broker-wide default applies, and a default of 0 means no limit. */
  datatype Policy = Policy(maxLength: nat, maxBytes: nat, dropHead: bool, deadLetter: DeadLetter)

  datatype Defaults = Defaults(maxLength: nat, maxBytes: nat)

  datatype Queue = Queue(policy: Policy, ready: seq<Message>, congested: bool,
                         enqueued: nat, dequeued: nat, dropped: nat, rejected: nat)

  function Size(ms: seq<Message>): (n: nat) {
    if ms == [] then 0 else |ms[0].body| + Size(ms[1..])
  }

  lemma {:induction false} SizeConcat(a: seq<Message>, b: seq<Message>)
    ensures Size(a + b) == Size(a) + Size(b)
  {
    if a == [] {
      assert a + b == b;
    } else {
      SizeConcat(a[1..], b);
      assert (a + b)[1..] == a[1..] + b;
    }
  }

  // ---- limits ----

  function Limit(own: nat, dflt: nat): (l: nat) {
    if own != 0 then own else dflt
  }

  /** Whether one more message of `len` bytes would exceed a limit. */
  predicate Overflows(p: Policy, d: Defaults, count: nat, bytes: nat, len: nat) {
    var maxLen, maxBytes := Limit(p.maxLength, d.maxLength), Limit(p.maxBytes, d.maxBytes);
    (maxLen != 0 && count + 1 > maxLen) || (maxBytes != 0 && bytes + len > maxBytes)
  }

  /** Whether the newcomer is let in behind these messages: it fits, or it would be alone. */
  predicate Admits(p: Policy, d: Defaults, rest: seq<Message>, len: nat) {
    rest == [] || !Overflows(p, d, |rest|, Size(rest), len)
  }

  /** How many messages drop-head evicts from the front to let the newcomer in. */
  function Evictions(p: Policy, d: Defaults, ready: seq<Message>, len: nat): (k: nat)
    ensures k <= |ready|
  {
    if Admits(p, d, ready, len) then 0 else 1 + Evictions(p, d, ready[1..], len)
  }

  /** Drop-head keeps the longest suffix that lets the newcomer in. */
  lemma {:induction false} KeepsLongestSuffix(p: Policy, d: Defaults, ready: seq<Message>, len: nat)
    ensures var k := Evictions(p, d, ready, len);
            && Admits(p, d, ready[k..], len)
            && forall j :: 0 <= j < k ==> !Admits(p, d, ready[j..], len)
  {
    if !Admits(p, d, ready, len) {
      KeepsLongestSuffix(p, d, ready[1..], len);
      var k := Evictions(p, d, ready, len);
      assert ready[1..][k - 1..] == ready[k..];
      forall j | 0 <= j < k ensures !Admits(p, d, ready[j..], len) {
        if j == 0 {
          assert ready[0..] == ready;
        } else {
          assert ready[1..][j - 1..] == ready[j..];
        }
      }
    }
  }

  /** Inside its limits, counting the message that drop-head admits alone although it is too large. */
  ghost predicate WithinLimits(q: Queue, d: Defaults) {
    var maxLen, maxBytes := Limit(q.policy.maxLength, d.maxLength), Limit(q.policy.maxBytes, d.maxBytes);
    && (maxLen != 0 ==> |q.ready| <= maxLen)
    && (maxBytes != 0 ==> Size(q.ready) <= maxBytes || |q.ready| == 1)
  }

  // ---- congestion ----

  predicate OverHigh(p: Policy, d: Defaults, count: nat, bytes: nat) {
    var maxLen, maxBytes := Limit(p.maxLength, d.maxLength), Limit(p.maxBytes, d.maxBytes);
    (maxLen != 0 && count >= maxLen - maxLen / 10) || (maxBytes != 0 && bytes >= maxBytes - maxBytes / 10)
  }

  predicate UnderLow(p: Policy, d: Defaults, count: nat, bytes: nat) {
    var maxLen, maxBytes := Limit(p.maxLength, d.maxLength), Limit(p.maxBytes, d.maxBytes);
    (maxLen == 0 || count <= maxLen - maxLen / 4) && (maxBytes == 0 || bytes <= maxBytes - maxBytes / 4)
  }

  /** The congestion state after a change of depth: raised at the high mark, cleared only at the low mark. */
  predicate Congests(was: bool, p: Policy, d: Defaults, count: nat, bytes: nat) {
    if was then !UnderLow(p, d, count, bytes) else OverHigh(p, d, count, bytes)
  }

  function Congest(q: Queue, d: Defaults): (r: Queue) {
    q.(congested := Congests(q.congested, q.policy, d, |q.ready|, Size(q.ready)))
  }

  function Bit(b: bool): (n: nat) {
    if b then 1 else 0
  }

  /** The marks of a limit are apart, so that an unchanged depth cannot flip the state back and forth,
      exactly when no limit in force is 1, 2 or 3. */
  lemma HysteresisIff(p: Policy, d: Defaults)
    ensures (forall count, bytes :: !(OverHigh(p, d, count, bytes) && UnderLow(p, d, count, bytes))) <==>
            (Limit(p.maxLength, d.maxLength) !in {1, 2, 3} && Limit(p.maxBytes, d.maxBytes) !in {1, 2, 3})
  {
    var maxLen, maxBytes := Limit(p.maxLength, d.maxLength), Limit(p.maxBytes, d.maxBytes);
    if maxLen in {1, 2, 3} {
      assert OverHigh(p, d, maxLen, 0) && UnderLow(p, d, maxLen, 0);
    } else if maxBytes in {1, 2, 3} {
      assert OverHigh(p, d, 0, maxBytes) && UnderLow(p, d, 0, maxBytes);
    }
  }

  /** The marks in percent: congested from 90% of a limit up, clear again below one message or byte over 75% of it. */
  lemma MarksInPercent(p: Policy, d: Defaults, count: nat, bytes: nat)
    ensures var maxLen, maxBytes := Limit(p.maxLength, d.maxLength), Limit(p.maxBytes, d.maxBytes);
            && (OverHigh(p, d, count, bytes) <==>
                (maxLen != 0 && 10 * count >= 9 * maxLen) || (maxBytes != 0 && 10 * bytes >= 9 * maxBytes))
            && (UnderLow(p, d, count, bytes) <==>
                (maxLen == 0 || 4 * count < 3 * maxLen + 4) && (maxBytes == 0 || 4 * bytes < 3 * maxBytes + 4))
  {
  }

  /** A queue limited to one message flips at every evaluation while it holds that message. */
  lemma SmallLimitFlaps()
    ensures var q := Queue(Policy(1, 0, false, NoTarget), [Message("", "", [], [], 0, 0)], false, 1, 0, 0, 0);
            var d := Defaults(0, 0);
            Congest(q, d).congested && !Congest(Congest(q, d), d).congested
  {
  }

  /** A queue becomes congested at 90% of a limit in force and stays so until every limit in force is at 75% or below. */
  lemma CongestDecides(q: Queue, d: Defaults)
    ensures var p, n, size := q.policy, |q.ready|, Size(q.ready);
            var maxLen := if p.maxLength > 0 then p.maxLength else d.maxLength;
            var maxBytes := if p.maxBytes > 0 then p.maxBytes else d.maxBytes;
            && Congest(q, d) == q.(congested := Congest(q, d).congested)
            && (!q.congested ==> (Congest(q, d).congested <==>
                  (maxLen > 0 && 10 * n >= 9 * maxLen) || (maxBytes > 0 && 10 * size >= 9 * maxBytes)))
            && (q.congested ==> (!Congest(q, d).congested <==>
                  (maxLen > 0 ==> 4 * n < 3 * maxLen + 4) && (maxBytes > 0 ==> 4 * size < 3 * maxBytes + 4)))
  {
    MarksInPercent(q.policy, d, |q.ready|, Size(q.ready));
    hide OverHigh, UnderLow;
  }

  // ---- operations ----

  /** What an enqueue yields: the queue, the messages drop-head evicted, and whether the publish was refused. */
  datatype Enqueued = Enqueued(queue: Queue, evicted: seq<Message>, full: bool)

  function Push(q: Queue, d: Defaults, m: Message): (r: Queue) {
    Congest(q.(ready := q.ready + [m], enqueued := q.enqueued + 1), d)
  }

  function Enqueue(q: Queue, d: Defaults, m: Message): (r: Enqueued) {
    if !Overflows(q.policy, d, |q.ready|, Size(q.ready), |m.body|) then Enqueued(Push(q, d, m), [], false)
    else if !q.policy.dropHead then Enqueued(q.(rejected := q.rejected + 1), [], true)
    else
      var k := Evictions(q.policy, d, q.ready, |m.body|);
      Enqueued(Push(q.(ready := q.ready[k..], dropped := q.dropped + k), d, m), q.ready[..k], false)
  }

  /** A message coming back is never refused. */
  function Requeue(q: Queue, d: Defaults, m: Message): (r: Queue) {
    Push(q, d, m)
  }

  datatype Taken = Nothing | Taken(msg: Message)

  function Dequeue(q: Queue, d: Defaults): (r: (Queue, Taken)) {
    if q.ready == [] then (q, Nothing)
    else (Congest(q.(ready := q.ready[1..], dequeued := q.dequeued + 1), d), Taken(q.ready[0]))
  }

  /** How many messages at the front a replicated watermark covers. */
  function Drained(ready: seq<Message>, watermark: nat): (k: nat)
    ensures k <= |ready|
    ensures forall i :: 0 <= i < k ==> 0 < ready[i].clusterId <= watermark
    ensures k < |ready| ==> ready[k].clusterId == 0 || ready[k].clusterId > watermark
  {
    if ready == [] || ready[0].clusterId == 0 || ready[0].clusterId > watermark then 0
    else 1 + Drained(ready[1..], watermark)
  }

  function Drain(q: Queue, d: Defaults, watermark: nat): (r: Queue) {
    var k := Drained(q.ready, watermark);
    if k == 0 then q else Congest(q.(ready := q.ready[k..], dequeued := q.dequeued + k), d)
  }

  function Purge(q: Queue, d: Defaults): (r: Queue) {
    Congest(q.(ready := [], dequeued := q.dequeued + |q.ready|), d)
  }

  // ---- what the operations keep ----

  /** Every message that entered has left, was evicted, or is still there. */
  ghost predicate Conserves(q: Queue) {
    q.enqueued == q.dequeued + q.dropped + |q.ready|
  }

  /** Only the front may lose messages and only the back may gain them. */
  ghost predicate Flows(q: Queue, r: Queue, added: seq<Message>) {
    && q.policy == r.policy && q.dropped <= r.dropped && q.dequeued <= r.dequeued
    && q.rejected <= r.rejected && r.enqueued == q.enqueued + |added|
    && var gone := (r.dropped - q.dropped) + (r.dequeued - q.dequeued);
       gone <= |q.ready + added| && r.ready == (q.ready + added)[gone..]
  }

  lemma FlowsTrans(a: Queue, b: Queue, c: Queue, x: seq<Message>, y: seq<Message>)
    requires Flows(a, b, x) && Flows(b, c, y)
    ensures Flows(a, c, x + y)
  {
    var g := (b.dropped - a.dropped) + (b.dequeued - a.dequeued);
    var h := (c.dropped - b.dropped) + (c.dequeued - b.dequeued);
    assert a.ready + (x + y) == (a.ready + x) + y;
    assert b.ready + y == (a.ready + (x + y))[g..];
    assert c.ready == (a.ready + (x + y))[g + h..];
  }

  lemma FlowsConserves(q: Queue, r: Queue, added: seq<Message>)
    requires Flows(q, r, added)
    ensures Conserves(q) <==> Conserves(r)
  {
  }

  /** Pushing behind what is left after `k` evictions. */
  lemma EvictThenPushFlows(q: Queue, d: Defaults, m: Message, k: nat)
    requires k <= |q.ready|
    ensures var r := Push(q.(ready := q.ready[k..], dropped := q.dropped + k), d, m);
            Flows(q, r, [m]) && r.ready == q.ready[k..] + [m] && r.dropped == q.dropped + k
            && r.dequeued == q.dequeued && r.rejected == q.rejected
  {
    assert q.ready[k..] + [m] == (q.ready + [m])[k..];
  }

  lemma RefuseFlows(q: Queue)
    ensures Flows(q, q.(rejected := q.rejected + 1), [])
  {
    assert q.ready + [] == q.ready && q.ready[0..] == q.ready;
  }

  lemma PushWithinLimits(q: Queue, d: Defaults, m: Message)
    requires Admits(q.policy, d, q.ready, |m.body|)
    requires Limit(q.policy.maxLength, d.maxLength) != 0 ==> |q.ready| <= Limit(q.policy.maxLength, d.maxLength)
    ensures WithinLimits(Push(q, d, m), d)
  {
    SizeConcat(q.ready, [m]);
    assert Size([m]) == |m.body|;
  }

  /** What an enqueue promises: the message is admitted at the back unless it is refused, and the evicted
      messages are a prefix, reported in order. */
  ghost predicate EnqueuePromise(q: Queue, m: Message, e: Enqueued) {
    && e.queue.dequeued == q.dequeued && e.queue.dropped == q.dropped + |e.evicted| && e.evicted <= q.ready
    && if e.full then e.queue == q.(rejected := q.rejected + 1) && e.evicted == [] && Flows(q, e.queue, [])
       else e.queue.rejected == q.rejected && e.queue.ready == q.ready[|e.evicted|..] + [m] && Flows(q, e.queue, [m])
  }

  lemma EnqueueFlows(q: Queue, d: Defaults, m: Message)
    ensures EnqueuePromise(q, m, Enqueue(q, d, m))
  {
    var e := Enqueue(q, d, m);
    var k := |e.evicted|;
    if e.full {
      assert e == Enqueued(q.(rejected := q.rejected + 1), [], true);
    } else {
      assert q == q.(ready := q.ready[0..], dropped := q.dropped + 0);
      assert e == Enqueued(Push(q.(ready := q.ready[k..], dropped := q.dropped + k), d, m), q.ready[..k], false);
    }
    hide *;
    if e.full {
      RefuseFlows(q);
    } else {
      EvictThenPushFlows(q, d, m, k);
    }
    assert EnqueuePromise(q, m, e) by { AsPromised(q, m, e); }
  }

  /** A publish is refused exactly when it would overflow a queue that does not drop from the head; otherwise what
      drop-head leaves is the longest part of the old content that lets the newcomer in. */
  lemma EnqueueDecides(q: Queue, d: Defaults, m: Message)
    ensures var e := Enqueue(q, d, m);
            && (e.full <==> Overflows(q.policy, d, |q.ready|, Size(q.ready), |m.body|) && !q.policy.dropHead)
            && (!e.full ==>
                  && |e.evicted| <= |q.ready| && Admits(q.policy, d, q.ready[|e.evicted|..], |m.body|)
                  && forall j :: 0 <= j < |e.evicted| ==> !Admits(q.policy, d, q.ready[j..], |m.body|))
  {
    KeepsLongestSuffix(q.policy, d, q.ready, |m.body|);
    hide Evictions, Size, Overflows;
    assert q.ready[0..] == q.ready;
  }

  /** A queue's own limit is in force if it has one, else the default if there is one. For every queue, in its limits or
      not: a publish is refused exactly when the queue does not drop from the head and the limit in force on messages or
      bytes leaves no room; once admitted, the queue is within the limits in force,
          but for a lone message over the bytes. */
  lemma LimitsInForce(q: Queue, d: Defaults, m: Message)
    ensures var e, p, n := Enqueue(q, d, m), q.policy, |q.ready|;
            && (e.full <==>
                  && !p.dropHead
                  && (|| (p.maxLength > 0 && n >= p.maxLength) || (p.maxLength == 0 && d.maxLength > 0
                  && n >= d.maxLength)
                      || (p.maxBytes > 0 && Size(q.ready) + |m.body| > p.maxBytes)
                      || (p.maxBytes == 0 && d.maxBytes > 0 && Size(q.ready) + |m.body| > d.maxBytes)))
            && (!e.full && p.maxLength > 0 ==> |e.queue.ready| <= p.maxLength)
            && (!e.full && p.maxLength == 0 && d.maxLength > 0 ==> |e.queue.ready| <= d.maxLength)
            && (!e.full && p.maxBytes > 0 ==> Size(e.queue.ready) <= p.maxBytes || |e.queue.ready| == 1)
            && (!e.full && p.maxBytes == 0 && d.maxBytes > 0 ==>
                  Size(e.queue.ready) <= d.maxBytes || |e.queue.ready| == 1)
  {
    EnqueueDecides(q, d, m);
    EnqueueFlows(q, d, m);
    var e := Enqueue(q, d, m);
    hide Enqueue, Flows;
    if !e.full {
      var rest := q.ready[|e.evicted|..];
      SizeConcat(rest, [m]);
      assert Size([m]) == |m.body|;
    }
  }

  lemma AsPromised(q: Queue, m: Message, e: Enqueued)
    requires e.full ==> e == Enqueued(q.(rejected := q.rejected + 1), [], true) && Flows(q, e.queue, [])
    requires !e.full ==>
               && |e.evicted| <= |q.ready| && e.evicted == q.ready[..|e.evicted|] && Flows(q, e.queue, [m])
               && e.queue.ready == q.ready[|e.evicted|..] + [m] && e.queue.dropped == q.dropped + |e.evicted|
               && e.queue.dequeued == q.dequeued && e.queue.rejected == q.rejected
    ensures EnqueuePromise(q, m, e)
  {
    hide Flows;
  }

  /** No enqueue takes a queue out of its limits. */
  lemma EnqueueWithinLimits(q: Queue, d: Defaults, m: Message)
    requires WithinLimits(q, d)
    ensures WithinLimits(Enqueue(q, d, m).queue, d)
  {
    if !Overflows(q.policy, d, |q.ready|, Size(q.ready), |m.body|) {
      PushWithinLimits(q, d, m);
    } else if q.policy.dropHead {
      var k := Evictions(q.policy, d, q.ready, |m.body|);
      KeepsLongestSuffix(q.policy, d, q.ready, |m.body|);
      hide Push, Evictions, Congests, Size;
      PushWithinLimits(q.(ready := q.ready[k..], dropped := q.dropped + k), d, m);
    }
  }

  /** The other operations: a requeue adds at the back, the rest take from the front and add nothing. */
  lemma RequeueFlows(q: Queue, d: Defaults, m: Message)
    ensures Flows(q, Requeue(q, d, m), [m])
  {
    assert (q.ready + [m])[0..] == q.ready + [m];
  }

  function TakeFront(q: Queue, k: nat): (r: Queue)
    requires k <= |q.ready|
  {
    q.(ready := q.ready[k..], dequeued := q.dequeued + k)
  }

  lemma TakeFlows(q: Queue, d: Defaults, k: nat)
    requires k <= |q.ready|
    ensures Flows(q, Congest(TakeFront(q, k), d), [])
  {
    assert q.ready + [] == q.ready;
  }

  lemma StaysFlows(q: Queue)
    ensures Flows(q, q, [])
  {
    assert q.ready + [] == q.ready && q.ready[0..] == q.ready;
  }

  /** A dequeue hands out the message at the front, and only that. */
  lemma DequeueFlows(q: Queue, d: Defaults)
    ensures Flows(q, Dequeue(q, d).0, [])
    ensures Dequeue(q, d).1.Nothing? ==> q.ready == [] && Dequeue(q, d).0 == q
    ensures Dequeue(q, d).1.Taken? ==> q.ready == [Dequeue(q, d).1.msg] + Dequeue(q, d).0.ready
  {
    assert q.ready != [] ==> q.ready == [q.ready[0]] + q.ready[1..];
    StaysFlows(q);
    if q.ready != [] { TakeFlows(q, d, 1); }
    assert Dequeue(q, d).0 == if q.ready == [] then q else Congest(TakeFront(q, 1), d);
    hide *;
  }

  lemma DrainFlows(q: Queue, d: Defaults, watermark: nat)
    ensures Flows(q, Drain(q, d, watermark), [])
  {
    var k := Drained(q.ready, watermark);
    StaysFlows(q);
    TakeFlows(q, d, k);
    assert Drain(q, d, watermark) == if k == 0 then q else Congest(TakeFront(q, k), d);
    hide *;
  }

  lemma PurgeFlows(q: Queue, d: Defaults)
    ensures Flows(q, Purge(q, d), []) && Purge(q, d).ready == []
  {
    TakeFlows(q, d, |q.ready|);
    assert Purge(q, d) == Congest(TakeFront(q, |q.ready|), d);
    hide *;
  }
}
