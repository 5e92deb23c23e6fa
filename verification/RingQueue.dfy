/** The growable ring buffer behind a queue, proved to behave as the queue value. */
module RingQueue {
  import opened Queues

  /** The broker-wide number of congested queues. */
  class FlowAlarm {
    var raised: int
    constructor ()
      ensures raised == 0
    {
      raised := 0;
    }
  }

  datatype Slot = Free | Held(msg: Message)

  const INITIAL_CAP: nat := 16

  /** The ring position `i` places after `head`. */
  function Pos(head: nat, i: nat, cap: nat): (p: nat)
    requires head < cap && i <= cap
    ensures p < cap && p == if head + i < cap then head + i else head + i - cap
  {
    if head + i >= cap then WrapOnce(head + i - cap, cap); (head + i) % cap else (head + i) % cap
  }

  lemma WrapOnce(r: nat, cap: nat)
    requires r < cap
    ensures (r + cap) % cap == r
  {
    assert r + cap == 1 * cap + r;
  }

  class BeaverQueue {
    const alarm: FlowAlarm
    const defaults: Defaults
    var policy: Policy
    var slots: array<Slot>
    var head: nat
    var tail: nat
    var count: nat
    var totalBytes: nat
    var congested: bool
    var enqueued: nat
    var dequeued: nat
    var dropped: nat
    var rejected: nat
    ghost var ready: seq<Message>

    /** The live slots, from the head on, hold the ready messages in order, and the byte total is theirs. */
    ghost predicate Valid() reads this, slots {
      && head < slots.Length && count <= slots.Length && tail == Pos(head, count, slots.Length)
      && |ready| == count && totalBytes == Size(ready)
      && forall i :: 0 <= i < count ==> slots[Pos(head, i, slots.Length)] == Held(ready[i])
    }

    ghost function Value(): (q: Queue) reads this {
      Queue(policy, ready, congested, enqueued, dequeued, dropped, rejected)
    }

    constructor (a: FlowAlarm, d: Defaults, p: Policy)
      ensures Valid() && fresh(slots) && alarm == a && defaults == d
      ensures Value() == Queue(p, [], false, 0, 0, 0, 0)
    {
      alarm, defaults, policy := a, d, p;
      slots := new Slot[INITIAL_CAP](_ => Free);
      head, tail, count, totalBytes, congested := 0, 0, 0, 0, false;
      enqueued, dequeued, dropped, rejected, ready := 0, 0, 0, 0, [];
    }

    /** Doubles the ring, laying the live messages out from index 0. */
    method Grow()
      requires Valid()
      modifies this`slots, this`head, this`tail
      ensures Valid() && fresh(slots) && slots.Length == 2 * old(slots.Length) && ready == old(ready)
      ensures Value() == old(Value())
    {
      var ns := new Slot[2 * slots.Length](_ => Free);
      var i := 0;
      while i < count
        invariant 0 <= i <= count && slots == old(slots) && head == old(head) && tail == old(tail) && Valid()
        invariant forall j :: 0 <= j < i ==> ns[j] == Held(ready[j])
      {
        ns[i] := slots[Pos(head, i, slots.Length)];
        i := i + 1;
      }
      slots, head, tail := ns, 0, count;
    }

    /** Raises or clears this queue's contribution to the alarm. */
    method UpdateCongestion()
      requires Valid()
      modifies this`congested, alarm
      ensures Valid() && Value() == Congest(old(Value()), defaults)
      ensures alarm.raised == old(alarm.raised) + Bit(congested) - Bit(old(congested))
    {
      if !congested && OverHigh(policy, defaults, count, totalBytes) {
        congested := true;
        alarm.raised := alarm.raised + 1;
      } else if congested && UnderLow(policy, defaults, count, totalBytes) {
        congested := false;
        alarm.raised := alarm.raised - 1;
      }
    }

    /** Stores a message at the tail of a ring with room. */
    method Store(m: Message)
      requires Valid() && count < slots.Length
      modifies this`tail, this`count, this`totalBytes, this`ready, slots
      ensures Valid() && ready == old(ready) + [m]
    {
      SizeConcat(ready, [m]);
      assert Size([m]) == |m.body|;
      hide Size;
      slots[tail] := Held(m);
      tail := Pos(tail, 1, slots.Length);
      count := count + 1;
      totalBytes := totalBytes + |m.body|;
      ready := ready + [m];
    }

    /** Puts a message behind the tail, growing a full ring first. */
    method Append(m: Message)
      requires Valid()
      modifies this`slots, this`head, this`tail, this`count, this`totalBytes, this`ready, this`enqueued, slots
      ensures Valid() && (slots == old(slots) || fresh(slots))
      ensures ready == old(ready) + [m] && enqueued == old(enqueued) + 1
    {
      if count == slots.Length { Grow(); }
      Store(m);
      enqueued := enqueued + 1;
    }

    /** Takes the message at the head; the caller accounts for it. */
    method TakeHead() returns (m: Message)
      requires Valid() && count > 0
      modifies this`head, this`count, this`totalBytes, this`ready, slots
      ensures Valid() && m == old(ready)[0] && ready == old(ready)[1..]
    {
      m := slots[head].msg;
      slots[head] := Free;
      head := Pos(head, 1, slots.Length);
      count := count - 1;
      totalBytes := totalBytes - |m.body|;
      ready := ready[1..];
    }

    /** Evicts from the head until the newcomer fits or the queue is empty. */
    method EvictFor(len: nat) returns (evicted: seq<Message>)
      requires Valid()
      modifies this`head, this`count, this`totalBytes, this`ready, this`dropped, slots
      ensures Valid()
      ensures var k := Evictions(policy, defaults, old(ready), len);
              evicted == old(ready)[..k] && ready == old(ready)[k..] && dropped == old(dropped) + k
    {
      evicted := [];
      ghost var n := 0;
      while count > 0 && Overflows(policy, defaults, count, totalBytes, len)
        invariant Valid() && n <= |old(ready)| && ready == old(ready)[n..] && evicted == old(ready)[..n]
        invariant dropped == old(dropped) + n
        invariant n + Evictions(policy, defaults, ready, len) == Evictions(policy, defaults, old(ready), len)
        decreases count
      {
        var m := TakeHead();
        dropped := dropped + 1;
        evicted := evicted + [m];
        n := n + 1;
      }
    }

    /** Puts a message behind the tail and re-evaluates congestion. */
    method Admit(m: Message)
      requires Valid()
      modifies this, slots, alarm
      ensures Valid() && (slots == old(slots) || fresh(slots))
      ensures Value() == Push(old(Value()), defaults, m)
      ensures alarm.raised == old(alarm.raised) + Bit(congested) - Bit(old(congested))
    {
      Append(m);
      hide Congests, Size;
      UpdateCongestion();
    }

    /** Publishing: refuse, or evict and admit; the evicted messages come back for dead-lettering. */
    method Enqueue(m: Message) returns (full: bool, evicted: seq<Message>)
      requires Valid()
      modifies this, slots, alarm
      ensures Valid() && (slots == old(slots) || fresh(slots))
      ensures Enqueued(Value(), evicted, full) == Queues.Enqueue(old(Value()), defaults, m)
      ensures alarm.raised == old(alarm.raised) + Bit(congested) - Bit(old(congested))
    {
      full, evicted := false, [];
      hide Push, Size, Evictions, Pos;
      if Overflows(policy, defaults, count, totalBytes, |m.body|) {
        if !policy.dropHead {
          rejected := rejected + 1;
          full := true;
          return;
        }
        evicted := EvictFor(|m.body|);
        ghost var k := |evicted|;
        assert Value() == old(Value().(ready := ready[k..], dropped := dropped + k));
      }
      Admit(m);
    }

    method RequeueInternal(m: Message)
      requires Valid()
      modifies this, slots, alarm
      ensures Valid() && (slots == old(slots) || fresh(slots))
      ensures Value() == Requeue(old(Value()), defaults, m)
      ensures alarm.raised == old(alarm.raised) + Bit(congested) - Bit(old(congested))
    {
      Admit(m);
    }

    method Dequeue() returns (t: Taken)
      requires Valid()
      modifies this, slots, alarm
      ensures Valid() && slots == old(slots)
      ensures (Value(), t) == Queues.Dequeue(old(Value()), defaults)
      ensures alarm.raised == old(alarm.raised) + Bit(congested) - Bit(old(congested))
    {
      t := Nothing;
      if count > 0 {
        var m := TakeHead();
        t := Taken(m);
        dequeued := dequeued + 1;
        UpdateCongestion();
      }
    }

    /** Applies a replicated watermark to the front of the queue. */
    method DrainConsumed(watermark: nat) returns (drained: nat)
      requires Valid()
      modifies this, slots, alarm
      ensures Valid() && slots == old(slots)
      ensures Value() == Drain(old(Value()), defaults, watermark) && drained == Drained(old(ready), watermark)
      ensures alarm.raised == old(alarm.raised) + Bit(congested) - Bit(old(congested))
    {
      drained := TakeCovered(watermark);
      if drained > 0 { UpdateCongestion(); }
    }

    method TakeCovered(watermark: nat) returns (drained: nat)
      requires Valid()
      modifies this`head, this`count, this`totalBytes, this`ready, this`dequeued, slots
      ensures Valid() && drained == Drained(old(ready), watermark)
      ensures ready == old(ready)[drained..] && dequeued == old(dequeued) + drained
    {
      drained := 0;
      while count > 0
        invariant Valid() && drained <= |old(ready)| && ready == old(ready)[drained..]
        invariant dequeued == old(dequeued) + drained
        invariant drained + Drained(ready, watermark) == Drained(old(ready), watermark)
        decreases count
      {
        if slots[head].msg.clusterId == 0 || slots[head].msg.clusterId > watermark { break; }
        var m := TakeHead();
        dequeued := dequeued + 1;
        drained := drained + 1;
      }
    }

    method Purge() returns (purged: nat)
      requires Valid()
      modifies this, slots, alarm
      ensures Valid() && slots == old(slots)
      ensures Value() == Queues.Purge(old(Value()), defaults) && purged == |old(ready)|
      ensures alarm.raised == old(alarm.raised) + Bit(congested) - Bit(old(congested))
    {
      purged := count;
      while count > 0
        invariant Valid() && slots == old(slots) && |ready| <= purged
        invariant Value() == old(Value()).(ready := ready)
        invariant alarm.raised == old(alarm.raised)
        decreases count
      {
        var m := TakeHead();
      }
      dequeued := dequeued + purged;
      UpdateCongestion();
    }

    /** The last reference goes: a congested queue gives its share of the alarm back. */
    method Release()
      modifies alarm
      ensures alarm.raised == old(alarm.raised) - Bit(congested)
    {
      if congested { alarm.raised := alarm.raised - 1; }
    }
  }
}
