/** Every run of operations over any number of queues that share the flow alarm. */
module QueueRuns {
  import opened Queues

  datatype Fleet = Fleet(queues: seq<Queue>, alarm: int)

  datatype Op =
    | Create(policy: Policy)
    | Publish(i: nat, msg: Message)
    | Return(i: nat, msg: Message)
    | Take(i: nat)
    | Consumed(i: nat, watermark: nat)
    | Clear(i: nat)
    | SetPolicy(i: nat, policy: Policy)
    | Delete(i: nat)

  predicate Allowed(f: Fleet, op: Op) {
    op.Create? || op.i < |f.queues|
  }

  function After(q: Queue, d: Defaults, op: Op): (r: Queue)
    requires !op.Create? && !op.Delete?
  {
    match op
    case Publish(_, m) => Enqueue(q, d, m).queue
    case Return(_, m) => Requeue(q, d, m)
    case Take(_) => Dequeue(q, d).0
    case Consumed(_, w) => Drain(q, d, w)
    case Clear(_) => Purge(q, d)
    case SetPolicy(_, p) => q.(policy := p)
  }

  function New(p: Policy): (q: Queue) {
    Queue(p, [], false, 0, 0, 0, 0)
  }

  /** One operation: its queue changes, and the alarm moves with that queue's congestion state. */
  function Step(f: Fleet, d: Defaults, op: Op): (r: Fleet)
    requires Allowed(f, op)
  {
    match op
    case Create(p) => f.(queues := f.queues + [New(p)])
    case Delete(i) => Fleet(f.queues[..i] + f.queues[i + 1..], f.alarm - Bit(f.queues[i].congested))
    case _ =>
      var q := After(f.queues[op.i], d, op);
      Fleet(f.queues[op.i := q], f.alarm + Bit(q.congested) - Bit(f.queues[op.i].congested))
  }

  function Exec(f: Fleet, d: Defaults, run: seq<Op>): (r: Fleet)
    decreases |run|
  {
    if run == [] then f
    else if !Allowed(f, run[0]) then Exec(f, d, run[1..])
    else Exec(Step(f, d, run[0]), d, run[1..])
  }

  function CongestedCount(qs: seq<Queue>): (n: nat) {
    if qs == [] then 0 else Bit(qs[0].congested) + CongestedCount(qs[1..])
  }

  lemma {:induction false} CountSplit(a: seq<Queue>, b: seq<Queue>)
    ensures CongestedCount(a + b) == CongestedCount(a) + CongestedCount(b)
  {
    if a == [] {
      assert a + b == b;
    } else {
      CountSplit(a[1..], b);
      assert (a + b)[1..] == a[1..] + b;
    }
  }

  lemma CountAt(qs: seq<Queue>, i: nat)
    requires i < |qs|
    ensures CongestedCount(qs) == CongestedCount(qs[..i]) + Bit(qs[i].congested) + CongestedCount(qs[i + 1..])
  {
    CountSplit(qs[..i], qs[i..]);
    assert qs == qs[..i] + qs[i..] && qs[i..][1..] == qs[i + 1..];
  }

  ghost predicate FleetInv(f: Fleet) {
    && f.alarm == CongestedCount(f.queues)
    && forall i :: 0 <= i < |f.queues| ==> Conserves(f.queues[i])
  }

  lemma AfterConserves(q: Queue, d: Defaults, op: Op)
    requires !op.Create? && !op.Delete?
    ensures Conserves(q) <==> Conserves(After(q, d, op))
  {
    match op {
      case Publish(_, m) =>
        var e := Enqueue(q, d, m);
        EnqueueFlows(q, d, m);
        FlowsConserves(q, e.queue, if e.full then [] else [m]);
      case Return(_, m) => RequeueFlows(q, d, m); FlowsConserves(q, Requeue(q, d, m), [m]);
      case Take(_) => DequeueFlows(q, d); FlowsConserves(q, Dequeue(q, d).0, []);
      case Consumed(_, w) => DrainFlows(q, d, w); FlowsConserves(q, Drain(q, d, w), []);
      case Clear(_) => PurgeFlows(q, d); FlowsConserves(q, Purge(q, d), []);
      case SetPolicy(_, _) =>
    }
    hide Flows, Enqueue, Requeue, Dequeue, Drain, Purge;
  }

  lemma ReplaceKeepsFleetInv(f: Fleet, i: nat, q: Queue)
    requires FleetInv(f) && i < |f.queues| && Conserves(q)
    ensures FleetInv(Fleet(f.queues[i := q], f.alarm + Bit(q.congested) - Bit(f.queues[i].congested)))
  {
    var qs := f.queues[i := q];
    CountAt(f.queues, i);
    CountAt(qs, i);
    assert qs[..i] == f.queues[..i] && qs[i + 1..] == f.queues[i + 1..];
    hide Conserves, CongestedCount;
  }

  lemma CreateKeepsFleetInv(f: Fleet, p: Policy)
    requires FleetInv(f)
    ensures FleetInv(f.(queues := f.queues + [New(p)]))
  {
    CountSplit(f.queues, [New(p)]);
  }

  lemma DeleteKeepsFleetInv(f: Fleet, i: nat)
    requires FleetInv(f) && i < |f.queues|
    ensures FleetInv(Fleet(f.queues[..i] + f.queues[i + 1..], f.alarm - Bit(f.queues[i].congested)))
  {
    CountAt(f.queues, i);
    CountSplit(f.queues[..i], f.queues[i + 1..]);
    hide CongestedCount, Conserves;
  }

  lemma StepKeepsFleetInv(f: Fleet, d: Defaults, op: Op)
    requires FleetInv(f) && Allowed(f, op)
    ensures FleetInv(Step(f, d, op))
  {
    hide After, Conserves, CongestedCount;
    match op {
      case Create(p) => CreateKeepsFleetInv(f, p);
      case Delete(i) => DeleteKeepsFleetInv(f, i);
      case _ =>
        var q := After(f.queues[op.i], d, op);
        AfterConserves(f.queues[op.i], d, op);
        ReplaceKeepsFleetInv(f, op.i, q);
        assert Step(f, d, op) == Fleet(f.queues[op.i := q], f.alarm + Bit(q.congested) - Bit(f.queues[op.i].congested));
    }
  }

  /** In every run the alarm counts exactly the congested queues, and each queue accounts for every message. */
  lemma {:induction false} RunKeepsFleetInv(f: Fleet, d: Defaults, run: seq<Op>)
    requires FleetInv(f)
    ensures FleetInv(Exec(f, d, run))
    decreases |run|
  {
    if run != [] {
      if Allowed(f, run[0]) {
        StepKeepsFleetInv(f, d, run[0]);
        RunKeepsFleetInv(Step(f, d, run[0]), d, run[1..]);
      } else {
        RunKeepsFleetInv(f, d, run[1..]);
      }
    }
  }

  lemma AlarmCountsCongested(d: Defaults, run: seq<Op>)
    ensures var f := Exec(Fleet([], 0), d, run);
            && f.alarm == CongestedCount(f.queues)
            && forall i :: 0 <= i < |f.queues| ==> Conserves(f.queues[i])
  {
    RunKeepsFleetInv(Fleet([], 0), d, run);
  }

  /** What each operation does to the messages of its queue; every other queue stays as it is. */
  lemma StepExact(f: Fleet, d: Defaults, op: Op)
    requires Allowed(f, op) && !op.Create? && !op.Delete?
    ensures var r := Step(f, d, op);
            |r.queues| == |f.queues| && forall j :: 0 <= j < |f.queues| && j != op.i ==> r.queues[j] == f.queues[j]
    ensures var was, left := f.queues[op.i].ready, Step(f, d, op).queues[op.i].ready;
            match op
            case Publish(_, m) =>
              (!f.queues[op.i].policy.dropHead && left == was) || exists k :: 0 <= k <= |was| && left == was[k..] + [m]
            case Return(_, m) => left == was + [m]
            case Take(_) => left == if was == [] then [] else was[1..]
            case Consumed(_, w) =>
              exists k :: && 0 <= k <= |was| && left == was[k..] && (forall i :: 0 <= i < k ==> 0 < was[i].clusterId <= w)
                          && (k < |was| ==> was[k].clusterId == 0 || was[k].clusterId > w)
            case Clear(_) => left == []
            case SetPolicy(_, _) => left == was
  {
    hide Congests, Size, Overflows, Admits;
    match op {
      case Publish(_, m) => EnqueueFlows(f.queues[op.i], d, m); EnqueueDecides(f.queues[op.i], d, m);
      case Consumed(_, w) =>
        var was := f.queues[op.i].ready;
        var k := Drained(was, w);
        assert was[0..] == was;
        assert Step(f, d, op).queues[op.i].ready == was[k..];
      case _ =>
    }
  }

  // ---- the congestion state is right ----

  /** No limit in force is one of those whose marks overlap. */
  ghost predicate MarksApart(p: Policy, d: Defaults) {
    Limit(p.maxLength, d.maxLength) !in {1, 2, 3} && Limit(p.maxBytes, d.maxBytes) !in {1, 2, 3}
  }

  /** Congested from the high mark up, and clear at the low mark and below. */
  ghost predicate Right(q: Queue, d: Defaults) {
    MarksApart(q.policy, d) ==>
      && (OverHigh(q.policy, d, |q.ready|, Size(q.ready)) ==> q.congested)
      && (UnderLow(q.policy, d, |q.ready|, Size(q.ready)) ==> !q.congested)
  }

  lemma CongestRight(q: Queue, d: Defaults)
    ensures Right(Congest(q, d), d)
  {
    HysteresisIff(q.policy, d);
    hide OverHigh, UnderLow, Size;
  }

  lemma NewRight(p: Policy, d: Defaults)
    ensures Right(New(p), d)
  {
  }

  /** Every operation but a change of policy leaves the state right. */
  lemma AfterRight(q: Queue, d: Defaults, op: Op)
    requires Right(q, d) && !op.Create? && !op.Delete? && !op.SetPolicy?
    ensures Right(After(q, d, op), d)
  {
    hide Congest, OverHigh, UnderLow, Evictions;
    match op {
      case Publish(_, m) =>
        if Overflows(q.policy, d, |q.ready|, Size(q.ready), |m.body|) && !q.policy.dropHead {
        } else if !Overflows(q.policy, d, |q.ready|, Size(q.ready), |m.body|) {
          CongestRight(q.(ready := q.ready + [m], enqueued := q.enqueued + 1), d);
        } else {
          var k := Evictions(q.policy, d, q.ready, |m.body|);
          CongestRight(q.(ready := q.ready[k..] + [m], dropped := q.dropped + k, enqueued := q.enqueued + 1), d);
        }
      case Return(_, m) => CongestRight(q.(ready := q.ready + [m], enqueued := q.enqueued + 1), d);
      case Take(_) =>
        if q.ready != [] { CongestRight(q.(ready := q.ready[1..], dequeued := q.dequeued + 1), d); }
      case Consumed(_, w) =>
        var k := Drained(q.ready, w);
        CongestRight(q.(ready := q.ready[k..], dequeued := q.dequeued + k), d);
      case Clear(_) => CongestRight(q.(ready := [], dequeued := q.dequeued + |q.ready|), d);
    }
  }

  ghost predicate AllRight(f: Fleet, d: Defaults) {
    forall i :: 0 <= i < |f.queues| ==> Right(f.queues[i], d)
  }

  lemma StepRight(f: Fleet, d: Defaults, op: Op)
    requires AllRight(f, d) && Allowed(f, op) && !op.SetPolicy?
    ensures AllRight(Step(f, d, op), d)
  {
    hide Right, After, New;
    if op.Create? {
      NewRight(op.policy, d);
    } else if !op.Delete? {
      AfterRight(f.queues[op.i], d, op);
    }
  }

  lemma {:induction false} RunRight(f: Fleet, d: Defaults, run: seq<Op>)
    requires AllRight(f, d) && forall i :: 0 <= i < |run| ==> !run[i].SetPolicy?
    ensures AllRight(Exec(f, d, run), d)
    decreases |run|
  {
    hide AllRight, Step;
    if run != [] {
      if Allowed(f, run[0]) {
        StepRight(f, d, run[0]);
        RunRight(Step(f, d, run[0]), d, run[1..]);
      } else {
        RunRight(f, d, run[1..]);
      }
    }
  }

  /** In every run without changes of policy, every queue none of whose limits in force is 1, 2 or 3 is congested if
      it is at 90% of a limit or above, and is not if it is at 75% of every limit or below. */
  lemma CongestionIsRight(d: Defaults, run: seq<Op>, i: nat)
    requires forall j :: 0 <= j < |run| ==> !run[j].SetPolicy?
    requires i < |Exec(Fleet([], 0), d, run).queues| && MarksApart(Exec(Fleet([], 0), d, run).queues[i].policy, d)
    ensures var q := Exec(Fleet([], 0), d, run).queues[i];
            var maxLen, maxBytes := Limit(q.policy.maxLength, d.maxLength), Limit(q.policy.maxBytes, d.maxBytes);
            && ((maxLen > 0 && 10 * |q.ready| >= 9 * maxLen) || (maxBytes > 0 && 10 * Size(q.ready) >= 9 * maxBytes) ==>
                  q.congested)
            && ((maxLen > 0 ==> 4 * |q.ready| <= 3 * maxLen) && (maxBytes > 0 ==> 4 * Size(q.ready) <= 3 * maxBytes) ==>
                  !q.congested)
  {
    hide Exec;
    var f := Exec(Fleet([], 0), d, run);
    RunRight(Fleet([], 0), d, run);
    var q := f.queues[i];
    assert Right(q, d);
    MarksInPercent(q.policy, d, |q.ready|, Size(q.ready));
    hide OverHigh, UnderLow, Size;
  }

  /** A purge always clears the state. */
  lemma PurgedIsClear(q: Queue, d: Defaults)
    ensures !Purge(q, d).congested
  {
  }
}
