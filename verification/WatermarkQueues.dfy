/** The runs of ids are runs of queues of messages: each step does to the ids what the queue operation does to the
    messages that carry them. */
module WatermarkQueues {
  import opened Queues
  import opened Watermark
  import opened WatermarkRuns

  lemma IdsConcat(a: seq<Message>, b: seq<Message>)
    ensures Ids(a + b) == Ids(a) + Ids(b)
  {
  }

  lemma IdsDrop(ms: seq<Message>, k: nat)
    requires k <= |ms|
    ensures Ids(ms[k..]) == Ids(ms)[k..]
  {
  }

  /** A queue gets a message at its back. */
  lemma PushedIds(q: Queue, d: Defaults, m: Message)
    ensures Ids(Push(q, d, m).ready) == Ids(q.ready) + [m.clusterId]
    ensures Ids(Queues.Requeue(q, d, m).ready) == Ids(q.ready) + [m.clusterId]
  {
    IdsConcat(q.ready, [m]);
    assert Ids([m]) == [m.clusterId];
  }

  /** On the consuming node and on the replica, what is in the log does to the ids what it does to the queue: a
      publish is pushed under its index, a watermark drains, anything else leaves the queue alone. */
  lemma AbsorbIsQueue(q: Queue, d: Defaults, op: LogOp, index: nat, m: Message)
    requires m.clusterId == index
    ensures Absorb(Ids(q.ready), op, index) ==
            match op
            case Publish => Ids(Push(q, d, m).ready)
            case Consume(w) => Ids(Drain(q, d, w).ready)
            case Other => Ids(q.ready)
  {
    match op {
      case Publish => PushedIds(q, d, m);
      case Consume(w) =>
        CoveredIsDrained(q.ready, w);
        IdsDrop(q.ready, Drained(q.ready, w));
      case Other =>
    }
  }

  /** Every step of a run on the consuming node is the queue's own operation: applying the log, publishing without
      replication, dequeuing for a delivery, and requeuing what a consumer gives back. */
  lemma StepIsQueue(s: World, a: Act, q: Queue, d: Defaults, m: Message)
    requires Enabled(s, a) && s.ready == Ids(q.ready)
    ensures a.Apply? && m.clusterId == s.applied + 1 ==>
              Step(s, a).ready == match s.log[s.applied]
                                  case Publish => Ids(Push(q, d, m).ready)
                                  case Consume(w) => Ids(Drain(q, d, w).ready)
                                  case Other => Ids(q.ready)
    ensures a.LocalPublish? && m.clusterId == 0 ==> Step(s, a).ready == Ids(Push(q, d, m).ready)
    ensures a.Requeue? && m.clusterId == a.c ==> Step(s, a).ready == Ids(Queues.Requeue(q, d, m).ready)
    ensures a.Deliver? ==>
              && Dequeue(q, d).1.Taken? && Step(s, a).ready == Ids(Dequeue(q, d).0.ready)
              && Step(s, a).t == Delivered(s.t, Dequeue(q, d).1.msg.clusterId, a.noAck)
    ensures a.Append? || a.Ack? || a.Report? || a.ReplicaApply? || a.ReplicaPublish? ==> Step(s, a).ready == s.ready
  {
    hide Congests, Size, Delivered, Settled;
    match a {
      case Apply => if m.clusterId == s.applied + 1 { AbsorbIsQueue(q, d, s.log[s.applied], s.applied + 1, m); }
      case LocalPublish => PushedIds(q, d, m);
      case Requeue(_) => PushedIds(q, d, m);
      case Deliver(_) => IdsDrop(q.ready, 1);
      case _ =>
    }
  }

  /** So is every step of the replica. */
  lemma ReplicaStepIsQueue(s: World, a: Act, q: Queue, d: Defaults, m: Message)
    requires Enabled(s, a) && s.replica == Ids(q.ready)
    ensures a.ReplicaApply? && m.clusterId == s.seen + 1 ==>
              Step(s, a).replica == match s.log[s.seen]
                                    case Publish => Ids(Push(q, d, m).ready)
                                    case Consume(w) => Ids(Drain(q, d, w).ready)
                                    case Other => Ids(q.ready)
    ensures a.ReplicaPublish? && m.clusterId == 0 ==> Step(s, a).replica == Ids(Push(q, d, m).ready)
    ensures !a.ReplicaApply? && !a.ReplicaPublish? ==> Step(s, a).replica == s.replica
  {
    hide Congests, Size, Delivered, Settled;
    if a.ReplicaApply? && m.clusterId == s.seen + 1 { AbsorbIsQueue(q, d, s.log[s.seen], s.seen + 1, m); }
    if a.ReplicaPublish? { PushedIds(q, d, m); }
  }
}
