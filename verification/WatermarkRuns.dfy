/** Every run of one consuming node, the replicated log and a replica of the queue. */
module WatermarkRuns {
  import opened Watermark

  /** What the log says about this queue; an entry's index is its position, counted from 1. */
  datatype LogOp = Publish | Consume(w: nat) | Other

  /** The consuming node has applied `applied` entries and the replica `seen`. `ready` and `replica` list ids,
      0 for a message that was not replicated; `held` are the ids in consumers' hands awaiting settlement;
      `sent` are the watermarks on their way to the log. */
  datatype World = World(log: seq<LogOp>, applied: nat, ready: seq<nat>, held: set<nat>, t: Tracker,
                         sent: set<nat>, seen: nat, replica: seq<nat>)

  datatype Act =
    | Append(op: LogOp)
    | Apply
    | LocalPublish
    | Deliver(noAck: bool)
    | Ack(c: nat)
    | Requeue(c: nat)
    | Report
    | ReplicaApply
    | ReplicaPublish

  const START: World := World([], 0, [], {}, Tracker([], 0, 0), {}, 0, [])

  predicate Enabled(s: World, a: Act) {
    match a
    case Append(op) => op.Consume? ==> op.w in s.sent
    case Apply => s.applied < |s.log|
    case Deliver(_) => s.ready != []
    case Ack(c) => c in s.held
    case Requeue(c) => c in s.held
    case ReplicaApply => s.seen < |s.log|
    case _ => true
  }

  /** What applying one log entry does to a node's copy of the queue. */
  function Absorb(ready: seq<nat>, op: LogOp, index: nat): (r: seq<nat>) {
    match op
    case Publish => ready + [index]
    case Consume(w) => ready[Covered(ready, w)..]
    case Other => ready
  }

  function Step(s: World, a: Act): (r: World)
    requires Enabled(s, a)
  {
    match a
    case Append(op) => s.(log := s.log + [op])
    case Apply => s.(applied := s.applied + 1, ready := Absorb(s.ready, s.log[s.applied], s.applied + 1))
    case LocalPublish => s.(ready := s.ready + [0])
    case Deliver(noAck) =>
      var c := s.ready[0];
      s.(ready := s.ready[1..], t := Delivered(s.t, c, noAck),
         held := if c == 0 || noAck then s.held else s.held + {c})
    case Ack(c) => s.(held := s.held - {c}, t := Settled(s.t, c))
    case Requeue(c) => s.(held := s.held - {c}, ready := s.ready + [c])
    case Report =>
      var w := Mark(s.t);
      if w > 0 && w > s.t.replicated then s.(t := s.t.(replicated := w), sent := s.sent + {w}) else s
    case ReplicaApply => s.(seen := s.seen + 1, replica := Absorb(s.replica, s.log[s.seen], s.seen + 1))
    case ReplicaPublish => s.(replica := s.replica + [0])
  }

  function Exec(s: World, run: seq<Act>): (r: World)
    decreases |run|
  {
    if run == [] then s
    else if Enabled(s, run[0]) then Exec(Step(s, run[0]), run[1..])
    else Exec(s, run[1..])
  }

  // ---- the invariant ----

  /** A log entry that publishes. */
  ghost predicate Published(log: seq<LogOp>, id: nat) {
    1 <= id <= |log| && log[id - 1].Publish?
  }

  /** Ready ids are applied publishes; each was handed out before and is unsettled, or lies above all handed out. */
  ghost predicate ReadyOk(s: World) {
    forall i :: 0 <= i < |s.ready| && s.ready[i] != 0 ==>
      && Published(s.log, s.ready[i]) && s.ready[i] <= s.applied && s.ready[i] !in s.held
      && (s.ready[i] in s.t.unacked || s.ready[i] > s.t.hi)
  }

  /** No id is ready twice, and an id never handed out has only smaller ids in front of it. */
  ghost predicate OrderOk(s: World) {
    forall i, j :: 0 <= i < j < |s.ready| && s.ready[i] != 0 && s.ready[j] != 0 ==>
      s.ready[i] != s.ready[j] && (s.ready[j] !in s.t.unacked ==> s.ready[i] < s.ready[j])
  }

  ghost predicate HeldOk(s: World) {
    forall c :: c in s.held ==> c in s.t.unacked && Published(s.log, c) && c <= s.applied
  }

  /** Every watermark sent or logged is at most the current one. */
  ghost predicate SentOk(s: World) {
    && (forall w :: w in s.sent ==> w <= Mark(s.t))
    && forall i :: 0 <= i < |s.log| && s.log[i].Consume? ==> s.log[i].w <= Mark(s.t)
  }

  /** The replica still has every publish it has seen above the watermark. */
  ghost predicate ReplicaOk(s: World) {
    forall id: nat :: Published(s.log, id) && id <= s.seen && id > Mark(s.t) ==> id in s.replica
  }

  ghost predicate Inv(s: World) {
    && TrackerOk(s.t) && s.t.hi <= s.applied <= |s.log| && s.seen <= |s.log|
    && ReadyOk(s) && OrderOk(s) && HeldOk(s) && SentOk(s) && ReplicaOk(s)
  }

  /** Draining at the watermark or below takes nothing that is ready on the consuming node. */
  lemma OwnDrainIsNoOp(s: World, w: nat)
    requires TrackerOk(s.t) && ReadyOk(s) && w <= Mark(s.t)
    ensures Covered(s.ready, w) == 0
  {
    if s.ready != [] && s.ready[0] != 0 { MarkBelow(s.t, s.ready[0]); }
  }

  lemma {:induction false} DrainKeepsAbove(ids: seq<nat>, w: nat, id: nat)
    requires id in ids && id > w
    ensures id in ids[Covered(ids, w)..]
  {
    var k := Covered(ids, w);
    var i :| 0 <= i < |ids| && ids[i] == id;
    assert i >= k && ids[k..][i - k] == id;
  }

  lemma AppendKeeps(s: World, op: LogOp)
    requires Inv(s) && Enabled(s, Append(op))
    ensures Inv(Step(s, Append(op)))
  {
    var r := Step(s, Append(op));
    assert forall id: nat :: Published(s.log, id) ==> Published(r.log, id);
    assert ReadyOk(r) && OrderOk(r) && HeldOk(r);
    assert SentOk(r);
    assert ReplicaOk(r);
  }

  lemma ApplyKeeps(s: World)
    requires Inv(s) && Enabled(s, Apply)
    ensures Inv(Step(s, Apply)) && (s.log[s.applied].Consume? ==> Step(s, Apply).ready == s.ready)
  {
    var r, op := Step(s, Apply), s.log[s.applied];
    match op {
      case Publish =>
        assert Published(s.log, s.applied + 1);
        assert forall x :: x in s.t.unacked ==> x <= s.t.hi;
      case Consume(w) =>
        OwnDrainIsNoOp(s, w);
        assert s.ready[0..] == s.ready;
      case Other =>
    }
  }

  lemma DeliverKeeps(s: World, noAck: bool)
    requires Inv(s) && s.ready != []
    ensures Inv(Step(s, Deliver(noAck))) && Mark(s.t) <= Mark(Step(s, Deliver(noAck)).t)
  {
    hide Delivered;
    DeliverOk(s.t, s.ready[0], noAck);
    DeliveredHi(s.t, s.ready[0], noAck);
    DeliverKeepsReady(s, Step(s, Deliver(noAck)));
  }

  /** Taking the front keeps the order, whatever of it stays unsettled. */
  lemma DeliverKeepsReady(s: World, r: World)
    requires ReadyOk(s) && OrderOk(s) && s.ready != [] && TrackerOk(s.t)
    requires r.ready == s.ready[1..] && r.log == s.log && r.applied == s.applied
    requires r.t.hi == (if s.ready[0] > s.t.hi then s.ready[0] else s.t.hi) && r.held <= s.held + {s.ready[0]}
    requires forall x :: x in s.t.unacked ==> x in r.t.unacked
    ensures ReadyOk(r) && OrderOk(r)
  {
    forall i | 0 <= i < |r.ready| && r.ready[i] != 0
      ensures && Published(r.log, r.ready[i]) && r.ready[i] <= r.applied && r.ready[i] !in r.held
              && (r.ready[i] in r.t.unacked || r.ready[i] > r.t.hi)
    {
      assert r.ready[i] == s.ready[i + 1];
    }
    forall i, j | 0 <= i < j < |r.ready| && r.ready[i] != 0 && r.ready[j] != 0
      ensures r.ready[i] != r.ready[j] && (r.ready[j] !in r.t.unacked ==> r.ready[i] < r.ready[j])
    {
      assert r.ready[i] == s.ready[i + 1] && r.ready[j] == s.ready[j + 1];
    }
  }

  lemma DeliveredHi(t: Tracker, c: nat, noAck: bool)
    ensures Delivered(t, c, noAck).hi == if c > t.hi then c else t.hi
  {
  }

  lemma AckKeeps(s: World, c: nat)
    requires Inv(s) && c in s.held
    ensures Inv(Step(s, Ack(c))) && Mark(s.t) <= Mark(Step(s, Ack(c)).t)
  {
    hide Settled;
    AckOk(s.t, c);
  }

  lemma RequeueKeeps(s: World, c: nat)
    requires Inv(s) && c in s.held
    ensures Inv(Step(s, Requeue(c)))
  {
  }

  lemma ReportKeeps(s: World)
    requires Inv(s)
    ensures Inv(Step(s, Report))
  {
  }

  lemma ReplicaApplyKeeps(s: World)
    requires Inv(s) && s.seen < |s.log|
    ensures Inv(Step(s, ReplicaApply))
  {
    var r, op := Step(s, ReplicaApply), s.log[s.seen];
    forall id: nat | Published(r.log, id) && id <= r.seen && id > Mark(r.t) ensures id in r.replica {
      if op.Consume? {
        DrainKeepsAbove(s.replica, op.w, id);
      }
    }
  }

  lemma LocalKeeps(s: World, a: Act)
    requires Inv(s) && (a.LocalPublish? || a.ReplicaPublish?)
    ensures Inv(Step(s, a))
  {
  }

  /** Every step keeps the invariant, and the watermark never falls. */
  lemma StepKeepsInv(s: World, a: Act)
    requires Inv(s) && Enabled(s, a)
    ensures Inv(Step(s, a)) && Mark(s.t) <= Mark(Step(s, a).t)
  {
    hide Inv, Delivered, Settled, Absorb;
    match a {
      case Append(op) => AppendKeeps(s, op);
      case Apply => ApplyKeeps(s);
      case LocalPublish => LocalKeeps(s, a);
      case Deliver(noAck) => DeliverKeeps(s, noAck);
      case Ack(c) => AckKeeps(s, c);
      case Requeue(c) => RequeueKeeps(s, c);
      case Report => ReportKeeps(s);
      case ReplicaApply => ReplicaApplyKeeps(s);
      case ReplicaPublish => LocalKeeps(s, a);
    }
  }

  lemma {:induction false} RunKeepsInv(s: World, run: seq<Act>)
    requires Inv(s)
    ensures Inv(Exec(s, run)) && Mark(s.t) <= Mark(Exec(s, run).t)
    decreases |run|
  {
    hide Inv, Step;
    if run != [] {
      if Enabled(s, run[0]) {
        StepKeepsInv(s, run[0]);
        RunKeepsInv(Step(s, run[0]), run[1..]);
      } else {
        RunKeepsInv(s, run[1..]);
      }
    }
  }

  lemma StartInv()
    ensures Inv(START)
  {
  }

  // ---- what follows in every run ----

  /** Still wanted: ready on the consuming node, in a consumer's hands, or not yet applied there. */
  ghost predicate Live(s: World, id: nat) {
    Published(s.log, id) && (id in s.ready || id in s.held || id > s.applied)
  }

  lemma LiveAbove(s: World, id: nat)
    requires Inv(s) && Live(s, id)
    ensures Mark(s.t) < id
  {
    if id in s.ready {
      var i :| 0 <= i < |s.ready| && s.ready[i] == id;
      assert id in s.t.unacked || id > s.t.hi;
    }
    MarkBelow(s.t, id);
  }

  /** In every run: the watermark is below every live id, it only rises, and the replica, whatever watermarks it
      has applied, still holds every live message it has been told of. */
  lemma NoLiveMessageIsDrained(run: seq<Act>, more: seq<Act>, id: nat)
    ensures var s := Exec(START, run);
            var e := Exec(s, more);
            && Mark(s.t) <= Mark(e.t)
            && (Live(e, id) ==> Mark(e.t) < id)
            && (Live(e, id) && id <= e.seen ==> id in e.replica)
  {
    hide Exec, Step;
    StartInv();
    RunKeepsInv(START, run);
    var s := Exec(START, run);
    RunKeepsInv(s, more);
    var e := Exec(s, more);
    if Live(e, id) { LiveAbove(e, id); }
  }

  /** In every run, applying a logged watermark on the consuming node changes nothing there. */
  lemma ConsumerIgnoresWatermark(run: seq<Act>)
    ensures var s := Exec(START, run);
            s.applied < |s.log| && s.log[s.applied].Consume? ==> Step(s, Apply).ready == s.ready
  {
    StartInv();
    RunKeepsInv(START, run);
    var s := Exec(START, run);
    hide Exec, Step;
    if s.applied < |s.log| && s.log[s.applied].Consume? { ApplyKeeps(s); }
  }

  lemma {:induction false} FirstReplicatedIs(ready: seq<nat>)
    ensures FirstReplicated(ready).NoneLive? ==> forall i :: 0 <= i < |ready| ==> ready[i] == 0
    ensures FirstReplicated(ready).At? ==>
              exists k :: 0 <= k < |ready| && ready[k] == FirstReplicated(ready).id != 0
                          && forall i :: 0 <= i < k ==> ready[i] == 0
  {
    if ready != [] && ready[0] == 0 {
      FirstReplicatedIs(ready[1..]);
      assert forall i :: 1 <= i < |ready| ==> ready[i] == ready[1..][i - 1];
      if FirstReplicated(ready).At? {
        var k :| 0 <= k < |ready[1..]| && ready[1..][k] == FirstReplicated(ready[1..]).id != 0
                 && forall i :: 0 <= i < k ==> ready[1..][i] == 0;
        assert ready[k + 1] == FirstReplicated(ready).id && forall i :: 0 <= i < k + 1 ==> ready[i] == 0;
      }
    }
  }

  /** In every run, the oldest live id reported bounds every ready or held replicated id from below,
      and there are none when nothing is reported. */
  lemma OldestBoundsLive(run: seq<Act>, id: nat)
    ensures var s := Exec(START, run);
            id != 0 && (id in s.ready || id in s.held) ==>
              OldestLive(s.t, s.ready).At? && OldestLive(s.t, s.ready).id <= id
  {
    hide Exec;
    StartInv();
    RunKeepsInv(START, run);
    var s := Exec(START, run);
    if id != 0 && (id in s.ready || id in s.held) { OldestBounds(s, id); }
  }

  lemma OldestBounds(s: World, id: nat)
    requires Inv(s) && id != 0 && (id in s.ready || id in s.held)
    ensures OldestLive(s.t, s.ready).At? && OldestLive(s.t, s.ready).id <= id
  {
    if s.t.unacked != [] {
      if id in s.ready {
        var i :| 0 <= i < |s.ready| && s.ready[i] == id;
        assert id in s.t.unacked || id > s.t.hi;
      }
      MarkBelow(s.t, id);
    } else {
      FirstReplicatedIs(s.ready);
      var i :| 0 <= i < |s.ready| && s.ready[i] == id;
      var k :| 0 <= k < |s.ready| && s.ready[k] == FirstReplicated(s.ready).id != 0
               && forall x :: 0 <= x < k ==> s.ready[x] == 0;
      assert k < i ==> s.ready[k] < s.ready[i];
    }
  }
}
