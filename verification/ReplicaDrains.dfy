/** What a replica of the queue holds in every run: the publishes it was told of, less those a logged watermark
    covers. */
module ReplicaDrains {
  import opened Watermark
  import opened WatermarkRuns
  import opened WatermarkTight

  /** A message published on the replica alone has no id and stops every later drain in front of it: from then on what
      comes in stays. The barrier is where the replica was in the log when that happened first. */
  datatype Barrier = Open | From(seen: nat)

  function Lowered(s: World, b: Barrier, a: Act): (r: Barrier) {
    if a.ReplicaPublish? && b.Open? then From(s.seen) else b
  }

  function BarrierAfter(s: World, b: Barrier, run: seq<Act>): (r: Barrier)
    decreases |run|
  {
    if run == [] then b
    else if Enabled(s, run[0]) then BarrierAfter(Step(s, run[0]), Lowered(s, b, run[0]), run[1..])
    else BarrierAfter(s, b, run[1..])
  }

  /** No watermark that the replica saw behind the publish covers it. */
  ghost predicate Outlasts(log: seq<LogOp>, seen: nat, id: nat) {
    forall i :: id <= i < seen && i < |log| && log[i].Consume? ==> log[i].w < id
  }

  /** The replica was told of the id and nothing has drained it. */
  ghost predicate Due(s: World, b: Barrier, id: nat) {
    Published(s.log, id) && id <= s.seen && ((b.From? && id > b.seen) || Outlasts(s.log, s.seen, id))
  }

  /** In front of the barrier, at position `p`, ids ascend. */
  ghost predicate Laid(s: World, b: Barrier, p: nat) {
    && p <= |s.replica| && s.seen <= |s.log| && (b.From? ==> b.seen <= s.seen)
    && Ascending(s.replica[..p]) && (forall i :: 0 <= i < p ==> 0 < s.replica[i] <= if b.From? then b.seen else s.seen)
    && (if b.Open? then p == |s.replica| else p < |s.replica| && s.replica[p] == 0)
    && (b.From? ==> forall i :: p <= i < |s.replica| ==> s.replica[i] == 0 || b.seen < s.replica[i] <= s.seen)
  }

  ghost predicate Exact(s: World, b: Barrier) {
    forall id: nat :: id != 0 ==> (id in s.replica <==> Due(s, b, id))
  }

  ghost predicate Tracked(s: World, b: Barrier) {
    Exact(s, b) && exists p: nat :: Laid(s, b, p)
  }

  // ---- steps ----

  /** Entries of the log that the replica has not seen change nothing. */
  lemma UnseenTracked(s: World, r: World, b: Barrier)
    requires Tracked(s, b) && s.log <= r.log && r.seen == s.seen && r.replica == s.replica
    ensures Tracked(r, b)
  {
    var p: nat :| Laid(s, b, p);
    assert Laid(r, b, p);
    forall id: nat ensures Due(r, b, id) <==> Due(s, b, id) {
      assert Outlasts(r.log, r.seen, id) <==> Outlasts(s.log, s.seen, id);
      if id <= s.seen { assert Published(r.log, id) <==> Published(s.log, id); }
    }
  }

  lemma PublishLaid(s: World, b: Barrier, p: nat)
    requires Laid(s, b, p) && s.seen < |s.log| && s.log[s.seen].Publish?
    ensures Laid(Step(s, ReplicaApply), b, if b.Open? then p + 1 else p)
  {
    var r := Step(s, ReplicaApply);
    assert r.replica[..p] == s.replica[..p];
    if b.Open? { assert r.replica[..p + 1] == s.replica[..p] + [s.seen + 1]; }
  }

  lemma PublishExact(s: World, b: Barrier)
    requires Exact(s, b) && s.seen < |s.log| && s.log[s.seen].Publish?
    ensures Exact(Step(s, ReplicaApply), b)
  {
    var r, fresh_ := Step(s, ReplicaApply), s.seen + 1;
    forall id: nat | id != 0 ensures id in r.replica <==> Due(r, b, id) {
      assert id in r.replica <==> id in s.replica || id == fresh_;
      assert id <= s.seen ==> (Outlasts(r.log, r.seen, id) <==> Outlasts(s.log, s.seen, id));
      assert id == fresh_ ==> Published(r.log, id) && Outlasts(r.log, r.seen, id);
    }
  }

  /** A drain takes the covered ids in front of the barrier, and only those. */
  lemma {:induction false} CoveredPrefix(ids: seq<nat>, p: nat, w: nat)
    requires p <= |ids| && Ascending(ids[..p]) && (forall i :: 0 <= i < p ==> ids[i] > 0) && (p < |ids| ==> ids[p] == 0)
    ensures var k := Covered(ids, w);
            k <= p && forall i :: 0 <= i < p ==> (i < k <==> ids[i] <= w)
  {
    if p > 0 && ids[0] <= w {
      assert ids[1..][..p - 1] == ids[..p][1..];
      CoveredPrefix(ids[1..], p - 1, w);
      forall i | 0 < i < p ensures i < Covered(ids, w) <==> ids[i] <= w {
        assert ids[i] == ids[1..][i - 1];
      }
    } else if p > 0 {
      forall i | 0 <= i < p ensures ids[i] > w {
        assert ids[..p][0] == ids[0] && ids[..p][i] == ids[i];
      }
    }
  }

  lemma DrainLaid(s: World, b: Barrier, p: nat, k: nat)
    requires Laid(s, b, p) && s.seen < |s.log| && k <= p
    ensures Laid(s.(seen := s.seen + 1, replica := s.replica[k..]), b, p - k)
  {
    var r := s.(seen := s.seen + 1, replica := s.replica[k..]);
    assert r.replica[..p - k] == s.replica[..p][k..];
    assert forall i :: 0 <= i < |r.replica| ==> r.replica[i] == s.replica[i + k];
  }

  lemma DrainTracked(s: World, b: Barrier, p: nat, w: nat)
    requires Laid(s, b, p) && Exact(s, b) && s.seen < |s.log| && s.log[s.seen] == Consume(w)
    ensures Tracked(Step(s, ReplicaApply), b)
  {
    var r, k := Step(s, ReplicaApply), Covered(s.replica, w);
    CoveredPrefix(s.replica, p, w);
    DrainLaid(s, b, p, k);
    assert r == s.(seen := s.seen + 1, replica := s.replica[k..]);
    hide Covered, Laid, Step, Due;
    forall id: nat | id != 0 ensures id in r.replica <==> Due(r, b, id) { DrainedId(s, b, p, k, w, id); }
  }

  lemma DrainedId(s: World, b: Barrier, p: nat, k: nat, w: nat, id: nat)
    requires Laid(s, b, p) && Exact(s, b) && s.seen < |s.log| && s.log[s.seen] == Consume(w) && id != 0
    requires k <= p && forall i :: 0 <= i < p ==> (i < k <==> s.replica[i] <= w)
    ensures var r := s.(seen := s.seen + 1, replica := s.replica[k..]);
            id in r.replica <==> Due(r, b, id)
  {
    var r := s.(seen := s.seen + 1, replica := s.replica[k..]);
    assert id <= s.seen ==> (Outlasts(r.log, r.seen, id) <==> Outlasts(s.log, s.seen, id) && w < id);
    if id in s.replica {
      var i :| 0 <= i < |s.replica| && s.replica[i] == id;
      if i >= k { assert r.replica[i - k] == id; }
      if j :| 0 <= j < |r.replica| && r.replica[j] == id { assert s.replica[j + k] == id; }
    } else {
      assert id !in r.replica;
      if id == r.seen { assert !Published(r.log, id); }
    }
  }

  lemma OtherTracked(s: World, b: Barrier, p: nat)
    requires Laid(s, b, p) && Exact(s, b) && s.seen < |s.log| && s.log[s.seen].Other?
    ensures Tracked(Step(s, ReplicaApply), b)
  {
    var r := Step(s, ReplicaApply);
    assert Laid(r, b, p);
    forall id: nat ensures Due(r, b, id) <==> Due(s, b, id) {
      assert id <= s.seen ==> (Outlasts(r.log, r.seen, id) <==> Outlasts(s.log, s.seen, id));
      assert !Published(r.log, s.seen + 1);
    }
  }

  lemma SeesTracked(s: World, b: Barrier)
    requires Tracked(s, b) && s.seen < |s.log|
    ensures Tracked(Step(s, ReplicaApply), b)
  {
    var p: nat :| Laid(s, b, p);
    match s.log[s.seen] {
      case Publish =>
        PublishLaid(s, b, p);
        PublishExact(s, b);
      case Consume(w) => DrainTracked(s, b, p, w);
      case Other => OtherTracked(s, b, p);
    }
  }

  lemma LocalTracked(s: World, b: Barrier)
    requires Tracked(s, b)
    ensures Tracked(Step(s, ReplicaPublish), Lowered(s, b, ReplicaPublish))
  {
    var r, c := Step(s, ReplicaPublish), Lowered(s, b, ReplicaPublish);
    var p: nat :| Laid(s, b, p);
    assert r.replica[..p] == s.replica[..p];
    assert Laid(r, c, p);
    forall id: nat | id != 0 ensures id in r.replica <==> Due(r, c, id) {
      assert id in r.replica <==> id in s.replica;
      assert Due(r, c, id) <==> Due(s, b, id);
    }
  }

  lemma StepTracked(s: World, b: Barrier, a: Act)
    requires Tracked(s, b) && Enabled(s, a)
    ensures Tracked(Step(s, a), Lowered(s, b, a))
  {
    if a.ReplicaApply? {
      SeesTracked(s, b);
    } else if a.ReplicaPublish? {
      LocalTracked(s, b);
    } else {
      hide Tracked, Delivered, Settled, Absorb;
      UnseenTracked(s, Step(s, a), b);
    }
  }

  lemma {:induction false} RunTracked(s: World, b: Barrier, run: seq<Act>)
    requires Tracked(s, b)
    ensures Tracked(Exec(s, run), BarrierAfter(s, b, run))
    decreases |run|
  {
    hide Tracked, Step, Lowered;
    if run != [] {
      if Enabled(s, run[0]) {
        StepTracked(s, b, run[0]);
        RunTracked(Step(s, run[0]), Lowered(s, b, run[0]), run[1..]);
      } else {
        RunTracked(s, b, run[1..]);
      }
    }
  }

  // ---- watermarks are behind what they cover ----

  ghost predicate MarksBehind(s: World) {
    && (forall i :: 0 <= i < |s.log| && s.log[i].Consume? ==> s.log[i].w <= i)
    && (s.t.replicated == 0 || s.t.replicated in s.sent)
  }

  lemma StepMarksBehind(s: World, a: Act)
    requires Inv(s) && MarksBehind(s) && Enabled(s, a)
    ensures MarksBehind(Step(s, a))
  {
    if a.Append? && a.op.Consume? {
      assert a.op.w <= Mark(s.t) <= s.t.hi;
    }
    hide Inv, Insert, Remove, Absorb;
  }

  lemma {:induction false} RunMarksBehind(s: World, run: seq<Act>)
    requires Inv(s) && MarksBehind(s)
    ensures MarksBehind(Exec(s, run))
    decreases |run|
  {
    hide Inv, MarksBehind, Step;
    if run != [] {
      if Enabled(s, run[0]) {
        StepKeepsInv(s, run[0]);
        StepMarksBehind(s, run[0]);
        RunMarksBehind(Step(s, run[0]), run[1..]);
      } else {
        RunMarksBehind(s, run[1..]);
      }
    }
  }

  lemma StartTracked()
    ensures Tracked(START, Open) && MarksBehind(START)
  {
    assert Laid(START, Open, 0);
  }

  // ---- what follows in every run ----

  /** In every run a replica holds exactly: the publishes it was told of that came in behind a publish of its own, or are
      above every watermark it was told of. */
  lemma ReplicaHoldsExactly(run: seq<Act>, id: nat)
    requires id != 0
    ensures var e, b := Exec(START, run), BarrierAfter(START, Open, run);
            id in e.replica <==>
              && Published(e.log, id) && id <= e.seen
              && ((b.From? && id > b.seen)
                  || forall i :: 0 <= i < e.seen && i < |e.log| && e.log[i].Consume? ==> e.log[i].w < id)
  {
    StartTracked();
    StartInv();
    RunTracked(START, Open, run);
    RunMarksBehind(START, run);
    hide Exec, BarrierAfter;
    var e := Exec(START, run);
    assert Outlasts(e.log, e.seen, id) <==>
             forall i :: 0 <= i < e.seen && i < |e.log| && e.log[i].Consume? ==> e.log[i].w < id;
  }

  /** Without publishes of its own it has no barrier. */
  lemma {:induction false} NoBarrier(s: World, run: seq<Act>)
    requires forall i :: 0 <= i < |run| ==> !run[i].ReplicaPublish?
    ensures BarrierAfter(s, Open, run) == Open
    decreases |run|
  {
    hide Step;
    if run != [] {
      if Enabled(s, run[0]) {
        NoBarrier(Step(s, run[0]), run[1..]);
      } else {
        NoBarrier(s, run[1..]);
      }
    }
  }

  /** In every run: after a watermark is applied, what is then in front is a publish of its own or above it. */
  lemma FrontIsAbove(run: seq<Act>)
    ensures var e := Exec(START, run);
            e.seen < |e.log| && e.log[e.seen].Consume? && Step(e, ReplicaApply).replica != [] ==>
              var front := Step(e, ReplicaApply).replica[0]; front == 0 || front > e.log[e.seen].w
  {
    hide Exec;
    var e := Exec(START, run);
    if e.seen < |e.log| && e.log[e.seen].Consume? { CoveredStops(e.replica, e.log[e.seen].w); }
  }

  lemma {:induction false} CoveredStops(ids: seq<nat>, w: nat)
    ensures var k := Covered(ids, w); k < |ids| ==> ids[k] == 0 || ids[k] > w
  {
    if ids != [] && ids[0] != 0 && ids[0] <= w { CoveredStops(ids[1..], w); }
  }

  // ---- from settling to draining ----

  function Applies(n: nat): (run: seq<Act>)
    ensures |run| == n && forall i :: 0 <= i < n ==> run[i] == ReplicaApply
  {
    seq(n, _ => ReplicaApply)
  }

  lemma {:induction false} CatchUp(s: World, n: nat)
    requires s.seen + n == |s.log|
    ensures Exec(s, Applies(n)).seen == |s.log| && Exec(s, Applies(n)).log == s.log
    decreases n
  {
    if n > 0 {
      assert Applies(n)[1..] == Applies(n - 1);
      CatchUp(Step(s, ReplicaApply), n - 1);
    }
  }

  /** Once reported, the current watermark can be logged. */
  lemma ReportSends(s: World)
    requires Inv(s) && MarksBehind(s) && Mark(s.t) > 0
    ensures Mark(s.t) in Step(s, Report).sent && Step(s, Report).log == s.log && Step(s, Report).seen == s.seen
  {
  }

  /** In every run: report the watermark, log it, let the replica catch up, and it holds nothing at or below the
      watermark but what a publish of its own keeps back. */
  lemma ReportedIsDrained(run: seq<Act>, id: nat)
    ensures var s := Exec(START, run);
            var w := Mark(s.t);
            w > 0 && s.seen <= |s.log| ==>
              var tail := [Report, Append(Consume(w))] + Applies(|s.log| + 1 - s.seen);
              var e, b := Exec(s, tail), BarrierAfter(START, Open, run + tail);
              id in e.replica ==> id > w || id == 0 || (b.From? && id > b.seen)
  {
    StartTracked();
    StartInv();
    RunKeepsInv(START, run);
    RunMarksBehind(START, run);
    hide BarrierAfter, Inv, MarksBehind, Mark;
    var s := Exec(START, run);
    var w := Mark(s.t);
    if w > 0 && s.seen <= |s.log| {
      ReportSends(s);
      var n := |s.log| + 1 - s.seen;
      var t := Step(s, Report);
      var u := Step(t, Append(Consume(w)));
      FirstAct(s, Report, [Append(Consume(w))] + Applies(n));
      FirstAct(t, Append(Consume(w)), Applies(n));
      var tail := [Report, Append(Consume(w))] + Applies(n);
      assert tail == [Report] + ([Append(Consume(w))] + Applies(n));
      CatchUp(u, n);
      AstrayGrows(START, run, tail);
      var e := Exec(s, tail);
      assert e.log[|s.log|] == Consume(w) && e.seen == |s.log| + 1;
      if id != 0 { ReplicaHoldsExactly(run + tail, id); }
    }
  }
}
