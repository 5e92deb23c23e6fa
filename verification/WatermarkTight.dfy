/** When the watermark is tight: which unsettled ids still stand for a message, in every run. */
module WatermarkTight {
  import opened Watermark
  import opened WatermarkRuns

  /** A message handed out before and put back goes astray when it is handed out with nothing to settle. */
  function Strays(s: World, a: Act): (ids: set<nat>) {
    if a.Deliver? && a.noAck && s.ready != [] && s.ready[0] != 0 && s.ready[0] in s.t.unacked then {s.ready[0]} else {}
  }

  /** The ids that went astray along a run. */
  function Astray(s: World, run: seq<Act>): (ids: set<nat>)
    decreases |run|
  {
    if run == [] then {}
    else if Enabled(s, run[0]) then Strays(s, run[0]) + Astray(Step(s, run[0]), run[1..])
    else Astray(s, run[1..])
  }

  ghost predicate Standing(s: World, id: nat) {
    id in s.ready || id in s.held
  }

  /** The unsettled ids that stand for no message are those gone astray. */
  ghost predicate Accounted(s: World, astray: set<nat>) {
    forall id :: id in astray <==> id in s.t.unacked && !Standing(s, id)
  }

  lemma DeliverAccounted(s: World, noAck: bool, astray: set<nat>)
    requires Inv(s) && s.ready != [] && Accounted(s, astray)
    ensures var a := Deliver(noAck);
            Accounted(Step(s, a), astray + Strays(s, a))
  {
    var r, c := Step(s, Deliver(noAck)), s.ready[0];
    DeliverOk(s.t, c, noAck);
    hide Delivered;
    assert c != 0 ==> c !in r.ready && c !in s.held;
    forall id | id != c ensures id in r.ready <==> id in s.ready {
      assert s.ready == [c] + r.ready;
    }
    assert 0 !in s.t.unacked;
  }

  lemma AckAccounted(s: World, c: nat, astray: set<nat>)
    requires Inv(s) && c in s.held && Accounted(s, astray)
    ensures Accounted(Step(s, Ack(c)), astray)
  {
    AckOk(s.t, c);
    hide Settled;
  }

  lemma RequeueAccounted(s: World, c: nat, astray: set<nat>)
    requires c in s.held && Accounted(s, astray)
    ensures Accounted(Step(s, Requeue(c)), astray)
  {
    var r := Step(s, Requeue(c));
    assert forall id :: id in r.ready <==> id in s.ready || id == c;
  }

  lemma ApplyAccounted(s: World, a: Act, astray: set<nat>)
    requires Inv(s) && Enabled(s, a) && (a.Apply? || a.LocalPublish?) && Accounted(s, astray)
    ensures Accounted(Step(s, a), astray)
  {
    if a.Apply? { ApplyKeeps(s); }
    var r := Step(s, a);
    assert forall id :: id in s.t.unacked ==> 0 != id <= s.applied;
    assert forall id :: id in s.t.unacked ==> (id in r.ready <==> id in s.ready);
  }

  lemma StepAccounted(s: World, a: Act, astray: set<nat>)
    requires Inv(s) && Enabled(s, a) && Accounted(s, astray)
    ensures Accounted(Step(s, a), astray + Strays(s, a))
  {
    hide Inv, Delivered, Settled, Absorb;
    match a {
      case Apply => ApplyAccounted(s, a, astray);
      case LocalPublish => ApplyAccounted(s, a, astray);
      case Deliver(noAck) => DeliverAccounted(s, noAck, astray);
      case Ack(c) => AckAccounted(s, c, astray);
      case Requeue(c) => RequeueAccounted(s, c, astray);
      case _ =>
    }
  }

  lemma {:induction false} RunAccounted(s: World, run: seq<Act>, astray: set<nat>)
    requires Inv(s) && Accounted(s, astray)
    ensures Accounted(Exec(s, run), astray + Astray(s, run))
    decreases |run|
  {
    hide Inv, Step, Accounted, Strays;
    if run == [] {
      assert astray + {} == astray;
    } else if Enabled(s, run[0]) {
      var first, next := Strays(s, run[0]), Step(s, run[0]);
      StepKeepsInv(s, run[0]);
      StepAccounted(s, run[0], astray);
      RunAccounted(next, run[1..], astray + first);
      assert astray + first + Astray(next, run[1..]) == astray + (first + Astray(next, run[1..]));
    } else {
      RunAccounted(s, run[1..], astray);
    }
  }

  /** In every run: the unsettled ids that stand for no message are exactly those gone astray. */
  lemma UnsettledStands(run: seq<Act>, id: nat)
    ensures var s := Exec(START, run);
            id in s.t.unacked ==> (Standing(s, id) <==> id !in Astray(START, run))
    ensures id in Astray(START, run) ==> id in Exec(START, run).t.unacked
  {
    StartInv();
    RunAccounted(START, run, {});
    assert {} + Astray(START, run) == Astray(START, run);
  }

  /** In every run, every unsettled id stands for a message if and only if none has gone astray. */
  lemma AllStandIff(run: seq<Act>)
    ensures var s := Exec(START, run);
            (forall id :: id in s.t.unacked ==> Standing(s, id)) <==> Astray(START, run) == {}
  {
    hide Exec, Astray, Standing;
    var s := Exec(START, run);
    forall id | id in s.t.unacked || id in Astray(START, run)
      ensures id in s.t.unacked && (Standing(s, id) <==> id !in Astray(START, run))
    {
      UnsettledStands(run, id);
    }
  }

  /** In every run, the oldest live id reported is one of a message if and only if it has not gone astray. */
  lemma OldestStandsIff(run: seq<Act>)
    ensures var s := Exec(START, run);
            var o := OldestLive(s.t, s.ready);
            o.At? ==> (Standing(s, o.id) <==> o.id !in Astray(START, run))
  {
    hide Exec, Astray;
    var s := Exec(START, run);
    var o := OldestLive(s.t, s.ready);
    if o.At? {
      UnsettledStands(run, o.id);
      if s.t.unacked == [] { FirstReplicatedIs(s.ready); }
    }
  }

  lemma {:induction false} AstrayGrows(s: World, run: seq<Act>, more: seq<Act>)
    ensures Exec(s, run + more) == Exec(Exec(s, run), more) && Astray(s, run) <= Astray(s, run + more)
    decreases |run|
  {
    hide Step, Strays;
    if run == [] {
      assert run + more == more;
    } else {
      assert (run + more)[1..] == run[1..] + more;
      if Enabled(s, run[0]) {
        AstrayGrows(Step(s, run[0]), run[1..], more);
      } else {
        AstrayGrows(s, run[1..], more);
      }
    }
  }

  /** An id once astray is never settled: the watermark stays below it for ever. */
  lemma AstrayForEver(run: seq<Act>, more: seq<Act>, id: nat)
    requires id in Astray(START, run)
    ensures var e := Exec(Exec(START, run), more);
            id in e.t.unacked && !Standing(e, id) && Mark(e.t) < id
  {
    AstrayGrows(START, run, more);
    hide Exec, Astray, Step;
    var e := Exec(START, run + more);
    StartInv();
    RunKeepsInv(START, run + more);
    UnsettledStands(run + more, id);
    MarkBelow(e.t, id);
  }

  // ---- such a run ----

  const BACK_AND_AUTO: seq<Act> := [Append(Publish), Apply, Deliver(false), Requeue(1), Deliver(true)]

  lemma FirstAct(s: World, a: Act, rest: seq<Act>)
    requires Enabled(s, a)
    ensures Exec(s, [a] + rest) == Exec(Step(s, a), rest)
  {
    assert ([a] + rest)[1..] == rest;
  }

  /** One message, published, put back and then taken with nothing to settle: nothing is left, yet the watermark stays at
      0 and the id is reported as the oldest live one. */
  lemma WatermarkStuck()
    ensures var s := Exec(START, BACK_AND_AUTO);
            && s.ready == [] && s.held == {} && Mark(s.t) == 0 && OldestLive(s.t, s.ready) == At(1)
            && 1 in Astray(START, BACK_AND_AUTO)
  {
    var published := START.(log := [Publish]);
    var applied := published.(applied := 1, ready := [1]);
    var out := applied.(ready := [], held := {1}, t := Tracker([1], 1, 0));
    var back := out.(ready := [1], held := {});
    var taken := back.(ready := []);
    assert Step(START, Append(Publish)) == published;
    assert Step(published, Apply) == applied;
    assert Step(applied, Deliver(false)) == out;
    assert Step(out, Requeue(1)) == back;
    assert Step(back, Deliver(true)) == taken;
    FirstAct(back, Deliver(true), []);
    FirstAct(out, Requeue(1), [Deliver(true)]);
    FirstAct(applied, Deliver(false), [Requeue(1), Deliver(true)]);
    FirstAct(published, Apply, [Deliver(false), Requeue(1), Deliver(true)]);
    FirstAct(START, Append(Publish), [Apply, Deliver(false), Requeue(1), Deliver(true)]);
    assert Exec(START, BACK_AND_AUTO) == taken;
    UnsettledStands(BACK_AND_AUTO, 1);
  }
}
