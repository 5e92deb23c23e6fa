/** The topology that a snapshot carries: a list of operations without repeats, replayed on recovery. */
module Topology {
  import opened Exchanges
  import opened Queues
  import opened Sequences

  datatype QueueDecl = QueueDecl(flags: nat, policy: Policy)

  datatype ExchangeDecl = ExchangeDecl(kind: Kind, flags: nat, bindings: seq<Binding>)

  datatype Topo = Topo(queues: map<Id, QueueDecl>, exchanges: map<Id, ExchangeDecl>, vhosts: seq<string>)

  const NOTHING: Topo := Topo(map[], map[], [])

  /** Names of this length or more are refused as virtual hosts and users. */
  const NAME_MAX: nat := 128

  /** Operations that only add. */
  datatype Op =
    | DeclareQueue(q: Id, decl: QueueDecl)
    | DeclareExchange(x: Id, kind: Kind, flags: nat)
    | Bind(b: Binding, exchange: Id)
    | AddVhost(v: string)

  /** The first declaration wins; a later one, matching or not, changes nothing. */
  function Declare(t: Topo, x: Id, kind: Kind, flags: nat): (r: Topo) {
    if x in t.exchanges then t else t.(exchanges := t.exchanges[x := ExchangeDecl(kind, flags, [])])
  }

  /** The exchanges every virtual host starts with. */
  function DeclareDefaults(t: Topo, v: string): (r: Topo) {
    Declare(Declare(Declare(t, Id(v, "amq.direct"), Direct, 0), Id(v, "amq.fanout"), Fanout, 0),
            Id(v, "amq.topic"), Topic, 0)
  }

  predicate Endpoints(t: Topo, op: Op)
    requires op.Bind?
  {
    op.exchange in t.exchanges && op.b.queue in t.queues
  }

  /** A new virtual host, unless its name is too long. */
  function Host(t: Topo, v: string): (r: Topo) {
    if v in t.vhosts || |v| >= NAME_MAX then t else t.(vhosts := t.vhosts + [v])
  }

  function Apply(t: Topo, op: Op): (r: Topo) {
    match op
    case DeclareQueue(q, d) => if q in t.queues then t else t.(queues := t.queues[q := d])
    case DeclareExchange(x, kind, flags) => Declare(t, x, kind, flags)
    case Bind(b, x) =>
      if !Endpoints(t, op) || b in t.exchanges[x].bindings then t
      else t.(exchanges := t.exchanges[x := t.exchanges[x].(bindings := t.exchanges[x].bindings + [b])])
    case AddVhost(v) =>
      DeclareDefaults(Host(t, v), v)
  }

  function Replay(t: Topo, ops: seq<Op>): (r: Topo) {
    if ops == [] then t else Apply(Replay(t, ops[..|ops| - 1]), ops[|ops| - 1])
  }

  // ---- what has taken effect stays in effect ----

  /** Applying the operation again would change nothing. */
  ghost predicate InEffect(t: Topo, op: Op) {
    match op
    case DeclareQueue(q, _) => q in t.queues
    case DeclareExchange(x, _, _) => x in t.exchanges
    case Bind(b, x) => x in t.exchanges && b in t.exchanges[x].bindings
    case AddVhost(v) =>
      (v in t.vhosts || |v| >= NAME_MAX) && Id(v, "amq.direct") in t.exchanges && Id(v, "amq.fanout") in t.exchanges
      && Id(v, "amq.topic") in t.exchanges
  }

  /** The later topology has at least what the earlier one has. */
  ghost predicate Grows(t: Topo, r: Topo) {
    && (forall q :: q in t.queues ==> q in r.queues)
    && (forall x :: x in t.exchanges ==> x in r.exchanges && t.exchanges[x].bindings <= r.exchanges[x].bindings)
    && (forall v :: v in t.vhosts ==> v in r.vhosts)
  }

  lemma DeclareGrows(t: Topo, x: Id, kind: Kind, flags: nat)
    ensures Grows(t, Declare(t, x, kind, flags))
  {
  }

  lemma GrowsTrans(t: Topo, u: Topo, r: Topo)
    requires Grows(t, u) && Grows(u, r)
    ensures Grows(t, r)
  {
  }

  lemma DefaultsGrow(t: Topo, v: string)
    ensures Grows(t, DeclareDefaults(t, v))
  {
    hide Grows, Declare;
    var a := Declare(t, Id(v, "amq.direct"), Direct, 0);
    var b := Declare(a, Id(v, "amq.fanout"), Fanout, 0);
    DeclareGrows(t, Id(v, "amq.direct"), Direct, 0);
    DeclareGrows(a, Id(v, "amq.fanout"), Fanout, 0);
    DeclareGrows(b, Id(v, "amq.topic"), Topic, 0);
    GrowsTrans(t, a, b);
    GrowsTrans(t, b, DeclareDefaults(t, v));
  }

  lemma ApplyGrows(t: Topo, op: Op)
    ensures Grows(t, Apply(t, op))
  {
    if op.AddVhost? {
      var u := Host(t, op.v);
      DefaultsGrow(u, op.v);
      hide DeclareDefaults;
      assert Grows(t, u);
      GrowsTrans(t, u, Apply(t, op));
    }
  }

  lemma InEffectStays(t: Topo, r: Topo, op: Op)
    requires InEffect(t, op) && Grows(t, r)
    ensures InEffect(r, op)
  {
    if op.Bind? {
      var i :| 0 <= i < |t.exchanges[op.exchange].bindings| && t.exchanges[op.exchange].bindings[i] == op.b;
      assert r.exchanges[op.exchange].bindings[i] == op.b;
    }
  }

  lemma AgainIsNothing(t: Topo, op: Op)
    requires InEffect(t, op)
    ensures Apply(t, op) == t
  {
  }

  lemma TakesEffect(t: Topo, op: Op)
    requires op.Bind? ==> Endpoints(t, op)
    ensures InEffect(Apply(t, op), op)
  {
  }

  lemma Split(t: Topo, ops: seq<Op>, x: Op)
    ensures Replay(t, ops + [x]) == Apply(Replay(t, ops), x)
  {
    assert (ops + [x])[..|ops|] == ops;
  }

  /** A declaration once made is never changed. */
  ghost predicate KeepsDeclarations(t: Topo, r: Topo) {
    && (forall q :: q in t.queues ==> q in r.queues && r.queues[q] == t.queues[q])
    && (forall x :: x in t.exchanges ==> x in r.exchanges && r.exchanges[x].kind == t.exchanges[x].kind
                                         && r.exchanges[x].flags == t.exchanges[x].flags)
  }

  lemma ApplyKeepsDeclarations(t: Topo, op: Op)
    ensures KeepsDeclarations(t, Apply(t, op))
  {
  }

  lemma {:induction false} ReplayKeepsDeclarations(t: Topo, ops: seq<Op>, n: nat)
    requires n <= |ops|
    ensures KeepsDeclarations(Replay(t, ops[..n]), Replay(t, ops))
    decreases |ops|
  {
    hide Apply, KeepsDeclarations;
    if n == |ops| {
      assert ops[..n] == ops;
      Unchanged(Replay(t, ops));
    } else {
      var init := ops[..|ops| - 1];
      assert init[..n] == ops[..n];
      ReplayKeepsDeclarations(t, init, n);
      ApplyKeepsDeclarations(Replay(t, init), ops[|ops| - 1]);
      DeclarationsTrans(Replay(t, ops[..n]), Replay(t, init), Replay(t, ops));
    }
  }

  lemma Unchanged(t: Topo)
    ensures KeepsDeclarations(t, t)
  {
  }

  lemma DeclarationsTrans(t: Topo, u: Topo, r: Topo)
    requires KeepsDeclarations(t, u) && KeepsDeclarations(u, r)
    ensures KeepsDeclarations(t, r)
  {
  }

  /** A queue's flags and policy, and an exchange's kind and flags, are those of its first declaration. */
  lemma FirstDeclarationWins(ops: seq<Op>, i: nat)
    requires i < |ops|
    ensures ops[i].DeclareQueue? && ops[i].q !in Replay(NOTHING, ops[..i]).queues ==>
              var r := Replay(NOTHING, ops);
              ops[i].q in r.queues && r.queues[ops[i].q] == ops[i].decl
    ensures ops[i].DeclareExchange? && ops[i].x !in Replay(NOTHING, ops[..i]).exchanges ==>
              var r := Replay(NOTHING, ops);
              && ops[i].x in r.exchanges && r.exchanges[ops[i].x].kind == ops[i].kind
              && r.exchanges[ops[i].x].flags == ops[i].flags
  {
    assert ops[..i + 1][..i] == ops[..i];
    ReplayKeepsDeclarations(NOTHING, ops, i + 1);
  }

  // ---- when replaying the short list is the same ----

  /** The first place an operation occurs. */
  function First(ops: seq<Op>, x: Op): (i: nat)
    requires x in ops
    ensures i < |ops| && ops[i] == x && forall j :: 0 <= j < i ==> ops[j] != x
  {
    if ops[0] == x then 0 else 1 + First(ops[1..], x)
  }

  /** A bind that ever found its queue and exchange found them the first time it occurred. */
  ghost predicate BindsOnTime(ops: seq<Op>) {
    forall j :: 0 <= j < |ops| && ops[j].Bind? && Endpoints(Replay(NOTHING, ops[..j]), ops[j]) ==>
      OnTime(ops, ops[j])
  }

  ghost predicate OnTime(ops: seq<Op>, x: Op)
    requires x.Bind? && x in ops
  {
    Endpoints(Replay(NOTHING, ops[..First(ops, x)]), x)
  }

  lemma FirstInPrefix(ops: seq<Op>, n: nat, x: Op)
    requires n <= |ops| && x in ops[..n]
    ensures x in ops && First(ops, x) == First(ops[..n], x) && ops[..n][..First(ops, x)] == ops[..First(ops, x)]
  {
    hide First;
    var i := First(ops[..n], x);
    assert ops[i] == x;
    assert forall j :: 0 <= j < i ==> ops[j] == ops[..n][j];
  }

  /** Every operation that has occurred is in effect, unless it is a bind whose ends are missing. */
  lemma {:induction false} OccurredInEffect(ops: seq<Op>, x: Op)
    requires x in ops && (x.Bind? ==> OnTime(ops, x))
    ensures InEffect(Replay(NOTHING, ops), x)
  {
    hide First, Apply, InEffect, Endpoints, Grows;
    var n := |ops| - 1;
    var init, last := ops[..n], ops[n];
    if x in init {
      FirstInPrefix(ops, n, x);
      OccurredInEffect(init, x);
      ApplyGrows(Replay(NOTHING, init), last);
      InEffectStays(Replay(NOTHING, init), Replay(NOTHING, ops), x);
    } else {
      FirstIsLast(ops, x);
      TakesEffect(Replay(NOTHING, init), last);
    }
  }

  lemma FirstIsLast(ops: seq<Op>, x: Op)
    requires x in ops && x !in ops[..|ops| - 1]
    ensures First(ops, x) == |ops| - 1 && ops[|ops| - 1] == x
  {
    hide First;
    assert forall j :: 0 <= j < |ops| - 1 ==> ops[j] == ops[..|ops| - 1][j];
  }

  lemma OnTimePrefix(ops: seq<Op>, n: nat)
    requires BindsOnTime(ops) && n <= |ops|
    ensures BindsOnTime(ops[..n])
  {
    hide First, Apply, Endpoints, Replay;
    forall j | 0 <= j < n && ops[..n][j].Bind? && Endpoints(Replay(NOTHING, ops[..n][..j]), ops[..n][j])
      ensures OnTime(ops[..n], ops[..n][j])
    {
      assert ops[..n][..j] == ops[..j] && ops[..n][j] == ops[j];
      assert OnTime(ops, ops[j]);
      FirstInPrefix(ops, n, ops[j]);
    }
  }

  /** If binds are on time, replaying the short list rebuilds the same topology and policies. */
  lemma {:induction false} DedupPreserves(ops: seq<Op>)
    requires BindsOnTime(ops)
    ensures Replay(NOTHING, Dedup(ops)) == Replay(NOTHING, ops)
  {
    hide First, Apply, InEffect, BindsOnTime, Dedup, OnTime;
    if ops != [] {
      var n := |ops| - 1;
      var init, x := ops[..n], ops[n];
      assert ops == init + [x];
      OnTimePrefix(ops, n);
      DedupPreserves(init);
      DedupPush(init, x);
      if x in init {
        RepeatIsNothing(ops, init, x);
      } else {
        Split(NOTHING, Dedup(init), x);
      }
    } else {
      assert Dedup<Op>([]) == [] by { NoOps(); }
    }
  }

  lemma NoOps()
    ensures Dedup<Op>([]) == []
  {
  }

  lemma RepeatIsNothing(ops: seq<Op>, init: seq<Op>, x: Op)
    requires ops == init + [x] && x in init && BindsOnTime(ops)
    ensures Replay(NOTHING, ops) == Replay(NOTHING, init)
  {
    hide First, InEffect;
    Split(NOTHING, init, x);
    var t := Replay(NOTHING, init);
    if x.Bind? && !Endpoints(t, x) {
      assert Apply(t, x) == t;
    } else {
      hide Apply;
      assert ops[..|init|] == init && ops[|init|] == x;
      FirstInPrefix(ops, |init|, x);
      OccurredInEffect(init, x);
      AgainIsNothing(t, x);
    }
  }

  // ---- and only then ----

  ghost predicate SameNames(t: Topo, r: Topo) {
    t.queues.Keys == r.queues.Keys && t.exchanges.Keys == r.exchanges.Keys
  }

  lemma ApplySameNames(t: Topo, r: Topo, op: Op)
    requires SameNames(t, r)
    ensures SameNames(Apply(t, op), Apply(r, op))
  {
    if op.AddVhost? {
      var v := op.v;
      var u := Host(t, v);
      var w := Host(r, v);
      hide Declare, SameNames;
      assert SameNames(u, w) by { VhostSameNames(t, r, u, w); }
      DeclareSameNames(u, w, Id(v, "amq.direct"), Direct, 0);
      var a, b := Declare(u, Id(v, "amq.direct"), Direct, 0), Declare(w, Id(v, "amq.direct"), Direct, 0);
      DeclareSameNames(a, b, Id(v, "amq.fanout"), Fanout, 0);
      DeclareSameNames(Declare(a, Id(v, "amq.fanout"), Fanout, 0), Declare(b, Id(v, "amq.fanout"), Fanout, 0),
                       Id(v, "amq.topic"), Topic, 0);
    }
  }

  lemma VhostSameNames(t: Topo, r: Topo, u: Topo, w: Topo)
    requires SameNames(t, r) && u == t.(vhosts := u.vhosts) && w == r.(vhosts := w.vhosts)
    ensures SameNames(u, w)
  {
  }

  lemma DeclareSameNames(t: Topo, r: Topo, x: Id, kind: Kind, flags: nat)
    requires SameNames(t, r)
    ensures SameNames(Declare(t, x, kind, flags), Declare(r, x, kind, flags))
  {
  }

  /** Whatever the binds do, the short list declares the same names. */
  lemma {:induction false} DedupNames(ops: seq<Op>)
    ensures SameNames(Replay(NOTHING, Dedup(ops)), Replay(NOTHING, ops))
    ensures forall x :: x in ops && !x.Bind? ==> InEffect(Replay(NOTHING, Dedup(ops)), x)
  {
    hide Apply, Dedup, Grows, InEffect;
    if ops != [] {
      var n := |ops| - 1;
      var init, x := ops[..n], ops[n];
      assert ops == init + [x];
      DedupNames(init);
      DedupPush(init, x);
      var t, r := Replay(NOTHING, Dedup(init)), Replay(NOTHING, init);
      if x in init {
        RepeatSameNames(t, r, x);
      } else {
        Split(NOTHING, Dedup(init), x);
        ApplySameNames(t, r, x);
        ApplyGrows(t, x);
        forall y | y in ops && !y.Bind? ensures InEffect(Apply(t, x), y) {
          if y in init { InEffectStays(t, Apply(t, x), y); } else { TakesEffect(t, x); }
        }
      }
    } else {
      assert Dedup<Op>([]) == [] by { NoOps(); }
    }
  }

  lemma RepeatSameNames(t: Topo, r: Topo, x: Op)
    requires SameNames(t, r) && (!x.Bind? ==> InEffect(t, x))
    ensures SameNames(t, Apply(r, x))
  {
    ApplySameNames(t, r, x);
    if !x.Bind? { AgainIsNothing(t, x); }
  }

  /** A bind is in effect after a replay only if some occurrence of it found its ends. */
  lemma {:induction false} BoundBySomeone(ops: seq<Op>, x: Op) returns (p: nat)
    requires x.Bind? && InEffect(Replay(NOTHING, ops), x)
    ensures p < |ops| && ops[p] == x && Endpoints(Replay(NOTHING, ops[..p]), x)
  {
    var n := |ops| - 1;
    var init, last := ops[..n], ops[n];
    var t := Replay(NOTHING, init);
    if InEffect(t, x) {
      p := BoundBySomeone(init, x);
      assert init[..p] == ops[..p];
    } else {
      OnlyItselfBinds(t, last, x);
      p := n;
    }
  }

  lemma OnlyItselfBinds(t: Topo, op: Op, x: Op)
    requires x.Bind? && !InEffect(t, x) && InEffect(Apply(t, op), x)
    ensures op == x && Endpoints(t, x)
  {
    if op.Bind? {
    } else if op.DeclareExchange? {
      DeclareBindsNothing(t, op.x, op.kind, op.flags, x);
    } else if op.AddVhost? {
      var v := op.v;
      var u := Host(t, v);
      var a := Declare(u, Id(v, "amq.direct"), Direct, 0);
      var b := Declare(a, Id(v, "amq.fanout"), Fanout, 0);
      DeclareBindsNothing(u, Id(v, "amq.direct"), Direct, 0, x);
      DeclareBindsNothing(a, Id(v, "amq.fanout"), Fanout, 0, x);
      DeclareBindsNothing(b, Id(v, "amq.topic"), Topic, 0, x);
    }
  }

  lemma DeclareBindsNothing(t: Topo, e: Id, kind: Kind, flags: nat, x: Op)
    requires x.Bind?
    ensures InEffect(Declare(t, e, kind, flags), x) ==> InEffect(t, x)
  {
  }

  /** The short list up to an operation's first occurrence. */
  lemma {:induction false} DedupBefore(ops: seq<Op>, x: Op, p: nat)
    requires x in ops && p < |Dedup(ops)| && Dedup(ops)[p] == x
    ensures Dedup(ops)[..p] == Dedup(ops[..First(ops, x)])
  {
    hide First, Dedup;
    var n := |ops| - 1;
    var init, last := ops[..n], ops[n];
    assert ops == init + [last];
    DedupPush(init, last);
    if x in init {
      FirstInPrefix(ops, n, x);
      if p < |Dedup(init)| {
        DedupBefore(init, x, p);
        assert Dedup(ops)[..p] == Dedup(init)[..p];
      } else {
        assert false;
      }
    } else {
      FirstIsLast(ops, x);
      DedupAtEnd(init, x, p);
    }
  }

  lemma DedupAtEnd(init: seq<Op>, x: Op, p: nat)
    requires x !in init && p < |Dedup(init) + [x]| && (Dedup(init) + [x])[p] == x
    ensures (Dedup(init) + [x])[..p] == Dedup(init)
  {
    assert forall i :: 0 <= i < |Dedup(init)| ==> Dedup(init)[i] in init;
  }

  /** If the short list rebuilds the same topology then every bind that ever found its ends was on time. */
  lemma PreservedOnlyOnTime(ops: seq<Op>, j: nat)
    requires Replay(NOTHING, Dedup(ops)) == Replay(NOTHING, ops)
    requires j < |ops| && ops[j].Bind? && Endpoints(Replay(NOTHING, ops[..j]), ops[j])
    ensures OnTime(ops, ops[j])
  {
    hide First, Apply, Dedup, InEffect;
    var x := ops[j];
    BoundStays(ops, j);
    var p := BoundBySomeone(Dedup(ops), x);
    DedupBefore(ops, x, p);
    DedupNames(ops[..First(ops, x)]);
  }

  lemma {:induction false} BoundStays(ops: seq<Op>, j: nat)
    requires j < |ops| && ops[j].Bind? && Endpoints(Replay(NOTHING, ops[..j]), ops[j])
    ensures InEffect(Replay(NOTHING, ops), ops[j])
  {
    hide Apply, InEffect, Grows, Endpoints;
    var n := |ops| - 1;
    var init, last := ops[..n], ops[n];
    var t := Replay(NOTHING, init);
    if j < n {
      assert init[..j] == ops[..j] && init[j] == ops[j];
      BoundStays(init, j);
      ApplyGrows(t, last);
      InEffectStays(t, Apply(t, last), ops[j]);
    } else {
      TakesEffect(t, last);
    }
  }

  /** For every delete-free history: replaying the list without repeats rebuilds the same queues with the same policies,
      exchanges, bindings and virtual hosts if and only if each bind that ever found its ends did so the first time. */
  lemma SnapshotFaithfulIff(ops: seq<Op>)
    ensures Replay(NOTHING, Dedup(ops)) == Replay(NOTHING, ops) <==> BindsOnTime(ops)
  {
    hide First, Apply, Dedup, Replay, Endpoints, OnTime;
    if BindsOnTime(ops) { DedupPreserves(ops); }
    if Replay(NOTHING, Dedup(ops)) == Replay(NOTHING, ops) {
      forall j | 0 <= j < |ops| && ops[j].Bind? && Endpoints(Replay(NOTHING, ops[..j]), ops[j])
        ensures OnTime(ops, ops[j])
      {
        PreservedOnlyOnTime(ops, j);
      }
    }
  }

  /** A bind sent before its queue exists and repeated afterwards is lost from the short list, and with it from what
      recovery rebuilds. */
  lemma EarlyBindIsLost(q: Id, x: Id, key: string, d: QueueDecl)
    ensures var b := Bind(Binding(key, q), x);
            var ops := [b, DeclareQueue(q, d), DeclareExchange(x, Direct, 0), b];
            !BindsOnTime(ops) && Replay(NOTHING, Dedup(ops)) != Replay(NOTHING, ops)
  {
    var b := Bind(Binding(key, q), x);
    var ops := [b, DeclareQueue(q, d), DeclareExchange(x, Direct, 0), b];
    EarlyBindIsLate(q, x, key, d);
    SnapshotFaithfulIff(ops);
  }

  lemma EarlyBindIsLate(q: Id, x: Id, key: string, d: QueueDecl)
    ensures var b := Bind(Binding(key, q), x);
            !BindsOnTime([b, DeclareQueue(q, d), DeclareExchange(x, Direct, 0), b])
  {
    var b := Bind(Binding(key, q), x);
    var ops := [b, DeclareQueue(q, d), DeclareExchange(x, Direct, 0), b];
    assert ops[..3][..2][..1][..0] == [] && ops[..3][..2][..1] == [b] && ops[..3][..2] == [b, DeclareQueue(q, d)];
    assert Replay(NOTHING, ops[..0]) == NOTHING;
    assert Replay(NOTHING, ops[..1]) == NOTHING by { assert ops[..1][..0] == []; }
    assert q in Replay(NOTHING, ops[..2]).queues by { assert ops[..2][..1] == ops[..1]; }
    assert Endpoints(Replay(NOTHING, ops[..3]), b) by { assert ops[..3][..2] == ops[..2]; }
    assert ops[3] == b && First(ops, b) == 0;
    assert !OnTime(ops, ops[3]);
  }
}
