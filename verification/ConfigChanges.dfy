/** Every operation the snapshot carries: topology, deletes, users and permissions. A list without repeats is faithful
    exactly as long as no repeated operation takes effect. */
module ConfigChanges {
  import opened Exchanges
  import opened Sequences
  import opened Snapshots
  import opened Topology
  import opened TopologyLog

  const HASH_MAX: nat := 128
  const PATTERN_MAX: nat := 256

  datatype User = User(hash: string, tags: nat)

  /** The patterns of the names a user may configure, write and read. */
  datatype Perm = Perm(configure: string, write: string, read: string)

  /** What recovery rebuilds; `claimed` says that some user has ever been added. */
  datatype Config = Config(topo: Topo, users: map<string, User>, perms: map<(string, string), Perm>, claimed: bool)

  const EMPTY: Config := Config(NOTHING, map[], map[], false)

  datatype Change =
    | Made(op: Op)
    | DeleteQueue(q: Id)
    | DeleteVhost(v: string)
    | AddUser(u: string, user: User)
    | DeleteUser(u: string)
    | SetPerm(u: string, v: string, perm: Perm)
    | ClearPerm(u: string, v: string)

  /** Deleting a queue that exists removes it and every binding to it. */
  function WithoutQueue(t: Topo, q: Id): (r: Topo) {
    if q !in t.queues then t
    else Topo(t.queues - {q},
              map x | x in t.exchanges :: t.exchanges[x].(bindings := SwapRemoved(t.exchanges[x].bindings, 0, q)),
              t.vhosts)
  }

  /** The last virtual host fills the gap. */
  function WithoutVhost(vhosts: seq<string>, v: string): (r: seq<string>)
    ensures v in vhosts ==> |r| == |vhosts| - 1
    ensures v !in vhosts ==> r == vhosts
  {
    if v !in vhosts then vhosts
    else
      var i := Find(vhosts, v);
      vhosts[i := vhosts[|vhosts| - 1]][..|vhosts| - 1]
  }

  function Find(vhosts: seq<string>, v: string): (i: nat)
    requires v in vhosts
    ensures i < |vhosts| && vhosts[i] == v
  {
    if vhosts[0] == v then 0 else 1 + Find(vhosts[1..], v)
  }

  predicate Refused(c: Change) {
    match c
    case AddUser(u, user) => |u| >= NAME_MAX || |user.hash| >= HASH_MAX
    case SetPerm(u, v, p) =>
      || |u| >= NAME_MAX || |v| >= NAME_MAX
      || |p.configure| >= PATTERN_MAX || |p.write| >= PATTERN_MAX || |p.read| >= PATTERN_MAX
    case _ => false
  }

  function Apply1(s: Config, c: Change): (r: Config) {
    if Refused(c) then s
    else
      match c
      case Made(op) => s.(topo := Apply(s.topo, op))
      case DeleteQueue(q) => s.(topo := WithoutQueue(s.topo, q))
      case DeleteVhost(v) =>
        if v !in s.topo.vhosts then s
        else s.(topo := s.topo.(vhosts := WithoutVhost(s.topo.vhosts, v)),
                perms := map k | k in s.perms && k.1 != v :: s.perms[k])
      case AddUser(u, user) => s.(users := s.users[u := user], claimed := true)
      case DeleteUser(u) =>
        if u !in s.users then s else s.(users := s.users - {u}, perms := map k | k in s.perms && k.0 != u :: s.perms[k])
      case SetPerm(u, v, p) => s.(perms := s.perms[(u, v) := p])
      case ClearPerm(u, v) => s.(perms := s.perms - {(u, v)})
  }

  // ---- when an operation changes nothing ----

  ghost predicate OpIdle(t: Topo, op: Op) {
    match op
    case Bind(b, x) => !Endpoints(t, op) || b in t.exchanges[x].bindings
    case _ => InEffect(t, op)
  }

  /** What the operation would do is done already, or cannot be done. */
  ghost predicate Idle(s: Config, c: Change) {
    match c
    case Made(op) => OpIdle(s.topo, op)
    case DeleteQueue(q) => q !in s.topo.queues
    case DeleteVhost(v) => v !in s.topo.vhosts
    case AddUser(u, user) => Refused(c) || (s.claimed && u in s.users && s.users[u] == user)
    case DeleteUser(u) => u !in s.users
    case SetPerm(u, v, p) => Refused(c) || ((u, v) in s.perms && s.perms[(u, v)] == p)
    case ClearPerm(u, v) => (u, v) !in s.perms
  }

  lemma OpIdleIff(t: Topo, op: Op)
    ensures Apply(t, op) == t <==> OpIdle(t, op)
  {
    if OpIdle(t, op) {
      if !op.Bind? { AgainIsNothing(t, op); }
    } else if Apply(t, op) == t {
      TakesEffect(t, op);
      assert false;
    }
  }

  lemma DeleteIdleIff(t: Topo, q: Id)
    ensures WithoutQueue(t, q) == t <==> q !in t.queues
  {
    if q in t.queues { assert q !in WithoutQueue(t, q).queues; }
  }

  /** An operation changes nothing exactly when it is idle. */
  lemma IdleIff(s: Config, c: Change)
    ensures Apply1(s, c) == s <==> Idle(s, c)
  {
    match c {
      case Made(op) => OpIdleIff(s.topo, op);
      case DeleteQueue(q) => DeleteIdleIff(s.topo, q);
      case DeleteVhost(v) =>
      case AddUser(u, user) =>
        if !Refused(c) && Apply1(s, c) == s { assert s.users[u := user][u] == user && u in s.users[u := user]; }
      case DeleteUser(u) =>
        if u in s.users { assert u !in (s.users - {u}); }
      case SetPerm(u, v, p) =>
        if !Refused(c) && Apply1(s, c) == s {
          assert s.perms[(u, v) := p][(u, v)] == p && (u, v) in s.perms[(u, v) := p];
        }
      case ClearPerm(u, v) =>
        if (u, v) in s.perms { assert (u, v) !in (s.perms - {(u, v)}); }
    }
  }

  // ---- histories ----

  ghost function After(cs: seq<Change>): (s: Config) {
    Fold(Apply1, EMPTY, cs)
  }

  /** A repeated operation finds nothing to do. */
  ghost predicate RepeatsIdle(cs: seq<Change>) {
    forall j :: 0 <= j < |cs| && cs[j] in cs[..j] ==> Idle(After(cs[..j]), cs[j])
  }

  lemma RepeatsIdleIff(cs: seq<Change>)
    ensures RepeatsIdle(cs) <==> forall j :: 0 <= j < |cs| && cs[j] in cs[..j] ==> IdleAt(Apply1, EMPTY, cs, j)
  {
    hide Apply1, Idle, Fold;
    forall j | 0 <= j < |cs| ensures IdleAt(Apply1, EMPTY, cs, j) <==> Idle(After(cs[..j]), cs[j]) {
      IdleIff(After(cs[..j]), cs[j]);
    }
  }

  /** For every history, deletes included: the list without repeats rebuilds the configuration at every moment if and
      only if no repeated operation ever took effect. */
  lemma ChangesFaithfulIff(cs: seq<Change>)
    ensures (forall n :: 0 <= n <= |cs| ==> After(Dedup(cs[..n])) == After(cs[..n])) <==> RepeatsIdle(cs)
  {
    hide Apply1, Fold, Dedup, RepeatsIdle;
    RepeatsIdleIff(cs);
    FaithfulThroughoutIff(Apply1, EMPTY, cs);
    forall n | 0 <= n <= |cs| ensures FaithfulAt(Apply1, EMPTY, cs, n) <==> After(Dedup(cs[..n])) == After(cs[..n]) {}
  }

  /** What recovery rebuilds from the bytes kept for a history. */
  ghost function Rebuilt(cs: seq<Change>, enc: Change -> Rec, dec: Rec -> Change): (s: Config) {
    After(Decoded(Records(Blob(Remembered(cs, enc))), dec))
  }

  /** The same through bytes: whenever the snapshot is taken, recovery from it rebuilds the configuration, if and only if
      no repeated operation ever took effect. */
  lemma ChangesRebuildIff(cs: seq<Change>, enc: Change -> Rec, dec: Rec -> Change)
    requires Codec(cs, enc, dec)
    ensures (forall n :: 0 <= n <= |cs| ==> Rebuilt(cs[..n], enc, dec) == After(cs[..n])) <==> RepeatsIdle(cs)
  {
    hide Codec, After, Dedup, RepeatsIdle, Records, Blob, Remembered;
    forall n | 0 <= n <= |cs| ensures Rebuilt(cs[..n], enc, dec) == After(Dedup(cs[..n])) {
      FewerOps(cs, cs[..n], enc, dec);
      ReadBack(cs[..n], enc, dec);
    }
    ChangesFaithfulIff(cs);
  }

  // ---- repeats that take effect ----

  lemma TwoChanges(a: Change, b: Change)
    ensures After([a, b]) == Apply1(Apply1(EMPTY, a), b)
    ensures Dedup([a, b]) == if a == b then [a] else [a, b]
  {
    hide Apply1;
    FoldPush(Apply1, EMPTY, [], a);
    FoldPush(Apply1, EMPTY, [a], b);
    DedupPush([], a);
    DedupPush([a], b);
    assert [] + [a] == [a] && [a] + [b] == [a, b];
  }

  lemma ThreeChanges(a: Change, b: Change)
    requires a != b
    ensures After([a, b, a]) == Apply1(After([a, b]), a)
    ensures Dedup([a, b, a]) == [a, b] && [a, b, a][..2] == [a, b]
  {
    TwoChanges(a, b);
    hide Apply1, Fold, Dedup;
    FoldPush(Apply1, EMPTY, [a, b], a);
    DedupPush([a, b], a);
    assert [a, b] + [a] == [a, b, a];
    assert a == [a, b][0];
  }

  /** An operation, its undoing, and the operation again: lost exactly when the undoing undid something for it to do. */
  lemma UndoneAndRepeated(a: Change, b: Change)
    requires a != b
    ensures After(Dedup([a, b, a])) == After([a, b, a]) <==> Idle(After([a, b]), a)
    ensures !Idle(After([a, b]), a) ==> !RepeatsIdle([a, b, a])
  {
    var cs := [a, b, a];
    ThreeChanges(a, b);
    IdleIff(After([a, b]), a);
    hide After, Idle, Apply1, Dedup;
    assert cs[2] == a && a == cs[..2][0] && a in cs[..2];
  }

  /** A queue declared, deleted and declared again is gone after a recovery. */
  lemma RedeclaredQueueIsLost(q: Id, d: QueueDecl)
    ensures var c := Made(DeclareQueue(q, d));
            var cs := [c, DeleteQueue(q), c];
            !RepeatsIdle(cs) && q in After(cs).topo.queues && q !in After(Dedup(cs)).topo.queues
  {
    var c := Made(DeclareQueue(q, d));
    TwoChanges(c, DeleteQueue(q));
    ThreeChanges(c, DeleteQueue(q));
    UndoneAndRepeated(c, DeleteQueue(q));
  }

  /** A permission set, changed and set back is the changed one after a recovery. */
  lemma RestoredPermIsLost(u: string, v: string, p: Perm, other: Perm)
    requires p != other && !Refused(SetPerm(u, v, p)) && !Refused(SetPerm(u, v, other))
    ensures var c, o := SetPerm(u, v, p), SetPerm(u, v, other);
            var cs := [c, o, c];
            && !RepeatsIdle(cs)
            && (u, v) in After(cs).perms && After(cs).perms[(u, v)] == p
            && (u, v) in After(Dedup(cs)).perms && After(Dedup(cs)).perms[(u, v)] == other
  {
    var c, o := SetPerm(u, v, p), SetPerm(u, v, other);
    TwoChanges(c, o);
    ThreeChanges(c, o);
    UndoneAndRepeated(c, o);
  }

  // ---- without deletes, users and permissions ----

  ghost function MadeAll(ops: seq<Op>): (cs: seq<Change>)
    ensures |cs| == |ops| && forall i :: 0 <= i < |ops| ==> cs[i] == Made(ops[i])
  {
    if ops == [] then [] else MadeAll(ops[..|ops| - 1]) + [Made(ops[|ops| - 1])]
  }

  lemma {:induction false} MadeReplays(ops: seq<Op>)
    ensures After(MadeAll(ops)) == EMPTY.(topo := Replay(NOTHING, ops)) && Dedup(MadeAll(ops)) == MadeAll(Dedup(ops))
  {
    if ops != [] {
      var init, x := ops[..|ops| - 1], ops[|ops| - 1];
      MadeReplays(init);
      FoldPush(Apply1, EMPTY, MadeAll(init), Made(x));
      DedupPush(MadeAll(init), Made(x));
      MadeMember(init, x);
      hide Apply;
      if x !in init { assert (Dedup(init) + [x])[..|Dedup(init)|] == Dedup(init); }
    }
  }

  lemma MadeMember(ops: seq<Op>, x: Op)
    ensures Made(x) in MadeAll(ops) <==> x in ops
  {
    if x in ops {
      var i :| 0 <= i < |ops| && ops[i] == x;
      assert MadeAll(ops)[i] == Made(x);
    }
  }

  /** There the condition comes down to binds being on time. */
  lemma OnlyBindsRepeatInVain(ops: seq<Op>)
    ensures RepeatsIdle(MadeAll(ops)) <==> BindsOnTime(ops)
  {
    hide After, RepeatsIdle, Replay, Dedup, BindsOnTime, MadeAll;
    var cs := MadeAll(ops);
    ChangesFaithfulIff(cs);
    forall n | 0 <= n <= |ops| ensures After(Dedup(cs[..n])) == After(cs[..n]) <==> BindsOnTime(ops[..n]) {
      assert cs[..n] == MadeAll(ops[..n]);
      MadeReplays(ops[..n]);
      MadeReplays(Dedup(ops[..n]));
      SnapshotFaithfulIff(ops[..n]);
    }
    assert ops[..|ops|] == ops;
    if BindsOnTime(ops) {
      forall n | 0 <= n <= |ops| ensures BindsOnTime(ops[..n]) { OnTimePrefix(ops, n); }
    }
  }
}
