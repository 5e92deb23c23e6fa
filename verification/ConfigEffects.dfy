/** What each change to the configuration brings about, in every history. */
module ConfigEffects {
  import opened Exchanges
  import opened Sequences
  import opened Snapshots
  import opened Topology
  import opened ConfigChanges

  // ---- what every history keeps ----

  /** Bindings lead to queues that exist, and no virtual host is listed twice. */
  ghost predicate Sane(s: Config) {
    && (forall x, b :: x in s.topo.exchanges && b in s.topo.exchanges[x].bindings ==> b.queue in s.topo.queues)
    && Distinct(s.topo.vhosts)
  }

  /** Swap-removal leaves no binding to the queue and every other one as often as it was. */
  lemma {:induction false} SwapRemovedIs(bs: seq<Binding>, i: nat, q: Id, b: Binding)
    requires i <= |bs| && forall j :: 0 <= j < i ==> bs[j].queue != q
    ensures multiset(SwapRemoved(bs, i, q))[b] == if b.queue == q then 0 else multiset(bs)[b]
    decreases |bs| - i
  {
    if i == |bs| {
      if b.queue == q { assert b !in bs; }
    } else if bs[i].queue == q {
      SwapRemoveCounts(bs, i, b);
      SwapRemovedIs(bs[i := bs[|bs| - 1]][..|bs| - 1], i, q, b);
    } else {
      SwapRemovedIs(bs, i + 1, q, b);
    }
  }

  lemma RemovedVhost(vhosts: seq<string>, v: string)
    requires Distinct(vhosts)
    ensures Distinct(WithoutVhost(vhosts, v)) && forall w :: w in WithoutVhost(vhosts, v) <==> w in vhosts && w != v
  {
    if v in vhosts {
      var i, n := Find(vhosts, v), |vhosts| - 1;
      hide Find;
      var r := WithoutVhost(vhosts, v);
      forall w ensures w in r <==> w in vhosts && w != v {
        if w in vhosts && w != v {
          var j :| 0 <= j < |vhosts| && vhosts[j] == w;
          assert w == r[if j == n then i else j];
        }
      }
    }
  }

  /** One more exchange, without bindings. */
  lemma DeclareSane(s: Config, x: Id, kind: Kind, flags: nat)
    requires Sane(s)
    ensures Sane(s.(topo := Declare(s.topo, x, kind, flags)))
  {
  }

  lemma HostSane(s: Config, v: string)
    requires Sane(s)
    ensures Sane(s.(topo := DeclareDefaults(Host(s.topo, v), v)))
  {
    var a := s.(topo := Host(s.topo, v));
    assert Sane(a);
    hide Sane, Host, Declare;
    var b := a.(topo := Declare(a.topo, Id(v, "amq.direct"), Direct, 0));
    DeclareSane(a, Id(v, "amq.direct"), Direct, 0);
    var c := b.(topo := Declare(b.topo, Id(v, "amq.fanout"), Fanout, 0));
    DeclareSane(b, Id(v, "amq.fanout"), Fanout, 0);
    DeclareSane(c, Id(v, "amq.topic"), Topic, 0);
  }

  lemma AddsSane(s: Config, op: Op)
    requires Sane(s)
    ensures Sane(s.(topo := Apply(s.topo, op)))
  {
    match op {
      case DeclareQueue(_, _) =>
      case DeclareExchange(x, kind, flags) => DeclareSane(s, x, kind, flags);
      case Bind(_, _) =>
      case AddVhost(v) => HostSane(s, v);
    }
  }

  lemma DeleteSane(s: Config, q: Id)
    requires Sane(s)
    ensures Sane(s.(topo := WithoutQueue(s.topo, q)))
  {
    var r := WithoutQueue(s.topo, q);
    forall x, b | x in r.exchanges && b in r.exchanges[x].bindings ensures b.queue in r.queues {
      if q in s.topo.queues {
        SwapRemovedIs(s.topo.exchanges[x].bindings, 0, q, b);
        assert b in multiset(r.exchanges[x].bindings);
        assert b in s.topo.exchanges[x].bindings;
      }
    }
  }

  lemma ChangeSane(s: Config, c: Change)
    requires Sane(s)
    ensures Sane(Apply1(s, c))
  {
    match c {
      case Made(op) => AddsSane(s, op);
      case DeleteQueue(q) => DeleteSane(s, q);
      case DeleteVhost(v) => RemovedVhost(s.topo.vhosts, v);
      case _ =>
    }
  }

  lemma {:induction false} HistorySane(cs: seq<Change>)
    ensures Sane(After(cs))
  {
    if cs != [] {
      HistorySane(cs[..|cs| - 1]);
      ChangeSane(After(cs[..|cs| - 1]), cs[|cs| - 1]);
    }
  }

  // ---- deletes ----

  /** In every history, after a queue is deleted it is gone and nothing is bound to it; every other queue, exchange and
      binding is as it was. */
  lemma DeletedQueueIsGone(cs: seq<Change>, q: Id)
    ensures var s, r := After(cs), Apply1(After(cs), DeleteQueue(q));
            && r.topo.queues == s.topo.queues - {q} && r.topo.exchanges.Keys == s.topo.exchanges.Keys
            && r == s.(topo := s.topo.(queues := r.topo.queues, exchanges := r.topo.exchanges))
            && (forall x, b :: x in r.topo.exchanges && b in r.topo.exchanges[x].bindings ==> b.queue != q)
            && (forall x, b: Binding :: x in s.topo.exchanges && b.queue != q ==>
                  multiset(r.topo.exchanges[x].bindings)[b] == multiset(s.topo.exchanges[x].bindings)[b])
            && forall x :: x in s.topo.exchanges ==>
                 r.topo.exchanges[x] == s.topo.exchanges[x].(bindings := r.topo.exchanges[x].bindings)
  {
    HistorySane(cs);
    hide After;
    var s, r := After(cs), Apply1(After(cs), DeleteQueue(q));
    forall x, b: Binding | x in s.topo.exchanges && q in s.topo.queues
      ensures multiset(r.topo.exchanges[x].bindings)[b] ==
              if b.queue == q then 0 else multiset(s.topo.exchanges[x].bindings)[b]
    {
      SwapRemovedIs(s.topo.exchanges[x].bindings, 0, q, b);
    }
    forall x, b | x in r.topo.exchanges && b in r.topo.exchanges[x].bindings ensures b.queue != q {
      assert multiset(r.topo.exchanges[x].bindings)[b] > 0;
    }
    assert q !in s.topo.queues ==> s.topo.queues - {q} == s.topo.queues;
  }

  /** In every history, deleting a virtual host that is listed takes it off the list with every permission on it, and
      leaves every other virtual host and permission. */
  lemma DeletedVhostIsGone(cs: seq<Change>, v: string)
    ensures var s, r := After(cs), Apply1(After(cs), DeleteVhost(v));
            && (forall w :: w in r.topo.vhosts <==> w in s.topo.vhosts && w != v)
            && r == s.(topo := s.topo.(vhosts := r.topo.vhosts), perms := r.perms)
            && (v in s.topo.vhosts ==> forall u, w :: (u, w) in r.perms <==> (u, w) in s.perms && w != v)
            && (v !in s.topo.vhosts ==> r.perms == s.perms)
            && forall k :: k in r.perms ==> k in s.perms && r.perms[k] == s.perms[k]
  {
    HistorySane(cs);
    hide After;
    RemovedVhost(After(cs).topo.vhosts, v);
    hide WithoutVhost;
  }

  /** Deleting a user who exists takes them and every permission of theirs, and leaves every other user and
      permission. */
  lemma DeletedUserIsGone(s: Config, u: string)
    ensures var r := Apply1(s, DeleteUser(u));
            && r.users == s.users - {u} && r == s.(users := r.users, perms := r.perms)
            && (u in s.users ==> forall w, v :: (w, v) in r.perms <==> (w, v) in s.perms && w != u)
            && (u !in s.users ==> r.perms == s.perms)
            && forall k :: k in r.perms ==> k in s.perms && r.perms[k] == s.perms[k]
  {
    assert u !in s.users ==> s.users - {u} == s.users;
  }

  // ---- additions ----

  /** A virtual host, unless its name is too long, is listed once added; either way it has its three exchanges, each
      of the right kind unless an exchange of that name was there before, and nothing else changes. */
  lemma AddedVhostHasExchanges(t: Topo, v: string)
    ensures var r, names := Apply(t, AddVhost(v)), {Id(v, "amq.direct"), Id(v, "amq.fanout"), Id(v, "amq.topic")};
            && (forall w :: w in r.vhosts <==> w in t.vhosts || (w == v && |v| < 128)) && r.queues == t.queues
            && r.exchanges.Keys == t.exchanges.Keys + names
            && (forall x :: x in t.exchanges ==> r.exchanges[x] == t.exchanges[x])
            && (Id(v, "amq.direct") !in t.exchanges ==> r.exchanges[Id(v, "amq.direct")] == ExchangeDecl(Direct, 0, []))
            && (Id(v, "amq.fanout") !in t.exchanges ==> r.exchanges[Id(v, "amq.fanout")] == ExchangeDecl(Fanout, 0, []))
            && (Id(v, "amq.topic") !in t.exchanges ==> r.exchanges[Id(v, "amq.topic")] == ExchangeDecl(Topic, 0, []))
  {
    DefaultNames(v);
    var u := Host(t, v);
    var a := Declare(u, Id(v, "amq.direct"), Direct, 0);
    var b := Declare(a, Id(v, "amq.fanout"), Fanout, 0);
    var c := Declare(b, Id(v, "amq.topic"), Topic, 0);
    assert c == Apply(t, AddVhost(v));
    DeclareIs(u, Id(v, "amq.direct"), Direct);
    DeclareIs(a, Id(v, "amq.fanout"), Fanout);
    DeclareIs(b, Id(v, "amq.topic"), Topic);
    hide Apply, Declare;
  }

  lemma DeclareIs(t: Topo, x: Id, kind: Kind)
    ensures var r := Declare(t, x, kind, 0);
            && r == t.(exchanges := r.exchanges) && r.exchanges.Keys == t.exchanges.Keys + {x}
            && (forall y :: y in t.exchanges ==> r.exchanges[y] == t.exchanges[y])
            && (x !in t.exchanges ==> r.exchanges[x] == ExchangeDecl(kind, 0, []))
  {
  }

  lemma DefaultNames(v: string)
    ensures Id(v, "amq.direct") != Id(v, "amq.fanout") && Id(v, "amq.direct") != Id(v, "amq.topic")
    ensures Id(v, "amq.fanout") != Id(v, "amq.topic")
  {
    assert "amq.direct"[4] == 'd' && "amq.fanout"[4] == 'f' && "amq.topic"[4] == 't';
  }

  /** A queue or exchange is declared once and for all; a binding is added behind the others if both ends exist. */
  lemma AddedTakesEffect(t: Topo, q: Id, d: QueueDecl, x: Id, kind: Kind, flags: nat, b: Binding)
    ensures var r := Apply(t, DeclareQueue(q, d));
            r == t.(queues := r.queues) && q in r.queues && r.queues[q] == (if q in t.queues then t.queues[q] else d)
            && r.queues - {q} == t.queues - {q}
    ensures var r := Apply(t, DeclareExchange(x, kind, flags));
            r == t.(exchanges := r.exchanges) && x in r.exchanges && r.exchanges - {x} == t.exchanges - {x}
            && r.exchanges[x] == if x in t.exchanges then t.exchanges[x] else ExchangeDecl(kind, flags, [])
    ensures var r := Apply(t, Bind(b, x));
            if x in t.exchanges && b.queue in t.queues
            then r == t.(exchanges := r.exchanges) && x in r.exchanges && r.exchanges - {x} == t.exchanges - {x}
                 && r.exchanges[x] == t.exchanges[x].(bindings := Bound(t.exchanges[x].bindings, b))
            else r == t
  {
  }

  // ---- settings ----

  /** A user is as last added, a permission as last set unless cleared, and nothing else changes; over-long names, hashes
      and patterns are refused. */
  lemma SettingTakesEffect(s: Config, u: string, v: string, user: User, p: Perm)
    ensures var r := Apply1(s, AddUser(u, user));
            if |u| < 128 && |user.hash| < 128
            then r == s.(users := r.users, claimed := true) && u in r.users && r.users[u] == user
                 && r.users - {u} == s.users - {u}
            else r == s
    ensures var r := Apply1(s, SetPerm(u, v, p));
            if |u| < 128 && |v| < 128 && |p.configure| < 256 && |p.write| < 256 && |p.read| < 256
            then r == s.(perms := r.perms) && (u, v) in r.perms && r.perms[(u, v)] == p
                 && r.perms - {(u, v)} == s.perms - {(u, v)}
            else r == s
    ensures Apply1(s, ClearPerm(u, v)) == s.(perms := s.perms - {(u, v)})
  {
  }
}
