/** Exchanges: bindings edited in place, and routing to each matching queue once. */
module Exchanges {
  import opened Sequences
  import opened TopicMatch

  /** A queue or exchange name inside its virtual host. */
  datatype Id = Id(vhost: string, name: string)

  datatype Kind = Direct | Fanout | Topic

  datatype Binding = Binding(key: string, queue: Id)

  /** What an exchange routes by. */
  datatype Table = Table(kind: Kind, bindings: seq<Binding>)

  ghost predicate BindingMatches(kind: Kind, b: Binding, key: string) {
    match kind
    case Fanout => true
    case Direct => b.key == key
    case Topic => Meaning(Words(b.key), Words(key))
  }

  predicate Distinct<T(==)>(s: seq<T>) {
    forall i, j :: 0 <= i < j < |s| ==> s[i] != s[j]
  }

  /** The queues a key reaches, in the order of their first matching binding. */
  ghost function Targets(kind: Kind, bindings: seq<Binding>, key: string): (t: seq<Id>) {
    if bindings == [] then []
    else
      var n := |bindings| - 1;
      var before := Targets(kind, bindings[..n], key);
      if BindingMatches(kind, bindings[n], key) && bindings[n].queue !in before
      then before + [bindings[n].queue] else before
  }

  /** Some binding of the queue matches the key. */
  ghost predicate Reaches(kind: Kind, bindings: seq<Binding>, key: string, q: Id) {
    exists i :: 0 <= i < |bindings| && bindings[i].queue == q && BindingMatches(kind, bindings[i], key)
  }

  /** Routing is exact and without duplicates: the targets are the queues with a matching binding, each once. */
  lemma {:induction false} TargetsExact(kind: Kind, bindings: seq<Binding>, key: string)
    ensures Distinct(Targets(kind, bindings, key))
    ensures forall q :: q in Targets(kind, bindings, key) <==> Reaches(kind, bindings, key, q)
  {
    if bindings != [] {
      var n := |bindings| - 1;
      var prior := bindings[..n];
      TargetsExact(kind, prior, key);
      forall q ensures Reaches(kind, bindings, key, q) <==>
                       Reaches(kind, prior, key, q) || (bindings[n].queue == q && BindingMatches(kind, bindings[n], key))
      {
        if i :| 0 <= i < |prior| && prior[i].queue == q && BindingMatches(kind, prior[i], key) {
          assert bindings[i].queue == q && BindingMatches(kind, bindings[i], key);
        }
        if i :| 0 <= i < |bindings| && bindings[i].queue == q && BindingMatches(kind, bindings[i], key) {
          if i < n { assert prior[i].queue == q && BindingMatches(kind, prior[i], key); }
        }
      }
    }
  }

  /** Later bindings only add targets behind those that are there. */
  lemma {:induction false} TargetsGrow(kind: Kind, bindings: seq<Binding>, key: string, n: nat)
    requires n <= |bindings|
    ensures Targets(kind, bindings[..n], key) <= Targets(kind, bindings, key)
  {
    if n == |bindings| {
      assert bindings[..n] == bindings;
    } else {
      var prior := bindings[..|bindings| - 1];
      assert prior[..n] == bindings[..n];
      TargetsGrow(kind, prior, key, n);
    }
  }

  /** Distinct targets drawn from a set are no more than its size. */
  lemma {:induction false} DistinctFits<T>(s: seq<T>, within: set<T>)
    requires Distinct(s) && forall i :: 0 <= i < |s| ==> s[i] in within
    ensures |s| <= |within|
  {
    if s != [] {
      DistinctFits(s[1..], within - {s[0]});
    }
  }

  method Matches(kind: Kind, b: Binding, key: string) returns (r: bool)
    ensures r == BindingMatches(kind, b, key)
  {
    match kind {
      case Fanout => r := true;
      case Direct => r := b.key == key;
      case Topic => var cells; r, cells := TopicMatches(b.key, key);
    }
  }

  /** The routing loop, with its inner scan for queues already collected. */
  method RouteTargets(t: Table, key: string) returns (targets: seq<Id>)
    ensures targets == Targets(t.kind, t.bindings, key)
  {
    targets := [];
    var i := 0;
    while i < |t.bindings|
      invariant 0 <= i <= |t.bindings|
      invariant targets == Targets(t.kind, t.bindings[..i], key)
    {
      var hit := Matches(t.kind, t.bindings[i], key);
      assert t.bindings[..i + 1][..i] == t.bindings[..i];
      if hit {
        var dup, j := false, 0;
        while j < |targets|
          invariant 0 <= j <= |targets| && dup == (t.bindings[i].queue in targets[..j])
        {
          if targets[j] == t.bindings[i].queue { dup := true; }
          j := j + 1;
        }
        assert targets[..j] == targets;
        if !dup { targets := targets + [t.bindings[i].queue]; }
      }
      i := i + 1;
    }
    assert t.bindings[..i] == t.bindings;
  }

  /** The bindings that do not lead to the queue. */
  ghost function Without(bindings: seq<Binding>, q: Id): (r: seq<Binding>)
    ensures forall b :: b in r <==> b in bindings && b.queue != q
  {
    if bindings == [] then []
    else if bindings[0].queue == q then Without(bindings[1..], q)
    else [bindings[0]] + Without(bindings[1..], q)
  }

  lemma {:induction false} WithoutCounts(bindings: seq<Binding>, q: Id, b: Binding)
    ensures multiset(Without(bindings, q))[b] == if b.queue == q then 0 else multiset(bindings)[b]
  {
    if bindings != [] {
      WithoutCounts(bindings[1..], q, b);
      assert bindings == [bindings[0]] + bindings[1..];
    }
  }

  lemma DistinctMultiset(s: seq<Binding>)
    ensures Distinct(s) <==> forall b :: multiset(s)[b] <= 1
  {
    if Distinct(s) {
      forall b ensures multiset(s)[b] <= 1 { DistinctCount(s, b); }
    } else {
      var i, j :| 0 <= i < j < |s| && s[i] == s[j];
      assert s == s[..j] + [s[j]] + s[j + 1..];
      assert s[..j][i] == s[j];
      assert multiset(s)[s[j]] >= multiset(s[..j])[s[j]] + 1 >= 2;
    }
  }

  lemma {:induction false} DistinctCount(s: seq<Binding>, b: Binding)
    requires Distinct(s)
    ensures multiset(s)[b] <= 1
  {
    if s != [] {
      assert s == [s[0]] + s[1..];
      DistinctCount(s[1..], b);
      if b == s[0] { assert b !in s[1..]; }
    }
  }

  /** Swap-removing a binding leaves every binding of another queue as often as it was. */
  lemma SwapRemoveKeeps(s: seq<Binding>, i: nat)
    requires i < |s|
    ensures forall b: Binding :: b.queue != s[i].queue ==>
              multiset(s[i := s[|s| - 1]][..|s| - 1])[b] == multiset(s)[b]
  {
    forall b: Binding | b.queue != s[i].queue
      ensures multiset(s[i := s[|s| - 1]][..|s| - 1])[b] == multiset(s)[b]
    {
      SwapRemoveCounts(s, i, b);
    }
  }

  /** Keeping every other queue's bindings and none of this one's is what removal means; it keeps them distinct. */
  lemma UnboundExactly(before: seq<Binding>, after: seq<Binding>, q: Id)
    requires Distinct(before)
    requires forall j :: 0 <= j < |after| ==> after[j].queue != q
    requires forall b: Binding :: b.queue != q ==> multiset(after)[b] == multiset(before)[b]
    ensures multiset(after) == multiset(Without(before, q)) && Distinct(after)
  {
    DistinctMultiset(before);
    forall b: Binding ensures multiset(after)[b] == multiset(Without(before, q))[b] <= 1 {
      WithoutCounts(before, q, b);
      if b.queue == q { assert b !in after; }
    }
    DistinctMultiset(after);
  }

  /** What swap-removal of a queue's bindings from position `i` on leaves; the last binding fills each gap. */
  function SwapRemoved(bindings: seq<Binding>, i: nat, q: Id): (left: seq<Binding>)
    decreases |bindings| - i
  {
    if i >= |bindings| then bindings
    else if bindings[i].queue == q then SwapRemoved(bindings[i := bindings[|bindings| - 1]][..|bindings| - 1], i, q)
    else SwapRemoved(bindings, i + 1, q)
  }

  method RemoveQueue(bindings: seq<Binding>, q: Id) returns (left: seq<Binding>, removed: nat)
    ensures left == SwapRemoved(bindings, 0, q)
    ensures forall j :: 0 <= j < |left| ==> left[j].queue != q
    ensures forall b: Binding :: b.queue != q ==> multiset(left)[b] == multiset(bindings)[b]
    ensures removed == |bindings| - |left|
  {
    left, removed := bindings, 0;
    var i := 0;
    while i < |left|
      invariant 0 <= i <= |left| && removed == |bindings| - |left|
                && SwapRemoved(left, i, q) == SwapRemoved(bindings, 0, q)
      invariant forall j :: 0 <= j < i ==> left[j].queue != q
      invariant forall b: Binding :: b.queue != q ==> multiset(left)[b] == multiset(bindings)[b]
      decreases |left| - i
    {
      if left[i].queue == q {
        SwapRemoveKeeps(left, i);
        left := left[i := left[|left| - 1]][..|left| - 1];
        removed := removed + 1;
      } else {
        i := i + 1;
      }
    }
  }

  /** The bindings after one more: an identical pair is held once, any other is added at the end. */
  function Bound(bindings: seq<Binding>, b: Binding): (r: seq<Binding>)
    ensures bindings <= r && (forall x :: x in r <==> x in bindings || x == b) && (Distinct(bindings) ==> Distinct(r))
  {
    if b in bindings then bindings else bindings + [b]
  }

  /** The scan for an identical binding. */
  method AddBinding(bindings: seq<Binding>, b: Binding) returns (r: seq<Binding>)
    ensures r == Bound(bindings, b)
  {
    var i := 0;
    while i < |bindings|
      invariant 0 <= i <= |bindings| && forall j :: 0 <= j < i ==> bindings[j] != b
    {
      if bindings[i].queue == b.queue && bindings[i].key == b.key { return bindings; }
      i := i + 1;
    }
    return bindings + [b];
  }

  class Exchange {
    const kind: Kind
    var bindings: seq<Binding>

    /** No binding is held twice. */
    ghost predicate Valid() reads this {
      Distinct(bindings)
    }

    constructor (k: Kind)
      ensures kind == k && bindings == [] && Valid()
    {
      kind := k;
      bindings := [];
    }

    /** Binding is idempotent. */
    method Bind(key: string, q: Id)
      requires Valid()
      modifies this
      ensures Valid()
      ensures bindings == Bound(old(bindings), Binding(key, q))
    {
      bindings := AddBinding(bindings, Binding(key, q));
    }

    /** Every other queue's bindings stay, each once, and the count removed is reported. */
    method UnbindQueue(q: Id) returns (removed: nat)
      requires Valid()
      modifies this
      ensures Valid()
      ensures multiset(bindings) == multiset(Without(old(bindings), q))
      ensures removed == |old(bindings)| - |bindings|
    {
      bindings, removed := RemoveQueue(bindings, q);
      UnboundExactly(old(bindings), bindings, q);
    }

    /** Routing reads the bindings only. */
    method Route(key: string) returns (targets: seq<Id>)
      ensures Distinct(targets)
      ensures forall q :: q in targets <==> Reaches(kind, bindings, key, q)
    {
      targets := RouteTargets(Table(kind, bindings), key);
      TargetsExact(kind, bindings, key);
    }
  }
}
