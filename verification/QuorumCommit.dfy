/** The commit rule: which log index a majority of recorded positions has reached. */
module QuorumCommit {

  /** How many of the recorded positions reach index `x`. */
  function CountAtLeast(v: seq<nat>, x: nat): nat {
    if v == [] then 0 else (if v[|v| - 1] >= x then 1 else 0) + CountAtLeast(v[..|v| - 1], x)
  }

  /** The greatest index at or below `x` that at least `q` positions reach. */
  function GreatestReached(v: seq<nat>, q: nat, x: nat): (r: nat)
    ensures r <= x
    ensures r == 0 || CountAtLeast(v, r) >= q
    ensures forall y :: r < y <= x ==> CountAtLeast(v, y) < q
  {
    if x == 0 || CountAtLeast(v, x) >= q then x else GreatestReached(v, q, x - 1)
  }

  function MaxOf(v: seq<nat>): (r: nat)
    ensures forall k :: 0 <= k < |v| ==> v[k] <= r
  {
    if v == [] then 0
    else
      var m := MaxOf(v[..|v| - 1]);
      if v[|v| - 1] > m then v[|v| - 1] else m
  }

  /** The majority high-water mark among the recorded positions. */
  function QuorumIndex(v: seq<nat>, q: nat): (r: nat)
    requires q >= 1
    ensures r == 0 || CountAtLeast(v, r) >= q
    ensures forall y :: y > r ==> CountAtLeast(v, y) < q
  {
    var r := GreatestReached(v, q, MaxOf(v));
    assert forall y :: y > r ==> CountAtLeast(v, y) < q by {
      forall y | y > r
        ensures CountAtLeast(v, y) < q
      {
        if y > MaxOf(v) { AboveMaxCountsNone(v, y); }
      }
    }
    r
  }

  lemma {:induction false} AboveMaxCountsNone(v: seq<nat>, x: nat)
    requires forall k :: 0 <= k < |v| ==> v[k] < x
    ensures CountAtLeast(v, x) == 0
  {
    if v != [] { AboveMaxCountsNone(v[..|v| - 1], x); }
  }

  lemma {:induction false} CountAntitone(v: seq<nat>, x: nat, y: nat)
    requires x <= y
    ensures CountAtLeast(v, y) <= CountAtLeast(v, x) <= |v|
  {
    if v != [] { CountAntitone(v[..|v| - 1], x, y); }
  }

  /** Counting positions is counting the nodes that hold them. */
  lemma {:induction false} CountIsCardinality(v: seq<nat>, x: nat)
    ensures |set k: nat | k < |v| && v[k] >= x| == CountAtLeast(v, x)
  {
    var whole := set k: nat | k < |v| && v[k] >= x;
    if v == [] {
      assert whole == {};
    } else {
      var w := v[..|v| - 1];
      CountIsCardinality(w, x);
      var part := set k: nat | k < |w| && w[k] >= x;
      if v[|v| - 1] >= x {
        assert whole == part + {|v| - 1};
      } else {
        assert whole == part;
      }
    }
  }

  /** Swapping two positions changes no count. */
  lemma {:induction false} CountDependsOnMultiset(v: seq<nat>, w: seq<nat>, x: nat)
    requires multiset(v) == multiset(w)
    ensures CountAtLeast(v, x) == CountAtLeast(w, x)
  {
    assert |v| == |w| by {
      assert |multiset(v)| == |v| && |multiset(w)| == |w|;
    }
    if v != [] {
      var n := |v| - 1;
      var a := v[n];
      assert v == v[..n] + [a];
      assert a in multiset(w);
      var j :| 0 <= j < |w| && w[j] == a;
      var rest := w[..j] + w[j + 1..];
      assert w == w[..j] + [a] + w[j + 1..];
      assert multiset(rest) == multiset(w) - multiset{a};
      assert multiset(v[..n]) == multiset(v) - multiset{a};
      CountDependsOnMultiset(v[..n], rest, x);
      CountInsert(w[..j], w[j + 1..], a, x);
    }
  }

  lemma {:induction false} CountInsert(p: seq<nat>, s: seq<nat>, a: nat, x: nat)
    ensures CountAtLeast(p + [a] + s, x) == CountAtLeast(p + s, x) + (if a >= x then 1 else 0)
    decreases |s|
  {
    if s == [] {
      assert (p + [a] + s)[..|p|] == p && p + s == p;
    } else {
      var m := |s| - 1;
      assert (p + [a] + s)[..|p| + 1 + m] == p + [a] + s[..m];
      assert (p + s)[..|p| + m] == p + s[..m];
      CountInsert(p, s[..m], a, x);
    }
  }

  ghost predicate Descending(v: seq<nat>) {
    forall i, j :: 0 <= i < j < |v| ==> v[i] >= v[j]
  }

  /** In a descending arrangement, the q-th position is the majority high-water mark. */
  lemma {:induction false} DescendingQuorum(v: seq<nat>, q: nat)
    requires Descending(v) && 1 <= q <= |v|
    ensures CountAtLeast(v, v[q - 1]) >= q
    ensures forall y :: y > v[q - 1] ==> CountAtLeast(v, y) < q
  {
    CountPrefix(v, v[q - 1], q);
    forall y | y > v[q - 1]
      ensures CountAtLeast(v, y) < q
    {
      CountSuffix(v, y, q - 1);
    }
  }

  lemma {:induction false} CountPrefix(v: seq<nat>, x: nat, q: nat)
    requires q <= |v| && forall k :: 0 <= k < q ==> v[k] >= x
    ensures CountAtLeast(v, x) >= q
  {
    if |v| > 0 {
      CountPrefix(v[..|v| - 1], x, if q == |v| then q - 1 else q);
    }
  }

  lemma {:induction false} CountSuffix(v: seq<nat>, x: nat, q: nat)
    requires q <= |v| && forall k :: q <= k < |v| ==> v[k] < x
    ensures CountAtLeast(v, x) <= q
  {
    if |v| > q {
      CountSuffix(v[..|v| - 1], x, q);
    } else {
      CountAntitone(v, 0, x);
    }
  }

  ghost predicate SortedBelow(v: seq<nat>, i: nat) {
    forall a, b :: 0 <= a < i && a < b < |v| ==> v[a] >= v[b]
  }

  method Exchange(v: array<nat>, i: nat, j: nat)
    requires i < j < v.Length
    modifies v
    ensures v[..] == old(v[..])[i := old(v[j])][j := old(v[i])]
    ensures multiset(v[..]) == multiset(old(v[..]))
  {
    v[i], v[j] := v[j], v[i];
  }

  /** One outer round of the exchange sort: the largest remaining position moves to slot `i`. */
  method PullLargest(v: array<nat>, i: nat)
    requires i < v.Length && SortedBelow(v[..], i)
    modifies v
    ensures multiset(v[..]) == multiset(old(v[..])) && SortedBelow(v[..], i + 1)
  {
    var j := i + 1;
    while j < v.Length
      invariant i < j <= v.Length
      invariant multiset(v[..]) == multiset(old(v[..]))
      invariant SortedBelow(v[..], i)
      invariant forall b :: i < b < j ==> v[i] >= v[b]
    {
      if v[j] > v[i] {
        Exchange(v, i, j);
      }
      j := j + 1;
    }
  }

  /** The in-place exchange sort of the commit rule, followed by the quorum-th read:
      it selects the greatest index that a quorum of positions reaches. */
  method SelectQuorum(v: array<nat>, quorum: nat) returns (high: nat)
    requires 1 <= quorum <= v.Length
    modifies v
    ensures multiset(v[..]) == multiset(old(v[..])) && Descending(v[..])
    ensures high == QuorumIndex(old(v[..]), quorum)
  {
    ghost var was := v[..];
    var i := 0;
    while i < v.Length
      invariant 0 <= i <= v.Length
      invariant multiset(v[..]) == multiset(was) && SortedBelow(v[..], i)
    {
      PullLargest(v, i);
      i := i + 1;
    }
    high := v[quorum - 1];
    DescendingQuorum(v[..], quorum);
    SameCounts(v[..], was);
    QuorumIndexUnique(was, quorum, high);
  }

  lemma SameCounts(v: seq<nat>, w: seq<nat>)
    requires multiset(v) == multiset(w)
    ensures forall x: nat :: CountAtLeast(v, x) == CountAtLeast(w, x)
  {
    forall x: nat
      ensures CountAtLeast(v, x) == CountAtLeast(w, x)
    {
      CountDependsOnMultiset(v, w, x);
    }
  }

  lemma QuorumIndexUnique(v: seq<nat>, q: nat, r: nat)
    requires q >= 1 && CountAtLeast(v, r) >= q
    requires forall y :: y > r ==> CountAtLeast(v, y) < q
    ensures r == QuorumIndex(v, q)
  {
    var t := QuorumIndex(v, q);
    assert t >= r || CountAtLeast(v, r) < q;
  }
}
