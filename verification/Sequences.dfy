/** Sequences of sequences, sequences without repeats, and counting. */
module Sequences {
  /** All the parts, one after the other. */
  function Flatten<T>(parts: seq<seq<T>>): (s: seq<T>) {
    if parts == [] then [] else parts[0] + Flatten(parts[1..])
  }

  /** Each element once, where it first occurred. */
  function Dedup<T(==, !new)>(xs: seq<T>): (r: seq<T>)
    ensures forall x :: x in r <==> x in xs
  {
    if xs == [] then []
    else
      var init, x := Dedup(xs[..|xs| - 1]), xs[|xs| - 1];
      if x in init then init else init + [x]
  }

  lemma DedupPush<T(!new)>(xs: seq<T>, x: T)
    ensures Dedup(xs + [x]) == if x in xs then Dedup(xs) else Dedup(xs) + [x]
  {
    assert (xs + [x])[..|xs|] == xs;
  }

  // ---- how often an element occurs ----

  lemma UpdateCounts<T>(s: seq<T>, i: nat, x: T, b: T)
    requires i < |s|
    ensures multiset(s[i := x])[b] == multiset(s)[b] - (if b == s[i] then 1 else 0) + if b == x then 1 else 0
  {
    assert multiset(s[i := x]) == multiset(s) - multiset{s[i]} + multiset{x};
  }

  lemma LastCounts<T>(s: seq<T>, b: T)
    requires s != []
    ensures multiset(s[..|s| - 1])[b] == multiset(s)[b] - if b == s[|s| - 1] then 1 else 0
  {
    assert s == s[..|s| - 1] + [s[|s| - 1]];
  }

  /** Swap-removal takes out one occurrence. */
  lemma SwapRemoveCounts<T>(s: seq<T>, i: nat, b: T)
    requires i < |s|
    ensures multiset(s[i := s[|s| - 1]][..|s| - 1])[b] == multiset(s)[b] - if b == s[i] then 1 else 0
  {
    var last := |s| - 1;
    UpdateCounts(s, i, s[last], b);
    LastCounts(s[i := s[last]], b);
  }

  /** Taking out position `i`. */
  lemma TakeOutCounts<T>(s: seq<T>, i: nat)
    requires i < |s|
    ensures multiset(s) == multiset{s[i]} + multiset(s[..i] + s[i + 1..])
  {
    assert s == s[..i] + [s[i]] + s[i + 1..];
  }
}
