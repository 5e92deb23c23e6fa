/** The consume watermark of a replicated queue: how it is tracked on the consuming node, and why applying it
    on any node loses no message that is still live. */
module Watermark {
  import opened Queues

  // ---- the tracker ----

  /** Delivered ids that are not settled, ascending; the highest id handed out; the highest watermark sent. */
  datatype Tracker = Tracker(unacked: seq<nat>, hi: nat, replicated: nat)

  ghost predicate Ascending(s: seq<nat>) {
    forall i, j :: 0 <= i < j < |s| ==> s[i] < s[j]
  }

  ghost predicate TrackerOk(t: Tracker) {
    Ascending(t.unacked) && forall i :: 0 <= i < |t.unacked| ==> 1 <= t.unacked[i] <= t.hi
  }

  /** Insertion from the back, skipping a duplicate. */
  function Insert(s: seq<nat>, c: nat): (r: seq<nat>) {
    if s == [] then [c]
    else
      var last := s[|s| - 1];
      if last > c then Insert(s[..|s| - 1], c) + [last] else if last == c then s else s + [c]
  }

  lemma {:induction false} InsertSorted(s: seq<nat>, c: nat)
    requires Ascending(s)
    ensures Ascending(Insert(s, c))
    ensures forall x :: x in Insert(s, c) <==> x == c || x in s
  {
    if s != [] && s[|s| - 1] > c {
      var init := s[..|s| - 1];
      InsertSorted(init, c);
      assert s == init + [s[|s| - 1]];
      forall i | 0 <= i < |Insert(init, c)| ensures Insert(init, c)[i] < s[|s| - 1] {
        assert Insert(init, c)[i] in Insert(init, c);
      }
    }
  }

  /** Removal of one id, if it is there. */
  function Remove(s: seq<nat>, c: nat): (r: seq<nat>) {
    if s == [] then [] else if s[0] == c then s[1..] else [s[0]] + Remove(s[1..], c)
  }

  lemma {:induction false} RemoveSorted(s: seq<nat>, c: nat)
    requires Ascending(s)
    ensures Ascending(Remove(s, c))
    ensures forall x :: x in Remove(s, c) <==> x != c && x in s
  {
    if s != [] {
      RemoveSorted(s[1..], c);
      assert s == [s[0]] + s[1..];
      if s[0] != c {
        forall i | 0 <= i < |Remove(s[1..], c)| ensures s[0] < Remove(s[1..], c)[i] {
          assert Remove(s[1..], c)[i] in s[1..];
        }
      }
    }
  }

  /** Where the scan from the back stops is where the id goes. */
  lemma {:induction false} InsertAt(s: seq<nat>, c: nat, i: nat)
    requires i <= |s| && (forall k :: i <= k < |s| ==> s[k] > c) && (i > 0 ==> s[i - 1] <= c)
    ensures Insert(s, c) == if i > 0 && s[i - 1] == c then s else s[..i] + [c] + s[i..]
  {
    if i == |s| {
      assert s[..i] == s && s[i..] == [];
    } else {
      var init, last := s[..|s| - 1], s[|s| - 1];
      InsertAt(init, c, i);
      assert Insert(s, c) == Insert(init, c) + [last];
      hide Insert;
      GapBeforeLast(s, c, i);
    }
  }

  lemma GapBeforeLast(s: seq<nat>, c: nat, i: nat)
    requires i < |s|
    ensures var init, last := s[..|s| - 1], s[|s| - 1];
            init + [last] == s && init[..i] + [c] + init[i..] + [last] == s[..i] + [c] + s[i..]
  {
    var init, last := s[..|s| - 1], s[|s| - 1];
    assert init[..i] == s[..i] && init[i..] + [last] == s[i..];
  }

  lemma {:induction false} RemoveAt(s: seq<nat>, c: nat, i: nat)
    requires i <= |s| && (forall k :: 0 <= k < i ==> s[k] != c) && (i < |s| ==> s[i] == c)
    ensures Remove(s, c) == if i < |s| then s[..i] + s[i + 1..] else s
  {
    if i > 0 {
      RemoveAt(s[1..], c, i - 1);
      assert s == [s[0]] + s[1..];
      if i < |s| { assert s[1..][i..] == s[i + 1..] && [s[0]] + s[1..][..i - 1] == s[..i]; }
    }
  }

  function Delivered(t: Tracker, c: nat, noAck: bool): (r: Tracker) {
    if c == 0 then t
    else if noAck then t.(hi := if c > t.hi then c else t.hi)
    else t.(unacked := Insert(t.unacked, c), hi := if c > t.hi then c else t.hi)
  }

  function Settled(t: Tracker, c: nat): (r: Tracker) {
    if c == 0 then t else t.(unacked := Remove(t.unacked, c))
  }

  function Mark(t: Tracker): (w: int) {
    if t.unacked != [] then t.unacked[0] - 1 else t.hi
  }

  lemma DeliverOk(t: Tracker, c: nat, noAck: bool)
    requires TrackerOk(t)
    ensures TrackerOk(Delivered(t, c, noAck)) && t.hi <= Delivered(t, c, noAck).hi
    ensures forall x :: x in Delivered(t, c, noAck).unacked <==> x in t.unacked || (x == c && c != 0 && !noAck)
    ensures c in t.unacked || c > t.hi || c == 0 ==> Mark(t) <= Mark(Delivered(t, c, noAck))
  {
    InsertSorted(t.unacked, c);
    hide Insert;
    var r := Delivered(t, c, noAck);
    forall i | 0 <= i < |r.unacked| ensures 1 <= r.unacked[i] <= r.hi {
      assert r.unacked[i] in r.unacked;
    }
    if r.unacked != [] { assert r.unacked[0] in r.unacked; }
  }

  lemma AckOk(t: Tracker, c: nat)
    requires TrackerOk(t)
    ensures TrackerOk(Settled(t, c)) && Settled(t, c).hi == t.hi && Mark(t) <= Mark(Settled(t, c))
    ensures forall x :: x in Settled(t, c).unacked <==> x in t.unacked && (x != c || c == 0)
  {
    RemoveSorted(t.unacked, c);
    hide Remove;
    var r := Settled(t, c);
    forall i | 0 <= i < |r.unacked| ensures 1 <= r.unacked[i] <= r.hi {
      assert r.unacked[i] in r.unacked;
    }
    if r.unacked != [] { assert r.unacked[0] in r.unacked; }
  }

  /** Unsettled ids and ids never handed out all lie above the watermark. */
  lemma MarkBelow(t: Tracker, x: nat)
    requires TrackerOk(t) && (x in t.unacked || x > t.hi)
    ensures Mark(t) < x
  {
    if t.unacked != [] { assert t.unacked[0] <= t.hi; }
  }

  /** The array the queue keeps its unsettled ids in. */
  class ConsumeTracker {
    var unacked: array<nat>
    var n: nat
    var hi: nat
    var replicated: nat

    ghost predicate Valid() reads this, unacked {
      n <= unacked.Length && TrackerOk(Value())
    }

    ghost function Value(): (t: Tracker)
      requires n <= unacked.Length
      reads this, unacked
    {
      Tracker(unacked[..n], hi, replicated)
    }

    constructor ()
      ensures Valid() && fresh(unacked) && Value() == Tracker([], 0, 0)
    {
      unacked := new nat[0];
      n, hi, replicated := 0, 0, 0;
    }

    /** Makes room for one more id. */
    method Reserve()
      requires n <= unacked.Length
      modifies this`unacked
      ensures n < unacked.Length && unacked[..n] == old(unacked[..n])
      ensures unacked == old(unacked) || fresh(unacked)
    {
      if n == unacked.Length {
        var nc := if unacked.Length != 0 then unacked.Length * 2 else 16;
        var nu := new nat[nc];
        forall k | 0 <= k < n { nu[k] := unacked[k]; }
        assert nu[..n] == unacked[..n];
        unacked := nu;
      }
    }

    /** The scan from the back for the place of an id. */
    method FindSlot(c: nat) returns (i: nat, tracked: bool)
      requires n <= unacked.Length
      ensures i <= n && tracked == (i > 0 && unacked[i - 1] == c)
      ensures (forall k :: i <= k < n ==> unacked[k] > c) && (i > 0 ==> unacked[i - 1] <= c)
    {
      i := n;
      while i > 0 && unacked[i - 1] > c
        invariant 0 <= i <= n && forall k :: i <= k < n ==> unacked[k] > c
      {
        i := i - 1;
      }
      tracked := i > 0 && unacked[i - 1] == c;
    }

    /** A replicated message was handed to a consumer. */
    method OnDeliver(c: nat, noAck: bool)
      requires Valid()
      modifies this, unacked
      ensures Valid() && Value() == Delivered(old(Value()), c, noAck)
      ensures unacked == old(unacked) || fresh(unacked)
    {
      hide Insert, TrackerOk;
      DeliverOk(Value(), c, noAck);
      if c == 0 { return; }
      if !noAck { Track(c); }
      if c > hi { hi := c; }
    }

    /** Keeps the id in its place among the unsettled ones. */
    method Track(c: nat)
      requires n <= unacked.Length
      modifies this`unacked, this`n, unacked
      ensures n <= unacked.Length && (unacked == old(unacked) || fresh(unacked))
      ensures unacked[..n] == Insert(old(unacked[..n]), c)
    {
      hide Insert;
      var i, tracked := FindSlot(c);
      InsertAt(unacked[..n], c, i);
      ghost var was := unacked[..n];
      if !tracked {
        Reserve();
        assert unacked[..i] == was[..i] && unacked[i..n] == was[i..];
        ShiftIn(i, c);
      }
    }

    /** Moves the ids from `i` on up by one place and puts `c` in the gap. */
    method ShiftIn(i: nat, c: nat)
      requires i <= n < unacked.Length
      modifies this`n, unacked
      ensures n == old(n) + 1 && unacked[..n] == old(unacked[..i] + [c] + unacked[i..n])
    {
      forall k | i < k <= n { unacked[k] := unacked[k - 1]; }
      unacked[i] := c;
      n := n + 1;
    }

    /** A delivery was settled for good. */
    method OnAck(c: nat)
      requires Valid()
      modifies this`n, unacked
      ensures Valid() && Value() == Settled(old(Value()), c)
    {
      hide Remove, TrackerOk;
      AckOk(Value(), c);
      if c == 0 { return; }
      Untrack(c);
    }

    method Untrack(c: nat)
      requires n <= unacked.Length
      modifies this`n, unacked
      ensures n <= unacked.Length && unacked[..n] == Remove(old(unacked[..n]), c)
    {
      hide Remove;
      ghost var was := unacked[..n];
      var i := 0;
      while i < n && unacked[i] != c
        invariant 0 <= i <= n && forall k :: 0 <= k < i ==> unacked[k] != c
      {
        i := i + 1;
      }
      RemoveAt(was, c, i);
      if i < n {
        forall k | i <= k < n - 1 { unacked[k] := unacked[k + 1]; }
        n := n - 1;
        assert unacked[..n] == was[..i] + was[i + 1..];
      }
    }

    method CurrentMark() returns (w: int)
      requires Valid()
      ensures w == Mark(Value())
    {
      w := if n > 0 then unacked[0] - 1 else hi;
    }

    /** Whether this watermark is news; if so it is remembered as sent. */
    method MarkReplicated(w: nat) returns (advanced: bool)
      requires Valid()
      modifies this`replicated
      ensures Valid() && advanced == (w > old(replicated))
      ensures Value() == old(Value()).(replicated := if advanced then w else old(replicated))
    {
      advanced := w > replicated;
      if advanced { replicated := w; }
    }
  }

  // ---- the oldest live id ----

  function Ids(ms: seq<Message>): (ids: seq<nat>)
    ensures |ids| == |ms| && forall i :: 0 <= i < |ms| ==> ids[i] == ms[i].clusterId
  {
    seq(|ms|, i requires 0 <= i < |ms| => ms[i].clusterId)
  }

  datatype Oldest = NoneLive | At(id: nat)

  function FirstReplicated(ready: seq<nat>): (o: Oldest) {
    if ready == [] then NoneLive else if ready[0] != 0 then At(ready[0]) else FirstReplicated(ready[1..])
  }

  function OldestLive(t: Tracker, ready: seq<nat>): (o: Oldest) {
    if t.unacked != [] then At(t.unacked[0]) else FirstReplicated(ready)
  }

  method FindOldest(t: Tracker, ready: seq<nat>) returns (o: Oldest)
    ensures o == OldestLive(t, ready)
  {
    if t.unacked != [] { return At(t.unacked[0]); }
    var i := 0;
    assert ready[0..] == ready;
    while i < |ready|
      invariant 0 <= i <= |ready| && FirstReplicated(ready) == FirstReplicated(ready[i..])
    {
      if ready[i] != 0 { return At(ready[i]); }
      assert ready[i..][1..] == ready[i + 1..];
      i := i + 1;
    }
    return NoneLive;
  }

  // ---- draining ----

  /** How many ids at the front a watermark covers. */
  function Covered(ids: seq<nat>, w: int): (k: nat)
    ensures k <= |ids| && forall i :: 0 <= i < k ==> 0 < ids[i] <= w
  {
    if ids == [] || ids[0] == 0 || ids[0] > w then 0 else 1 + Covered(ids[1..], w)
  }

  /** This is what draining does to a queue of messages. */
  lemma {:induction false} CoveredIsDrained(ms: seq<Message>, w: nat)
    ensures Covered(Ids(ms), w) == Drained(ms, w)
  {
    if ms != [] {
      CoveredIsDrained(ms[1..], w);
      assert Ids(ms)[1..] == Ids(ms[1..]);
    }
  }
}
