/** The supervisor's restart limiter: sixteen remembered crash times, read backwards until one is too old. */
module Supervisor {
  const SAMPLES: nat := 16

  // ---- the unbounded history it stands for ----

  ghost predicate Ordered(times: seq<nat>) {
    forall i, j :: 0 <= i <= j < |times| ==> times[i] <= times[j]
  }

  /** How many of these crashes lie within the window ending now. */
  ghost function InWindow(times: seq<nat>, window: nat, now: nat): (n: nat) {
    if times == [] then 0
    else InWindow(times[..|times| - 1], window, now) + if now - times[|times| - 1] <= window then 1 else 0
  }

  lemma {:induction false} NoneInWindow(times: seq<nat>, window: nat, now: nat)
    requires forall i :: 0 <= i < |times| ==> now - times[i] > window
    ensures InWindow(times, window, now) == 0
  {
    if times != [] { NoneInWindow(times[..|times| - 1], window, now); }
  }

  /** It counts the crashes no longer ago than the window. */
  lemma {:induction false} InWindowCounts(times: seq<nat>, window: nat, now: nat)
    ensures InWindow(times, window, now) == |set i: nat | i < |times| && times[i] + window >= now|
  {
    var whole := set i: nat | i < |times| && times[i] + window >= now;
    if times == [] {
      assert whole == {};
    } else {
      var n := |times| - 1;
      InWindowCounts(times[..n], window, now);
      var prior := set i: nat | i < n && times[..n][i] + window >= now;
      assert whole == if times[n] + window >= now then prior + {n} else prior;
    }
  }

  /** How many crashes, from the last backwards, are in the window before the first that is not, looking at no more
      than `limit` of them. */
  function Recent(times: seq<nat>, window: nat, now: nat, limit: nat): (n: nat)
    ensures n <= limit && n <= |times|
  {
    if times == [] || limit == 0 || now - times[|times| - 1] > window then 0
    else 1 + Recent(times[..|times| - 1], window, now, limit - 1)
  }

  /** Stopping early is right because times are in order: the walk counts all of the window, up to its limit. */
  lemma {:induction false} RecentIsWindow(times: seq<nat>, window: nat, now: nat, limit: nat)
    requires Ordered(times)
    ensures Recent(times, window, now, limit) ==
            if InWindow(times, window, now) < limit then InWindow(times, window, now) else limit
  {
    if times != [] && limit > 0 {
      var init := times[..|times| - 1];
      if now - times[|times| - 1] > window {
        NoneInWindow(times, window, now);
      } else {
        assert Ordered(init);
        RecentIsWindow(init, window, now, limit - 1);
      }
    }
  }

  // ---- the ring ----

  function Back(head: nat, i: nat): (p: nat)
    requires head < SAMPLES && i < SAMPLES
    ensures p < SAMPLES
  {
    (head + SAMPLES - 1 - i) % SAMPLES
  }

  /** After the head moves on, the newest sample is the one just written and the others are one further back. */
  lemma BackAfter(head: nat, i: nat)
    requires head < SAMPLES && i < SAMPLES
    ensures var next := (head + 1) % SAMPLES;
            if i == 0 then Back(next, i) == head else Back(next, i) == Back(head, i - 1) != head
  {
  }

  class Worker {
    const times: array<nat>
    var head: nat
    var count: nat
    var gaveUp: bool
    ghost var history: seq<nat>

    /** The ring holds the last crashes of the history, the newest just before the head. */
    ghost predicate Valid() reads this, times {
      && times.Length == SAMPLES && head < SAMPLES
      && count == (if |history| < SAMPLES then |history| else SAMPLES)
      && Ordered(history)
      && forall i :: 0 <= i < count ==> times[Back(head, i)] == history[|history| - 1 - i]
    }

    constructor ()
      ensures Valid() && history == [] && fresh(times) && !gaveUp
    {
      times := new nat[SAMPLES](_ => 0);
      head, count, gaveUp, history := 0, 0, false, [];
    }

    method RecordRestart(now: nat)
      requires Valid() && (history == [] || history[|history| - 1] <= now)
      modifies this`head, this`count, this`history, times
      ensures Valid() && history == old(history) + [now]
    {
      ghost var oldHead, oldTimes := head, times[..];
      times[head] := now;
      head := (head + 1) % SAMPLES;
      if count < SAMPLES { count := count + 1; }
      history := history + [now];
      forall i | 0 <= i < count ensures times[Back(head, i)] == history[|history| - 1 - i] {
        BackAfter(oldHead, i);
        if i > 0 { assert oldTimes[Back(oldHead, i - 1)] == old(history)[|old(history)| - 1 - (i - 1)]; }
      }
    }

    /** Whether the limit is reached: as the whole history would have it for limits up to sixteen, and never for
        others. */
    method RateExceeded(window: nat, limit: nat, now: nat) returns (exceeded: bool)
      requires Valid() && (history == [] || history[|history| - 1] <= now)
      ensures exceeded == (limit <= SAMPLES && InWindow(history, window, now) >= limit)
    {
      var inWindow := 0;
      var i := 0;
      var n := |history|;
      assert history[..n] == history;
      while i < count
        invariant 0 <= i <= count && inWindow == i && n == |history|
        invariant Recent(history, window, now, SAMPLES) == i + Recent(history[..n - i], window, now, SAMPLES - i)
      {
        var t := times[Back(head, i)];
        assert history[..n - i][n - i - 1] == t && history[..n - i][..n - i - 1] == history[..n - i - 1];
        if now - t > window { break; }
        inWindow := inWindow + 1;
        i := i + 1;
      }
      RecentIsWindow(history, window, now, SAMPLES);
      exceeded := inWindow >= limit;
    }

    /** A crash: respawn unless the limit is reached. For limits up to sixteen, every crash followed by a respawn has
        fewer than the limit of crashes in the window ending at it; a higher limit never stops a respawn. */
    method OnCrash(window: nat, limit: nat, now: nat, shuttingDown: bool) returns (respawn: bool)
      requires Valid() && (history == [] || history[|history| - 1] <= now)
      modifies this, times
      ensures Valid()
      ensures history == if shuttingDown then old(history) else old(history) + [now]
      ensures respawn == (!shuttingDown && (limit > SAMPLES || InWindow(history, window, now) < limit))
      ensures gaveUp == (old(gaveUp) || (!shuttingDown && !respawn))
    {
      respawn := !shuttingDown;
      if respawn {
        RecordRestart(now);
        var exceeded := RateExceeded(window, limit, now);
        if exceeded {
          gaveUp := true;
          respawn := false;
        }
      }
    }
  }

  // ---- every run of crashes ----

  /** Which of these crashes, in order, is followed by a respawn. */
  ghost function Decisions(times: seq<nat>, window: nat, limit: nat): (r: seq<bool>)
    ensures |r| == |times|
  {
    if times == [] then []
    else
      var now := times[|times| - 1];
      Decisions(times[..|times| - 1], window, limit) + [Recent(times, window, now, SAMPLES) < limit]
  }

  /** For every sequence of crash times and every limit, a crash is followed by a respawn exactly when the limit is above
      sixteen or fewer than the limit of crashes lie in its window. */
  lemma {:induction false} RespawnsAreLimited(times: seq<nat>, window: nat, limit: nat, i: nat)
    requires Ordered(times) && i < |times|
    ensures Decisions(times, window, limit)[i] <==> limit > SAMPLES || InWindow(times[..i + 1], window, times[i]) < limit
  {
    var n := |times| - 1;
    var init := times[..n];
    assert Ordered(init);
    if i < n {
      RespawnsAreLimited(init, window, limit, i);
      assert init[..i + 1] == times[..i + 1];
    } else {
      assert times[..i + 1] == times;
      RecentIsWindow(times, window, times[n], SAMPLES);
    }
  }

  /** So the ring decides as the unbounded history would, for every sequence of crashes, exactly when the limit is at
      most sixteen: above it, enough crashes at one moment would be stopped by the history and are not by the ring. */
  lemma RingDecidesIff(limit: nat)
    ensures limit <= SAMPLES <==>
            forall times, window: nat, i :: Ordered(times) && 0 <= i < |times| ==>
              (Decisions(times, window, limit)[i] <==> InWindow(times[..i + 1], window, times[i]) < limit)
  {
    if limit <= SAMPLES {
      forall times, window: nat, i | Ordered(times) && 0 <= i < |times|
        ensures Decisions(times, window, limit)[i] <==> InWindow(times[..i + 1], window, times[i]) < limit
      {
        RespawnsAreLimited(times, window, limit, i);
      }
    } else {
      var times := seq(limit, _ => 0);
      AllInWindow(times);
      assert times[..limit] == times;
      RespawnsAreLimited(times, 0, limit, limit - 1);
    }
  }

  lemma {:induction false} AllInWindow(times: seq<nat>)
    requires forall i :: 0 <= i < |times| ==> times[i] == 0
    ensures InWindow(times, 0, 0) == |times|
  {
    if times != [] { AllInWindow(times[..|times| - 1]); }
  }
}
