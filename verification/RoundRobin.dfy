/** A cursor that goes round `n` slots: every slot comes up once in any `n` looks. */
module RoundRobin {
  import opened Queues

  lemma TimesAtLeast(k: nat, n: nat)
    requires k >= 1
    ensures k * n >= n
  {
    assert k * n == n + (k - 1) * n;
  }

  lemma ModUnique(a: nat, n: nat, q: nat, r: nat)
    requires r < n && a == q * n + r
    ensures a % n == r
  {
    var p, m := a / n, a % n;
    assert a == p * n + m;
    assert (q - p) * n == q * n - p * n && (p - q) * n == p * n - q * n;
    if p < q {
      TimesAtLeast(q - p, n);
    } else if q < p {
      TimesAtLeast(p - q, n);
    }
  }

  /** The slot under the cursor. */
  function Slot(rr: nat, n: nat): (j: nat)
    requires n > 0
    ensures j < n
  {
    rr % n
  }

  function After(j: nat, n: nat): (k: nat)
    requires j < n
    ensures k < n
  {
    if j + 1 == n then 0 else j + 1
  }

  lemma SlotNext(rr: nat, n: nat)
    requires n > 0
    ensures Slot(rr + 1, n) == After(Slot(rr, n), n)
  {
    var q, r := rr / n, rr % n;
    assert rr == q * n + r;
    if r + 1 < n {
      ModUnique(rr + 1, n, q, r + 1);
    } else {
      assert (q + 1) * n == q * n + n;
      ModUnique(rr + 1, n, q + 1, 0);
    }
  }

  /** The slot `t` places after slot `r`. */
  function Ahead(r: nat, t: nat, n: nat): (j: nat)
    requires r < n && t < n
    ensures j < n
  {
    if r + t < n then r + t else r + t - n
  }

  lemma {:induction false} SlotPlus(rr: nat, t: nat, n: nat)
    requires t < n
    ensures Slot(rr + t, n) == Ahead(Slot(rr, n), t, n)
  {
    hide Slot;
    if t > 0 {
      SlotPlus(rr, t - 1, n);
      SlotNext(rr + t - 1, n);
    }
  }

  /** Look number `t` from the cursor falls on slot `j`. */
  ghost predicate Falls(rr: nat, t: nat, n: nat, j: nat)
    requires n > 0
  {
    Slot(rr + t, n) == j
  }

  /** Among any `n` consecutive looks every slot comes up exactly once. */
  lemma EverySlotOnce(rr: nat, n: nat, j: nat) returns (t: nat)
    requires j < n
    ensures t < n && Falls(rr, t, n, j) && forall u :: 0 <= u < n && Falls(rr, u, n, j) ==> u == t
  {
    hide Slot;
    var r := Slot(rr, n);
    t := if r <= j then j - r else j - r + n;
    SlotPlus(rr, t, n);
    forall u | 0 <= u < n && Falls(rr, u, n, j) ensures u == t {
      SlotPlus(rr, u, n);
    }
  }

  /** How many of `k` consecutive looks fall on slot `j`. */
  ghost function Turns(rr: nat, k: nat, n: nat, j: nat): (c: nat)
    requires n > 0
  {
    if k == 0 then 0 else Turns(rr, k - 1, n, j) + Bit(Falls(rr, k - 1, n, j))
  }

  lemma {:induction false} TurnsSplit(rr: nat, a: nat, b: nat, n: nat, j: nat)
    requires n > 0
    ensures Turns(rr, a + b, n, j) == Turns(rr, a, n, j) + Turns(rr + a, b, n, j)
  {
    hide Slot;
    if b > 0 {
      TurnsSplit(rr, a, b - 1, n, j);
      assert rr + (a + b - 1) == (rr + a) + (b - 1);
    }
  }

  lemma {:induction false} TurnsWithin(rr: nat, k: nat, n: nat, j: nat, t: nat)
    requires j < n && k <= n && t < n && Falls(rr, t, n, j)
    requires forall u :: 0 <= u < n && Falls(rr, u, n, j) ==> u == t
    ensures Turns(rr, k, n, j) == Bit(t < k)
  {
    hide Falls;
    if k > 0 { TurnsWithin(rr, k - 1, n, j, t); }
  }

  /** Any two slots' turns differ by at most one. */
  lemma {:induction false} TurnsEven(rr: nat, k: nat, n: nat, i: nat, j: nat)
    requires i < n && j < n
    ensures Turns(rr, k, n, i) <= Turns(rr, k, n, j) + 1
    decreases k
  {
    hide Turns, Falls;
    var t := EverySlotOnce(rr, n, i);
    var u := EverySlotOnce(rr, n, j);
    if k < n {
      TurnsWithin(rr, k, n, i, t);
      TurnsWithin(rr, k, n, j, u);
    } else {
      TurnsWithin(rr, n, n, i, t);
      TurnsWithin(rr, n, n, j, u);
      TurnsSplit(rr, n, k - n, n, i);
      TurnsSplit(rr, n, k - n, n, j);
      TurnsEven(rr + n, k - n, n, i, j);
    }
  }
}
