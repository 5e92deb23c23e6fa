/** Every run of a log that is appended to, written out, cut at the end and compacted at the front. */
module LogRuns {
  import opened WalFormat
  import opened Watermark
  import opened LogStore
  import opened Compaction

  datatype Act = Log(op: Op) | Drop(upto: nat, applied: nat, live: Oldest, reserved: nat)

  /** A compaction sees at most the entries of the log as applied. */
  function Step(s: Store, a: Act): (r: Store)
    requires Shaped(s)
    ensures Shaped(r)
  {
    match a
    case Log(op) => Do(s, op)
    case Drop(upto, applied, live, k) => if applied <= s.Last() then CompactTo(s, upto, applied, live, k) else s
  }

  function Run(acts: seq<Act>): (s: Store)
    ensures Shaped(s)
  {
    if acts == [] then EMPTY else Step(Run(acts[..|acts| - 1]), acts[|acts| - 1])
  }

  /** The compaction, if it is one, reads the right offset, as it does whenever an entry survives it. */
  ghost predicate ReadsRight(s: Store, a: Act) {
    a.Drop? && a.applied <= s.Last() ==>
      var u := Clamp(a.upto, a.applied, a.live);
      u < s.base + BATCH || OffsetReadRight(s, u)
  }

  /** An entry survives the compaction. */
  predicate Survives(s: Store, a: Act) {
    a.Drop? ==> Clamp(a.upto, a.applied, a.live) < s.Last()
  }

  lemma SurvivorReadsRight(s: Store, a: Act)
    requires Survives(s, a)
    ensures ReadsRight(s, a)
  {
  }

  ghost predicate AllRight(acts: seq<Act>) {
    forall n :: 0 <= n < |acts| ==> ReadsRight(Run(acts[..n]), acts[n])
  }

  ghost predicate AllSurvived(acts: seq<Act>) {
    forall n :: 0 <= n < |acts| ==> Survives(Run(acts[..n]), acts[n])
  }

  lemma StepOkIff(s: Store, a: Act)
    requires Ok(s)
    ensures Shaped(s) && (Ok(Step(s, a)) <==> ReadsRight(s, a))
  {
    hide Ok, Do, Compact, OffsetReadRight;
    OkShaped(s);
    match a {
      case Log(op) => DoOk(s, op);
      case Drop(upto, applied, live, k) =>
        var u := Clamp(upto, applied, live);
        if applied <= s.Last() && u >= s.base + BATCH { CompactOkIff(s, u, k); }
    }
  }

  lemma RunStep(acts: seq<Act>, n: nat)
    requires n < |acts|
    ensures Run(acts[..n + 1]) == Step(Run(acts[..n]), acts[n])
  {
    assert acts[..n + 1][..n] == acts[..n];
  }

  lemma {:induction false} RightSoFar(acts: seq<Act>, n: nat)
    requires n <= |acts| && AllRight(acts)
    ensures Ok(Run(acts[..n]))
  {
    hide Ok, Step, ReadsRight;
    if n == 0 {
      EmptyOk();
    } else {
      RightSoFar(acts, n - 1);
      RunStep(acts, n - 1);
      StepOkIff(Run(acts[..n - 1]), acts[n - 1]);
    }
  }

  /** For every run: file and entries stay in step throughout if and only if every compaction reads the right offset. */
  lemma RunOkIff(acts: seq<Act>)
    ensures (forall n :: 0 <= n <= |acts| ==> Ok(Run(acts[..n]))) <==>
            AllRight(acts)
  {
    hide Ok, Run, Step, ReadsRight;
    if forall n :: 0 <= n <= |acts| ==> Ok(Run(acts[..n])) {
      forall n | 0 <= n < |acts| ensures ReadsRight(Run(acts[..n]), acts[n]) {
        assert Ok(Run(acts[..n])) && Ok(Run(acts[..n + 1]));
        RunStep(acts, n);
        StepOkIff(Run(acts[..n]), acts[n]);
      }
    } else if AllRight(acts) {
      forall n | 0 <= n <= |acts| ensures Ok(Run(acts[..n])) { RightSoFar(acts, n); }
      assert false;
    }
  }

  /** After any such run and one more write, recovery returns exactly the entries in memory if and only if none of
      them is over the payload limit. */
  lemma RunRecovers(acts: seq<Act>, reserved: nat)
    requires AllRight(acts)
    ensures var s := Flush(Run(acts), reserved);
            AllFit(s.entries, s.base + 1) ==> (RecoversAll(s) <==> WithinLimit(s.entries))
  {
    hide Run, RecoversAll, WithinLimit, Flush, Ok, AllFit, AllRight;
    RightSoFar(acts, |acts|);
    assert acts[..|acts|] == acts;
    WrittenRecovers(Run(acts), reserved);
  }

  /** In particular after any run in which an entry survives each compaction. */
  lemma SurvivorsRecovered(acts: seq<Act>, reserved: nat)
    requires AllSurvived(acts)
    ensures var s := Flush(Run(acts), reserved);
            AllFit(s.entries, s.base + 1) ==> (RecoversAll(s) <==> WithinLimit(s.entries))
  {
    hide Run, RecoversAll, WithinLimit, Flush, AllFit, Survives, ReadsRight;
    forall n | 0 <= n < |acts| ensures ReadsRight(Run(acts[..n]), acts[n]) {
      SurvivorReadsRight(Run(acts[..n]), acts[n]);
    }
    RunRecovers(acts, reserved);
  }
}
