/** Runs of three nodes in which the follower that made up a majority loses the entry it acknowledged, by a late frame
    or by a crash, and a leader without it commits another. States are named for the node and the moment. */
module LostEntries {
  import opened QuorumCommit
  import opened RaftNode
  import opened RaftSystem
  import opened CommitSafety
  import opened SampleRuns

  const LATE := Limits({CutsConflictsOnly}, false, true)
  const LOSS := Limits({RestartKeepsFirm}, true, true)

  function Start(i: nat, p: bool): Node { Fresh(i, 3, p) }

  // ----- term 1: a frame is overtaken, refused and repaired, and node 0 commits two entries -----

  function ZeroWins(p: bool): Node { Won(Start(0, p)) }
  function ZeroSentOne(p: bool): Node { ZeroWins(p).(next := [1, 2, 1]) }
  function ZeroHasTwo(p: bool): Node { ZeroSentOne(p).(log := [N1, X]) }
  function ZeroSentTwo(p: bool): Node { ZeroHasTwo(p).(next := [1, 3, 1]) }
  function ZeroRewound(p: bool): Node { ZeroHasTwo(p).(next := [1, 1, 1]) }
  function ZeroSynced(p: bool): Node { ZeroSentTwo(p).(durable := 2) }
  function ZeroCommitted(p: bool): Node {
    ZeroSynced(p).(matched := [0, 2, 0], peerDurable := [0, 2, 0], commit := 2, applied := [N1, X])
  }

  function OneVotes(p: bool): Node { Voted(Start(1, p), 1, 0) }
  function OneHasTwo(p: bool): Node { OneVotes(p).(log := [N1, X]) }
  function OneSynced(p: bool): Node { OneHasTwo(p).(durable := 2) }

  const FRAME_ONE := Append(0, 1, 1, 0, 0, 0, [N1])
  const FRAME_TWO := Append(0, 1, 1, 1, 1, 0, [X])
  const TWO_REFUSED := AppendResp(1, 0, 1, false, 0, 0)
  const FRAME_BOTH := Append(0, 1, 1, 0, 0, 0, [N1, X])
  const BOTH_TAKEN := AppendResp(1, 0, 1, true, 2, 0)
  const BEAT := Append(0, 1, 1, 2, 1, 0, [])
  const BEAT_TAKEN := AppendResp(1, 0, 1, true, 2, 2)

  lemma ZeroSends(p: bool)
    ensures Effect(ZeroWins(p), Replicate(0, 1)) == Out(ZeroSentOne(p), {FRAME_ONE})
    ensures Effect(ZeroRewound(p), Replicate(0, 1)) == Out(ZeroSentTwo(p), {FRAME_BOTH})
  {
    SendsAll(ZeroWins(p), 1);
    SendsAll(ZeroRewound(p), 1);
    hide Effect;
    assert ZeroWins(p).log == [N1] && ZeroWins(p).next == [1, 1, 1];
  }

  lemma ZeroAppends(p: bool)
    ensures Effect(ZeroSentOne(p), ClientAppend(0, 7, [])) == Out(ZeroHasTwo(p), {})
  {
    assert ZeroWins(p).log == [N1] && [N1] + [X] == [N1, X];
  }

  lemma ZeroSendsSecond(p: bool)
    ensures Effect(ZeroHasTwo(p), Replicate(0, 1)) == Out(ZeroSentTwo(p), {FRAME_TWO})
  {
    SmallBatch([N1, X], 1, 0, APPEND_FIXED);
    hide Effect, BatchCount;
    assert [N1, X][1..2] == [X];
    Sends(ZeroHasTwo(p), 1, 1, 1);
  }

  lemma OneAnswers(p: bool, lim: Limits)
    requires lim.cuts
    ensures Effect(OneVotes(p), Deliver(FRAME_TWO, false)) == Out(OneVotes(p), {TWO_REFUSED})
    ensures Within(OneVotes(p), Deliver(FRAME_TWO, false), lim)
    ensures Effect(OneVotes(p), Deliver(FRAME_BOTH, false)) == Out(OneHasTwo(p), {BOTH_TAKEN})
    ensures Within(OneVotes(p), Deliver(FRAME_BOTH, false), lim)
  {
    hide Effect, Within;
    assert OneVotes(p).log == [] && [] + [N1, X] == [N1, X];
    Refuses(OneVotes(p), FRAME_TWO, lim);
    Takes(OneVotes(p), FRAME_BOTH);
    TakenWithin(OneVotes(p), FRAME_BOTH, lim);
  }

  lemma ZeroRewinds(p: bool, lim: Limits)
    ensures Effect(ZeroSentTwo(p), Deliver(TWO_REFUSED, false)) == Out(ZeroRewound(p), {})
    ensures Within(ZeroSentTwo(p), Deliver(TWO_REFUSED, false), lim)
  {
    hide Effect, Within;
    var x := ZeroSentTwo(p);
    assert x.matched == [0, 0, 0] && x.peerDurable == [0, 0, 0];
    Rewinds(x, TWO_REFUSED);
    AnswerWithin(x, TWO_REFUSED, lim);
  }

  lemma BothSync(p: bool)
    ensures Effect(OneHasTwo(p), Fsync(1)) == Out(OneSynced(p), {})
    ensures Effect(ZeroSentTwo(p), Fsync(0)) == Out(ZeroSynced(p), {})
  {
    Syncs(OneHasTwo(p));
    assert p ==> Recorded(ZeroSynced(p)) == [2, 0, 0];
    MedianOfThree(2, 0, 0, 0);
    Syncs(ZeroSentTwo(p));
    hide Effect, QuorumIndex;
  }

  lemma ZeroBeats(p: bool, lim: Limits)
    ensures Effect(ZeroSynced(p), Replicate(0, 1)) == Out(ZeroSynced(p), {BEAT})
    ensures Effect(OneSynced(p), Deliver(BEAT, false)) == Out(OneSynced(p), {BEAT_TAKEN})
    ensures Within(OneSynced(p), Deliver(BEAT, false), lim)
  {
    hide Effect, Within;
    Beats(ZeroSynced(p), 1);
    BeatTaken(OneSynced(p), BEAT, lim);
  }

  lemma ZeroCommits(p: bool, lim: Limits)
    ensures Effect(ZeroSynced(p), Deliver(BEAT_TAKEN, false)) == Out(ZeroCommitted(p), {})
    ensures Within(ZeroSynced(p), Deliver(BEAT_TAKEN, false), lim)
  {
    hide Effect, Within, QuorumIndex;
    var x := ZeroSynced(p);
    assert x.matched[1 := 2] == [0, 2, 0] && x.peerDurable[1 := 2] == [0, 2, 0];
    assert Recorded(x.(matched := [0, 2, 0], peerDurable := [0, 2, 0])) == [2, 2, 0];
    MedianOfThree(2, 2, 0, 2);
    HeardMajority(x, BEAT_TAKEN, 2);
    AnswerWithin(x, BEAT_TAKEN, lim);
    assert [N1, X][..2] == [N1, X];
  }

  lemma Overtaken(s: System, p: bool, lim: Limits, run: seq<Action>, t: System) returns (more: seq<Action>, u: System)
    requires At(s, lim, run, t, ZeroWins(p), OneVotes(p), Start(2, p)) && lim.cuts
    ensures At(s, lim, more, u, ZeroRewound(p), OneVotes(p), Start(2, p)) && FRAME_ONE in u.net
  {
    hide Effect, Exec, ValidRun, Reaches, Within;
    var two := Start(2, p);
    ZeroSends(p);
    ZeroAppends(p);
    ZeroSendsSecond(p);
    OneAnswers(p, lim);
    ZeroRewinds(p, lim);
    more, u := Next(s, lim, run, t, ZeroWins(p), OneVotes(p), two, Replicate(0, 1), Out(ZeroSentOne(p), {FRAME_ONE}));
    more, u := Next(s, lim, more, u, ZeroSentOne(p), OneVotes(p), two, ClientAppend(0, 7, []), Out(ZeroHasTwo(p), {}));
    more, u := Next(s, lim, more, u, ZeroHasTwo(p), OneVotes(p), two, Replicate(0, 1),
                    Out(ZeroSentTwo(p), {FRAME_TWO}));
    more, u := Next(s, lim, more, u, ZeroSentTwo(p), OneVotes(p), two, Deliver(FRAME_TWO, false),
                    Out(OneVotes(p), {TWO_REFUSED}));
    more, u := Next(s, lim, more, u, ZeroSentTwo(p), OneVotes(p), two, Deliver(TWO_REFUSED, false),
                    Out(ZeroRewound(p), {}));
  }

  lemma Repaired(s: System, p: bool, lim: Limits, run: seq<Action>, t: System) returns (more: seq<Action>, u: System)
    requires At(s, lim, run, t, ZeroRewound(p), OneVotes(p), Start(2, p)) && lim.cuts && FRAME_ONE in t.net
    ensures At(s, lim, more, u, ZeroSynced(p), OneSynced(p), Start(2, p)) && FRAME_ONE in u.net
  {
    hide Effect, Exec, ValidRun, Reaches, Within;
    var two := Start(2, p);
    ZeroSends(p);
    OneAnswers(p, lim);
    BothSync(p);
    more, u := Next(s, lim, run, t, ZeroRewound(p), OneVotes(p), two, Replicate(0, 1),
                    Out(ZeroSentTwo(p), {FRAME_BOTH}));
    more, u := Next(s, lim, more, u, ZeroSentTwo(p), OneVotes(p), two, Deliver(FRAME_BOTH, false),
                    Out(OneHasTwo(p), {BOTH_TAKEN}));
    more, u := Next(s, lim, more, u, ZeroSentTwo(p), OneHasTwo(p), two, Fsync(1), Out(OneSynced(p), {}));
    more, u := Next(s, lim, more, u, ZeroSentTwo(p), OneSynced(p), two, Fsync(0), Out(ZeroSynced(p), {}));
  }

  lemma Committed(s: System, p: bool, lim: Limits, run: seq<Action>, t: System) returns (more: seq<Action>, u: System)
    requires At(s, lim, run, t, ZeroSynced(p), OneSynced(p), Start(2, p)) && FRAME_ONE in t.net
    ensures At(s, lim, more, u, ZeroCommitted(p), OneSynced(p), Start(2, p)) && FRAME_ONE in u.net
  {
    hide Effect, Exec, ValidRun, Reaches, Within;
    var two := Start(2, p);
    ZeroBeats(p, lim);
    ZeroCommits(p, lim);
    more, u := Next(s, lim, run, t, ZeroSynced(p), OneSynced(p), two, Replicate(0, 1), Out(ZeroSynced(p), {BEAT}));
    more, u := Next(s, lim, more, u, ZeroSynced(p), OneSynced(p), two, Deliver(BEAT, false),
                    Out(OneSynced(p), {BEAT_TAKEN}));
    more, u := Next(s, lim, more, u, ZeroSynced(p), OneSynced(p), two, Deliver(BEAT_TAKEN, false),
                    Out(ZeroCommitted(p), {}));
  }

  /** Both runs so far, within the discipline; the first frame is still under way. */
  lemma TwoCommitted(s: System, p: bool, lim: Limits) returns (run: seq<Action>, t: System)
    requires Init(s) && s.n == 3 && s.nodes == [Start(0, p), Start(1, p), Start(2, p)] && lim.cuts
    ensures At(s, lim, run, t, ZeroCommitted(p), OneSynced(p), Start(2, p)) && FRAME_ONE in t.net
  {
    run, t := Elects(s, lim, [], s, 0, 1);
    assert t.nodes == [ZeroWins(p), OneVotes(p), Start(2, p)];
    hide ZeroWins, ZeroRewound, ZeroSynced, ZeroCommitted, OneVotes, OneSynced, Start, Reaches;
    run, t := Overtaken(s, p, lim, run, t);
    run, t := Repaired(s, p, lim, run, t);
    run, t := Committed(s, p, lim, run, t);
  }

  // ----- term 2: node 1, without the second entry, is elected by node 2 and commits another -----

  /** Node 1 has lost the second entry. */
  function OneLost(p: bool, d: nat): Node { OneVotes(p).(log := [N1], durable := d) }
  function OneWins(p: bool, d: nat): Node { Won(OneLost(p, d)) }
  function OneProbed(p: bool, d: nat): Node { OneWins(p, d).(next := [2, 2, 3]) }
  function OneRewound(p: bool, d: nat): Node { OneWins(p, d).(next := [2, 2, 1]) }
  function OneSynced2(p: bool, d: nat): Node { OneProbed(p, d).(durable := 2) }
  function OneCommitted(p: bool, d: nat): Node {
    OneSynced2(p, d).(matched := [0, 0, 2], peerDurable := [0, 0, 2], commit := 2, applied := [N1, N2])
  }

  function TwoVotes(p: bool): Node { Voted(Start(2, p), 2, 1) }
  function TwoHasTwo(p: bool): Node { TwoVotes(p).(log := [N1, N2]) }
  function TwoSynced(p: bool): Node { TwoHasTwo(p).(durable := 2) }

  const PROBE := Append(1, 2, 2, 1, 1, 0, [N2])
  const PROBE_REFUSED := AppendResp(2, 1, 2, false, 0, 0)
  const FRAME_ALL := Append(1, 2, 2, 0, 0, 0, [N1, N2])
  const ALL_TAKEN := AppendResp(2, 1, 2, true, 2, 0)
  const BEAT_2 := Append(1, 2, 2, 2, 2, 0, [])
  const BEAT_TAKEN_2 := AppendResp(2, 1, 2, true, 2, 2)

  lemma OneSends(p: bool, d: nat)
    ensures Effect(OneWins(p, d), Replicate(1, 2)) == Out(OneProbed(p, d), {PROBE})
    ensures Effect(OneRewound(p, d), Replicate(1, 2)) == Out(OneProbed(p, d), {FRAME_ALL})
  {
    SmallBatch([N1, N2], 1, 0, APPEND_FIXED);
    SendsAll(OneRewound(p, d), 2);
    hide Effect, BatchCount;
    assert OneWins(p, d).log == [N1, N2] && OneWins(p, d).next == [2, 2, 2] && [N1, N2][1..2] == [N2];
    Sends(OneWins(p, d), 2, 1, 1);
  }

  lemma TwoAnswers(p: bool, lim: Limits)
    requires lim.cuts
    ensures Effect(TwoVotes(p), Deliver(PROBE, false)) == Out(TwoVotes(p), {PROBE_REFUSED})
    ensures Within(TwoVotes(p), Deliver(PROBE, false), lim)
    ensures Effect(TwoVotes(p), Deliver(FRAME_ALL, false)) == Out(TwoHasTwo(p), {ALL_TAKEN})
    ensures Within(TwoVotes(p), Deliver(FRAME_ALL, false), lim)
  {
    hide Effect, Within;
    assert TwoVotes(p).log == [] && [] + [N1, N2] == [N1, N2];
    Refuses(TwoVotes(p), PROBE, lim);
    Takes(TwoVotes(p), FRAME_ALL);
    TakenWithin(TwoVotes(p), FRAME_ALL, lim);
  }

  lemma OneRewinds(p: bool, d: nat, lim: Limits)
    ensures Effect(OneProbed(p, d), Deliver(PROBE_REFUSED, false)) == Out(OneRewound(p, d), {})
    ensures Within(OneProbed(p, d), Deliver(PROBE_REFUSED, false), lim)
  {
    hide Effect, Within;
    var x := OneProbed(p, d);
    assert x.matched == [0, 0, 0] && x.peerDurable == [0, 0, 0];
    Rewinds(x, PROBE_REFUSED);
    AnswerWithin(x, PROBE_REFUSED, lim);
  }

  lemma BothSync2(p: bool, d: nat)
    ensures Effect(TwoHasTwo(p), Fsync(2)) == Out(TwoSynced(p), {})
    ensures Effect(OneProbed(p, d), Fsync(1)) == Out(OneSynced2(p, d), {})
  {
    Syncs(TwoHasTwo(p));
    assert OneProbed(p, d).log == [N1, N2] && OneProbed(p, d).peerDurable == [0, 0, 0];
    assert p ==> Recorded(OneSynced2(p, d)) == [0, 2, 0];
    MedianOfThree(0, 2, 0, 0);
    Syncs(OneProbed(p, d));
    hide Effect, QuorumIndex;
  }

  lemma OneBeats(p: bool, d: nat, lim: Limits)
    ensures Effect(OneSynced2(p, d), Replicate(1, 2)) == Out(OneSynced2(p, d), {BEAT_2})
    ensures Effect(TwoSynced(p), Deliver(BEAT_2, false)) == Out(TwoSynced(p), {BEAT_TAKEN_2})
    ensures Within(TwoSynced(p), Deliver(BEAT_2, false), lim)
  {
    hide Effect, Within;
    assert OneSynced2(p, d).log == [N1, N2];
    Beats(OneSynced2(p, d), 2);
    BeatTaken(TwoSynced(p), BEAT_2, lim);
  }

  lemma OneCommits(p: bool, d: nat, lim: Limits)
    ensures Effect(OneSynced2(p, d), Deliver(BEAT_TAKEN_2, false)) == Out(OneCommitted(p, d), {})
    ensures Within(OneSynced2(p, d), Deliver(BEAT_TAKEN_2, false), lim)
  {
    hide Effect, Within, QuorumIndex;
    var x := OneSynced2(p, d);
    assert x.log == [N1, N2] && x.matched[2 := 2] == [0, 0, 2] && x.peerDurable[2 := 2] == [0, 0, 2];
    assert Recorded(x.(matched := [0, 0, 2], peerDurable := [0, 0, 2])) == [0, 2, 2];
    MedianOfThree(0, 2, 2, 2);
    HeardMajority(x, BEAT_TAKEN_2, 2);
    AnswerWithin(x, BEAT_TAKEN_2, lim);
    assert [N1, N2][..2] == [N1, N2];
  }

  lemma OtherReplicated(s: System, p: bool, lim: Limits, run: seq<Action>, t: System, d: nat)
    returns (more: seq<Action>, u: System)
    requires At(s, lim, run, t, ZeroCommitted(p), OneLost(p, d), Start(2, p)) && lim.cuts
    ensures At(s, lim, more, u, ZeroCommitted(p), OneProbed(p, d), TwoHasTwo(p))
  {
    hide Effect, Exec, ValidRun, Reaches, Within;
    more, u := Elects(s, lim, run, t, 1, 2);
    var zero := ZeroCommitted(p);
    assert u.nodes == [zero, OneWins(p, d), TwoVotes(p)];
    OneSends(p, d);
    TwoAnswers(p, lim);
    OneRewinds(p, d, lim);
    more, u := Next(s, lim, more, u, zero, OneWins(p, d), TwoVotes(p), Replicate(1, 2), Out(OneProbed(p, d), {PROBE}));
    more, u := Next(s, lim, more, u, zero, OneProbed(p, d), TwoVotes(p), Deliver(PROBE, false),
                    Out(TwoVotes(p), {PROBE_REFUSED}));
    more, u := Next(s, lim, more, u, zero, OneProbed(p, d), TwoVotes(p), Deliver(PROBE_REFUSED, false),
                    Out(OneRewound(p, d), {}));
    more, u := Next(s, lim, more, u, zero, OneRewound(p, d), TwoVotes(p), Replicate(1, 2),
                    Out(OneProbed(p, d), {FRAME_ALL}));
    more, u := Next(s, lim, more, u, zero, OneProbed(p, d), TwoVotes(p), Deliver(FRAME_ALL, false),
                    Out(TwoHasTwo(p), {ALL_TAKEN}));
  }

  lemma OtherCommitted(s: System, p: bool, lim: Limits, run: seq<Action>, t: System, d: nat)
    returns (more: seq<Action>, u: System)
    requires At(s, lim, run, t, ZeroCommitted(p), OneProbed(p, d), TwoHasTwo(p))
    ensures At(s, lim, more, u, ZeroCommitted(p), OneCommitted(p, d), TwoSynced(p))
  {
    hide Effect, Exec, ValidRun, Reaches, Within;
    var zero := ZeroCommitted(p);
    BothSync2(p, d);
    OneBeats(p, d, lim);
    OneCommits(p, d, lim);
    more, u := Next(s, lim, run, t, zero, OneProbed(p, d), TwoHasTwo(p), Fsync(2), Out(TwoSynced(p), {}));
    more, u := Next(s, lim, more, u, zero, OneProbed(p, d), TwoSynced(p), Fsync(1), Out(OneSynced2(p, d), {}));
    more, u := Next(s, lim, more, u, zero, OneSynced2(p, d), TwoSynced(p), Replicate(1, 2),
                    Out(OneSynced2(p, d), {BEAT_2}));
    more, u := Next(s, lim, more, u, zero, OneSynced2(p, d), TwoSynced(p), Deliver(BEAT_2, false),
                    Out(TwoSynced(p), {BEAT_TAKEN_2}));
    more, u := Next(s, lim, more, u, zero, OneSynced2(p, d), TwoSynced(p), Deliver(BEAT_TAKEN_2, false),
                    Out(OneCommitted(p, d), {}));
  }

  // ----- the two runs -----

  const LATE_TAKEN := AppendResp(1, 0, 1, true, 1, 2)

  lemma OneLoses(p: bool)
    ensures Effect(OneSynced(p), Crash(1, 1)) == Out(OneLost(p, 1), {}) && Within(OneSynced(p), Crash(1, 1), LOSS)
  {
    assert [N1, X][..1] == [N1];
  }

  lemma OneCut()
    ensures Effect(OneSynced(false), Deliver(FRAME_ONE, false)) == Out(OneLost(false, 2), {LATE_TAKEN})
    ensures Within(OneSynced(false), Deliver(FRAME_ONE, false), LATE)
  {
    hide Effect, Within;
    assert [N1, X][..0] + [N1] == [N1];
    Takes(OneSynced(false), FRAME_ONE);
    TakenWithin(OneSynced(false), FRAME_ONE, LATE);
  }

  /** Under the fast policy an acknowledged entry is truncated by an older frame of the same leader. */
  lemma LateFrameDiverges(s: System) returns (run: seq<Action>)
    requires Init(s) && s.n == 3 && s.nodes == [Start(0, false), Start(1, false), Start(2, false)]
    ensures ValidRun(s, run) && RunWithin(s, run, LATE)
    ensures Exec(s, run).nodes[0].applied == [N1, X] && Exec(s, run).nodes[1].applied == [N1, N2]
  {
    hide OneSynced, OneLost, OneProbed, TwoHasTwo, TwoSynced, Start, Within, Effect;
    var t;
    run, t := TwoCommitted(s, false, LATE);
    OneCut();
    run, t := Next(s, LATE, run, t, ZeroCommitted(false), OneSynced(false), Start(2, false), Deliver(FRAME_ONE, false),
                   Out(OneLost(false, 2), {LATE_TAKEN}));
    run, t := OtherReplicated(s, false, LATE, run, t, 2);
    run, t := OtherCommitted(s, false, LATE, run, t, 2);
  }

  /** Under either policy an acknowledged entry is lost in a crash: that it was on disk does not help if the
      restart does not recover it. */
  lemma LossDiverges(s: System, p: bool) returns (run: seq<Action>)
    requires Init(s) && s.n == 3 && s.nodes == [Start(0, p), Start(1, p), Start(2, p)]
    ensures ValidRun(s, run) && RunWithin(s, run, LOSS)
    ensures Exec(s, run).nodes[0].applied == [N1, X] && Exec(s, run).nodes[1].applied == [N1, N2]
  {
    assert OneSynced(p).log == [N1, X];
    hide OneSynced, OneLost, OneProbed, TwoHasTwo, TwoSynced, Start, Within, Effect;
    var t;
    run, t := TwoCommitted(s, p, LOSS);
    OneLoses(p);
    run, t := Next(s, LOSS, run, t, ZeroCommitted(p), OneSynced(p), Start(2, p), Crash(1, 1), Out(OneLost(p, 1), {}));
    run, t := OtherReplicated(s, p, LOSS, run, t, 1);
    run, t := OtherCommitted(s, p, LOSS, run, t, 1);
  }
}
