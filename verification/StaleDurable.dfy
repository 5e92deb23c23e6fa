/** Under the durable commit policy the two rules about the durable index are needed. A follower reports its
    durable index in every answer, and a leader counts it whatever the answer says: an accepted frame that cuts
    the log below the index is one way to count entries that the follower does not hold, a reject is another. */
module StaleDurable {
  import opened QuorumCommit
  import opened RaftNode
  import opened RaftSystem
  import opened CommitSafety
  import opened SampleRuns

  const CUT := Limits({CoversDurable}, false, true)
  const REJECT := Limits({RejectsClaimMatched}, false, false)

  function Start(i: nat): Node { Fresh(i, 3, true) }

  // ----- both runs: node 0 leads term 1, with two entries on disk that nobody else has -----

  function ZeroWins1(): Node { Won(Start(0)) }
  function ZeroSynced1(): Node { ZeroWins1().(log := [N1, X], durable := 2) }
  function OneVotes1(): Node { Voted(Start(1), 1, 0) }
  /** Node 1 leads term 2, elected by node 2. */
  function OneWins2(): Node { Won(OneVotes1()) }
  function TwoVotes2(): Node { Voted(Start(2), 2, 1) }
  function TwoVotes3(): Node { Voted(TwoVotes2(), 3, 0) }

  lemma LeaderOneEffects()
    ensures Effect(ZeroWins1(), ClientAppend(0, 7, [])) == Out(ZeroSynced1().(durable := 0), {})
    ensures Effect(ZeroSynced1().(durable := 0), Fsync(0)) == Out(ZeroSynced1(), {})
  {
    assert ZeroWins1().log == [N1];
    assert Recorded(ZeroSynced1()) == [2, 0, 0];
    MedianOfThree(2, 0, 0, 0);
  }

  lemma FirstTerm(s: System, lim: Limits) returns (run: seq<Action>, t: System)
    requires Init(s) && s.n == 3 && s.nodes == [Start(0), Start(1), Start(2)]
    ensures At(s, lim, run, t, ZeroSynced1(), OneVotes1(), Start(2))
  {
    run, t := Elects(s, lim, [], s, 0, 1);
    assert t.nodes == [ZeroWins1(), OneVotes1(), Start(2)];
    LeaderOneEffects();
    hide Effect, Exec, ValidRun, Reaches;
    run, t := Next(s, lim, run, t, ZeroWins1(), OneVotes1(), Start(2), ClientAppend(0, 7, []),
                   Out(ZeroSynced1().(durable := 0), {}));
    run, t := Next(s, lim, run, t, ZeroSynced1().(durable := 0), OneVotes1(), Start(2), Fsync(0),
                   Out(ZeroSynced1(), {}));
  }

  // ----- a truncation does not lower the durable index -----

  /** Node 0's log is replaced by the leader of term 2; its durable index is not lowered. */
  function ZeroCut2(): Node { Humbled(ZeroSynced1(), 2).(log := [N2]) }
  function CutZeroWins3(): Node { Won(ZeroCut2()) }
  function CutZeroProbed3(): Node { CutZeroWins3().(next := [2, 2, 3]) }
  function CutZeroRewound3(): Node { CutZeroWins3().(next := [2, 2, 1]) }
  function CutZeroCommitted3(): Node {
    CutZeroProbed3().(peerDurable := [0, 0, 2], matched := [0, 0, 2], commit := 2, applied := [N2, N3])
  }

  function CutOneSent2(): Node { OneWins2().(next := [2, 1, 1]) }
  function CutOneHeard2(): Node { CutOneSent2().(peerDurable := [2, 0, 0], matched := [1, 0, 0]) }
  /** Node 1 commits an entry that is in no other log. */
  function CutOneCommitted2(): Node { CutOneHeard2().(log := [N2, Y], durable := 2, commit := 2, applied := [N2, Y]) }

  function CutTwoTakes3(): Node { TwoVotes3().(log := [N2, N3]) }
  function CutTwoSynced3(): Node { CutTwoTakes3().(durable := 2) }

  const CUT_FRAME_2 := Append(1, 0, 2, 0, 0, 0, [N2])
  const CUT_TAKEN_2 := AppendResp(0, 1, 2, true, 1, 2)

  lemma LeaderTwoSends()
    ensures Effect(OneWins2(), Replicate(1, 0)) == Out(CutOneSent2(), {CUT_FRAME_2})
  {
    assert OneWins2().log == [N2] && OneWins2().next == [1, 1, 1];
    assert BatchCount([N2], 0, 0, APPEND_FIXED) == 1 + BatchCount([N2], 1, 1, APPEND_FIXED + ENTRY_FIXED);
    assert [N2][0..1] == [N2];
  }

  lemma FollowerZeroTakes()
    ensures Effect(ZeroSynced1(), Deliver(CUT_FRAME_2, false)) == Out(ZeroCut2(), {CUT_TAKEN_2})
    ensures Within(ZeroSynced1(), Deliver(CUT_FRAME_2, false), CUT)
  {
    assert TruncateFrom([N1, X], 1) == [];
    assert ZeroSynced1().log[0 + 0].term != CUT_FRAME_2.entries[0].term;
  }

  lemma LeaderTwoHears()
    ensures Effect(CutOneSent2(), Deliver(CUT_TAKEN_2, false)) == Out(CutOneHeard2(), {})
    ensures Within(CutOneSent2(), Deliver(CUT_TAKEN_2, false), CUT)
  {
    assert CutOneSent2().log == [N2];
    assert CutOneSent2().peerDurable[0 := 2] == [2, 0, 0] && CutOneSent2().matched[0 := 1] == [1, 0, 0];
    assert Recorded(CutOneHeard2()) == [2, 0, 0];
    MedianOfThree(2, 0, 0, 0);
  }

  lemma LeaderTwoCommits()
    ensures Effect(CutOneHeard2(), ClientAppend(1, 8, [])) == Out(CutOneHeard2().(log := [N2, Y]), {})
    ensures Effect(CutOneHeard2().(log := [N2, Y]), Fsync(1)) == Out(CutOneCommitted2(), {})
  {
    assert CutOneHeard2().log == [N2];
    var d := CutOneHeard2().(log := [N2, Y], durable := 2);
    assert Recorded(d) == [2, 2, 0];
    MedianOfThree(2, 2, 0, 2);
  }

  const CUT_PROBE_3 := Append(0, 2, 3, 1, 2, 0, [N3])
  const REFUSED_3 := AppendResp(2, 0, 3, false, 0, 0)
  const CUT_FRAME_3 := Append(0, 2, 3, 0, 0, 0, [N2, N3])
  const CUT_TAKEN_3 := AppendResp(2, 0, 3, true, 2, 0)
  const CUT_BEAT_3 := Append(0, 2, 3, 2, 3, 0, [])
  const CUT_BEAT_TAKEN_3 := AppendResp(2, 0, 3, true, 2, 2)

  lemma LeaderThreeSends()
    ensures Effect(CutZeroWins3(), Replicate(0, 2)) == Out(CutZeroProbed3(), {CUT_PROBE_3})
    ensures Effect(CutZeroRewound3(), Replicate(0, 2)) == Out(CutZeroProbed3(), {CUT_FRAME_3})
    ensures Effect(CutZeroProbed3(), Replicate(0, 2)) == Out(CutZeroProbed3(), {CUT_BEAT_3})
  {
    var l := [N2, N3];
    assert CutZeroWins3().log == l && CutZeroWins3().next == [2, 2, 2];
    assert BatchCount(l, 1, 1, APPEND_FIXED + ENTRY_FIXED) == 1 + BatchCount(l, 2, 2, APPEND_FIXED + 2 * ENTRY_FIXED);
    assert BatchCount(l, 0, 0, APPEND_FIXED) == 1 + BatchCount(l, 1, 1, APPEND_FIXED + ENTRY_FIXED);
    assert BatchCount(l, 1, 0, APPEND_FIXED) == 1 + BatchCount(l, 2, 1, APPEND_FIXED + ENTRY_FIXED);
    assert l[1..2] == [N3] && l[0..2] == l;
  }

  lemma FollowerTwoTakes()
    ensures Effect(TwoVotes3(), Deliver(CUT_PROBE_3, false)) == Out(TwoVotes3(), {REFUSED_3})
    ensures Within(TwoVotes3(), Deliver(CUT_PROBE_3, false), CUT)
    ensures Effect(TwoVotes3(), Deliver(CUT_FRAME_3, false)) == Out(CutTwoTakes3(), {CUT_TAKEN_3})
    ensures Within(TwoVotes3(), Deliver(CUT_FRAME_3, false), CUT)
    ensures Effect(CutTwoTakes3(), Fsync(2)) == Out(CutTwoSynced3(), {})
    ensures Effect(CutTwoSynced3(), Deliver(CUT_BEAT_3, false)) == Out(CutTwoSynced3(), {CUT_BEAT_TAKEN_3})
    ensures Within(CutTwoSynced3(), Deliver(CUT_BEAT_3, false), CUT)
  {
    assert TwoVotes3().log == [];
    assert TruncateFrom([N2, N3], 3) + [] == [N2, N3];
  }

  lemma LeaderThreeHears()
    ensures Effect(CutZeroProbed3(), Deliver(REFUSED_3, false)) == Out(CutZeroRewound3(), {})
    ensures Within(CutZeroProbed3(), Deliver(REFUSED_3, false), CUT)
  {
    assert CutZeroWins3().log == [N2, N3] && CutZeroWins3().matched == [0, 0, 0]
           && CutZeroWins3().peerDurable == [0, 0, 0];
  }

  lemma LeaderThreeCommits()
    ensures Effect(CutZeroProbed3(), Deliver(CUT_BEAT_TAKEN_3, false)) == Out(CutZeroCommitted3(), {})
    ensures Within(CutZeroProbed3(), Deliver(CUT_BEAT_TAKEN_3, false), CUT)
  {
    hide Effect, Within, QuorumIndex;
    var x := CutZeroProbed3();
    var d := x.(peerDurable := [0, 0, 2], matched := [0, 0, 2]);
    assert x.log == [N2, N3] && x.peerDurable[2 := 2] == [0, 0, 2] && x.matched[2 := 2] == [0, 0, 2];
    assert Recorded(d) == [2, 0, 2];
    MedianOfThree(2, 0, 2, 2);
    HeardMajority(x, CUT_BEAT_TAKEN_3, 2);
    AnswerWithin(x, CUT_BEAT_TAKEN_3, CUT);
    assert [N2, N3][..2] == [N2, N3];
  }

  lemma CutSecondTerm(s: System, run: seq<Action>, t: System) returns (more: seq<Action>, u: System)
    requires At(s, CUT, run, t, ZeroSynced1(), OneVotes1(), Start(2))
    ensures At(s, CUT, more, u, ZeroCut2(), CutOneCommitted2(), TwoVotes2())
  {
    hide Effect, Exec, ValidRun, Reaches, Within;
    more, u := Elects(s, CUT, run, t, 1, 2);
    assert u.nodes == [ZeroSynced1(), OneWins2(), TwoVotes2()];
    LeaderTwoSends();
    more, u := Next(s, CUT, more, u, ZeroSynced1(), OneWins2(), TwoVotes2(), Replicate(1, 0),
                    Out(CutOneSent2(), {CUT_FRAME_2}));
    FollowerZeroTakes();
    more, u := Next(s, CUT, more, u, ZeroSynced1(), CutOneSent2(), TwoVotes2(), Deliver(CUT_FRAME_2, false),
                    Out(ZeroCut2(), {CUT_TAKEN_2}));
    LeaderTwoHears();
    more, u := Next(s, CUT, more, u, ZeroCut2(), CutOneSent2(), TwoVotes2(), Deliver(CUT_TAKEN_2, false),
                    Out(CutOneHeard2(), {}));
    LeaderTwoCommits();
    more, u := Next(s, CUT, more, u, ZeroCut2(), CutOneHeard2(), TwoVotes2(), ClientAppend(1, 8, []),
                    Out(CutOneHeard2().(log := [N2, Y]), {}));
    more, u := Next(s, CUT, more, u, ZeroCut2(), CutOneHeard2().(log := [N2, Y]), TwoVotes2(), Fsync(1),
                    Out(CutOneCommitted2(), {}));
  }

  lemma CutThirdTerm(s: System, run: seq<Action>, t: System) returns (more: seq<Action>, u: System)
    requires At(s, CUT, run, t, ZeroCut2(), CutOneCommitted2(), TwoVotes2())
    ensures At(s, CUT, more, u, CutZeroProbed3(), CutOneCommitted2(), CutTwoTakes3())
  {
    hide Effect, Exec, ValidRun, Reaches, Within;
    more, u := Elects(s, CUT, run, t, 0, 2);
    assert u.nodes == [CutZeroWins3(), CutOneCommitted2(), TwoVotes3()];
    LeaderThreeSends();
    FollowerTwoTakes();
    LeaderThreeHears();
    more, u := Next(s, CUT, more, u, CutZeroWins3(), CutOneCommitted2(), TwoVotes3(), Replicate(0, 2),
                    Out(CutZeroProbed3(), {CUT_PROBE_3}));
    more, u := Next(s, CUT, more, u, CutZeroProbed3(), CutOneCommitted2(), TwoVotes3(), Deliver(CUT_PROBE_3, false),
                    Out(TwoVotes3(), {REFUSED_3}));
    more, u := Next(s, CUT, more, u, CutZeroProbed3(), CutOneCommitted2(), TwoVotes3(), Deliver(REFUSED_3, false),
                    Out(CutZeroRewound3(), {}));
    more, u := Next(s, CUT, more, u, CutZeroRewound3(), CutOneCommitted2(), TwoVotes3(), Replicate(0, 2),
                    Out(CutZeroProbed3(), {CUT_FRAME_3}));
    more, u := Next(s, CUT, more, u, CutZeroProbed3(), CutOneCommitted2(), TwoVotes3(), Deliver(CUT_FRAME_3, false),
                    Out(CutTwoTakes3(), {CUT_TAKEN_3}));
  }

  lemma CutThirdTermCommits(s: System, run: seq<Action>, t: System) returns (more: seq<Action>, u: System)
    requires At(s, CUT, run, t, CutZeroProbed3(), CutOneCommitted2(), CutTwoTakes3())
    ensures At(s, CUT, more, u, CutZeroCommitted3(), CutOneCommitted2(), CutTwoSynced3())
  {
    hide Effect, Exec, ValidRun, Reaches, Within;
    LeaderThreeSends();
    FollowerTwoTakes();
    LeaderThreeCommits();
    more, u := Next(s, CUT, run, t, CutZeroProbed3(), CutOneCommitted2(), CutTwoTakes3(), Fsync(2),
                    Out(CutTwoSynced3(), {}));
    more, u := Next(s, CUT, more, u, CutZeroProbed3(), CutOneCommitted2(), CutTwoSynced3(), Replicate(0, 2),
                    Out(CutZeroProbed3(), {CUT_BEAT_3}));
    more, u := Next(s, CUT, more, u, CutZeroProbed3(), CutOneCommitted2(), CutTwoSynced3(), Deliver(CUT_BEAT_3, false),
                    Out(CutTwoSynced3(), {CUT_BEAT_TAKEN_3}));
    more, u := Next(s, CUT, more, u, CutZeroProbed3(), CutOneCommitted2(), CutTwoSynced3(),
                    Deliver(CUT_BEAT_TAKEN_3, false), Out(CutZeroCommitted3(), {}));
  }

  /** Three nodes under the durable policy have a run without a crash, breaking only the rule that an accepted
      frame covers the durable index, at whose end two nodes have applied different operations at the same index. */
  lemma CutDiverges(s: System) returns (run: seq<Action>)
    requires Init(s) && s.n == 3 && forall i :: 0 <= i < 3 ==> s.nodes[i].durableCommit
    ensures ValidRun(s, run) && RunWithin(s, run, CUT)
    ensures Exec(s, run).nodes[0].applied == [N2, N3] && Exec(s, run).nodes[1].applied == [N2, Y]
  {
    assert s.nodes == [Start(0), Start(1), Start(2)];
    hide ZeroSynced1, ZeroCut2, CutZeroProbed3, OneVotes1, TwoVotes2, CutTwoTakes3, CutTwoSynced3;
    var t;
    run, t := FirstTerm(s, CUT);
    run, t := CutSecondTerm(s, run, t);
    run, t := CutThirdTerm(s, run, t);
    run, t := CutThirdTermCommits(s, run, t);
  }

  // ----- a reject reports the durable index of a log that differs -----

  /** Node 0 rejects the probe of the leader of term 2 and keeps its log. */
  function ZeroRefuses2(): Node { Humbled(ZeroSynced1(), 2) }
  function OldZeroWins3(): Node { Won(ZeroRefuses2()) }
  function OldZeroProbed3(): Node { OldZeroWins3().(next := [3, 3, 4]) }
  function OldZeroRewound3(): Node { OldZeroWins3().(next := [3, 3, 1]) }
  function OldZeroSynced3(): Node { OldZeroProbed3().(durable := 3) }
  function OldZeroCommitted3(): Node {
    OldZeroSynced3().(peerDurable := [0, 0, 3], matched := [0, 0, 3], commit := 3, applied := [N1, X, N3])
  }

  function OneHasTwo2(): Node { OneWins2().(log := [N2, Y]) }
  function OneRelinked2(): Node { OneHasTwo2().(next := [3, 1, 1]) }
  function OneCounts2(): Node { OneHasTwo2().(next := [2, 1, 1], peerDurable := [2, 0, 0]) }
  /** Node 1 commits two entries that are in no other log. */
  function OneCommitted2(): Node { OneCounts2().(durable := 2, commit := 2, applied := [N2, Y]) }

  function TwoTakes3(): Node { TwoVotes3().(log := [N1, X, N3]) }
  function TwoSynced3(): Node { TwoTakes3().(durable := 3) }

  const PROBE_2 := Append(1, 0, 2, 2, 2, 0, [])
  const REFUSED_2 := AppendResp(0, 1, 2, false, 1, 2)

  lemma ProbeSent()
    ensures Effect(OneWins2(), ClientAppend(1, 8, [])) == Out(OneHasTwo2(), {})
    ensures Effect(OneHasTwo2(), Reconnect(1, 0)) == Out(OneRelinked2(), {})
    ensures Effect(OneRelinked2(), Replicate(1, 0)) == Out(OneRelinked2(), {PROBE_2})
  {
    assert OneWins2().log == [N2] && OneWins2().next == [1, 1, 1];
    assert OneRelinked2().next[0 := 3] == OneRelinked2().next;
  }

  lemma ProbeRejected()
    ensures Effect(ZeroSynced1(), Deliver(PROBE_2, false)) == Out(ZeroRefuses2(), {REFUSED_2})
    ensures Within(ZeroSynced1(), Deliver(PROBE_2, false), REJECT)
  {}

  lemma RejectCounted()
    ensures Effect(OneRelinked2(), Deliver(REFUSED_2, false)) == Out(OneCounts2(), {})
    ensures Within(OneRelinked2(), Deliver(REFUSED_2, false), REJECT)
    ensures Effect(OneCounts2(), Fsync(1)) == Out(OneCommitted2(), {})
  {
    var x := OneRelinked2();
    assert x.peerDurable[0 := 2] == [2, 0, 0] && x.next[0 := 2] == [2, 1, 1] && x.matched[0 := 0] == x.matched;
    var d := OneCounts2().(durable := 2);
    assert Recorded(d) == [2, 2, 0];
    MedianOfThree(2, 2, 0, 2);
  }

  const PROBE_3 := Append(0, 2, 3, 2, 1, 0, [N3])
  const FRAME_3 := Append(0, 2, 3, 0, 0, 0, [N1, X, N3])
  const TAKEN_3 := AppendResp(2, 0, 3, true, 3, 0)
  const BEAT_3 := Append(0, 2, 3, 3, 3, 0, [])
  const BEAT_TAKEN_3 := AppendResp(2, 0, 3, true, 3, 3)

  lemma OldLeaderSends()
    ensures Effect(OldZeroWins3(), Replicate(0, 2)) == Out(OldZeroProbed3(), {PROBE_3})
    ensures Effect(OldZeroRewound3(), Replicate(0, 2)) == Out(OldZeroProbed3(), {FRAME_3})
    ensures Effect(OldZeroSynced3(), Replicate(0, 2)) == Out(OldZeroSynced3(), {BEAT_3})
  {
    var l := [N1, X, N3];
    assert OldZeroWins3().log == l && OldZeroWins3().next == [3, 3, 3];
    assert BatchCount(l, 2, 2, APPEND_FIXED + 2 * ENTRY_FIXED) == 1 + BatchCount(l, 3, 3, APPEND_FIXED + 3 * ENTRY_FIXED);
    assert BatchCount(l, 1, 1, APPEND_FIXED + ENTRY_FIXED) == 1 + BatchCount(l, 2, 2, APPEND_FIXED + 2 * ENTRY_FIXED);
    assert BatchCount(l, 0, 0, APPEND_FIXED) == 1 + BatchCount(l, 1, 1, APPEND_FIXED + ENTRY_FIXED);
    assert BatchCount(l, 2, 0, APPEND_FIXED) == 1 + BatchCount(l, 3, 1, APPEND_FIXED + ENTRY_FIXED);
    assert l[2..3] == [N3] && l[0..3] == l;
  }

  lemma LastFollowerTakes()
    ensures Effect(TwoVotes3(), Deliver(PROBE_3, false)) == Out(TwoVotes3(), {REFUSED_3})
    ensures Within(TwoVotes3(), Deliver(PROBE_3, false), REJECT)
    ensures Effect(TwoVotes3(), Deliver(FRAME_3, false)) == Out(TwoTakes3(), {TAKEN_3})
    ensures Within(TwoVotes3(), Deliver(FRAME_3, false), REJECT)
    ensures Effect(TwoTakes3(), Fsync(2)) == Out(TwoSynced3(), {})
    ensures Effect(TwoSynced3(), Deliver(BEAT_3, false)) == Out(TwoSynced3(), {BEAT_TAKEN_3})
    ensures Within(TwoSynced3(), Deliver(BEAT_3, false), REJECT)
  {
    assert TwoVotes3().log == [];
    assert TruncateFrom([N1, X, N3], 4) + [] == [N1, X, N3];
  }

  lemma OldLeaderCommits()
    ensures Effect(OldZeroSynced3(), Deliver(BEAT_TAKEN_3, false)) == Out(OldZeroCommitted3(), {})
    ensures Within(OldZeroSynced3(), Deliver(BEAT_TAKEN_3, false), REJECT)
  {
    hide Effect, Within, QuorumIndex;
    var x := OldZeroSynced3();
    var d := x.(peerDurable := [0, 0, 3], matched := [0, 0, 3]);
    assert x.log == [N1, X, N3] && x.peerDurable[2 := 3] == [0, 0, 3] && x.matched[2 := 3] == [0, 0, 3];
    assert Recorded(d) == [3, 0, 3];
    MedianOfThree(3, 0, 3, 3);
    HeardMajority(x, BEAT_TAKEN_3, 3);
    AnswerWithin(x, BEAT_TAKEN_3, REJECT);
    assert [N1, X, N3][..3] == [N1, X, N3];
  }

  lemma OldLeaderHears()
    ensures Effect(OldZeroProbed3(), Deliver(REFUSED_3, false)) == Out(OldZeroRewound3(), {})
    ensures Within(OldZeroProbed3(), Deliver(REFUSED_3, false), REJECT)
    ensures Effect(OldZeroProbed3(), Fsync(0)) == Out(OldZeroSynced3(), {})
  {
    var x := OldZeroWins3();
    assert x.log == [N1, X, N3] && x.matched == [0, 0, 0] && x.peerDurable == [0, 0, 0];
    assert Recorded(OldZeroSynced3()) == [3, 0, 0];
    MedianOfThree(3, 0, 0, 0);
  }

  lemma RejectSecondTerm(s: System, run: seq<Action>, t: System) returns (more: seq<Action>, u: System)
    requires At(s, REJECT, run, t, ZeroSynced1(), OneVotes1(), Start(2))
    ensures At(s, REJECT, more, u, ZeroRefuses2(), OneCommitted2(), TwoVotes2())
  {
    hide Effect, Exec, ValidRun, Reaches, Within;
    more, u := Elects(s, REJECT, run, t, 1, 2);
    assert u.nodes == [ZeroSynced1(), OneWins2(), TwoVotes2()];
    ProbeSent();
    more, u := Next(s, REJECT, more, u, ZeroSynced1(), OneWins2(), TwoVotes2(), ClientAppend(1, 8, []),
                    Out(OneHasTwo2(), {}));
    more, u := Next(s, REJECT, more, u, ZeroSynced1(), OneHasTwo2(), TwoVotes2(), Reconnect(1, 0),
                    Out(OneRelinked2(), {}));
    more, u := Next(s, REJECT, more, u, ZeroSynced1(), OneRelinked2(), TwoVotes2(), Replicate(1, 0),
                    Out(OneRelinked2(), {PROBE_2}));
    ProbeRejected();
    more, u := Next(s, REJECT, more, u, ZeroSynced1(), OneRelinked2(), TwoVotes2(), Deliver(PROBE_2, false),
                    Out(ZeroRefuses2(), {REFUSED_2}));
    RejectCounted();
    more, u := Next(s, REJECT, more, u, ZeroRefuses2(), OneRelinked2(), TwoVotes2(), Deliver(REFUSED_2, false),
                    Out(OneCounts2(), {}));
    more, u := Next(s, REJECT, more, u, ZeroRefuses2(), OneCounts2(), TwoVotes2(), Fsync(1), Out(OneCommitted2(), {}));
  }

  lemma RejectThirdTerm(s: System, run: seq<Action>, t: System) returns (more: seq<Action>, u: System)
    requires At(s, REJECT, run, t, ZeroRefuses2(), OneCommitted2(), TwoVotes2())
    ensures At(s, REJECT, more, u, OldZeroProbed3(), OneCommitted2(), TwoTakes3())
  {
    hide Effect, Exec, ValidRun, Reaches, Within;
    more, u := Elects(s, REJECT, run, t, 0, 2);
    assert u.nodes == [OldZeroWins3(), OneCommitted2(), TwoVotes3()];
    OldLeaderSends();
    LastFollowerTakes();
    OldLeaderHears();
    more, u := Next(s, REJECT, more, u, OldZeroWins3(), OneCommitted2(), TwoVotes3(), Replicate(0, 2),
                    Out(OldZeroProbed3(), {PROBE_3}));
    more, u := Next(s, REJECT, more, u, OldZeroProbed3(), OneCommitted2(), TwoVotes3(), Deliver(PROBE_3, false),
                    Out(TwoVotes3(), {REFUSED_3}));
    more, u := Next(s, REJECT, more, u, OldZeroProbed3(), OneCommitted2(), TwoVotes3(), Deliver(REFUSED_3, false),
                    Out(OldZeroRewound3(), {}));
    more, u := Next(s, REJECT, more, u, OldZeroRewound3(), OneCommitted2(), TwoVotes3(), Replicate(0, 2),
                    Out(OldZeroProbed3(), {FRAME_3}));
    more, u := Next(s, REJECT, more, u, OldZeroProbed3(), OneCommitted2(), TwoVotes3(), Deliver(FRAME_3, false),
                    Out(TwoTakes3(), {TAKEN_3}));
  }

  lemma RejectThirdTermCommits(s: System, run: seq<Action>, t: System) returns (more: seq<Action>, u: System)
    requires At(s, REJECT, run, t, OldZeroProbed3(), OneCommitted2(), TwoTakes3())
    ensures At(s, REJECT, more, u, OldZeroCommitted3(), OneCommitted2(), TwoSynced3())
  {
    hide Effect, Exec, ValidRun, Reaches, Within;
    OldLeaderSends();
    LastFollowerTakes();
    OldLeaderHears();
    OldLeaderCommits();
    more, u := Next(s, REJECT, run, t, OldZeroProbed3(), OneCommitted2(), TwoTakes3(), Fsync(2), Out(TwoSynced3(), {}));
    more, u := Next(s, REJECT, more, u, OldZeroProbed3(), OneCommitted2(), TwoSynced3(), Fsync(0),
                    Out(OldZeroSynced3(), {}));
    more, u := Next(s, REJECT, more, u, OldZeroSynced3(), OneCommitted2(), TwoSynced3(), Replicate(0, 2),
                    Out(OldZeroSynced3(), {BEAT_3}));
    more, u := Next(s, REJECT, more, u, OldZeroSynced3(), OneCommitted2(), TwoSynced3(), Deliver(BEAT_3, false),
                    Out(TwoSynced3(), {BEAT_TAKEN_3}));
    more, u := Next(s, REJECT, more, u, OldZeroSynced3(), OneCommitted2(), TwoSynced3(), Deliver(BEAT_TAKEN_3, false),
                    Out(OldZeroCommitted3(), {}));
  }

  /** Three nodes under the durable policy have a run without a crash in which no log ever loses an entry, breaking
      only the rule about rejects, at whose end two nodes have applied different operations from index 1 on. */
  lemma RejectDiverges(s: System) returns (run: seq<Action>)
    requires Init(s) && s.n == 3 && forall i :: 0 <= i < 3 ==> s.nodes[i].durableCommit
    ensures ValidRun(s, run) && RunWithin(s, run, REJECT)
    ensures Exec(s, run).nodes[0].applied == [N1, X, N3] && Exec(s, run).nodes[1].applied == [N2, Y]
  {
    assert s.nodes == [Start(0), Start(1), Start(2)];
    hide ZeroSynced1, ZeroRefuses2, OldZeroProbed3, OneVotes1, TwoVotes2, TwoTakes3, TwoSynced3;
    var t;
    run, t := FirstTerm(s, REJECT);
    run, t := RejectSecondTerm(s, run, t);
    run, t := RejectThirdTerm(s, run, t);
    run, t := RejectThirdTermCommits(s, run, t);
  }
}
