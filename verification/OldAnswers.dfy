/** A run of three nodes, under either policy, in which a leader counts answers from an earlier term of its own, given
    for entries that have been replaced since. States are named for the node, the moment and the term. */
module OldAnswers {
  import opened QuorumCommit
  import opened RaftNode
  import opened RaftSystem
  import opened CommitSafety
  import opened SampleRuns

  const OLD := Limits({DropsOldAnswers}, false, true)

  /** An entry so large that nothing fits a frame behind it. */
  const Z := Entry(1, 9, Fill(MAX_APPEND_BYTES - APPEND_FIXED - 3 * ENTRY_FIXED, 0))

  function Start(i: nat, p: bool): Node { Fresh(i, 3, p) }

  // ----- node 0: leads terms 1, 3 and 5 -----

  function ZeroWins1(p: bool): Node { Won(Start(0, p)) }
  function ZeroHasThree1(p: bool): Node { ZeroWins1(p).(log := [N1, X, Z]) }
  function ZeroHears2(p: bool): Node { Humbled(ZeroHasThree1(p), 2) }
  function ZeroWins3(p: bool): Node { Won(ZeroHears2(p)) }
  function ZeroProbed3(p: bool): Node { ZeroWins3(p).(next := [4, 4, 5]) }
  function ZeroRewound3(p: bool): Node { ZeroWins3(p).(next := [4, 4, 1]) }
  function ZeroSent3(p: bool): Node { ZeroWins3(p).(next := [4, 5, 5]) }
  function ZeroHears4(p: bool): Node { Humbled(ZeroSent3(p), 4) }
  function ZeroTakes4(p: bool): Node { ZeroHears4(p).(log := [N2, N4]) }
  function ZeroWins5(p: bool): Node { Won(ZeroTakes4(p)) }
  /** After the old success, which is enough for the fast policy. */
  function ZeroMatches5(p: bool): Node {
    ZeroWins5(p).(matched := [0, 0, 3], commit := if p then 0 else 3, applied := if p then [] else [N2, N4, N5])
  }
  /** After the old reject, with what was on disk then. */
  function ZeroCounts5(p: bool): Node { ZeroMatches5(p).(peerDurable := [0, 0, 3]) }
  function ZeroCommitted5(p: bool): Node { ZeroCounts5(p).(durable := 3, commit := 3, applied := [N2, N4, N5]) }
  function ZeroRelinked5(p: bool): Node { ZeroCommitted5(p).(next := [3, 4, 3]) }
  function ZeroTakes6(p: bool): Node { Humbled(ZeroRelinked5(p), 6).(log := [N2, N4, N6]) }

  // ----- node 1: leads terms 2, 4 and 6 -----

  function OneVotes1(p: bool): Node { Voted(Start(1, p), 1, 0) }
  function OneWins2(p: bool): Node { Won(OneVotes1(p)) }
  function OneRelinked2(p: bool): Node { OneWins2(p).(next := [2, 1, 1]) }
  function OneHears3(p: bool): Node { Humbled(OneRelinked2(p), 3) }
  function OneWins4(p: bool): Node { Won(OneHears3(p)) }
  function OneProbed4(p: bool): Node { OneWins4(p).(next := [3, 2, 2]) }
  function OneRewound4(p: bool): Node { OneWins4(p).(next := [1, 2, 2]) }
  function OneHears5(p: bool): Node { Humbled(OneProbed4(p), 5) }
  function OneWins6(p: bool): Node { Won(OneHears5(p)) }
  function OneSent6(p: bool): Node { OneWins6(p).(next := [4, 3, 3]) }
  function OneSynced6(p: bool): Node { OneSent6(p).(durable := 3) }
  function OneCommitted6(p: bool): Node {
    OneSynced6(p).(matched := [3, 0, 0], peerDurable := [3, 0, 0], commit := 3, applied := [N2, N4, N6])
  }

  // ----- node 2: votes in every term from 2 on -----

  function TwoVotes2(p: bool): Node { Voted(Start(2, p), 2, 1) }
  function TwoVotes3(p: bool): Node { Voted(TwoVotes2(p), 3, 0) }
  function TwoTakes3(p: bool): Node { TwoVotes3(p).(log := [N1, X, Z]) }
  function TwoSynced3(p: bool): Node { TwoTakes3(p).(durable := 3) }
  function TwoVotes4(p: bool): Node { Voted(TwoSynced3(p), 4, 1) }
  function TwoVotes5(p: bool): Node { Voted(TwoVotes4(p), 5, 0) }
  function TwoVotes6(p: bool): Node { Voted(TwoVotes5(p), 6, 1) }

  // ----- frames and answers, by term -----

  const PROBE_2 := Append(1, 0, 2, 1, 2, 0, [])
  const REFUSED_2 := AppendResp(0, 1, 2, false, 0, 0)
  const PROBE_3 := Append(0, 2, 3, 3, 1, 0, [N3])
  const REFUSED_3 := AppendResp(2, 0, 3, false, 0, 0)
  const FRAME_3 := Append(0, 2, 3, 0, 0, 0, [N1, X, Z])
  /** The success that arrives two terms late. */
  const OLD_SUCCESS := AppendResp(2, 0, 3, true, 3, 0)
  const RELINK_3 := Append(0, 2, 3, 4, 3, 0, [])
  /** The reject that arrives two terms late, and says what was on disk. */
  const OLD_REJECT := AppendResp(2, 0, 3, false, 3, 3)
  const NEWS_3 := Append(0, 1, 3, 3, 1, 0, [N3])
  const NEWS_REFUSED_3 := AppendResp(1, 0, 3, false, 1, 0)
  const PROBE_4 := Append(1, 0, 4, 1, 2, 0, [N4])
  const REFUSED_4 := AppendResp(0, 1, 4, false, 0, 0)
  const FRAME_4 := Append(1, 0, 4, 0, 0, 0, [N2, N4])
  const TAKEN_4 := AppendResp(0, 1, 4, true, 2, 0)
  const NEWS_5 := Append(0, 1, 5, 3, 5, 3, [])
  const NEWS_REFUSED_5 := AppendResp(1, 0, 5, false, 2, 0)
  const FRAME_6 := Append(1, 0, 6, 2, 4, 0, [N6])
  const TAKEN_6 := AppendResp(0, 1, 6, true, 3, 3)

  // ----- terms 1 and 2 -----

  lemma ZeroAppends1(p: bool)
    ensures Effect(ZeroWins1(p), ClientAppend(0, 7, [])) == Out(ZeroWins1(p).(log := [N1, X]), {})
    ensures Effect(ZeroWins1(p).(log := [N1, X]), ClientAppend(0, 9, Z.payload)) == Out(ZeroHasThree1(p), {})
  {
    assert ZeroWins1(p).log == [N1] && [N1] + [X] == [N1, X] && [N1, X] + [Z] == [N1, X, Z];
  }

  lemma OneRelinks2(p: bool)
    ensures Effect(OneWins2(p), Reconnect(1, 0)) == Out(OneRelinked2(p), {})
    ensures OneWins2(p).log == [N2]
  {
    var x := OneWins2(p);
    assert x.log == [N2] && x.next == [1, 1, 1] && x.matched == [0, 0, 0] && x.peerDurable == [0, 0, 0];
    assert [0, 0, 0][0 := 0] == [0, 0, 0];
  }

  lemma OneProbes2(p: bool)
    ensures Effect(OneRelinked2(p), Replicate(1, 0)) == Out(OneRelinked2(p), {PROBE_2})
    ensures Effect(ZeroHasThree1(p), Deliver(PROBE_2, false)) == Out(ZeroHears2(p), {REFUSED_2})
    ensures Within(ZeroHasThree1(p), Deliver(PROBE_2, false), OLD)
  {
    OneRelinks2(p);
    hide Effect, Within;
    Beats(OneRelinked2(p), 0);
    Refuses(ZeroHasThree1(p), PROBE_2, OLD);
  }

  lemma TermOne(s: System, p: bool) returns (run: seq<Action>, t: System)
    requires Init(s) && s.n == 3 && s.nodes == [Start(0, p), Start(1, p), Start(2, p)]
    ensures At(s, OLD, run, t, ZeroHasThree1(p), OneVotes1(p), Start(2, p))
  {
    run, t := Elects(s, OLD, [], s, 0, 1);
    assert t.nodes == [ZeroWins1(p), OneVotes1(p), Start(2, p)];
    ZeroAppends1(p);
    hide Effect, Exec, ValidRun, Reaches, Within;
    var two, zero := Start(2, p), ZeroWins1(p).(log := [N1, X]);
    run, t := Next(s, OLD, run, t, ZeroWins1(p), OneVotes1(p), two, ClientAppend(0, 7, []), Out(zero, {}));
    run, t := Next(s, OLD, run, t, zero, OneVotes1(p), two, ClientAppend(0, 9, Z.payload), Out(ZeroHasThree1(p), {}));
  }

  lemma TermTwo(s: System, p: bool, run: seq<Action>, t: System) returns (more: seq<Action>, u: System)
    requires At(s, OLD, run, t, ZeroHasThree1(p), OneVotes1(p), Start(2, p))
    ensures At(s, OLD, more, u, ZeroHears2(p), OneRelinked2(p), TwoVotes2(p))
  {
    hide Effect, Exec, ValidRun, Reaches, Within;
    more, u := Elects(s, OLD, run, t, 1, 2);
    var zero, two := ZeroHasThree1(p), TwoVotes2(p);
    assert u.nodes == [zero, OneWins2(p), two];
    OneRelinks2(p);
    OneProbes2(p);
    more, u := Next(s, OLD, more, u, zero, OneWins2(p), two, Reconnect(1, 0), Out(OneRelinked2(p), {}));
    more, u := Next(s, OLD, more, u, zero, OneRelinked2(p), two, Replicate(1, 0), Out(OneRelinked2(p), {PROBE_2}));
    more, u := Next(s, OLD, more, u, zero, OneRelinked2(p), two, Deliver(PROBE_2, false),
                    Out(ZeroHears2(p), {REFUSED_2}));
  }

  // ----- term 3: node 2 takes entries of term 1, and its answers stay under way -----

  lemma OneLargeBatch()
    ensures BatchCount([N1, X, Z, N3], 0, 0, APPEND_FIXED) == 3
  {
    var l := [N1, X, Z, N3];
    assert BatchCount(l, 3, 3, MAX_APPEND_BYTES) == 0;
    assert BatchCount(l, 2, 2, APPEND_FIXED + 2 * ENTRY_FIXED) == 1 + BatchCount(l, 3, 3, MAX_APPEND_BYTES);
    assert BatchCount(l, 1, 1, APPEND_FIXED + ENTRY_FIXED) == 1 + BatchCount(l, 2, 2, APPEND_FIXED + 2 * ENTRY_FIXED);
    assert BatchCount(l, 0, 0, APPEND_FIXED) == 1 + BatchCount(l, 1, 1, APPEND_FIXED + ENTRY_FIXED);
  }

  lemma Zero3(p: bool)
    ensures var x := ZeroWins3(p);
            x.log == [N1, X, Z, N3] && x.next == [4, 4, 4] && x.matched == [0, 0, 0] && x.peerDurable == [0, 0, 0]
    ensures ZeroWins3(p).role == ZeroProbed3(p).role == ZeroRewound3(p).role == Leader
  {}

  lemma ZeroSends3(p: bool)
    ensures Effect(ZeroWins3(p), Replicate(0, 2)) == Out(ZeroProbed3(p), {PROBE_3})
  {
    var l := [N1, X, Z, N3];
    Zero3(p);
    SmallBatch(l, 3, 0, APPEND_FIXED);
    hide Effect, BatchCount;
    assert l[3..4] == [N3];
    Sends(ZeroWins3(p), 2, 3, 1);
  }

  lemma ZeroSendsOld3(p: bool)
    ensures Effect(ZeroRewound3(p), Replicate(0, 2)) == Out(ZeroWins3(p), {FRAME_3})
  {
    var l := [N1, X, Z, N3];
    Zero3(p);
    OneLargeBatch();
    hide Effect, BatchCount;
    assert l[0..3] == [N1, X, Z];
    Sends(ZeroRewound3(p), 2, 0, 3);
  }

  lemma ZeroSendsNews3(p: bool)
    ensures Effect(ZeroProbed3(p), Replicate(0, 1)) == Out(ZeroSent3(p), {NEWS_3})
  {
    var l := [N1, X, Z, N3];
    Zero3(p);
    SmallBatch(l, 3, 0, APPEND_FIXED);
    hide Effect, BatchCount;
    assert l[3..4] == [N3];
    Sends(ZeroProbed3(p), 1, 3, 1);
  }

  lemma TwoAnswers3(p: bool)
    ensures Effect(TwoVotes3(p), Deliver(PROBE_3, false)) == Out(TwoVotes3(p), {REFUSED_3})
    ensures Within(TwoVotes3(p), Deliver(PROBE_3, false), OLD)
    ensures Effect(TwoVotes3(p), Deliver(FRAME_3, false)) == Out(TwoTakes3(p), {OLD_SUCCESS})
    ensures Within(TwoVotes3(p), Deliver(FRAME_3, false), OLD)
  {
    hide Effect, Within;
    assert TwoVotes3(p).log == [] && [] + [N1, X, Z] == [N1, X, Z];
    Refuses(TwoVotes3(p), PROBE_3, OLD);
    Takes(TwoVotes3(p), FRAME_3);
    TakenWithin(TwoVotes3(p), FRAME_3, OLD);
  }

  lemma ZeroRewinds3(p: bool)
    ensures Effect(ZeroProbed3(p), Deliver(REFUSED_3, false)) == Out(ZeroRewound3(p), {})
    ensures Within(ZeroProbed3(p), Deliver(REFUSED_3, false), OLD)
  {
    Zero3(p);
    hide Effect, Within;
    Rewinds(ZeroProbed3(p), REFUSED_3);
    AnswerWithin(ZeroProbed3(p), REFUSED_3, OLD);
  }

  lemma TwoSyncs3(p: bool)
    ensures Effect(TwoTakes3(p), Fsync(2)) == Out(TwoSynced3(p), {})
  {
    Syncs(TwoTakes3(p));
    hide Effect;
  }

  lemma ZeroRelinks3(p: bool)
    ensures Effect(ZeroWins3(p), Reconnect(0, 2)) == Out(ZeroProbed3(p), {})
  {
    Zero3(p);
    assert [0, 0, 0][2 := 0] == [0, 0, 0];
  }

  lemma ZeroBeats3(p: bool)
    ensures Effect(ZeroProbed3(p), Replicate(0, 2)) == Out(ZeroProbed3(p), {RELINK_3})
    ensures Effect(TwoSynced3(p), Deliver(RELINK_3, false)) == Out(TwoSynced3(p), {OLD_REJECT})
    ensures Within(TwoSynced3(p), Deliver(RELINK_3, false), OLD)
  {
    Zero3(p);
    hide Effect, Within;
    Beats(ZeroProbed3(p), 2);
    Refuses(TwoSynced3(p), RELINK_3, OLD);
  }

  lemma OneHearsNews3(p: bool)
    ensures Effect(OneRelinked2(p), Deliver(NEWS_3, false)) == Out(OneHears3(p), {NEWS_REFUSED_3})
    ensures Within(OneRelinked2(p), Deliver(NEWS_3, false), OLD)
  {
    OneRelinks2(p);
    hide Effect, Within;
    Refuses(OneRelinked2(p), NEWS_3, OLD);
  }

  lemma TermThree(s: System, p: bool, run: seq<Action>, t: System) returns (more: seq<Action>, u: System)
    requires At(s, OLD, run, t, ZeroHears2(p), OneRelinked2(p), TwoVotes2(p))
    ensures At(s, OLD, more, u, ZeroWins3(p), OneRelinked2(p), TwoTakes3(p)) && OLD_SUCCESS in u.net
  {
    hide Effect, Exec, ValidRun, Reaches, Within;
    more, u := Elects(s, OLD, run, t, 0, 2);
    var one, two := OneRelinked2(p), TwoVotes3(p);
    assert u.nodes == [ZeroWins3(p), one, two];
    ZeroSends3(p);
    ZeroSendsOld3(p);
    TwoAnswers3(p);
    ZeroRewinds3(p);
    more, u := Next(s, OLD, more, u, ZeroWins3(p), one, two, Replicate(0, 2), Out(ZeroProbed3(p), {PROBE_3}));
    more, u := Next(s, OLD, more, u, ZeroProbed3(p), one, two, Deliver(PROBE_3, false), Out(two, {REFUSED_3}));
    more, u := Next(s, OLD, more, u, ZeroProbed3(p), one, two, Deliver(REFUSED_3, false), Out(ZeroRewound3(p), {}));
    more, u := Next(s, OLD, more, u, ZeroRewound3(p), one, two, Replicate(0, 2), Out(ZeroWins3(p), {FRAME_3}));
    more, u := Next(s, OLD, more, u, ZeroWins3(p), one, two, Deliver(FRAME_3, false), Out(TwoTakes3(p), {OLD_SUCCESS}));
  }

  ghost predicate UnderWay(t: System) {
    OLD_SUCCESS in t.net && OLD_REJECT in t.net
  }

  lemma TermThreeSyncs(s: System, p: bool, run: seq<Action>, t: System) returns (more: seq<Action>, u: System)
    requires At(s, OLD, run, t, ZeroWins3(p), OneRelinked2(p), TwoTakes3(p)) && OLD_SUCCESS in t.net
    ensures At(s, OLD, more, u, ZeroSent3(p), OneHears3(p), TwoSynced3(p)) && UnderWay(u)
  {
    hide Effect, Exec, ValidRun, Reaches, Within;
    Zero3(p);
    hide ZeroWins3, ZeroProbed3, ZeroSent3, OneRelinked2, OneHears3, TwoTakes3, TwoSynced3;
    var one, two := OneRelinked2(p), TwoSynced3(p);
    TwoSyncs3(p);
    ZeroRelinks3(p);
    ZeroBeats3(p);
    ZeroSendsNews3(p);
    OneHearsNews3(p);
    more, u := Next(s, OLD, run, t, ZeroWins3(p), one, TwoTakes3(p), Fsync(2), Out(two, {}));
    more, u := Next(s, OLD, more, u, ZeroWins3(p), one, two, Reconnect(0, 2), Out(ZeroProbed3(p), {}));
    more, u := Next(s, OLD, more, u, ZeroProbed3(p), one, two, Replicate(0, 2), Out(ZeroProbed3(p), {RELINK_3}));
    more, u := Next(s, OLD, more, u, ZeroProbed3(p), one, two, Deliver(RELINK_3, false), Out(two, {OLD_REJECT}));
    more, u := Next(s, OLD, more, u, ZeroProbed3(p), one, two, Replicate(0, 1), Out(ZeroSent3(p), {NEWS_3}));
    more, u := Next(s, OLD, more, u, ZeroSent3(p), one, two, Deliver(NEWS_3, false),
                    Out(OneHears3(p), {NEWS_REFUSED_3}));
  }

  // ----- term 4: node 0 takes over the log of node 1 -----

  lemma One4(p: bool)
    ensures var x := OneWins4(p);
            x.log == [N2, N4] && x.next == [2, 2, 2] && x.matched == [0, 0, 0] && x.peerDurable == [0, 0, 0]
    ensures OneWins4(p).role == OneRewound4(p).role == Leader
  {
    OneRelinks2(p);
  }

  lemma OneSends4(p: bool)
    ensures Effect(OneWins4(p), Replicate(1, 0)) == Out(OneProbed4(p), {PROBE_4})
  {
    One4(p);
    SmallBatch([N2, N4], 1, 0, APPEND_FIXED);
    hide Effect, BatchCount;
    assert [N2, N4][1..2] == [N4];
    Sends(OneWins4(p), 0, 1, 1);
  }

  lemma OneRewinds4(p: bool)
    ensures Effect(OneProbed4(p), Deliver(REFUSED_4, false)) == Out(OneRewound4(p), {})
    ensures Within(OneProbed4(p), Deliver(REFUSED_4, false), OLD)
    ensures Effect(OneRewound4(p), Replicate(1, 0)) == Out(OneProbed4(p), {FRAME_4})
  {
    One4(p);
    hide Effect, Within;
    SendsAll(OneRewound4(p), 0);
    Rewinds(OneProbed4(p), REFUSED_4);
    AnswerWithin(OneProbed4(p), REFUSED_4, OLD);
  }

  lemma ZeroAnswers4(p: bool)
    ensures Effect(ZeroSent3(p), Deliver(PROBE_4, false)) == Out(ZeroHears4(p), {REFUSED_4})
    ensures Within(ZeroSent3(p), Deliver(PROBE_4, false), OLD)
    ensures Effect(ZeroHears4(p), Deliver(FRAME_4, false)) == Out(ZeroTakes4(p), {TAKEN_4})
    ensures Within(ZeroHears4(p), Deliver(FRAME_4, false), OLD)
  {
    Zero3(p);
    hide Effect, Within;
    Refuses(ZeroSent3(p), PROBE_4, OLD);
    var x := ZeroHears4(p);
    Takes(x, FRAME_4);
    assert x.log[0 + 0].term != FRAME_4.entries[0].term;
    TakenWithin(x, FRAME_4, OLD);
    assert x.log[..0] + [N2, N4] == [N2, N4];
  }

  lemma OneElected4(s: System, p: bool, run: seq<Action>, t: System) returns (more: seq<Action>, u: System)
    requires At(s, OLD, run, t, ZeroSent3(p), OneHears3(p), TwoSynced3(p)) && UnderWay(t)
    ensures At(s, OLD, more, u, ZeroSent3(p), OneWins4(p), TwoVotes4(p)) && UnderWay(u)
  {
    hide Exec, ValidRun, Reaches, ZeroSent3;
    OneRelinks2(p);
    more, u := Elects(s, OLD, run, t, 1, 2);
  }

  lemma TermFour(s: System, p: bool, run: seq<Action>, t: System) returns (more: seq<Action>, u: System)
    requires At(s, OLD, run, t, ZeroSent3(p), OneWins4(p), TwoVotes4(p)) && UnderWay(t)
    ensures At(s, OLD, more, u, ZeroTakes4(p), OneProbed4(p), TwoVotes4(p)) && UnderWay(u)
  {
    hide Effect, Exec, ValidRun, Reaches, Within;
    var two := TwoVotes4(p);
    One4(p);
    hide ZeroSent3, ZeroHears4, ZeroTakes4, OneWins4, OneProbed4, OneRewound4, TwoVotes4;
    OneSends4(p);
    OneRewinds4(p);
    ZeroAnswers4(p);
    more, u := Next(s, OLD, run, t, ZeroSent3(p), OneWins4(p), two, Replicate(1, 0), Out(OneProbed4(p), {PROBE_4}));
    more, u := Next(s, OLD, more, u, ZeroSent3(p), OneProbed4(p), two, Deliver(PROBE_4, false),
                    Out(ZeroHears4(p), {REFUSED_4}));
    more, u := Next(s, OLD, more, u, ZeroHears4(p), OneProbed4(p), two, Deliver(REFUSED_4, false),
                    Out(OneRewound4(p), {}));
    more, u := Next(s, OLD, more, u, ZeroHears4(p), OneRewound4(p), two, Replicate(1, 0),
                    Out(OneProbed4(p), {FRAME_4}));
    more, u := Next(s, OLD, more, u, ZeroHears4(p), OneProbed4(p), two, Deliver(FRAME_4, false),
                    Out(ZeroTakes4(p), {TAKEN_4}));
  }

  // ----- term 5: node 0 counts the old answers -----

  lemma Zero5(p: bool)
    ensures var x := ZeroWins5(p);
            && x.log == [N2, N4, N5] && x.next == [3, 3, 3] && x.matched == [0, 0, 0] && x.peerDurable == [0, 0, 0]
            && x.commit == 0 && x.applied == []
    ensures ZeroRelinked5(p).role == Leader
  {}

  lemma ZeroHearsSuccess(p: bool)
    ensures Effect(ZeroWins5(p), Deliver(OLD_SUCCESS, false)) == Out(ZeroMatches5(p), {})
    ensures Within(ZeroWins5(p), Deliver(OLD_SUCCESS, false), OLD)
  {
    AnswerWithin(ZeroWins5(p), OLD_SUCCESS, OLD);
    hide Within, Effect;
    if p { DurableHears(); } else { FastHears(); }
  }

  lemma DurableHears()
    ensures Effect(ZeroWins5(true), Deliver(OLD_SUCCESS, false)) == Out(ZeroMatches5(true), {})
  {
    var x := ZeroWins5(true);
    Zero5(true);
    var d := x.(peerDurable := [0, 0, 0], matched := [0, 0, 3]);
    assert x.matched[2 := 3] == [0, 0, 3] && x.peerDurable[2 := 0] == [0, 0, 0];
    assert Recorded(d) == [0, 0, 0];
    MedianOfThree(0, 0, 0, 0);
    Hears(x, OLD_SUCCESS);
    hide Effect, QuorumIndex;
  }

  lemma FastHears()
    ensures Effect(ZeroWins5(false), Deliver(OLD_SUCCESS, false)) == Out(ZeroMatches5(false), {})
  {
    var x := ZeroWins5(false);
    Zero5(false);
    hide Effect, QuorumIndex;
    var d := x.(peerDurable := [0, 0, 0], matched := [0, 0, 3]);
    assert x.matched[2 := 3] == [0, 0, 3] && x.peerDurable[2 := 0] == [0, 0, 0];
    assert Recorded(d) == [3, 0, 3];
    MedianOfThree(3, 0, 3, 3);
    HeardMajority(x, OLD_SUCCESS, 3);
    assert x.log[..3] == [N2, N4, N5];
  }

  lemma ZeroHearsReject(p: bool)
    ensures Effect(ZeroMatches5(p), Deliver(OLD_REJECT, false)) == Out(ZeroCounts5(p), {})
    ensures Within(ZeroMatches5(p), Deliver(OLD_REJECT, false), OLD)
  {
    var x := ZeroMatches5(p);
    Zero5(p);
    hide Effect, Within;
    HearsReject(x, OLD_REJECT);
    AnswerWithin(x, OLD_REJECT, OLD);
    assert x.peerDurable[2 := 3] == [0, 0, 3] && x.next[2 := 3] == x.next && x.matched[2 := 3] == x.matched;
  }

  lemma ZeroSyncs5(p: bool)
    ensures Effect(ZeroCounts5(p), Fsync(0)) == Out(ZeroCommitted5(p), {})
  {
    var x := ZeroCounts5(p);
    Zero5(p);
    if p {
      assert Recorded(x.(durable := 3)) == [3, 0, 3];
      MedianOfThree(3, 0, 3, 3);
      SyncCommits(x, 3);
      hide Effect;
      assert x.log[..3] == [N2, N4, N5];
    } else {
      Syncs(x);
      hide Effect;
    }
  }

  lemma ZeroRelinks5(p: bool)
    ensures Effect(ZeroCommitted5(p), Reconnect(0, 1)) == Out(ZeroRelinked5(p), {})
  {
    Zero5(p);
    assert [0, 0, 3][1 := 0] == [0, 0, 3] && [3, 3, 3][1 := 4] == [3, 4, 3];
  }

  lemma OneHearsNews5(p: bool)
    ensures Effect(ZeroRelinked5(p), Replicate(0, 1)) == Out(ZeroRelinked5(p), {NEWS_5})
    ensures Effect(OneProbed4(p), Deliver(NEWS_5, false)) == Out(OneHears5(p), {NEWS_REFUSED_5})
    ensures Within(OneProbed4(p), Deliver(NEWS_5, false), OLD)
  {
    Zero5(p);
    One4(p);
    hide Effect, Within;
    Beats(ZeroRelinked5(p), 1);
    Refuses(OneProbed4(p), NEWS_5, OLD);
  }

  lemma ZeroElected5(s: System, p: bool, run: seq<Action>, t: System) returns (more: seq<Action>, u: System)
    requires At(s, OLD, run, t, ZeroTakes4(p), OneProbed4(p), TwoVotes4(p)) && UnderWay(t)
    ensures At(s, OLD, more, u, ZeroWins5(p), OneProbed4(p), TwoVotes5(p)) && UnderWay(u)
  {
    hide Exec, ValidRun, Reaches, OneProbed4;
    more, u := Elects(s, OLD, run, t, 0, 2);
  }

  lemma TermFive(s: System, p: bool, run: seq<Action>, t: System) returns (more: seq<Action>, u: System)
    requires At(s, OLD, run, t, ZeroWins5(p), OneProbed4(p), TwoVotes5(p)) && UnderWay(t)
    ensures At(s, OLD, more, u, ZeroCommitted5(p), OneProbed4(p), TwoVotes5(p))
  {
    hide Effect, Exec, ValidRun, Reaches, Within;
    var one, two := OneProbed4(p), TwoVotes5(p);
    hide ZeroWins5, ZeroMatches5, ZeroCounts5, ZeroCommitted5, OneProbed4, TwoVotes5;
    ZeroHearsSuccess(p);
    ZeroHearsReject(p);
    ZeroSyncs5(p);
    more, u := Next(s, OLD, run, t, ZeroWins5(p), one, two, Deliver(OLD_SUCCESS, false), Out(ZeroMatches5(p), {}));
    more, u := Next(s, OLD, more, u, ZeroMatches5(p), one, two, Deliver(OLD_REJECT, false), Out(ZeroCounts5(p), {}));
    more, u := Next(s, OLD, more, u, ZeroCounts5(p), one, two, Fsync(0), Out(ZeroCommitted5(p), {}));
  }

  lemma TermFiveEnds(s: System, p: bool, run: seq<Action>, t: System) returns (more: seq<Action>, u: System)
    requires At(s, OLD, run, t, ZeroCommitted5(p), OneProbed4(p), TwoVotes5(p))
    ensures At(s, OLD, more, u, ZeroRelinked5(p), OneHears5(p), TwoVotes5(p))
  {
    hide Effect, Exec, ValidRun, Reaches, Within;
    Zero5(p);
    hide ZeroCommitted5, ZeroRelinked5, OneProbed4, OneHears5, TwoVotes5;
    var one, two := OneProbed4(p), TwoVotes5(p);
    ZeroRelinks5(p);
    OneHearsNews5(p);
    more, u := Next(s, OLD, run, t, ZeroCommitted5(p), one, two, Reconnect(0, 1), Out(ZeroRelinked5(p), {}));
    more, u := Next(s, OLD, more, u, ZeroRelinked5(p), one, two, Replicate(0, 1), Out(ZeroRelinked5(p), {NEWS_5}));
    more, u := Next(s, OLD, more, u, ZeroRelinked5(p), one, two, Deliver(NEWS_5, false),
                    Out(OneHears5(p), {NEWS_REFUSED_5}));
  }

  // ----- term 6: node 1 replaces the third entry on node 0 and commits its own -----

  lemma One6(p: bool)
    ensures var x := OneWins6(p);
            && x.log == [N2, N4, N6] && x.next == [3, 3, 3] && x.matched == [0, 0, 0] && x.peerDurable == [0, 0, 0]
            && x.commit == 0 && x.applied == [] && x.role == Leader
  {
    One4(p);
  }

  lemma OneSends6(p: bool)
    ensures Effect(OneWins6(p), Replicate(1, 0)) == Out(OneSent6(p), {FRAME_6})
  {
    One6(p);
    SmallBatch([N2, N4, N6], 2, 0, APPEND_FIXED);
    hide Effect, BatchCount;
    assert [N2, N4, N6][2..3] == [N6];
    Sends(OneWins6(p), 0, 2, 1);
  }

  lemma ZeroAnswers6(p: bool)
    ensures Effect(ZeroRelinked5(p), Deliver(FRAME_6, false)) == Out(ZeroTakes6(p), {TAKEN_6})
    ensures Within(ZeroRelinked5(p), Deliver(FRAME_6, false), OLD)
  {
    var x := ZeroRelinked5(p);
    Zero5(p);
    hide Effect, Within;
    Takes(x, FRAME_6);
    assert x.log[2 + 0].term != FRAME_6.entries[0].term;
    TakenWithin(x, FRAME_6, OLD);
    assert x.log[..2] + [N6] == [N2, N4, N6];
  }

  lemma OneSyncs6(p: bool)
    ensures Effect(OneSent6(p), Fsync(1)) == Out(OneSynced6(p), {})
  {
    One6(p);
    assert p ==> Recorded(OneSynced6(p)) == [0, 3, 0];
    MedianOfThree(0, 3, 0, 0);
    Syncs(OneSent6(p));
    hide Effect, QuorumIndex;
  }

  lemma OneCommits6(p: bool)
    ensures Effect(OneSynced6(p), Deliver(TAKEN_6, false)) == Out(OneCommitted6(p), {})
    ensures Within(OneSynced6(p), Deliver(TAKEN_6, false), OLD)
  {
    var x := OneSynced6(p);
    One6(p);
    hide Effect, Within, QuorumIndex;
    assert x.matched[0 := 3] == [3, 0, 0] && x.peerDurable[0 := 3] == [3, 0, 0];
    assert Recorded(x.(matched := [3, 0, 0], peerDurable := [3, 0, 0])) == [3, 3, 0];
    MedianOfThree(3, 3, 0, 3);
    HeardMajority(x, TAKEN_6, 3);
    AnswerWithin(x, TAKEN_6, OLD);
    assert x.log[..3] == [N2, N4, N6];
  }

  lemma OneElected6(s: System, p: bool, run: seq<Action>, t: System) returns (more: seq<Action>, u: System)
    requires At(s, OLD, run, t, ZeroRelinked5(p), OneHears5(p), TwoVotes5(p))
    ensures At(s, OLD, more, u, ZeroRelinked5(p), OneWins6(p), TwoVotes6(p))
  {
    hide Exec, ValidRun, Reaches, ZeroRelinked5;
    One4(p);
    more, u := Elects(s, OLD, run, t, 1, 2);
  }

  lemma TermSix(s: System, p: bool, run: seq<Action>, t: System) returns (more: seq<Action>, u: System)
    requires At(s, OLD, run, t, ZeroRelinked5(p), OneWins6(p), TwoVotes6(p))
    ensures At(s, OLD, more, u, ZeroTakes6(p), OneCommitted6(p), TwoVotes6(p))
  {
    hide Effect, Exec, ValidRun, Reaches, Within;
    var two := TwoVotes6(p);
    One6(p);
    hide ZeroRelinked5, ZeroTakes6, OneWins6, OneSent6, OneSynced6, OneCommitted6, TwoVotes6;
    OneSends6(p);
    ZeroAnswers6(p);
    OneSyncs6(p);
    OneCommits6(p);
    more, u := Next(s, OLD, run, t, ZeroRelinked5(p), OneWins6(p), two, Replicate(1, 0), Out(OneSent6(p), {FRAME_6}));
    more, u := Next(s, OLD, more, u, ZeroRelinked5(p), OneSent6(p), two, Deliver(FRAME_6, false),
                    Out(ZeroTakes6(p), {TAKEN_6}));
    more, u := Next(s, OLD, more, u, ZeroTakes6(p), OneSent6(p), two, Fsync(1), Out(OneSynced6(p), {}));
    more, u := Next(s, OLD, more, u, ZeroTakes6(p), OneSynced6(p), two, Deliver(TAKEN_6, false),
                    Out(OneCommitted6(p), {}));
  }

  /** Under either policy, counting answers of an earlier term makes two nodes apply different operations. */
  lemma OldAnswerDiverges(s: System, p: bool) returns (run: seq<Action>)
    requires Init(s) && s.n == 3 && s.nodes == [Start(0, p), Start(1, p), Start(2, p)]
    ensures ValidRun(s, run) && RunWithin(s, run, OLD)
    ensures Exec(s, run).nodes[0].applied == [N2, N4, N5] && Exec(s, run).nodes[1].applied == [N2, N4, N6]
  {
    hide ZeroHasThree1, ZeroHears2, ZeroWins3, ZeroSent3, ZeroTakes4, ZeroRelinked5, OneVotes1, OneRelinked2, OneHears3;
    hide ZeroWins5, OneWins4, OneWins6, OneProbed4, OneHears5;
    hide TwoVotes2, TwoTakes3, TwoSynced3, TwoVotes4, TwoVotes5, TwoVotes6, Start;
    var t;
    run, t := TermOne(s, p);
    run, t := TermTwo(s, p, run, t);
    run, t := TermThree(s, p, run, t);
    run, t := TermThreeSyncs(s, p, run, t);
    run, t := OneElected4(s, p, run, t);
    run, t := TermFour(s, p, run, t);
    run, t := ZeroElected5(s, p, run, t);
    run, t := TermFive(s, p, run, t);
    run, t := TermFiveEnds(s, p, run, t);
    run, t := OneElected6(s, p, run, t);
    run, t := TermSix(s, p, run, t);
    AppliedStays(p);
  }

  lemma AppliedStays(p: bool)
    ensures ZeroTakes6(p).applied == [N2, N4, N5] && OneCommitted6(p).applied == [N2, N4, N6]
  {}
}
