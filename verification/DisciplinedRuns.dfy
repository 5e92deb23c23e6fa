/** The discipline under which commit safety is proved can be met: under either policy there is a run of three
    nodes that elects a leader, replicates, commits and applies. */
module DisciplinedRuns {
  import opened QuorumCommit
  import opened RaftNode
  import opened RaftSystem
  import opened CommitSafety
  import opened SampleRuns

  const CALM := Limits({}, false, false)

  function Start(i: nat, d: bool): Node { Fresh(i, 3, d) }

  function ZeroWins(d: bool): Node { Won(Start(0, d)) }
  function ZeroSent(d: bool): Node { ZeroWins(d).(next := [1, 2, 1]) }
  function ZeroSynced(d: bool): Node { ZeroSent(d).(durable := 1) }
  function ZeroCommitted(d: bool): Node {
    ZeroSynced(d).(matched := [0, 1, 0], peerDurable := [0, 1, 0], commit := 1, applied := [N1])
  }

  function OneVotes(d: bool): Node { Voted(Start(1, d), 1, 0) }
  function OneTakes(d: bool): Node { OneVotes(d).(log := [N1]) }
  function OneSynced(d: bool): Node { OneTakes(d).(durable := 1) }
  function OneApplied(d: bool): Node { OneSynced(d).(commit := 1, applied := [N1]) }

  const FRAME := Append(0, 1, 1, 0, 0, 0, [N1])
  const TAKEN := AppendResp(1, 0, 1, true, 1, 0)
  const BEAT := Append(0, 1, 1, 1, 1, 0, [])
  const BEAT_TAKEN := AppendResp(1, 0, 1, true, 1, 1)
  const COMMIT_BEAT := Append(0, 1, 1, 1, 1, 1, [])

  lemma LeaderSends(d: bool)
    ensures Effect(ZeroWins(d), Replicate(0, 1)) == Out(ZeroSent(d), {FRAME})
  {
    FirstSend(ZeroWins(d));
    hide Effect;
    assert ZeroWins(d).log == [N1] && ZeroWins(d).next == [1, 1, 1];
  }

  lemma FirstSend(x: Node)
    requires x.Shaped() && x.id == 0 && x.n == 3 && x.log == [N1] && x.next == [1, 1, 1]
    ensures Effect(x, Replicate(0, 1)) == Out(x.(next := [1, 2, 1]), {Append(0, 1, x.term, 0, 0, x.commit, [N1])})
  {
    SendsAll(x, 1);
    hide Effect;
    assert x.next[1 := 2] == [1, 2, 1];
  }

  lemma LeaderBeats(d: bool)
    ensures Effect(ZeroSynced(d), Replicate(0, 1)) == Out(ZeroSynced(d), {BEAT})
    ensures Effect(ZeroCommitted(d), Replicate(0, 1)) == Out(ZeroCommitted(d), {COMMIT_BEAT})
  {
    Beats(ZeroSynced(d));
    Beats(ZeroCommitted(d));
    hide Effect;
    assert ZeroWins(d).log == [N1];
  }

  /** A leader whose peer is at the end of its log sends a heartbeat. */
  lemma Beats(x: Node)
    requires x.Shaped() && x.id == 0 && x.n == 3 && x.log == [N1] && x.next == [1, 2, 1]
    ensures Effect(x, Replicate(0, 1)) == Out(x, {Append(0, 1, x.term, 1, 1, x.commit, [])})
  {
    SmallBatch([N1], 1, 0, APPEND_FIXED);
    hide Effect, BatchCount;
    assert x.next[1 := 2] == x.next && [N1][1..1] == [];
    Sends(x, 1, 1, 0);
  }

  lemma FollowerTakes(d: bool)
    ensures Effect(OneVotes(d), Deliver(FRAME, false)) == Out(OneTakes(d), {TAKEN})
    ensures Within(OneVotes(d), Deliver(FRAME, false), CALM)
    ensures Effect(OneTakes(d), Fsync(1)) == Out(OneSynced(d), {})
    ensures Effect(OneSynced(d), Deliver(BEAT, false)) == Out(OneSynced(d), {BEAT_TAKEN})
    ensures Within(OneSynced(d), Deliver(BEAT, false), CALM)
    ensures Effect(OneSynced(d), Deliver(COMMIT_BEAT, false)) == Out(OneApplied(d), {BEAT_TAKEN})
    ensures Within(OneSynced(d), Deliver(COMMIT_BEAT, false), CALM)
  {
    assert OneVotes(d).log == [];
    assert TruncateFrom([N1], 2) + [] == [N1];
    assert Pending([N1], 0, 1) == [N1][0..1];
  }

  lemma LeaderSyncs(d: bool)
    ensures Effect(ZeroSent(d), Fsync(0)) == Out(ZeroSynced(d), {})
  {
    assert ZeroSent(d).log == [N1];
    assert d ==> Recorded(ZeroSynced(d)) == [1, 0, 0];
    MedianOfThree(1, 0, 0, 0);
  }

  lemma LeaderCommits(d: bool)
    ensures Effect(ZeroSynced(d), Deliver(BEAT_TAKEN, false)) == Out(ZeroCommitted(d), {})
    ensures Within(ZeroSynced(d), Deliver(BEAT_TAKEN, false), CALM)
  {
    var x := ZeroSynced(d);
    var h := x.(matched := [0, 1, 0], peerDurable := [0, 1, 0]);
    assert x.log == [N1] && x.matched[1 := 1] == [0, 1, 0] && x.peerDurable[1 := 1] == [0, 1, 0];
    assert Recorded(h) == [1, 1, 0];
    MedianOfThree(1, 1, 0, 1);
    HeardMajority(x, BEAT_TAKEN, 1);
    AnswerWithin(x, BEAT_TAKEN, CALM);
    assert [N1][..1] == [N1];
  }

  lemma Replicates(s: System, d: bool, run: seq<Action>, t: System) returns (more: seq<Action>, u: System)
    requires At(s, CALM, run, t, ZeroWins(d), OneVotes(d), Start(2, d))
    ensures At(s, CALM, more, u, ZeroSynced(d), OneSynced(d), Start(2, d))
  {
    hide Effect, Exec, ValidRun, Reaches, Within;
    LeaderSends(d);
    FollowerTakes(d);
    LeaderSyncs(d);
    more, u := Next(s, CALM, run, t, ZeroWins(d), OneVotes(d), Start(2, d), Replicate(0, 1), Out(ZeroSent(d), {FRAME}));
    more, u := Next(s, CALM, more, u, ZeroSent(d), OneVotes(d), Start(2, d), Deliver(FRAME, false),
                    Out(OneTakes(d), {TAKEN}));
    more, u := Next(s, CALM, more, u, ZeroSent(d), OneTakes(d), Start(2, d), Fsync(1), Out(OneSynced(d), {}));
    more, u := Next(s, CALM, more, u, ZeroSent(d), OneSynced(d), Start(2, d), Fsync(0), Out(ZeroSynced(d), {}));
  }

  lemma Commits(s: System, d: bool, run: seq<Action>, t: System) returns (more: seq<Action>, u: System)
    requires At(s, CALM, run, t, ZeroSynced(d), OneSynced(d), Start(2, d))
    ensures At(s, CALM, more, u, ZeroCommitted(d), OneApplied(d), Start(2, d))
  {
    hide Effect, Exec, ValidRun, Reaches, Within;
    LeaderBeats(d);
    FollowerTakes(d);
    LeaderCommits(d);
    more, u := Next(s, CALM, run, t, ZeroSynced(d), OneSynced(d), Start(2, d), Replicate(0, 1),
                    Out(ZeroSynced(d), {BEAT}));
    more, u := Next(s, CALM, more, u, ZeroSynced(d), OneSynced(d), Start(2, d), Deliver(BEAT, false),
                    Out(OneSynced(d), {BEAT_TAKEN}));
    more, u := Next(s, CALM, more, u, ZeroSynced(d), OneSynced(d), Start(2, d), Deliver(BEAT_TAKEN, false),
                    Out(ZeroCommitted(d), {}));
    more, u := Next(s, CALM, more, u, ZeroCommitted(d), OneSynced(d), Start(2, d), Replicate(0, 1),
                    Out(ZeroCommitted(d), {COMMIT_BEAT}));
    more, u := Next(s, CALM, more, u, ZeroCommitted(d), OneSynced(d), Start(2, d), Deliver(COMMIT_BEAT, false),
                    Out(OneApplied(d), {BEAT_TAKEN}));
  }

  /** Under either policy some disciplined run of three nodes commits, and a majority applies what it commits:
      the hypotheses of State Machine Safety do not rule it out. */
  lemma DisciplinedRunCommits(s: System) returns (run: seq<Action>)
    requires Init(s) && s.n == 3 && SamePolicy(s)
    ensures ValidRun(s, run) && DisciplinedRun(s, run)
    ensures Exec(s, run).nodes[0].applied == [N1] && Exec(s, run).nodes[1].applied == [N1]
  {
    var d := s.nodes[0].durableCommit;
    assert s.nodes == [Start(0, d), Start(1, d), Start(2, d)];
    var t;
    run, t := Elects(s, CALM, [], s, 0, 1);
    assert t.nodes == [ZeroWins(d), OneVotes(d), Start(2, d)];
    hide ZeroWins, ZeroSynced, OneVotes, OneSynced, Start, Exec, DisciplinedRun;
    run, t := Replicates(s, d, run, t);
    run, t := Commits(s, d, run, t);
    UnbrokenIsDisciplined(s, run, CALM);
  }
}
