/** The node as the broker runs it: its log, an array of the entries above a compacted prefix, and the object whose
    frame handlers update its fields, its peers' positions and that log in place. */
module ClusterNode {
  import opened QuorumCommit
  import opened RaftNode

  const FIRST_CAP: nat := 16

  // ---- what a compacted prefix changes ----

  /** The term of an index as the array has it: nothing below the compaction boundary. */
  function SeenTerm(log: Log, base: nat, idx: nat): nat {
    if idx < base then 0 else TermAt(log, idx)
  }

  /** The append handler over a compacted prefix: terms below it read as zero and truncation stops at it. */
  function OnAppendOver(s: Node, base: nat, m: Message): (r: Out)
    requires m.Append?
    ensures SameNode(s, r.node)
  {
    var o := ObserveTerm(s, m.term);
    if m.term < o.term then Out(o, {AppendResp(s.id, m.src, o.term, false, |o.log|, o.durable)})
    else
      var f := o.(role := Follower, inPrevote := false);
      if m.prevIdx > |f.log| then Out(f, {AppendResp(s.id, m.src, f.term, false, |f.log|, f.durable)})
      else if m.prevIdx > 0 && SeenTerm(f.log, base, m.prevIdx) != m.prevTerm then
        Out(f, {AppendResp(s.id, m.src, f.term, false, m.prevIdx - 1, f.durable)})
      else
        var h := TakeEntries(f, m.(prevIdx := Max(m.prevIdx, base)));
        Out(h, {AppendResp(s.id, m.src, h.term, true, |h.log|, h.durable)})
  }

  /** A peer at or below `floor`, whose entries' bodies are gone, gets a heartbeat; any other its next entries. */
  function SendOver(s: Node, base: nat, floor: nat, j: nat): (r: Out)
    requires s.Shaped() && j < s.n
    ensures SameNode(s, r.node)
  {
    var ni := NextOf(s, j);
    if ni <= floor then Out(s, {Append(s.id, j, s.term, ni - 1, SeenTerm(s.log, base, ni - 1), s.commit, [])})
    else SendAppend(s, j)
  }

  /** Compaction is invisible to every frame whose previous index is not below the boundary; one that is below it, and
      names a term, is refused and changes no entry. */
  lemma AppendOverPrefix(s: Node, base: nat, m: Message)
    requires m.Append?
    ensures m.prevIdx >= base ==> OnAppendOver(s, base, m) == OnAppend(s, m)
    ensures 0 < m.prevIdx < base && m.prevTerm > 0 ==>
              && OnAppendOver(s, base, m).node.log == s.log
              && forall r :: r in OnAppendOver(s, base, m).msgs ==> r.AppendResp? && !r.success
  {}

  /** And to every peer that is above the floor. */
  lemma SendOverPrefix(s: Node, base: nat, floor: nat, j: nat)
    requires s.Shaped() && j < s.n && s.next[j] > floor
    ensures SendOver(s, base, floor, j) == SendAppend(s, j)
  {}

  /** Any other peer gets a heartbeat of this term and commit index in front of its next index, which stays. */
  lemma HeartbeatOnly(s: Node, base: nat, floor: nat, j: nat) returns (m: Message)
    requires s.Shaped() && j < s.n && 1 <= s.next[j] <= floor
    ensures SendOver(s, base, floor, j) == Out(s, {m})
    ensures m.Append? && m.entries == [] && m.dst == j && m.term == s.term && m.leaderCommit == s.commit
    ensures m.prevIdx + 1 == s.next[j] && (m.prevIdx >= base ==> m.prevTerm == TermAt(s.log, m.prevIdx))
  {
    m := Append(s.id, j, s.term, s.next[j] - 1, SeenTerm(s.log, base, s.next[j] - 1), s.commit, []);
  }

  /** The peer's next index, which starts at one. */
  function NextOf(s: Node, j: nat): (ni: nat)
    requires s.Shaped() && j < s.n
    ensures ni >= 1
  {
    if s.next[j] == 0 then 1 else s.next[j]
  }

  /** The entries that the next frame carries. */
  function BatchOf(log: Log, prev: nat): (es: Log) {
    var k := if prev <= |log| then BatchCount(log, prev, 0, APPEND_FIXED) else 0;
    if k == 0 then [] else log[prev..prev + k]
  }

  function Sent(s: Node, base: nat, j: nat, es: Log): (r: Out)
    requires s.Shaped() && j < s.n
  {
    var prev := NextOf(s, j) - 1;
    Out(s.(next := s.next[j := s.next[j] + |es|]),
        {Append(s.id, j, s.term, prev, SeenTerm(s.log, base, prev), s.commit, es)})
  }

  lemma FrameIs(s: Node, j: nat)
    requires s.Shaped() && j < s.n
    ensures var prev := NextOf(s, j) - 1;
            AppendFrame(s, j) == Append(s.id, j, s.term, prev, TermAt(s.log, prev), s.commit, BatchOf(s.log, prev))
  {
    hide BatchCount, TermAt;
  }

  /** The frame carries the next entries that fit, or none. */
  lemma FrameOver(s: Node, base: nat, floor: nat, j: nat)
    requires s.Shaped() && j < s.n && base <= floor
    ensures SendOver(s, base, floor, j) ==
            Sent(s, base, j, if NextOf(s, j) <= floor then [] else BatchOf(s.log, NextOf(s, j) - 1))
  {
    hide BatchOf, SeenTerm, AppendFrame, TermAt;
    assert s.next[j := s.next[j]] == s.next;
    if NextOf(s, j) > floor {
      SeenAbove(s.log, base, NextOf(s, j) - 1);
      FrameIs(s, j);
    }
  }

  lemma SeenAbove(log: Log, base: nat, idx: nat)
    requires idx >= base
    ensures SeenTerm(log, base, idx) == TermAt(log, idx)
  {}

  // ---- the log ----

  class EntryLog {
    /** Slot k holds index base + 1 + k; the first `count` slots are in use. */
    var entries: array<Entry>
    var count: nat
    var base: nat
    var baseTerm: nat
    ghost var dropped: Log

    ghost predicate Valid()
      reads this, entries
    {
      count <= entries.Length && |dropped| == base && baseTerm == TermAt(dropped, base)
    }

    /** Every entry, the compacted prefix included. */
    ghost function All(): (log: Log)
      requires Valid()
      reads this, entries
      ensures |log| == base + count && forall k :: base <= k < |log| ==> log[k] == entries[k - base]
    {
      dropped + entries[..count]
    }

    constructor ()
      ensures Valid() && All() == [] && base == 0 && fresh(entries)
    {
      entries := new Entry[0];
      count, base, baseTerm, dropped := 0, 0, 0, [];
    }

    function Last(): (last: nat)
      requires Valid()
      reads this, entries
      ensures last == |All()|
    {
      base + count
    }

    method TermOf(idx: nat) returns (t: nat)
      requires Valid()
      ensures t == SeenTerm(All(), base, idx)
    {
      if idx == base { return baseTerm; }
      if idx < base || idx > Last() { return 0; }
      return entries[idx - base - 1].term;
    }

    /** Room for one more entry, by doubling from sixteen; what is held stays. */
    method EnsureCap()
      requires Valid()
      modifies this`entries
      ensures Valid() && count < entries.Length && All() == old(All())
      ensures entries == old(entries) || fresh(entries)
    {
      if count < entries.Length { return; }
      var cap := if entries.Length > 0 then 2 * entries.Length else FIRST_CAP;
      var more := new Entry[cap](_ => Entry(0, OP_NOOP, []));
      var i := 0;
      while i < count
        invariant 0 <= i <= count < more.Length && more[..i] == entries[..i]
        modifies more
      {
        more[i] := entries[i];
        i := i + 1;
      }
      entries := more;
    }

    method Append(e: Entry)
      requires Valid()
      modifies this`entries, this`count, entries
      ensures Valid() && All() == old(All()) + [e]
      ensures entries == old(entries) || fresh(entries)
    {
      EnsureCap();
      ghost var was := entries[..count];
      assert dropped + was == old(All());
      entries[count] := e;
      assert entries[..count + 1] == was + [e];
      count := count + 1;
    }

    method AppendAll(es: Log)
      requires Valid()
      modifies this`entries, this`count, entries
      ensures Valid() && All() == old(All()) + es
      ensures entries == old(entries) || fresh(entries)
    {
      var i := 0;
      while i < |es|
        invariant 0 <= i <= |es| && Valid() && All() == old(All()) + es[..i]
        invariant entries == old(entries) || fresh(entries)
      {
        Append(es[i]);
        assert es[..i + 1] == es[..i] + [es[i]];
        i := i + 1;
      }
      assert es[..i] == es;
    }

    /** Drop an index and everything above it, never into the compacted prefix. */
    method Truncate(idx: nat)
      requires Valid() && idx >= 1
      modifies this`count
      ensures Valid() && All() == TruncateFrom(old(All()), Max(idx, base + 1))
    {
      var from := if idx <= base then base + 1 else idx;
      if from > Last() { return; }
      count := from - 1 - base;
      assert All() == old(All())[..from - 1];
    }

    /** Move the survivors to the front of the array. */
    method Shift(drop: nat)
      requires Valid() && drop <= count
      modifies entries
      ensures entries[..count - drop] == old(entries[drop..count])
    {
      ghost var was := entries[..];
      var i := 0;
      while i < count - drop
        invariant 0 <= i <= count - drop && entries[..i] == was[drop..drop + i] && entries[i..] == was[i..]
      {
        assert entries[drop + i] == entries[i..][drop] == was[drop + i];
        entries[i] := entries[drop + i];
        assert entries[i + 1..] == was[i..][1..];
        i := i + 1;
      }
    }

    /** Drop the prefix up to an index. Nothing that the log stands for changes. */
    method DropPrefix(upto: nat)
      requires Valid() && base < upto <= |All()|
      modifies this`count, this`base, this`baseTerm, this`dropped, entries
      ensures Valid() && All() == old(All()) && base == upto
    {
      var t := TermOf(upto);
      var drop := upto - base;
      ghost var front, back := entries[..drop], entries[drop..count];
      assert entries[..count] == front + back;
      Shift(drop);
      dropped := dropped + front;
      base, baseTerm, count := upto, t, count - drop;
      Boundary(old(dropped), front, back);
    }
  }

  lemma Boundary(dropped: Log, front: Log, back: Log)
    ensures dropped + (front + back) == (dropped + front) + back
    ensures TermAt(dropped + front, |dropped| + |front|) == TermAt(dropped + (front + back), |dropped| + |front|)
  {}

  // ---- the node ----

  class ClusterNode {
    const id: nat
    const n: nat
    const durableCommit: bool
    var term: nat
    var votedFor: int
    var role: Role
    var inPrevote: bool
    var prevotes: nat
    var votes: nat
    const log: EntryLog
    var compactedTo: nat
    var commit: nat
    var applied: Log
    var durable: nat
    const next: array<nat>
    const matched: array<nat>
    const peerDurable: array<nat>

    ghost predicate Valid()
      reads this, log, log.entries, next, matched, peerDurable
    {
      && log.Valid() && log.base <= |applied| && log.base <= commit && log.base <= compactedTo
      && next != matched && next != peerDurable && matched != peerDurable
      && next.Length == n && matched.Length == n && peerDurable.Length == n
      && id < n && -1 <= votedFor < n
    }

    /** The node this object stands for. */
    ghost function Value(): (x: Node)
      requires Valid()
      reads this, log, log.entries, next, matched, peerDurable
      ensures x.Shaped()
    {
      Node(id, n, durableCommit, term, votedFor, role, inPrevote, prevotes, votes,
           log.All(), commit, applied, durable, next[..], matched[..], peerDurable[..])
    }

    constructor (self: nat, nodes: nat, durablePolicy: bool)
      requires self < nodes
      ensures Valid() && Value() == Fresh(self, nodes, durablePolicy) && log.base == 0
      ensures fresh(log) && fresh(log.entries) && fresh(next) && fresh(matched) && fresh(peerDurable)
    {
      id, n, durableCommit := self, nodes, durablePolicy;
      term, votedFor, role := 0, -1, Follower;
      inPrevote, prevotes, votes := false, 0, 0;
      log := new EntryLog();
      compactedTo, commit, applied, durable := 0, 0, [], 0;
      next := new nat[nodes](_ => 0);
      matched := new nat[nodes](_ => 0);
      peerDurable := new nat[nodes](_ => 0);
      new;
      assert next[..] == Fill(n, 0) && matched[..] == Fill(n, 0) && peerDurable[..] == Fill(n, 0);
    }

    /** Compaction drops an applied prefix, and the node this object stands for stays as it is. */
    method Compact(upto: nat)
      requires Valid() && log.base < upto <= |applied| && upto <= commit && upto <= |log.All()|
      modifies this`compactedTo, log, log.entries
      ensures Valid() && Value() == old(Value()) && log.base == upto
    {
      log.DropPrefix(upto);
      if compactedTo < upto { compactedTo := upto; }
    }

    // ---- terms and elections ----

    method StepUp(t: nat) returns (steppedDown: bool)
      requires Valid()
      modifies this`term, this`votedFor, this`inPrevote, this`role
      ensures Valid() && Value() == ObserveTerm(old(Value()), t)
      ensures steppedDown <==> t > old(term)
    {
      if t <= term { return false; }
      term, votedFor, inPrevote, role := t, -1, false, Follower;
      return true;
    }

    method ResetPeers()
      requires Valid()
      modifies next, matched, peerDurable
      ensures Valid()
      ensures next[..] == Fill(n, |log.All()| + 1) && matched[..] == Fill(n, 0) && peerDurable[..] == Fill(n, 0)
    {
      var i, first := 0, log.Last() + 1;
      while i < n
        invariant 0 <= i <= n
        invariant forall k :: 0 <= k < i ==> next[k] == first && matched[k] == 0 && peerDurable[k] == 0
      {
        next[i], matched[i], peerDurable[i] := first, 0, 0;
        i := i + 1;
      }
    }

    /** Probe every peer from the end of the log and forget what it had, then append a no-op of the new term. */
    method TakeLeadership()
      requires Valid()
      modifies this`role, this`inPrevote, log`entries, log`count, log.entries, next, matched, peerDurable
      ensures Valid() && Value() == BecomeLeader(old(Value()))
      ensures log.entries == old(log.entries) || fresh(log.entries)
    {
      role, inPrevote := Leader, false;
      ResetPeers();
      log.Append(Entry(term, OP_NOOP, []));
    }

    method StandForElection() returns (msgs: set<Message>)
      requires Valid()
      modifies this, log`entries, log`count, log.entries, next, matched, peerDurable
      ensures Valid() && Out(Value(), msgs) == BecomeCandidate(old(Value()))
      ensures log.entries == old(log.entries) || fresh(log.entries)
    {
      hide BecomeLeader, LastTerm;
      inPrevote, term, votedFor, role, votes := false, term + 1, id, Candidate, 1;
      msgs := {};
      if votes >= n / 2 + 1 {
        TakeLeadership();
        return;
      }
      msgs := AskForVotes();
    }

    method AskForVotes() returns (msgs: set<Message>)
      requires Valid()
      ensures msgs == set j: nat | j < n && j != id :: VoteReq(id, j, term, |log.All()|, LastTerm(log.All()))
    {
      var last, t := LastOf();
      msgs := set j: nat | j < n && j != id :: VoteReq(id, j, term, last, t);
    }

    /** Index and term of the last entry. */
    method LastOf() returns (last: nat, t: nat)
      requires Valid()
      ensures last == |log.All()| && t == LastTerm(log.All())
    {
      last := log.Last();
      t := log.TermOf(last);
    }

    method OnTimeout() returns (msgs: set<Message>)
      requires Valid()
      modifies this, log`entries, log`count, log.entries, next, matched, peerDurable
      ensures Valid() && Out(Value(), msgs) == StartPrevote(old(Value()))
      ensures log.entries == old(log.entries) || fresh(log.entries)
    {
      inPrevote, prevotes := true, 1;
      if prevotes >= n / 2 + 1 {
        msgs := StandForElection();
        return;
      }
      var last, t := LastOf();
      var asked := term + 1;
      msgs := set j: nat | j < n && j != id :: PreVote(id, j, asked, last, t);
    }

    method IsCurrent(candIdx: nat, candTerm: nat) returns (b: bool)
      requires Valid()
      ensures b == LogIsCurrent(log.All(), candIdx, candTerm)
    {
      var last, t := LastOf();
      b := if candTerm != t then candTerm > t else candIdx >= last;
    }

    /** Answering a PreVote changes nothing here: no vote, no term, no timer. */
    method AnswerPreVote(m: Message, heardLeader: bool) returns (reply: Message)
      requires Valid() && m.PreVote?
      ensures Out(Value(), {reply}) == OnPreVote(Value(), m, heardLeader)
    {
      var grant := false;
      if role != Leader && !heardLeader {
        var current := IsCurrent(m.lastIdx, m.lastTerm);
        grant := m.term >= term + 1 && current;
      }
      reply := PreVoteResp(id, m.src, term, grant);
    }

    method HearPreVote(m: Message) returns (msgs: set<Message>)
      requires Valid() && m.PreVoteResp?
      modifies this, log`entries, log`count, log.entries, next, matched, peerDurable
      ensures Valid() && Out(Value(), msgs) == OnPreVoteResp(old(Value()), m)
      ensures log.entries == old(log.entries) || fresh(log.entries)
    {
      msgs := {};
      var down := StepUp(m.term);
      if down { return; }
      if inPrevote && m.granted {
        prevotes := prevotes + 1;
        if prevotes >= n / 2 + 1 {
          msgs := StandForElection();
        }
      }
    }

    method AnswerVote(m: Message) returns (reply: Message)
      requires Valid() && m.VoteReq? && m.src < n
      modifies this`term, this`votedFor, this`inPrevote, this`role
      ensures Valid() && Out(Value(), {reply}) == OnVoteReq(old(Value()), m)
    {
      var _ := StepUp(m.term);
      var grant := IsCurrent(m.lastIdx, m.lastTerm);
      grant := m.term == term && grant && (votedFor == -1 || votedFor == m.src);
      if grant { votedFor := m.src; }
      reply := VoteResp(id, m.src, term, grant);
    }

    method HearVote(m: Message)
      requires Valid() && m.VoteResp?
      modifies this, log`entries, log`count, log.entries, next, matched, peerDurable
      ensures Valid() && Out(Value(), {}) == OnVoteResp(old(Value()), m)
      ensures log.entries == old(log.entries) || fresh(log.entries)
    {
      var down := StepUp(m.term);
      if down { return; }
      if role == Candidate && m.term == term && m.granted {
        votes := votes + 1;
        if votes >= n / 2 + 1 {
          TakeLeadership();
        }
      }
    }

    // ---- replication ----

    /** Apply every entry up to the commit index that the log holds, each once, in order. */
    method ApplyCommitted()
      requires Valid()
      modifies this`applied
      ensures Valid() && applied == old(applied) + Pending(log.All(), |old(applied)|, commit)
    {
      ghost var all := log.All();
      ghost var rest := Pending(all, |applied|, commit);
      var idx := |applied|;
      while idx < commit
        invariant log.base <= idx && log.base <= |applied| && old(applied) + rest == applied + Pending(all, idx, commit)
        decreases commit - idx
      {
        if idx < log.Last() {
          applied := applied + [log.entries[idx - log.base]];
        }
        idx := idx + 1;
      }
    }

    method TakeFrame(m: Message)
      requires Valid() && m.Append?
      modifies this`commit, this`applied, log`entries, log`count, log.entries
      ensures Valid() && Value() == TakeEntries(old(Value()), m.(prevIdx := Max(m.prevIdx, log.base)))
      ensures log.entries == old(log.entries) || fresh(log.entries)
    {
      hide Pending, TruncateFrom;
      log.Truncate(m.prevIdx + 1);
      log.AppendAll(m.entries);
      var c := Min(m.leaderCommit, log.Last());
      if c > commit {
        commit := c;
        ApplyCommitted();
      }
    }

    method AnswerAppend(m: Message) returns (reply: Message)
      requires Valid() && m.Append?
      modifies this, log`entries, log`count, log.entries
      ensures Valid() && Out(Value(), {reply}) == OnAppendOver(old(Value()), log.base, m)
      ensures log.entries == old(log.entries) || fresh(log.entries)
    {
      hide TakeEntries;
      var _ := StepUp(m.term);
      if m.term < term {
        return AppendResp(id, m.src, term, false, log.Last(), durable);
      }
      role, inPrevote := Follower, false;
      if m.prevIdx > log.Last() {
        return AppendResp(id, m.src, term, false, log.Last(), durable);
      }
      var t := log.TermOf(m.prevIdx);
      if m.prevIdx > 0 && t != m.prevTerm {
        return AppendResp(id, m.src, term, false, m.prevIdx - 1, durable);
      }
      TakeFrame(m);
      reply := AppendResp(id, m.src, term, true, log.Last(), durable);
    }

    /** The positions the commit rule looks at, one per node. */
    method GatherPositions() returns (v: array<nat>)
      requires Valid()
      ensures fresh(v) && v[..] == Recorded(Value())
    {
      v := new nat[n];
      var i := 0;
      while i < n
        invariant 0 <= i <= n
        invariant forall k :: 0 <= k < i ==> v[k] == Recorded(Value())[k]
      {
        v[i] := if i == id then (if durableCommit then durable else log.Last())
                else (if durableCommit then peerDurable[i] else matched[i]);
        i := i + 1;
      }
    }

    /** Sort the recorded positions and commit the quorum-th one if it is an entry of this term. */
    method RaiseCommit()
      requires Valid()
      modifies this`commit, this`applied
      ensures Valid() && Value() == AdvanceCommit(old(Value()))
    {
      hide Pending, QuorumIndex, Recorded;
      var v := GatherPositions();
      var high := SelectQuorum(v, n / 2 + 1);
      assert high == QuorumIndex(Recorded(old(Value())), old(Value()).Quorum());
      var t := log.TermOf(high);
      if high > commit && t == term {
        commit := high;
        ApplyCommitted();
      }
    }

    method HearAppend(m: Message)
      requires Valid() && m.AppendResp? && m.src < n
      modifies this, next, matched, peerDurable
      ensures Valid() && Out(Value(), {}) == OnAppendResp(old(Value()), m)
    {
      hide AdvanceCommit;
      var down := StepUp(m.term);
      if down { return; }
      if role != Leader { return; }
      peerDurable[m.src] := m.durable;
      if m.success {
        if m.hint > matched[m.src] { matched[m.src] := m.hint; }
        assert matched[..] == old(matched[..])[m.src := Max(old(matched[m.src]), m.hint)];
        RaiseCommit();
      } else {
        if m.hint + 1 < next[m.src] { next[m.src] := m.hint + 1; }
        if matched[m.src] > m.hint { matched[m.src] := m.hint; }
        assert next[..] == old(next[..])[m.src := Min(old(next[m.src]), m.hint + 1)];
        assert matched[..] == old(matched[..])[m.src := Min(old(matched[m.src]), m.hint)];
      }
    }

    /** The fsync timer. */
    method Fsync()
      requires Valid()
      modifies this`durable, this`commit, this`applied
      ensures Valid() && Value() == Sync(old(Value()))
    {
      hide AdvanceCommit;
      durable := log.Last();
      if durableCommit && role == Leader { RaiseCommit(); }
    }

    /** A link to a peer came up: probe from the end, forget what it had. */
    method PeerUp(j: nat)
      requires Valid() && j < n
      modifies next, matched, peerDurable
      ensures Valid() && Value() == LinkUp(old(Value()), j)
    {
      next[j], matched[j], peerDurable[j] := log.Last() + 1, 0, 0;
    }

    /** How many entries after `prev` fit one frame under both caps. */
    method CountBatch(prev: nat) returns (cnt: nat)
      requires Valid() && log.base <= prev <= |log.All()|
      ensures cnt == BatchCount(log.All(), prev, 0, APPEND_FIXED)
    {
      cnt := 0;
      var size: nat := APPEND_FIXED;
      ghost var all := log.All();
      while prev + cnt < log.Last() && cnt < MAX_APPEND_ENTRIES
        invariant prev + cnt <= |all|
        invariant cnt + BatchCount(all, prev + cnt, cnt, size) == BatchCount(all, prev, 0, APPEND_FIXED)
      {
        var esz := ENTRY_FIXED + |log.entries[prev + cnt - log.base].payload|;
        if cnt > 0 && size + esz > MAX_APPEND_BYTES { return; }
        size, cnt := size + esz, cnt + 1;
      }
    }

    /** The entries after `prev` that fit one frame. */
    method Batch(prev: nat) returns (es: Log)
      requires Valid() && log.base <= prev
      ensures es == BatchOf(log.All(), prev)
    {
      if prev > log.Last() { return []; }
      var cnt := CountBatch(prev);
      es := log.entries[prev - log.base..prev - log.base + cnt];
    }

    /** One AppendEntries frame from the peer's next index, capped in entries and bytes; a heartbeat only for a peer
        whose entries are gone. */
    method SendTo(j: nat) returns (m: Message)
      requires Valid() && j < n
      modifies next
      ensures Valid() && Out(Value(), {m}) == SendOver(old(Value()), log.base, compactedTo, j)
    {
      hide BatchOf, SendOver, SeenTerm;
      var ni := if next[j] == 0 then 1 else next[j];
      var t := log.TermOf(ni - 1);
      var es: Log := [];
      if ni > compactedTo {
        es := Batch(ni - 1);
      }
      FrameOver(Value(), log.base, compactedTo, j);
      m := Append(id, j, term, ni - 1, t, commit, es);
      next[j] := next[j] + |es|;
      assert next[..] == old(next[..])[j := old(next[j]) + |es|];
    }
  }
}
