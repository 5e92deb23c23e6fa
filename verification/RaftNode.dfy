/** One node of the cluster, on values: its fields, its frames, and what each frame
    handler makes of them. */
module RaftNode {
  import opened QuorumCommit

  datatype Role = Follower | Candidate | Leader

  /** A log entry; its index is its position, counted from 1. */
  datatype Entry = Entry(term: nat, op: nat, payload: seq<nat>)

  type Log = seq<Entry>

  const OP_NOOP: nat := 0

  datatype Message =
    | PreVote(src: nat, dst: nat, term: nat, lastIdx: nat, lastTerm: nat)
    | PreVoteResp(src: nat, dst: nat, term: nat, granted: bool)
    | VoteReq(src: nat, dst: nat, term: nat, lastIdx: nat, lastTerm: nat)
    | VoteResp(src: nat, dst: nat, term: nat, granted: bool)
    | Append(src: nat, dst: nat, term: nat, prevIdx: nat, prevTerm: nat, leaderCommit: nat, entries: Log)
    | AppendResp(src: nat, dst: nat, term: nat, success: bool, hint: nat, durable: nat)

  /** The fields of a node. `next`, `matched` and `peerDurable` have one slot per node id;
      the node's own slot is unused. `applied` lists the operations handed to the broker. */
  datatype Node = Node(
    id: nat, n: nat, durableCommit: bool,
    term: nat, votedFor: int, role: Role,
    inPrevote: bool, prevotes: nat, votes: nat,
    log: Log, commit: nat, applied: Log, durable: nat,
    next: seq<nat>, matched: seq<nat>, peerDurable: seq<nat>)
  {
    function Quorum(): nat { n / 2 + 1 }

    ghost predicate Shaped() {
      && id < n
      && |next| == n && |matched| == n && |peerDurable| == n
      && -1 <= votedFor < n
    }
  }

  datatype Out = Out(node: Node, msgs: set<Message>)

  /** `t` is the same node as `s`, at a later moment. */
  ghost predicate SameNode(s: Node, t: Node) {
    && t.id == s.id && t.n == s.n && t.durableCommit == s.durableCommit
    && (s.Shaped() ==> t.Shaped())
  }

  function Fill(n: nat, v: nat): (r: seq<nat>)
    ensures |r| == n && forall k :: 0 <= k < n ==> r[k] == v
  {
    seq(n, _ => v)
  }

  function Fresh(id: nat, n: nat, durableCommit: bool): Node {
    Node(id, n, durableCommit, 0, -1, Follower, false, 0, 0, [], 0, [], 0, Fill(n, 0), Fill(n, 0), Fill(n, 0))
  }

  function TermAt(log: Log, idx: nat): nat {
    if 1 <= idx <= |log| then log[idx - 1].term else 0
  }

  function LastTerm(log: Log): nat {
    TermAt(log, |log|)
  }

  /** Is a log ending in (candIdx, candTerm) at least as up to date as `log`? */
  predicate LogIsCurrent(log: Log, candIdx: nat, candTerm: nat) {
    if candTerm != LastTerm(log) then candTerm > LastTerm(log) else candIdx >= |log|
  }

  // ----- term, candidacy, leadership -----

  /** Adopt a strictly higher term as a follower with no vote. */
  function ObserveTerm(s: Node, t: nat): (r: Node)
    ensures SameNode(s, r)
  {
    if t <= s.term then s
    else s.(term := t, votedFor := -1, inPrevote := false, role := Follower)
  }

  function BecomeLeader(s: Node): (r: Node)
    ensures SameNode(s, r)
  {
    s.(role := Leader, inPrevote := false,
       next := Fill(s.n, |s.log| + 1), matched := Fill(s.n, 0), peerDurable := Fill(s.n, 0),
       log := s.log + [Entry(s.term, OP_NOOP, [])])
  }

  function BecomeCandidate(s: Node): (r: Out)
    ensures SameNode(s, r.node)
  {
    var c := s.(inPrevote := false, term := s.term + 1, votedFor := s.id, role := Candidate, votes := 1);
    if c.votes >= c.Quorum() then Out(BecomeLeader(c), {})
    else Out(c, set j: nat | j < c.n && j != c.id :: VoteReq(c.id, j, c.term, |c.log|, LastTerm(c.log)))
  }

  function PreVoteRequests(p: Node, t: nat): set<Message> {
    set j: nat | j < p.n && j != p.id :: PreVote(p.id, j, t, |p.log|, LastTerm(p.log))
  }

  /** Election timeout of a node that is not leader: a PreVote round, with the term untouched. */
  function StartPrevote(s: Node): (r: Out)
    ensures SameNode(s, r.node)
  {
    var p := s.(inPrevote := true, prevotes := 1);
    if p.prevotes >= p.Quorum() then BecomeCandidate(p)
    else Out(p, PreVoteRequests(p, p.term + 1))
  }

  // ----- vote frames -----

  /** `heardLeader` is whether the node recently heard from a leader (a clock reading). */
  function OnPreVote(s: Node, m: Message, heardLeader: bool): (r: Out)
    requires m.PreVote?
    ensures SameNode(s, r.node)
  {
    var grant := !(s.role == Leader || heardLeader) && m.term >= s.term + 1 && LogIsCurrent(s.log, m.lastIdx, m.lastTerm);
    Out(s, {PreVoteResp(s.id, m.src, s.term, grant)})
  }

  function OnPreVoteResp(s: Node, m: Message): (r: Out)
    requires m.PreVoteResp?
    ensures SameNode(s, r.node)
  {
    if m.term > s.term then Out(ObserveTerm(s, m.term), {})
    else if s.inPrevote && m.granted then
      var p := s.(prevotes := s.prevotes + 1);
      if p.prevotes >= p.Quorum() then BecomeCandidate(p) else Out(p, {})
    else Out(s, {})
  }

  function OnVoteReq(s: Node, m: Message): (r: Out)
    requires m.VoteReq?
    ensures m.src < s.n ==> SameNode(s, r.node)
  {
    var o := ObserveTerm(s, m.term);
    var grant := m.term == o.term && LogIsCurrent(o.log, m.lastIdx, m.lastTerm)
                 && (o.votedFor == -1 || o.votedFor == m.src);
    Out(if grant then o.(votedFor := m.src) else o, {VoteResp(s.id, m.src, o.term, grant)})
  }

  function OnVoteResp(s: Node, m: Message): (r: Out)
    requires m.VoteResp?
    ensures SameNode(s, r.node)
  {
    if m.term > s.term then Out(ObserveTerm(s, m.term), {})
    else if s.role == Candidate && m.term == s.term && m.granted then
      var c := s.(votes := s.votes + 1);
      if c.votes >= c.Quorum() then Out(BecomeLeader(c), {}) else Out(c, {})
    else Out(s, {})
  }

  // ----- log frames -----

  /** The log after dropping index `idx` and everything above it. */
  function TruncateFrom(log: Log, idx: nat): Log
    requires idx >= 1
  {
    if idx > |log| then log else log[..idx - 1]
  }

  function Min(a: nat, b: nat): nat { if a <= b then a else b }
  function Max(a: nat, b: nat): nat { if a >= b then a else b }

  /** The operations at indices from+1 .. to that the log still holds, in order. */
  function Pending(log: Log, from: nat, to: nat): (r: Log)
    ensures from <= to <= |log| ==> r == log[from..to]
    decreases if to > from then to - from else 0
  {
    if from >= to then []
    else (if from < |log| then [log[from]] else []) + Pending(log, from + 1, to)
  }

  /** Raise the commit index and apply everything up to it. */
  function CommitTo(s: Node, c: nat): (r: Node)
    ensures SameNode(s, r)
  {
    s.(commit := c, applied := s.applied + Pending(s.log, |s.applied|, c))
  }

  predicate LogMatches(log: Log, prevIdx: nat, prevTerm: nat) {
    prevIdx <= |log| && (prevIdx == 0 || TermAt(log, prevIdx) == prevTerm)
  }

  /** The guard under which an AppendEntries frame is accepted. */
  predicate Accepts(s: Node, m: Message)
    requires m.Append?
  {
    m.term >= s.term && LogMatches(s.log, m.prevIdx, m.prevTerm)
  }

  /** Truncate after the frame's previous index, append its entries, follow the leader's commit index. */
  function TakeEntries(s: Node, m: Message): (r: Node)
    requires m.Append?
    ensures SameNode(s, r)
  {
    var g := s.(log := TruncateFrom(s.log, m.prevIdx + 1) + m.entries);
    var c := Min(m.leaderCommit, |g.log|);
    if c > g.commit then CommitTo(g, c) else g
  }

  function OnAppend(s: Node, m: Message): (r: Out)
    requires m.Append?
    ensures SameNode(s, r.node)
  {
    var o := ObserveTerm(s, m.term);
    if m.term < o.term then Out(o, {AppendResp(s.id, m.src, o.term, false, |o.log|, o.durable)})
    else
      var f := o.(role := Follower, inPrevote := false);
      if m.prevIdx > |f.log| then Out(f, {AppendResp(s.id, m.src, f.term, false, |f.log|, f.durable)})
      else if m.prevIdx > 0 && TermAt(f.log, m.prevIdx) != m.prevTerm then
        Out(f, {AppendResp(s.id, m.src, f.term, false, m.prevIdx - 1, f.durable)})
      else
        var h := TakeEntries(f, m);
        Out(h, {AppendResp(s.id, m.src, h.term, true, |h.log|, h.durable)})
  }

  /** The position recorded for each node: fsync'd indices, or acknowledged ones under the fast policy. */
  function Recorded(s: Node): (r: seq<nat>)
    requires s.Shaped()
    ensures |r| == s.n
    ensures !s.durableCommit ==> r == s.matched[s.id := |s.log|]
  {
    if s.durableCommit then s.peerDurable[s.id := s.durable]
    else s.matched[s.id := |s.log|]
  }

  /** Leader: commit the majority high-water mark if it is an entry of the current term. */
  function AdvanceCommit(s: Node): (r: Node)
    requires s.Shaped()
    ensures SameNode(s, r)
  {
    var high := QuorumIndex(Recorded(s), s.Quorum());
    if high > s.commit && TermAt(s.log, high) == s.term then CommitTo(s, high) else s
  }

  function OnAppendResp(s: Node, m: Message): (r: Out)
    requires m.AppendResp? && s.Shaped() && m.src < s.n
    ensures SameNode(s, r.node)
  {
    if m.term > s.term then Out(ObserveTerm(s, m.term), {})
    else if s.role != Leader then Out(s, {})
    else
      var d := s.(peerDurable := s.peerDurable[m.src := m.durable]);
      if m.success then
        Out(AdvanceCommit(d.(matched := d.matched[m.src := Max(d.matched[m.src], m.hint)])), {})
      else
        Out(d.(next := d.next[m.src := Min(d.next[m.src], m.hint + 1)],
               matched := d.matched[m.src := Min(d.matched[m.src], m.hint)]), {})
  }

  const MAX_APPEND_ENTRIES: nat := 512
  const MAX_APPEND_BYTES: nat := 0x100000
  const APPEND_FIXED: nat := 40
  const ENTRY_FIXED: nat := 24

  /** How many more entries from position `i` on fit one frame, given `cnt` already in it
      and `size` bytes used; the first always fits. */
  function BatchCount(log: Log, i: nat, cnt: nat, size: nat): (r: nat)
    requires i <= |log|
    ensures i + r <= |log|
    ensures cnt + r <= Max(cnt, MAX_APPEND_ENTRIES)
    ensures cnt == 0 && i < |log| ==> r >= 1
    decreases |log| - i
  {
    if i == |log| || cnt >= MAX_APPEND_ENTRIES then 0
    else
      var esz := ENTRY_FIXED + |log[i].payload|;
      if cnt > 0 && size + esz > MAX_APPEND_BYTES then 0
      else 1 + BatchCount(log, i + 1, cnt + 1, size + esz)
  }

  /** The bytes that entries from `i` up to `j` take in a frame. */
  ghost function Bytes(log: Log, i: nat, j: nat): (n: nat)
    requires i <= j <= |log|
    decreases j - i
  {
    if i == j then 0 else ENTRY_FIXED + |log[i].payload| + Bytes(log, i + 1, j)
  }

  /** A frame keeps to both caps unless it carries a single entry, and ends only where a cap or the log does. */
  lemma {:induction false} BatchIsMost(log: Log, i: nat, cnt: nat, size: nat)
    requires i <= |log|
    ensures var r := BatchCount(log, i, cnt, size);
            && (r > 0 && cnt + r > 1 ==> size + Bytes(log, i, i + r) <= MAX_APPEND_BYTES || (cnt == 0 && r == 1))
            && (i + r < |log| && cnt + r < MAX_APPEND_ENTRIES && cnt + r > 0 ==>
                  size + Bytes(log, i, i + r) + ENTRY_FIXED + |log[i + r].payload| > MAX_APPEND_BYTES)
    decreases |log| - i
  {
    if i < |log| && cnt < MAX_APPEND_ENTRIES {
      var esz := ENTRY_FIXED + |log[i].payload|;
      if !(cnt > 0 && size + esz > MAX_APPEND_BYTES) { BatchIsMost(log, i + 1, cnt + 1, size + esz); }
    }
  }

  /** The AppendEntries frame a leader sends to peer `j`, starting at its recorded next index. */
  function AppendFrame(s: Node, j: nat): (m: Message)
    requires s.Shaped() && j < s.n
    ensures m.Append?
  {
    var prev := if s.next[j] == 0 then 0 else s.next[j] - 1;
    var cnt := if prev <= |s.log| then BatchCount(s.log, prev, 0, APPEND_FIXED) else 0;
    Append(s.id, j, s.term, prev, TermAt(s.log, prev), s.commit, if cnt == 0 then [] else s.log[prev..prev + cnt])
  }

  function SendAppend(s: Node, j: nat): (r: Out)
    requires s.Shaped() && j < s.n
    ensures SameNode(s, r.node)
  {
    var m := AppendFrame(s, j);
    Out(s.(next := s.next[j := s.next[j] + |m.entries|]), {m})
  }

  // ----- local events -----

  function LeaderAppend(s: Node, op: nat, payload: seq<nat>): (r: Node)
    ensures SameNode(s, r)
  {
    if s.role == Leader then s.(log := s.log + [Entry(s.term, op, payload)]) else s
  }

  /** The fsync timer: everything in the log is on disk; under the durable policy a leader re-checks commit. */
  function Sync(s: Node): (r: Node)
    requires s.Shaped()
    ensures SameNode(s, r)
  {
    var d := s.(durable := |s.log|);
    if d.durableCommit && d.role == Leader then AdvanceCommit(d) else d
  }

  function LinkUp(s: Node, j: nat): (r: Node)
    requires s.Shaped() && j < s.n
    ensures SameNode(s, r)
  {
    s.(next := s.next[j := |s.log| + 1], matched := s.matched[j := 0], peerDurable := s.peerDurable[j := 0])
  }

  /** A crash and restart: term and vote were persisted; of the log, the first `keep` entries were. */
  function Restart(s: Node, keep: nat): (r: Node)
    requires keep <= |s.log|
    ensures SameNode(s, r)
  {
    Fresh(s.id, s.n, s.durableCommit).(term := s.term, votedFor := s.votedFor, log := s.log[..keep], durable := keep)
  }
}
