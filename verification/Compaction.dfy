/** Dropping a prefix of the log: which prefix, what stays visible, and when the file stays readable. */
module Compaction {
  import opened Bytes
  import opened WalFormat
  import opened Watermark
  import opened LogStore

  const BATCH: nat := 4096

  // ---- the bound ----

  /** The smaller of two oldest ids. */
  function Older(a: Oldest, b: Oldest): (r: Oldest) {
    if a.NoneLive? then b else if b.NoneLive? then a else if b.id < a.id then b else a
  }

  function MinLive(qs: seq<Oldest>): (m: Oldest) {
    if qs == [] then NoneLive else Older(MinLive(qs[..|qs| - 1]), qs[|qs| - 1])
  }

  /** The minimum is one of the queues' oldest ids and bounds all of them. */
  lemma {:induction false} MinLiveBounds(qs: seq<Oldest>)
    ensures forall i :: 0 <= i < |qs| && qs[i].At? ==> MinLive(qs).At? && MinLive(qs).id <= qs[i].id
    ensures MinLive(qs).At? ==> MinLive(qs) in qs
  {
    if qs != [] {
      MinLiveBounds(qs[..|qs| - 1]);
    }
  }

  /** The fold over the queues. */
  method FindMinLive(qs: seq<Oldest>) returns (m: Oldest)
    ensures m == MinLive(qs)
  {
    m := NoneLive;
    var i := 0;
    while i < |qs|
      invariant 0 <= i <= |qs| && m == MinLive(qs[..i])
    {
      assert qs[..i + 1][..i] == qs[..i];
      m := Older(m, qs[i]);
      i := i + 1;
    }
    assert qs[..i] == qs;
  }

  /** The bound asked for, lowered to what is applied and to below the oldest live message. */
  function Clamp(upto: nat, applied: nat, live: Oldest): (u: nat) {
    var a := if upto > applied then applied else upto;
    if live.At? && a >= live.id then (if live.id > 0 then live.id - 1 else 0) else a
  }

  /** Every index that may be dropped is applied and older than every live id of every queue. */
  lemma DropsOnlyDead(upto: nat, applied: nat, qs: seq<Oldest>, idx: nat, i: nat, id: nat)
    requires 1 <= idx <= Clamp(upto, applied, MinLive(qs))
    requires i < |qs| && qs[i].At? && qs[i].id <= id
    ensures idx <= applied && idx <= upto && idx < id
  {
    MinLiveBounds(qs);
  }

  /** And it is the highest such bound: everything at or below it that may go, goes. */
  lemma ClampIsHighest(upto: nat, applied: nat, live: Oldest, u: nat)
    requires u <= upto && u <= applied && (live.At? ==> u < live.id)
    ensures u <= Clamp(upto, applied, live)
  {
  }

  // ---- the drop ----

  /** The file with its first bytes released; they read as zero and the size is kept. */
  function Punch(file: seq<Byte>, n: nat): (r: seq<Byte>)
    ensures |r| == |file| && (n <= |file| ==> r[n..] == file[n..])
    ensures forall i :: 0 <= i < n && i < |file| ==> r[i] == 0
  {
    if n <= |file| then ZeroBytes(n) + file[n..] else ZeroBytes(|file|)
  }

  /** Survivors moved to the front of the table; the slots behind them keep what they held. */
  function Shifted(offsets: seq<nat>, drop: nat, live: nat): (r: seq<nat>)
    requires drop + live <= |offsets|
    ensures |r| == |offsets|
  {
    offsets[drop..drop + live] + offsets[live..]
  }

  function Compact(s: Store, u: nat, reserved: nat): (r: Store)
    requires Shaped(s) && s.base < u <= s.Last()
    ensures Shaped(r)
  {
    var drop := u - s.base;
    var live := |s.entries| - drop;
    var f := Flush(s, reserved);
    FlushKeeps(s, reserved);
    var off := if drop < |s.offsets| then s.offsets[drop] else s.logSize;
    f.(base := u, baseTerm := TermOf(s, u), entries := s.entries[drop..],
       offsets := if drop < |s.offsets| then Shifted(s.offsets, drop, live) else s.offsets,
       baseOffset := off, file := Punch(f.file, off))
  }

  function CompactTo(s: Store, upto: nat, applied: nat, live: Oldest, reserved: nat): (r: Store)
    requires Shaped(s) && applied <= s.Last()
    ensures Shaped(r)
  {
    var u := Clamp(upto, applied, live);
    if u <= s.base || u - s.base < BATCH then s else Compact(s, u, reserved)
  }

  /** Entry, term and file offset of every surviving index are unchanged, and so is the boundary's term. */
  lemma CompactInvisible(s: Store, u: nat, reserved: nat, idx: nat)
    requires Shaped(s) && s.base < u <= s.Last()
    ensures var r := Compact(s, u, reserved);
            && r.Last() == s.Last() && r.base == u
            && (idx > u ==> EntryAt(r, idx) == EntryAt(s, idx))
            && (idx >= u ==> TermOf(r, idx) == TermOf(s, idx))
            && (u < idx <= s.Last() ==> OffsetOf(r, idx) == OffsetOf(s, idx))
  {
    hide Flush, Punch;
    FlushKeeps(s, reserved);
  }

  /** The offset read for the first survivor is right. */
  ghost predicate OffsetReadRight(s: Store, u: nat) {
    u < s.Last() || |s.entries| >= |s.offsets| || s.offsets[|s.entries|] == s.logSize
  }

  lemma FirstSurvivor(s: Store, u: nat)
    requires Ok(s) && s.base < u <= s.Last()
    ensures var drop := u - s.base;
            var off := if drop < |s.offsets| then s.offsets[drop] else s.logSize;
            OffsetReadRight(s, u) <==> off == s.baseOffset + Extent(s.entries[..drop])
  {
    hide Extent, EncodeAll;
    var drop := u - s.base;
    if drop < |s.entries| {
      assert s.offsets[drop] == s.offsets[..|s.entries|][drop];
    } else {
      assert s.entries[..drop] == s.entries;
    }
  }

  lemma {:induction false} ExtentSplit(a: seq<Record>, b: seq<Record>)
    ensures Extent(a + b) == Extent(a) + Extent(b)
  {
    hide EncodeAll, Extent;
    EncodeConcat(a, b, 0);
    ExtentIsLength(a, 0);
    ExtentIsLength(b, |a|);
    ExtentIsLength(a + b, 0);
  }

  /** The survivors' offsets are those of a layout that starts at the new base offset. */
  lemma SurvivorOffsets(s: Store, drop: nat)
    requires |s.entries| <= |s.offsets| && OffsetsOf(s.baseOffset, s.entries, s.offsets[..|s.entries|])
    requires drop <= |s.entries| && drop < |s.offsets|
    ensures var live := |s.entries| - drop;
            OffsetsOf(s.baseOffset + Extent(s.entries[..drop]), s.entries[drop..], Shifted(s.offsets, drop, live)[..live])
  {
    hide Extent;
    var live, es := |s.entries| - drop, s.entries;
    forall i | 0 <= i < live
      ensures Shifted(s.offsets, drop, live)[..live][i] == s.baseOffset + Extent(es[..drop]) + Extent(es[drop..][..i])
    {
      assert Shifted(s.offsets, drop, live)[i] == s.offsets[..|es|][drop + i];
      assert es[..drop + i] == es[..drop] + es[drop..][..i];
      ExtentSplit(es[..drop], es[drop..][..i]);
    }
  }

  /** Compaction leaves the file in step with the entries exactly when the offset read was right; that it always is
      while at least one entry survives. */
  lemma CompactOkIff(s: Store, u: nat, reserved: nat)
    requires Ok(s) && s.base < u <= s.Last()
    ensures Ok(Compact(s, u, reserved)) <==> OffsetReadRight(s, u)
  {
    hide Flush, Punch, Shifted, Extent, EncodeAll, OffsetsOf, SplitAt;
    FirstSurvivor(s, u);
    FlushOk(s, reserved);
    FlushKeeps(s, reserved);
    var drop := u - s.base;
    var r := Compact(s, u, reserved);
    assert s.entries == s.entries[..drop] + s.entries[drop..];
    ExtentSplit(s.entries[..drop], s.entries[drop..]);
    if OffsetReadRight(s, u) {
      CompactKeepsOk(s, Flush(s, reserved), r, u);
    } else {
      assert r.logSize != r.baseOffset + Extent(r.entries);
    }
  }

  /** While the offset read is right, recovery from a compacted file returns exactly the survivors, if and only if none
      of them is over the payload limit. */
  lemma CompactRecovers(s: Store, u: nat, reserved: nat)
    requires Ok(s) && s.base < u <= s.Last() && OffsetReadRight(s, u) && AllFit(s.entries[u - s.base..], u + 1)
    ensures var r := Compact(s, u, reserved);
            r.entries == s.entries[u - s.base..] && (RecoversAll(r) <==> WithinLimit(r.entries))
  {
    hide Flush, Punch, Shifted, Extent, EncodeAll, OffsetsOf, SplitAt, RecoversAll, WithinLimit, AllFit;
    FirstSurvivor(s, u);
    FlushOk(s, reserved);
    FlushKeeps(s, reserved);
    var r := Compact(s, u, reserved);
    CompactKeepsOk(s, Flush(s, reserved), r, u);
    FlushedRecovers(r);
  }

  lemma PunchKeeps(file: seq<Byte>, off: nat, pos: nat)
    requires off <= pos <= |file|
    ensures var r := Punch(file, off);
            r[off..pos] == file[off..pos] && r[pos..] == file[pos..]
  {
    var r := Punch(file, off);
    assert r[off..pos] == r[off..][..pos - off] && file[off..pos] == file[off..][..pos - off];
    assert r[pos..] == r[off..][pos - off..] && file[pos..] == file[off..][pos - off..];
  }

  lemma SurvivorOffsetsOk(s: Store, drop: nat)
    requires |s.entries| <= |s.offsets| && OffsetsOf(s.baseOffset, s.entries, s.offsets[..|s.entries|])
    requires drop <= |s.entries|
    ensures var live := |s.entries| - drop;
            var table := if drop < |s.offsets| then Shifted(s.offsets, drop, live) else s.offsets;
            live <= |table| && OffsetsOf(s.baseOffset + Extent(s.entries[..drop]), s.entries[drop..], table[..live])
  {
    hide Extent;
    if drop < |s.offsets| { SurvivorOffsets(s, drop); }
  }

  lemma CompactKeepsOk(s: Store, f: Store, r: Store, u: nat)
    requires Ok(s) && s.base < u <= s.Last() && Ok(f) && SplitAt(f, |f.entries|)
    requires f.entries == s.entries && f.base == s.base && f.offsets == s.offsets && f.baseOffset == s.baseOffset
    requires f.logSize == s.logSize
    requires var drop := u - s.base;
             var off := s.baseOffset + Extent(s.entries[..drop]);
             && (drop < |s.offsets| ==> s.offsets[drop] == off)
             && r == f.(base := u, baseTerm := r.baseTerm, entries := s.entries[drop..], baseOffset := off,
                        offsets := if drop < |s.offsets| then Shifted(s.offsets, drop, |s.entries| - drop) else s.offsets,
                        file := Punch(f.file, off))
    ensures Ok(r) && SplitAt(r, |r.entries|)
  {
    hide Extent, EncodeAll, Punch, Shifted, OffsetsOf;
    var drop, es := u - s.base, s.entries;
    BoundaryInside(f, drop, r.baseOffset);
    PunchKeeps(f.file, r.baseOffset, f.writePos);
    NothingEncoded(r.base + 1 + |r.entries|);
    assert r.entries[..|r.entries|] == r.entries && r.entries[|r.entries|..] == [];
    assert SplitAt(r, |r.entries|);
    assert es == es[..drop] + es[drop..];
    ExtentSplit(es[..drop], es[drop..]);
    SurvivorOffsetsOk(s, drop);
  }

  // ---- appending to a compacted log ----

  /** The log as it was written, the dropped prefix included. */
  function Full(dropped: seq<Record>, s: Store): (log: seq<Record>) {
    dropped + s.entries
  }

  /** The entries of an accepted AppendEntries frame: cut after `prev`, then append one by one. */
  function Accept(s: Store, prev: nat, es: seq<Record>, reserved: nat): (r: Store)
    requires Shaped(s)
  {
    AppendEach(TruncateFrom(s, prev + 1, reserved), es)
  }

  function AppendEach(s: Store, es: seq<Record>): (r: Store)
    decreases |es|
  {
    if es == [] then s else AppendEach(Append(s, es[0]), es[1..])
  }

  lemma {:induction false} AppendEachEntries(s: Store, es: seq<Record>)
    ensures AppendEach(s, es).entries == s.entries + es && AppendEach(s, es).base == s.base
    decreases |es|
  {
    if es != [] {
      AppendEachEntries(Append(s, es[0]), es[1..]);
      assert s.entries + [es[0]] + es[1..] == s.entries + es;
    } else {
      assert s.entries + [] == s.entries;
    }
  }

  /** An accepted frame leaves the first `prev` entries followed by its own exactly when `prev` is not below the
      compacted prefix: below it, the entries would be placed right after the prefix instead. */
  lemma PlacedIff(dropped: seq<Record>, s: Store, prev: nat, es: seq<Record>, reserved: nat)
    requires Shaped(s) && |dropped| == s.base && prev <= s.Last()
    ensures Full(dropped, Accept(s, prev, es, reserved)) == Full(dropped, s)[..prev] + es <==> prev >= s.base
  {
    hide Flush;
    FlushKeeps(s, reserved);
    var t := TruncateFrom(s, prev + 1, reserved);
    AppendEachEntries(t, es);
    var got, want := Full(dropped, Accept(s, prev, es, reserved)), Full(dropped, s)[..prev] + es;
    if prev >= s.base {
      assert t.entries == s.entries[..prev - s.base];
      assert Full(dropped, s)[..prev] == dropped + s.entries[..prev - s.base];
      assert got == want;
    } else {
      assert |got| == s.base + |es| && |want| == prev + |es|;
    }
  }
}
