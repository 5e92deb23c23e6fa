/** A compaction that drops every entry: the offset it then reads is a slot past the entries, and what that slot holds
    decides whether anything appended later is recovered. */
module FullCompaction {
  import opened Bytes
  import opened WalFormat
  import opened Watermark
  import opened LogStore
  import opened Compaction

  /** Every entry dropped, then one appended and written. */
  function Refilled(s: Store, reserved: nat, e: Record): (a: Store)
    requires Shaped(s) && |s.entries| >= 1
    ensures Shaped(a)
  {
    Flush(Append(Compact(s, s.Last(), reserved), e), reserved)
  }

  lemma RefilledIs(s: Store, reserved: nat, e: Record)
    requires Ok(s) && |s.entries| >= 1 && |s.entries| < |s.offsets|
    ensures var a, v, f := Refilled(s, reserved, e), s.offsets[|s.entries|], Flush(s, reserved);
            && a.entries == [e] && a.baseOffset == v && a.base == s.Last()
            && f.writePos == s.logSize <= |f.file| && Zeros(f.file[s.logSize..])
            && a.file == Overlay(Punch(f.file, v) + ZeroBytes(reserved), s.logSize, Encode(e, s.Last() + 1))
  {
    hide Encode, Overlay, Grown, Shifted, Punch, Extent, EncodeAll, OffsetsOf, SplitAt;
    FlushOk(s, reserved);
    FlushKeeps(s, reserved);
    var c, f := Compact(s, s.Last(), reserved), Flush(s, reserved);
    NothingBuffered(f, e, s.Last() + 1);
    assert c.entries == [] && c.wbuf == [] && c.writePos == f.writePos == s.logSize;
  }

  lemma NothingBuffered(f: Store, e: Record, index: nat)
    requires f.wbuf == []
    ensures f.wbuf + Encode(e, index) == Encode(e, index) != []
  {
  }

  // ---- the slot lies past the end of the log ----

  lemma PunchedZeros(file: seq<Byte>, v: nat, end: nat)
    requires end <= |file| && Zeros(file[end..])
    ensures Zeros(Punch(file, v)[end..])
  {
    var r := Punch(file, v);
    forall i | 0 <= i < |r[end..]| ensures r[end..][i] == 0 {
      assert r[end..][i] == r[end + i];
      if v <= |file| && end + i >= v { assert r[v..][end + i - v] == file[end + i] == file[end..][i]; }
    }
  }

  /** Bytes that read the same shifted to the left, with zeros behind them, are all zero. */
  lemma {:induction false} ShiftedIsZero(r: seq<Byte>, d: nat, i: nat)
    requires d > 0 && i < |r|
    requires forall j :: 0 <= j < |r| ==> r[j] == if j + d < |r| then r[j + d] else 0
    ensures r[i] == 0
    decreases |r| - i
  {
    assert r[i] == if i + d < |r| then r[i + d] else 0;
    if i + d < |r| { ShiftedIsZero(r, d, i + d); }
  }

  /** A record followed by zeros cannot be found again further on. */
  lemma NoneBeyond(file: seq<Byte>, end: nat, v: nat, rec: seq<Byte>)
    requires end + |rec| <= |file| && file[end..end + |rec|] == rec && Zeros(file[end + |rec|..])
    requires end < v && v + |rec| <= |file| && file[v..v + |rec|] == rec
    ensures Zeros(file[v..])
  {
    var d := v - end;
    forall j | 0 <= j < |rec| ensures rec[j] == if j + d < |rec| then rec[j + d] else 0 {
      assert rec[j] == file[v..v + |rec|][j] == file[end + j + d];
      if j + d < |rec| {
        assert rec[j + d] == file[end..end + |rec|][j + d];
      } else {
        assert file[end + |rec|..][j + d - |rec|] == 0;
      }
    }
    forall i | 0 <= i < |file[v..]| ensures file[v..][i] == 0 {
      if i + d < |rec| {
        ShiftedIsZero(rec, d, i + d);
        assert file[end..end + |rec|][i + d] == file[v + i];
      } else {
        assert file[end + |rec|..][i + d - |rec|] == file[v + i];
      }
    }
  }

  // ---- what recovery finds ----

  /** The bytes at a position are those of a record. */
  ghost predicate SpelledAt(file: seq<Byte>, v: nat, rec: seq<Byte>) {
    v + |rec| <= |file| && file[v..v + |rec|] == rec
  }

  lemma ScanOne(file: seq<Byte>, v: nat, e: Record, index: nat)
    requires v <= |file| && Scan(file[v..], index) == [e]
    ensures SpelledAt(file, v, Encode(e, index))
  {
    hide Scan, Encode;
    ScannedIsEncoded(file[v..], index);
    assert EncodeAll([e], index) == Encode(e, index) by { EncodeLast([], e, index); }
    assert file[v..][..|Encode(e, index)|] == file[v..v + |Encode(e, index)|];
  }

  /** When every entry is dropped and the slot read does not hold the end of the log, what is appended is not recovered,
      unless the slot points into the old log at bytes that happen to spell the very record. */
  lemma FullCompactionForgets(s: Store, reserved: nat, e: Record)
    requires Ok(s) && 1 <= |s.entries| < |s.offsets| && s.offsets[|s.entries|] != s.logSize
    requires RecoversAll(Refilled(s, reserved, e))
    ensures var v := s.offsets[|s.entries|];
            v < s.logSize && SpelledAt(Refilled(s, reserved, e).file, v, Encode(e, s.Last() + 1))
  {
    hide Scan, Encode, Extent, OffsetsOf, SplitAt, Overlay, Refilled, Punch, Flush;
    RefilledIs(s, reserved, e);
    var a, v, f := Refilled(s, reserved, e), s.offsets[|s.entries|], Flush(s, reserved);
    var rec := Encode(e, s.Last() + 1);
    ScanOne(a.file, v, e, s.Last() + 1);
    if v > s.logSize {
      PunchedZeros(f.file, v, s.logSize);
      OverlayZeros(Punch(f.file, v), reserved, s.logSize, rec);
      NoneBeyond(a.file, s.logSize, v, rec);
      ZerosScan(a.file[v..], s.Last() + 1);
      assert false;
    }
  }

  lemma ZerosScan(z: seq<Byte>, expected: nat)
    requires Zeros(z) && expected >= 1
    ensures Scan(z, expected) == []
  {
    hide ParseRecord;
    ParseZeros(z, expected);
  }

  // ---- the slot holds the start of an old record ----

  lemma OldHeaderStays(s: Store, reserved: nat, e: Record, k: nat)
    requires Ok(s) && k < |s.entries| < |s.offsets|
    requires s.offsets[|s.entries|] == s.baseOffset + Extent(s.entries[..k])
    ensures var a, v := Refilled(s, reserved, e), s.offsets[|s.entries|];
            v + HEADER <= |a.file| && a.file[v..v + HEADER] == Header(s.entries[k], s.base + 1 + k)
  {
    hide Extent, OffsetsOf, SplitAt, Overlay, Refilled, Punch, Flush, Encode, EncodeAll, Header;
    RefilledIs(s, reserved, e);
    FlushOk(s, reserved);
    FlushKeeps(s, reserved);
    var v, f := s.offsets[|s.entries|], Flush(s, reserved);
    BoundaryInside(f, k, v);
    hide Ok;
    HeaderInFront(s.entries[k..], s.base + 1 + k);
    PunchKeeps(f.file, v, f.writePos);
    OverlayKeeps(Punch(f.file, v), reserved, f.writePos, Encode(e, s.Last() + 1), v);
  }

  lemma HeaderInFront(es: seq<Record>, first: nat)
    requires es != []
    ensures |EncodeAll(es, first)| >= HEADER && EncodeAll(es, first)[..HEADER] == Header(es[0], first)
  {
    hide Header;
  }

  lemma OverlayKeeps(file: seq<Byte>, k: nat, pos: nat, bytes: seq<Byte>, v: nat)
    requires v + HEADER <= pos <= |file|
    ensures var r := Overlay(file + ZeroBytes(k), pos, bytes);
            |r| >= pos && r[v..v + HEADER] == file[v..pos][..HEADER]
  {
  }

  /** Then nothing appended is ever recovered: the old record has an index the scan does not expect. */
  lemma OldRecordHides(s: Store, reserved: nat, e: Record, k: nat)
    requires Ok(s) && k < |s.entries| < |s.offsets| && AllFit(s.entries, s.base + 1)
    requires s.offsets[|s.entries|] == s.baseOffset + Extent(s.entries[..k])
    ensures !RecoversAll(Refilled(s, reserved, e))
  {
    hide Scan, Extent, OffsetsOf, SplitAt, Overlay, Refilled, Header, Span, Ok;
    OkShaped(s);
    OldHeaderStays(s, reserved, e, k);
    assert Refilled(s, reserved, e).base == s.Last() && Refilled(s, reserved, e).entries == [e]
           && Refilled(s, reserved, e).baseOffset == s.offsets[|s.entries|] by { RefilledIs(s, reserved, e); }
    var a, v := Refilled(s, reserved, e), s.offsets[|s.entries|];
    assert a.file[v..][..HEADER] == a.file[v..v + HEADER];
    StaleIndexStops(s.entries[k], a.file[v..], s.base + 1 + k, s.Last() + 1);
  }

  lemma StaleIndexStops(e: Record, file: seq<Byte>, index: nat, expected: nat)
    requires Fits(e) && |file| >= HEADER && file[..HEADER] == Header(e, index) && expected != index < Span(8)
    ensures Scan(file, expected) == []
  {
    HeaderReads(e, index, file);
    hide FromBe, Span;
  }

  // ---- runs that get there ----

  /** The same log but for the slots past its entries, which nothing has written. */
  ghost predicate SameButSpare(s: Store, t: Store) {
    && s == t.(offsets := s.offsets) && |s.offsets| == |t.offsets| && |t.entries| <= |t.offsets|
    && s.offsets[..|t.entries|] == t.offsets[..|t.entries|]
  }

  lemma SpareOk(s: Store, t: Store)
    requires Ok(t) && SameButSpare(s, t)
    ensures Ok(s)
  {
    hide EncodeAll, Extent, OffsetsOf;
    var n: nat :| SplitAt(t, n);
    assert SplitAt(s, n);
  }

  /** The table has an even number of slots. */
  predicate EvenTable(s: Store) {
    |s.offsets| % 2 == 0 && |s.entries| <= |s.offsets|
  }

  lemma {:induction false} CapacityEven(half: nat, need: nat) returns (h: nat)
    requires half >= 1
    ensures Capacity(2 * half, need) == 2 * h
    decreases need - half
  {
    if 2 * half < need {
      h := CapacityEven(2 * half, need);
    } else {
      h := half;
    }
  }

  lemma AppendKeepsEven(s: Store, e: Record)
    requires EvenTable(s)
    ensures EvenTable(Append(s, e))
  {
    var cap := if |s.offsets| > 0 then |s.offsets| else 64;
    var h := CapacityEven(cap / 2, |s.entries| + 1);
    assert 2 * (cap / 2) == cap;
    hide Capacity, Encode;
  }

  lemma {:induction false} AppendsEven(s: Store, es: seq<Record>)
    requires Ok(s) && EvenTable(s)
    ensures Ok(AppendEach(s, es)) && EvenTable(AppendEach(s, es)) && AppendEach(s, es).baseOffset == s.baseOffset
    decreases |es|
  {
    hide Ok, EvenTable;
    if es != [] {
      AppendOk(s, es[0]);
      AppendKeepsEven(s, es[0]);
      AppendsEven(Append(s, es[0]), es[1..]);
    }
  }

  /** After any odd number of appends to an empty log, whatever the slots past the entries hold. */
  lemma AppendsReach(es: seq<Record>, s: Store)
    requires |es| % 2 == 1 && SameButSpare(s, AppendEach(EMPTY, es))
    ensures Ok(s) && Shaped(s) && s.base == 0 && s.baseOffset == 0 && s.entries == es && |es| < |s.offsets|
  {
    hide Ok, AppendEach;
    EmptyOk();
    AppendsEven(EMPTY, es);
    AppendEachEntries(EMPTY, es);
    assert [] + es == es;
    SpareOk(s, AppendEach(EMPTY, es));
    OkShaped(s);
  }

  /** Such a log, at least one batch long, all applied and none live: the next compaction drops it all. An entry
      appended afterwards is recovered only if the first unwritten slot holds the end of the log, or points at bytes
      of the old log that spell the very record; never if it holds the start of an old record, zero among them. */
  lemma FullCompactionReached(es: seq<Record>, s: Store, reserved: nat, e: Record, k: nat)
    requires |es| >= BATCH && |es| % 2 == 1 && AllFit(es, 1) && SameButSpare(s, AppendEach(EMPTY, es)) && k < |es|
    ensures && Ok(s) && Shaped(s) && s.entries == es && |es| < |s.offsets| && s.Last() == |es|
            && CompactTo(s, |es|, |es|, NoneLive, reserved) == Compact(s, |es|, reserved)
            && var v, a := s.offsets[|es|], Flush(Append(CompactTo(s, |es|, |es|, NoneLive, reserved), e), reserved);
               && a.entries == [e]
               && (RecoversAll(a) ==> v == s.logSize || (v < s.logSize && SpelledAt(a.file, v, Encode(e, |es| + 1))))
               && (v == Extent(es[..k]) || v == 0 ==> !RecoversAll(a))
  {
    hide Ok, Compact, Flush, Append, Scan, AllFit, SameButSpare, Extent, SpelledAt, RecoversAll;
    AppendsReach(es, s);
    var a := Refilled(s, reserved, e);
    assert a.entries == [e] by { RefilledIs(s, reserved, e); }
    if RecoversAll(a) && s.offsets[|es|] != s.logSize { FullCompactionForgets(s, reserved, e); }
    if s.offsets[|es|] == Extent(es[..k]) { OldRecordHides(s, reserved, e, k); }
    if s.offsets[|es|] == 0 { assert Extent(es[..0]) == 0 by { NothingExtends(es); } OldRecordHides(s, reserved, e, 0); }
  }

  lemma NothingExtends(es: seq<Record>)
    ensures Extent(es[..0]) == 0
  {
  }

  /** When the slot does hold the end of the log, the entry is recovered if and only if it is within the payload
      limit. */
  lemma RightSlotRecovers(s: Store, reserved: nat, e: Record)
    requires Ok(s) && 1 <= |s.entries| < |s.offsets| && s.offsets[|s.entries|] == s.logSize && AllFit([e], s.Last() + 1)
    ensures RecoversAll(Refilled(s, reserved, e)) <==> |e.payload| <= MAX_PAYLOAD
  {
    hide Ok, Append, Scan, AllFit, Extent, RecoversAll, SplitAt;
    OkShaped(s);
    CompactOkIff(s, s.Last(), reserved);
    assert Refilled(s, reserved, e).entries == [e] && Refilled(s, reserved, e).base == s.Last()
      by { RefilledIs(s, reserved, e); }
    var c := Compact(s, s.Last(), reserved);
    hide Compact;
    AppendOk(c, e);
    FlushOk(Append(c, e), reserved);
    FlushKeeps(Append(c, e), reserved);
    FlushedRecovers(Refilled(s, reserved, e));
    assert [e][0] == e;
  }
}
