/** A node's log in memory and on disk: write buffer, offset table, tail truncation and prefix compaction. */
module LogStore {
  import opened Bytes
  import opened WalFormat

  /** Entries have indices base+1 onwards. `offsets` is the whole table, whose slots past the entries are stale.
      The file holds everything written; `wbuf` is still to be written at `writePos`. */
  datatype Store = Store(base: nat, baseTerm: nat, entries: seq<Record>, offsets: seq<nat>,
                         file: seq<Byte>, wbuf: seq<Byte>, writePos: nat, logSize: nat, baseOffset: nat)
  {
    function Last(): nat { base + |entries| }
  }

  const EMPTY: Store := Store(0, 0, [], [], [], [], 0, 0, 0)

  // ---- reading by index ----

  datatype Lookup = Absent | Present(e: Record)

  function EntryAt(s: Store, idx: nat): (r: Lookup) {
    if idx <= s.base || idx > s.Last() then Absent else Present(s.entries[idx - s.base - 1])
  }

  function TermOf(s: Store, idx: nat): (t: nat) {
    if idx == s.base then s.baseTerm else if EntryAt(s, idx).Present? then EntryAt(s, idx).e.term else 0
  }

  /** Where the record of an index begins in the file, as the offset table has it. */
  function OffsetOf(s: Store, idx: nat): (o: nat)
    requires s.base < idx <= s.Last() && |s.entries| <= |s.offsets|
  {
    s.offsets[idx - s.base - 1]
  }

  // ---- the invariant ----

  /** The first `n` entries are in the file and the rest in the write buffer. */
  ghost predicate SplitAt(s: Store, n: nat) {
    && n <= |s.entries| && s.baseOffset <= s.writePos <= |s.file|
    && s.file[s.baseOffset..s.writePos] == EncodeAll(s.entries[..n], s.base + 1)
    && s.wbuf == EncodeAll(s.entries[n..], s.base + 1 + n)
  }

  ghost predicate Ok(s: Store) {
    && s.baseOffset <= s.writePos <= |s.file| && Zeros(s.file[s.writePos..])
    && s.logSize == s.baseOffset + Extent(s.entries)
    && |s.entries| <= |s.offsets| && OffsetsOf(s.baseOffset, s.entries, s.offsets[..|s.entries|])
    && exists n: nat :: SplitAt(s, n)
  }

  /** What the operations rely on to be defined at all. */
  predicate Shaped(s: Store) {
    s.writePos <= |s.file| && |s.entries| <= |s.offsets|
  }

  // ---- operations ----

  function ZeroBytes(k: nat): (z: seq<Byte>)
    ensures |z| == k && Zeros(z)
  {
    seq(k, _ => 0 as Byte)
  }

  /** Bytes written over a file at a position. */
  function Overlay(file: seq<Byte>, pos: nat, bytes: seq<Byte>): (r: seq<Byte>)
    requires pos <= |file|
  {
    file[..pos] + bytes + (if pos + |bytes| <= |file| then file[pos + |bytes|..] else [])
  }

  /** One write of the whole buffer; `reserved` zero bytes are preallocated at the end of the file first. */
  function Flush(s: Store, reserved: nat): (r: Store)
    requires Shaped(s)
    ensures Shaped(r)
  {
    if s.wbuf == [] then s
    else s.(file := Overlay(s.file + ZeroBytes(reserved), s.writePos, s.wbuf),
            writePos := s.writePos + |s.wbuf|, wbuf := [])
  }

  /** The capacity of a table with room for `need` slots: 64 doubled often enough. */
  function Capacity(cap: nat, need: nat): (c: nat)
    requires cap >= 1
    ensures c >= need && c >= cap
    decreases need - cap
  {
    if cap >= need then cap else Capacity(2 * cap, need)
  }

  /** The offset table with at least `need` slots; what new slots hold is unspecified, here zero. */
  function Grown(offsets: seq<nat>, need: nat): (r: seq<nat>)
    ensures |r| >= need && offsets <= r
  {
    if need <= |offsets| then offsets
    else
      var c := Capacity(if |offsets| > 0 then |offsets| else 64, need);
      offsets + seq(c - |offsets|, _ => 0)
  }

  function Append(s: Store, e: Record): (r: Store)
    ensures Shaped(s) ==> Shaped(r)
  {
    var k := |s.entries|;
    s.(wbuf := s.wbuf + Encode(e, s.Last() + 1), offsets := Grown(s.offsets, k + 1)[k := s.logSize],
       logSize := s.logSize + HEADER + |e.payload|, entries := s.entries + [e])
  }

  /** Drop index `idx` and everything above it, but nothing at or below the base. */
  function TruncateFrom(s: Store, idx: nat, reserved: nat): (r: Store)
    requires Shaped(s)
    ensures Shaped(r)
  {
    var i := if idx <= s.base then s.base + 1 else idx;
    if i > s.Last() then s
    else
      var f := Flush(s, reserved);
      var slot := i - s.base - 1;
      var size := s.offsets[slot];
      f.(file := if size <= |f.file| then f.file[..size] else f.file + ZeroBytes(size - |f.file|),
         writePos := size, logSize := size, entries := s.entries[..slot])
  }

  // ---- every operation keeps the file in step with the entries ----

  lemma AppendOk(s: Store, e: Record)
    requires Ok(s)
    ensures Ok(Append(s, e))
  {
    var r, k := Append(s, e), |s.entries|;
    hide EncodeAll, Encode, Extent;
    ExtentPush(s.entries, e);
    OffsetsPush(s.baseOffset, s.entries, s.offsets[..k], e);
    assert r.offsets[..k + 1] == s.offsets[..k] + [s.logSize];
    var n: nat :| SplitAt(s, n);
    EncodeLast(s.entries[n..], e, s.base + 1 + n);
    assert r.entries[..n] == s.entries[..n] && r.entries[n..] == s.entries[n..] + [e];
    assert SplitAt(r, n);
  }

  /** The bytes not yet written end where the log ends. */
  lemma BufferEnds(s: Store, n: nat)
    requires Ok(s) && SplitAt(s, n)
    ensures s.writePos == s.baseOffset + Extent(s.entries[..n]) && s.writePos + |s.wbuf| == s.logSize
  {
    hide EncodeAll, Extent;
    ExtentIsLength(s.entries[..n], s.base + 1);
    ExtentIsLength(s.entries[n..], s.base + 1 + n);
    EncodeConcat(s.entries[..n], s.entries[n..], s.base + 1);
    assert s.entries[..n] + s.entries[n..] == s.entries;
    ExtentIsLength(s.entries, s.base + 1);
  }

  lemma OverlayZeros(file: seq<Byte>, k: nat, pos: nat, bytes: seq<Byte>)
    requires pos <= |file| && Zeros(file[pos..])
    ensures var r := Overlay(file + ZeroBytes(k), pos, bytes);
            && pos + |bytes| <= |r| && r[..pos] == file[..pos] && r[pos..pos + |bytes|] == bytes
            && Zeros(r[pos + |bytes|..])
  {
    var z := file + ZeroBytes(k);
    var r, e := Overlay(z, pos, bytes), pos + |bytes|;
    assert r[..pos] == z[..pos] == file[..pos];
    forall i | 0 <= i < |r[e..]| ensures r[e..][i] == 0 {
      assert r[e..][i] == z[e + i];
      if e + i < |file| { assert z[e + i] == file[pos..][|bytes| + i]; }
    }
  }

  lemma FlushOk(s: Store, reserved: nat)
    requires Ok(s)
    ensures Ok(Flush(s, reserved)) && SplitAt(Flush(s, reserved), |s.entries|) && Flush(s, reserved).wbuf == []
    ensures Flush(s, reserved).writePos == s.logSize
  {
    hide Extent, Overlay, OffsetsOf;
    var r := Flush(s, reserved);
    var n: nat :| SplitAt(s, n);
    BufferEnds(s, n);
    var es := s.entries;
    OverlayZeros(s.file, reserved, s.writePos, s.wbuf);
    FlushedBytes(s, r, n);
  }

  lemma FlushedBytes(s: Store, r: Store, n: nat)
    requires SplitAt(s, n) && r.entries == s.entries && r.base == s.base && r.baseOffset == s.baseOffset && r.wbuf == []
    requires r.writePos == s.writePos + |s.wbuf| <= |r.file|
    requires r.file[..s.writePos] == s.file[..s.writePos] && r.file[s.writePos..r.writePos] == s.wbuf
    ensures SplitAt(r, |s.entries|)
  {
    hide EncodeAll;
    var es := s.entries;
    EncodeConcat(es[..n], es[n..], s.base + 1);
    assert es[..n] + es[n..] == es == es[..|es|] && es[|es|..] == [];
    assert EncodeAll([], s.base + 1 + |es|) == [] by { NothingEncoded(s.base + 1 + |es|); }
    Slices(r.file, s.baseOffset, s.writePos, r.writePos);
    Slices(s.file, s.baseOffset, s.writePos, s.writePos);
  }

  lemma NothingEncoded(first: nat)
    ensures EncodeAll([], first) == []
  {
  }

  lemma Slices(file: seq<Byte>, a: nat, b: nat, c: nat)
    requires a <= b <= c <= |file|
    ensures file[a..c][..b - a] == file[a..b] && file[a..c][b - a..] == file[b..c] && file[..b][a..] == file[a..b]
    ensures file[a..c] == file[a..b] + file[b..c] && file[a..] == file[a..b] + file[b..]
  {
  }

  /** A record boundary lies inside the written part of a flushed store, after exactly the records before it. */
  lemma BoundaryInside(f: Store, k: nat, size: nat)
    requires Ok(f) && SplitAt(f, |f.entries|) && k <= |f.entries| && size == f.baseOffset + Extent(f.entries[..k])
    ensures f.baseOffset <= size <= f.writePos && f.wbuf == []
    ensures f.file[f.baseOffset..size] == EncodeAll(f.entries[..k], f.base + 1)
    ensures f.file[size..f.writePos] == EncodeAll(f.entries[k..], f.base + 1 + k)
  {
    hide EncodeAll, Extent, OffsetsOf;
    var es := f.entries;
    assert es[..k] + es[k..] == es == es[..|es|] && es[|es|..] == [];
    EncodeConcat(es[..k], es[k..], f.base + 1);
    ExtentIsLength(es[..k], f.base + 1);
    NothingEncoded(f.base + 1 + |es|);
    Slices(f.file, f.baseOffset, size, f.writePos);
  }

  /** Cutting a flushed store at a record boundary. */
  lemma CutOk(f: Store, k: nat, size: nat)
    requires Ok(f) && SplitAt(f, |f.entries|) && k <= |f.entries| && size == f.baseOffset + Extent(f.entries[..k])
    ensures size <= |f.file|
    ensures Ok(f.(file := f.file[..size], writePos := size, logSize := size, entries := f.entries[..k]))
  {
    hide EncodeAll, Extent;
    var es := f.entries;
    BoundaryInside(f, k, size);
    var r := f.(file := f.file[..size], writePos := size, logSize := size, entries := es[..k]);
    Slices(f.file, f.baseOffset, size, f.writePos);
    assert r.file[r.baseOffset..r.writePos] == r.file[r.baseOffset..];
    assert r.entries[..k] == es[..k] && r.entries[k..] == [];
    NothingEncoded(f.base + 1 + k);
    assert SplitAt(r, k);
    assert r.offsets[..k] == f.offsets[..|es|][..k];
    assert forall i :: 0 <= i < k ==> es[..k][..i] == es[..i];
  }

  lemma TruncateOk(s: Store, idx: nat, reserved: nat)
    requires Ok(s)
    ensures Ok(TruncateFrom(s, idx, reserved))
  {
    hide Extent, Flush, SplitAt;
    var i := if idx <= s.base then s.base + 1 else idx;
    if i <= s.Last() {
      var slot := i - s.base - 1;
      FlushOk(s, reserved);
      FlushKeeps(s, reserved);
      var f := Flush(s, reserved);
      assert s.offsets[slot] == s.offsets[..|s.entries|][slot];
      CutOk(f, slot, s.offsets[slot]);
    }
  }

  lemma FlushKeeps(s: Store, reserved: nat)
    requires Shaped(s)
    ensures var r := Flush(s, reserved);
            r.entries == s.entries && r.base == s.base && r.offsets == s.offsets && r.baseOffset == s.baseOffset
            && r.baseTerm == s.baseTerm && r.logSize == s.logSize
  {
  }

  // ---- recovery ----

  /** What a crash leaves is the file; a scan of it gives the entries that had been written, up to the first whose
      payload is over the limit. */
  lemma CrashRecovers(s: Store, n: nat)
    requires Ok(s) && SplitAt(s, n) && AllFit(s.entries, s.base + 1)
    ensures Scan(s.file[s.baseOffset..], s.base + 1) == Legal(s.entries[..n])
  {
    hide EncodeAll, Scan, Legal, Extent;
    Slices(s.file, s.baseOffset, s.writePos, s.writePos);
    ScanWhole(s.entries[..n], s.base + 1, s.file[s.writePos..]);
  }

  /** Cutting the file anywhere after the base keeps exactly the entries whose records are whole. */
  lemma TornRecovers(s: Store, cut: nat)
    requires Ok(s) && SplitAt(s, |s.entries|) && AllFit(s.entries, s.base + 1) && s.baseOffset <= cut <= s.writePos
    ensures Scan(s.file[..cut][s.baseOffset..], s.base + 1) == Legal(s.entries[..WholeIn(s.entries, cut - s.baseOffset)])
  {
    hide EncodeAll, Scan, Legal, Extent, WholeIn;
    assert s.entries[..|s.entries|] == s.entries;
    Slices(s.file, s.baseOffset, cut, s.writePos);
    ScanCut(s.entries, s.base + 1, cut - s.baseOffset);
  }

  /** A log operation; preallocation sizes are left open. */
  datatype Op = AppendOp(e: Record) | FlushOp(reserved: nat) | TruncateOp(idx: nat, reserved: nat)

  function Do(s: Store, op: Op): (r: Store)
    requires Shaped(s)
    ensures Shaped(r)
  {
    match op
    case AppendOp(e) => Append(s, e)
    case FlushOp(k) => Flush(s, k)
    case TruncateOp(i, k) => TruncateFrom(s, i, k)
  }

  lemma DoOk(s: Store, op: Op)
    requires Ok(s)
    ensures Ok(Do(s, op))
  {
    match op {
      case AppendOp(e) => AppendOk(s, e);
      case FlushOp(k) => FlushOk(s, k);
      case TruncateOp(i, k) => TruncateOk(s, i, k);
    }
    hide Ok, Append, Flush, TruncateFrom;
  }

  function Exec(s: Store, ops: seq<Op>): (r: Store)
    requires Shaped(s)
    ensures Shaped(r)
    decreases |ops|
  {
    if ops == [] then s else Exec(Do(s, ops[0]), ops[1..])
  }

  lemma {:induction false} RunOk(s: Store, ops: seq<Op>)
    requires Ok(s)
    ensures Ok(Exec(s, ops))
    decreases |ops|
  {
    hide Ok, Do;
    assert Shaped(s) by { OkShaped(s); }
    if ops != [] {
      DoOk(s, ops[0]);
      RunOk(Do(s, ops[0]), ops[1..]);
    }
  }

  lemma OkShaped(s: Store)
    requires Ok(s)
    ensures Shaped(s) && s.baseOffset <= |s.file|
  {
  }

  lemma EmptyOk()
    ensures Ok(EMPTY)
  {
    assert SplitAt(EMPTY, 0);
  }

  ghost predicate WithinLimit(es: seq<Record>) {
    forall i :: 0 <= i < |es| ==> |es[i].payload| <= MAX_PAYLOAD
  }

  /** A scan of the file, from the recorded offset and index, gives back the entries in memory. */
  ghost predicate RecoversAll(s: Store) {
    s.baseOffset <= |s.file| && Scan(s.file[s.baseOffset..], s.base + 1) == s.entries
  }

  lemma FlushedRecovers(s: Store)
    requires Ok(s) && SplitAt(s, |s.entries|) && AllFit(s.entries, s.base + 1)
    ensures RecoversAll(s) <==> WithinLimit(s.entries)
  {
    hide Scan, EncodeAll, Legal;
    CrashRecovers(s, |s.entries|);
    assert s.entries[..|s.entries|] == s.entries;
    LegalIff(s.entries);
  }

  lemma WrittenRecovers(s: Store, reserved: nat)
    requires Ok(s)
    ensures var f := Flush(s, reserved);
            AllFit(f.entries, f.base + 1) ==> (RecoversAll(f) <==> WithinLimit(f.entries))
  {
    hide RecoversAll, WithinLimit, Flush, SplitAt, AllFit, OffsetsOf, Extent;
    FlushOk(s, reserved);
    FlushKeeps(s, reserved);
    var f := Flush(s, reserved);
    hide Ok;
    if AllFit(f.entries, f.base + 1) { FlushedRecovers(f); }
  }

  /** After any sequence of appends, flushes and tail truncations, and one more flush, recovery returns exactly the
      entries in memory if and only if none of them is over the payload limit. */
  lemma RecoveryIsExact(ops: seq<Op>, reserved: nat)
    ensures var s := Flush(Exec(EMPTY, ops), reserved);
            AllFit(s.entries, s.base + 1) ==> (RecoversAll(s) <==> WithinLimit(s.entries))
  {
    hide Exec, RecoversAll, WithinLimit, Flush, Ok, SplitAt, AllFit;
    EmptyOk();
    RunOk(EMPTY, ops);
    WrittenRecovers(Exec(EMPTY, ops), reserved);
  }
}
