/** The log object: entries, offset table, write buffer and file, changed in place. */
module DiskLog {
  import opened Bytes
  import opened WalFormat
  import opened Watermark
  import opened LogStore
  import opened Compaction

  class ClusterLog {
    var base: nat
    var baseTerm: nat
    var entries: seq<Record>
    var offsets: array<nat>
    var file: seq<Byte>
    var wbuf: seq<Byte>
    var writePos: nat
    var logSize: nat
    var baseOffset: nat

    ghost function Value(): (s: Store) reads this, offsets {
      Store(base, baseTerm, entries, offsets[..], file, wbuf, writePos, logSize, baseOffset)
    }

    ghost predicate Valid() reads this, offsets {
      Ok(Value())
    }

    /** Recovery: take the boundary of the snapshot, scan the file from there, and trim what the scan refused. */
    constructor (onDisk: seq<Byte>, b: nat, bTerm: nat, bOffset: nat)
      requires bOffset <= |onDisk|
      ensures Valid() && fresh(offsets)
      ensures base == b && baseTerm == bTerm && baseOffset == bOffset && wbuf == []
      ensures entries == Scan(onDisk[bOffset..], b + 1) && file <= onDisk && |file| == writePos
    {
      var es, offs, end := Recover(onDisk, bOffset, b);
      base, baseTerm, baseOffset, entries := b, bTerm, bOffset, es;
      offsets := new nat[|offs|](i requires 0 <= i < |offs| => offs[i]);
      file, wbuf, writePos, logSize := onDisk[..end], [], end, end;
      new;
      assert offsets[..] == offs;
      hide Scan, EncodeAll, Extent, OffsetsOf, SplitAt;
      RecoveredOk(onDisk, Value());
    }

    /** Gives the offset table at least `need` slots. */
    method EnsureOffsets(need: nat)
      modifies this`offsets
      ensures offsets[..] == Grown(old(offsets[..]), need) && (offsets == old(offsets) || fresh(offsets))
    {
      if need <= offsets.Length { return; }
      var nc := if offsets.Length > 0 then offsets.Length else 64;
      ghost var first := nc;
      while nc < need
        invariant nc >= 1 && Capacity(first, need) == Capacity(nc, need)
        decreases need - nc
      {
        nc := nc * 2;
      }
      var n := offsets.Length;
      var no := new nat[nc](_ => 0);
      forall i | 0 <= i < n { no[i] := offsets[i]; }
      offsets := no;
    }

    /** Buffers the record of a new last entry. */
    method Append(e: Record)
      requires Valid()
      modifies this, offsets
      ensures Valid() && Value() == LogStore.Append(old(Value()), e)
      ensures offsets == old(offsets) || fresh(offsets)
    {
      hide Ok, Encode, Grown;
      AppendOk(Value(), e);
      var k := |entries|;
      EnsureOffsets(k + 1);
      wbuf := wbuf + Encode(e, base + k + 1);
      ghost var table := offsets[..];
      offsets[k] := logSize;
      assert offsets[..] == table[k := logSize];
      logSize := logSize + HEADER + |e.payload|;
      entries := entries + [e];
    }

    /** Writes the buffer in one piece. */
    method WriteFlush(reserved: nat)
      requires Valid()
      modifies this`file, this`wbuf, this`writePos
      ensures Valid() && Value() == Flush(old(Value()), reserved)
    {
      FlushOk(Value(), reserved);
      hide Ok, SplitAt, Overlay;
      if wbuf == [] { return; }
      file := Overlay(file + ZeroBytes(reserved), writePos, wbuf);
      writePos := writePos + |wbuf|;
      wbuf := [];
    }

    /** Drops the tail from an index on, in memory and in the file. */
    method TruncateFrom(idx: nat, reserved: nat)
      requires Valid()
      modifies this`file, this`wbuf, this`writePos, this`logSize, this`entries
      ensures Valid() && Value() == LogStore.TruncateFrom(old(Value()), idx, reserved)
    {
      hide Ok, Flush;
      OkShaped(Value());
      TruncateOk(Value(), idx, reserved);
      FlushKeeps(Value(), reserved);
      var i := if idx <= base then base + 1 else idx;
      if i > base + |entries| { return; }
      WriteFlush(reserved);
      var slot := i - base - 1;
      var size := offsets[slot];
      file := if size <= |file| then file[..size] else file + ZeroBytes(size - |file|);
      logSize, writePos := size, size;
      entries := entries[..slot];
    }

    /** Moves the surviving offsets to the front, in ascending order of slot. */
    method ShiftOffsets(drop: nat, live: nat)
      requires drop + live <= offsets.Length
      modifies offsets
      ensures offsets[..] == Shifted(old(offsets[..]), drop, live)
    {
      ghost var was := offsets[..];
      var i := 0;
      while i < live
        invariant 0 <= i <= live
        invariant forall k :: 0 <= k < i ==> offsets[k] == was[drop + k]
        invariant forall k :: i <= k < offsets.Length ==> offsets[k] == was[k]
      {
        offsets[i] := offsets[drop + i];
        i := i + 1;
      }
    }

    /** One compaction sweep. The file stays in step unless every entry goes and the slot read was never written. */
    method CompactTo(upto: nat, applied: nat, live: Oldest, reserved: nat)
      requires Valid() && applied <= base + |entries|
      modifies this, offsets
      ensures Value() == Compaction.CompactTo(old(Value()), upto, applied, live, reserved)
      ensures Clamp(upto, applied, live) < base + |entries| ==> Valid()
    {
      hide Ok, Flush, Shifted, Punch;
      OkShaped(Value());
      var u := Clamp(upto, applied, live);
      if u <= base || u - base < BATCH { return; }
      CompactOkIff(Value(), u, reserved);
      FlushKeeps(Value(), reserved);
      ghost var before := Value();
      var term := entries[u - base - 1].term;
      var drop := u - base;
      var survivors := |entries| - drop;
      var off := if drop < offsets.Length then offsets[drop] else logSize;
      WriteFlush(reserved);
      if drop < offsets.Length { ShiftOffsets(drop, survivors); }
      file := Punch(file, off);
      entries := entries[drop..];
      base, baseTerm, baseOffset := u, term, off;
      assert Value() == Compact(before, u, reserved);
    }
  }

  /** A file trimmed to what the scan accepted is in step with the entries the scan returned. */
  lemma RecoveredOk(onDisk: seq<Byte>, s: Store)
    requires s.baseOffset <= |onDisk| && s.entries == Scan(onDisk[s.baseOffset..], s.base + 1)
    requires OffsetsOf(s.baseOffset, s.entries, s.offsets) && s.wbuf == []
    requires s.writePos == s.logSize == s.baseOffset + Extent(s.entries) <= |onDisk| && s.file == onDisk[..s.writePos]
    ensures Ok(s)
  {
    hide Scan, EncodeAll, Extent;
    ScannedIsEncoded(onDisk[s.baseOffset..], s.base + 1);
    ExtentIsLength(s.entries, s.base + 1);
    var n := |s.entries|;
    assert s.file[s.baseOffset..s.writePos] == onDisk[s.baseOffset..][..s.writePos - s.baseOffset];
    assert s.entries[..n] == s.entries && s.entries[n..] == [] && s.offsets[..n] == s.offsets;
    NothingEncoded(s.base + 1 + n);
    assert SplitAt(s, n);
  }
}
