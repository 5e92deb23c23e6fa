/** The snapshot of a topology from the operations applied to the bytes on disk and back: what recovery rebuilds. */
module TopologySnapshot {
  import opened Sequences
  import opened Snapshots
  import opened Topology
  import opened TopologyLog

  /** For every delete-free history and every way of writing its operations as records: scanning the snapshot's bytes and
      replaying what they say rebuilds the topology of the whole history if and only if each bind that ever found its
      queue and exchange found them the first time it occurred. */
  lemma SnapshotRebuildsIff(ops: seq<Op>, enc: Op -> Rec, dec: Rec -> Op)
    requires Codec(ops, enc, dec)
    ensures Replay(NOTHING, Decoded(Records(Blob(Remembered(ops, enc))), dec)) == Replay(NOTHING, ops)
            <==> BindsOnTime(ops)
  {
    hide Codec, Replay, Dedup, BindsOnTime, Records, Blob, Remembered;
    ReadBack(ops, enc, dec);
    SnapshotFaithfulIff(ops);
  }
}
