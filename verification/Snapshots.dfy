/** A snapshot that carries a history as a list of operations without repeats: when replaying the list gives what the
    history gave, for any operations on any state, and through the bytes the list is kept in. */
module Snapshots {
  import opened Sequences
  import opened TopologyLog

  /** The state after operations in order. */
  function Fold<S, C>(apply: (S, C) -> S, start: S, cs: seq<C>): (s: S) {
    if cs == [] then start else apply(Fold(apply, start, cs[..|cs| - 1]), cs[|cs| - 1])
  }

  lemma FoldPush<S, C>(apply: (S, C) -> S, start: S, cs: seq<C>, c: C)
    ensures Fold(apply, start, cs + [c]) == apply(Fold(apply, start, cs), c)
  {
    assert (cs + [c])[..|cs|] == cs;
  }

  /** After the first `n` operations, the list without repeats gives the same state. */
  ghost predicate FaithfulAt<S, C(!new)>(apply: (S, C) -> S, start: S, cs: seq<C>, n: nat)
    requires n <= |cs|
  {
    Fold(apply, start, Dedup(cs[..n])) == Fold(apply, start, cs[..n])
  }

  /** Operation `j` changes nothing when it is applied. */
  ghost predicate IdleAt<S, C(!new)>(apply: (S, C) -> S, start: S, cs: seq<C>, j: nat)
    requires j < |cs|
  {
    apply(Fold(apply, start, cs[..j]), cs[j]) == Fold(apply, start, cs[..j])
  }

  /** One more operation, new or repeated. */
  lemma FaithfulStep<S, C(!new)>(apply: (S, C) -> S, start: S, cs: seq<C>, j: nat)
    requires j < |cs| && FaithfulAt(apply, start, cs, j)
    ensures FaithfulAt(apply, start, cs, j + 1) <==> cs[j] !in cs[..j] || IdleAt(apply, start, cs, j)
  {
    var init, c := cs[..j], cs[j];
    assert cs[..j + 1] == init + [c];
    DedupPush(init, c);
    FoldPush(apply, start, init, c);
    FoldPush(apply, start, Dedup(init), c);
  }

  lemma {:induction false} IdleRepeatsFaithful<S, C(!new)>(apply: (S, C) -> S, start: S, cs: seq<C>, n: nat)
    requires n <= |cs| && forall j :: 0 <= j < n && cs[j] in cs[..j] ==> IdleAt(apply, start, cs, j)
    ensures FaithfulAt(apply, start, cs, n)
  {
    if n == 0 {
      assert cs[..0] == [];
    } else {
      IdleRepeatsFaithful(apply, start, cs, n - 1);
      FaithfulStep(apply, start, cs, n - 1);
    }
  }

  /** For every history: the list without repeats is faithful at every moment exactly when no repeated operation took
      effect. */
  lemma FaithfulThroughoutIff<S, C(!new)>(apply: (S, C) -> S, start: S, cs: seq<C>)
    ensures (forall n :: 0 <= n <= |cs| ==> FaithfulAt(apply, start, cs, n)) <==>
            (forall j :: 0 <= j < |cs| && cs[j] in cs[..j] ==> IdleAt(apply, start, cs, j))
  {
    if forall n :: 0 <= n <= |cs| ==> FaithfulAt(apply, start, cs, n) {
      forall j | 0 <= j < |cs| && cs[j] in cs[..j] ensures IdleAt(apply, start, cs, j) {
        assert FaithfulAt(apply, start, cs, j) && FaithfulAt(apply, start, cs, j + 1);
        FaithfulStep(apply, start, cs, j);
      }
    } else if forall j :: 0 <= j < |cs| && cs[j] in cs[..j] ==> IdleAt(apply, start, cs, j) {
      forall n | 0 <= n <= |cs| ensures FaithfulAt(apply, start, cs, n) {
        IdleRepeatsFaithful(apply, start, cs, n);
      }
      assert false;
    }
  }

  // ---- through bytes ----

  /** How a history's operations are written as records: each can be read back, and fits the record's fields. */
  ghost predicate Codec<C(!new)>(history: seq<C>, enc: C -> Rec, dec: Rec -> C) {
    forall c :: c in history ==> dec(enc(c)) == c && Fits(enc(c))
  }

  ghost function Encoded<C>(cs: seq<C>, enc: C -> Rec): (rs: seq<Rec>)
    ensures |rs| == |cs| && forall i :: 0 <= i < |cs| ==> rs[i] == enc(cs[i])
  {
    seq(|cs|, i requires 0 <= i < |cs| => enc(cs[i]))
  }

  ghost function Decoded<C>(rs: seq<Rec>, dec: Rec -> C): (cs: seq<C>)
    ensures |cs| == |rs| && forall i :: 0 <= i < |rs| ==> cs[i] == dec(rs[i])
  {
    if rs == [] then [] else Decoded(rs[..|rs| - 1], dec) + [dec(rs[|rs| - 1])]
  }

  /** The records held after the operations have been remembered one after the other. */
  ghost function Remembered<C>(cs: seq<C>, enc: C -> Rec): (rs: seq<Rec>) {
    if cs == [] then [] else Remember(Remembered(cs[..|cs| - 1], enc), enc(cs[|cs| - 1]))
  }

  lemma EncodedMember<C(!new)>(cs: seq<C>, enc: C -> Rec, dec: Rec -> C, x: C)
    requires Codec(cs + [x], enc, dec)
    ensures enc(x) in Encoded(cs, enc) <==> x in cs
  {
    hide Fits;
    if x in cs {
      var i :| 0 <= i < |cs| && cs[i] == x;
      assert Encoded(cs, enc)[i] == enc(x);
    }
    if enc(x) in Encoded(cs, enc) {
      var i :| 0 <= i < |cs| && Encoded(cs, enc)[i] == enc(x);
      assert cs[i] in cs + [x] && x in cs + [x];
      assert dec(enc(cs[i])) == dec(enc(x));
    }
  }

  lemma FewerOps<C(!new)>(more: seq<C>, cs: seq<C>, enc: C -> Rec, dec: Rec -> C)
    requires Codec(more, enc, dec) && forall c :: c in cs ==> c in more
    ensures Codec(cs, enc, dec)
  {}

  /** Byte for byte, the records held are those of the operations without repeats. */
  lemma {:induction false} RememberedIsDedup<C(!new)>(cs: seq<C>, enc: C -> Rec, dec: Rec -> C)
    requires Codec(cs, enc, dec)
    ensures Remembered(cs, enc) == Encoded(Dedup(cs), enc)
  {
    hide Codec;
    if cs != [] {
      var init, x := cs[..|cs| - 1], cs[|cs| - 1];
      FewerOps(cs, init, enc, dec);
      RememberedIsDedup(init, enc, dec);
      FewerOps(cs, Dedup(init) + [x], enc, dec);
      EncodedMember(Dedup(init), enc, dec, x);
      assert Encoded(Dedup(init) + [x], enc) == Encoded(Dedup(init), enc) + [enc(x)];
    }
  }

  lemma DecodedEncoded<C(!new)>(cs: seq<C>, enc: C -> Rec, dec: Rec -> C)
    requires Codec(cs, enc, dec)
    ensures Decoded(Encoded(cs, enc), dec) == cs
    ensures forall i :: 0 <= i < |cs| ==> Fits(Encoded(cs, enc)[i])
  {
    hide Fits;
    assert forall i :: 0 <= i < |cs| ==> cs[i] in cs;
  }

  /** What recovery reads from the bytes kept for a history is the history without repeats. */
  lemma ReadBack<C(!new)>(cs: seq<C>, enc: C -> Rec, dec: Rec -> C)
    requires Codec(cs, enc, dec)
    ensures Decoded(Records(Blob(Remembered(cs, enc))), dec) == Dedup(cs)
  {
    hide Codec, Dedup, Records, Blob, Remembered;
    RememberedIsDedup(cs, enc, dec);
    FewerOps(cs, Dedup(cs), enc, dec);
    DecodedEncoded(Dedup(cs), enc, dec);
    RecordsOfBlob(Encoded(Dedup(cs), enc));
  }

  /** Remembering a history operation by operation leaves those bytes. */
  method RememberAll<C>(log: TopoLog, rs: seq<Rec>, ghost cs: seq<C>, ghost enc: C -> Rec)
    requires log.Valid() && log.recs == [] && rs == Encoded(cs, enc) && forall i :: 0 <= i < |rs| ==> Fits(rs[i])
    modifies log
    ensures log.Valid() && log.topo == Blob(Remembered(cs, enc))
  {
    hide Fits, Blob, Records;
    var i := 0;
    while i < |rs|
      invariant i <= |rs| && log.Valid() && log.recs == Remembered(cs[..i], enc)
    {
      log.Add(rs[i].op, rs[i].payload);
      assert cs[..i + 1][..i] == cs[..i];
      i := i + 1;
    }
    assert cs[..i] == cs;
  }
}
