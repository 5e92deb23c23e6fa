/** The bytes a snapshot carries its operations in: records laid end to end, none twice. */
module TopologyLog {
  import opened Bytes

  datatype Rec = Rec(op: nat, payload: seq<Byte>)

  const HEADER: nat := 8

  ghost predicate Fits(r: Rec) {
    r.op < Span(4) && |r.payload| < Span(4)
  }

  function Encode(r: Rec): (s: seq<Byte>)
    ensures |s| == HEADER + |r.payload|
  {
    Be(4, r.op) + Be(4, |r.payload|) + r.payload
  }

  function Blob(rs: seq<Rec>): (s: seq<Byte>) {
    if rs == [] then [] else Encode(rs[0]) + Blob(rs[1..])
  }

  lemma {:induction false} BlobPush(rs: seq<Rec>, r: Rec)
    ensures Blob(rs + [r]) == Blob(rs) + Encode(r)
  {
    hide Encode;
    if rs == [] {
      assert [r][1..] == [] && rs + [r] == [r];
      assert Blob([r]) == Encode(r) + [];
    } else {
      assert (rs + [r])[1..] == rs[1..] + [r];
      BlobPush(rs[1..], r);
    }
  }

  datatype Read = End | Got(r: Rec)

  /** One record, unless the bytes run out. */
  function ReadRecord(s: seq<Byte>): (g: Read)
    ensures g.Got? ==> HEADER + |g.r.payload| <= |s|
  {
    if |s| < HEADER then End
    else
      var op, len := FromBe(s[0..4]), FromBe(s[4..8]);
      if HEADER + len > |s| then End else Got(Rec(op, s[HEADER..HEADER + len]))
  }

  /** The replay scan. */
  function Records(s: seq<Byte>): (rs: seq<Rec>)
    decreases |s|
  {
    match ReadRecord(s)
    case End => []
    case Got(r) => [r] + Records(s[HEADER + |r.payload|..])
  }

  lemma ReadEncoded(r: Rec, rest: seq<Byte>)
    requires Fits(r)
    ensures ReadRecord(Encode(r) + rest) == Got(r)
  {
    hide Be, FromBe, Span;
    BeRoundTrip(4, r.op);
    BeRoundTrip(4, |r.payload|);
    var s := Encode(r) + rest;
    assert s[0..4] == Be(4, r.op) && s[4..8] == Be(4, |r.payload|);
    assert s[HEADER..HEADER + |r.payload|] == r.payload;
  }

  /** What was written is what is replayed. */
  lemma {:induction false} RecordsOfBlob(rs: seq<Rec>)
    requires forall i :: 0 <= i < |rs| ==> Fits(rs[i])
    ensures Records(Blob(rs)) == rs
  {
    hide ReadRecord, Encode, Fits;
    if rs == [] {
      assert ReadRecord([]) == End by { NothingToRead(); }
    } else {
      var rest := Blob(rs[1..]);
      ReadEncoded(rs[0], rest);
      RecordsOfBlob(rs[1..]);
      assert (Encode(rs[0]) + rest)[HEADER + |rs[0].payload|..] == rest;
    }
  }

  lemma NothingToRead()
    ensures ReadRecord([]) == End
  {
  }

  /** The records after one more is added: an identical one is held once, where it first came. */
  function Remember(rs: seq<Rec>, r: Rec): (t: seq<Rec>) {
    if r in rs then rs else rs + [r]
  }

  class TopoLog {
    var topo: seq<Byte>
    ghost var recs: seq<Rec>

    /** The bytes are those of the records, each of which occurs once. */
    ghost predicate Valid() reads this {
      && topo == Blob(recs)
      && (forall i :: 0 <= i < |recs| ==> Fits(recs[i]))
      && (forall i, j :: 0 <= i < j < |recs| ==> recs[i] != recs[j])
    }

    constructor ()
      ensures Valid() && recs == []
    {
      topo, recs := [], [];
    }

    /** The scan for an identical record. */
    method Contains(r: Rec) returns (found: bool)
      requires Valid()
      ensures found == (r in recs)
    {
      hide ReadRecord, Encode, Fits;
      var i := 0;
      ghost var n := 0;
      assert topo[0..] == topo && recs[0..] == recs;
      while i + HEADER <= |topo|
        invariant n <= |recs| && i <= |topo| && topo[i..] == Blob(recs[n..]) && r !in recs[..n]
        decreases |topo| - i
      {
        BlobLength(recs[n..]);
        ReadEncoded(recs[n], Blob(recs[n..][1..]));
        assert recs[n..][1..] == recs[n + 1..] && recs[..n + 1] == recs[..n] + [recs[n]];
        var g := ReadRecord(topo[i..]);
        if g.r == r { return true; }
        ghost var len := HEADER + |g.r.payload|;
        assert topo[i..][len..] == topo[i + len..]
               && (Encode(recs[n]) + Blob(recs[n + 1..]))[len..] == Blob(recs[n + 1..]);
        i := i + HEADER + |g.r.payload|;
        n := n + 1;
      }
      BlobLength(recs[n..]);
      assert recs[..n] == recs;
      return false;
    }

    /** Remembers an operation unless an identical one is already held. */
    method Add(op: nat, data: seq<Byte>)
      requires Valid() && Fits(Rec(op, data))
      modifies this
      ensures Valid()
      ensures recs == Remember(old(recs), Rec(op, data))
      ensures Records(topo) == recs
    {
      var r := Rec(op, data);
      var found := Contains(r);
      if !found {
        BlobPush(recs, r);
        topo := topo + Encode(r);
        recs := recs + [r];
      }
      RecordsOfBlob(recs);
    }
  }

  lemma BlobLength(rs: seq<Rec>)
    ensures rs == [] <==> |Blob(rs)| < HEADER
  {
  }
}
