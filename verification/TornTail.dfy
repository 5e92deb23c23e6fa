/** A write cut short inside a preallocated file: the lost bytes of the record read as zeros. There is no checksum,
    so recovery drops the torn record only if its index field is damaged. */
module TornTail {
  import opened Bytes
  import opened WalFormat

  /** The first `n` bytes of a record, followed by zeros. */
  ghost predicate Torn(s: seq<Byte>, e: Record, index: nat, n: nat) {
    && n < HEADER + |e.payload| <= |s|
    && s[..n] == Encode(e, index)[..n] && Zeros(s[n..])
  }

  /** From position `n` on, nothing but zeros was lost. */
  ghost predicate LostZeros(e: Record, index: nat, n: nat, from: nat, to: nat)
    requires from <= to <= HEADER + |e.payload|
  {
    forall i :: from <= i < to && n <= i ==> Encode(e, index)[i] == 0
  }

  lemma {:induction false} SmallerDigits(s: seq<Byte>, t: seq<Byte>)
    requires |s| == |t| && forall i :: 0 <= i < |s| ==> s[i] <= t[i]
    ensures FromBe(s) <= FromBe(t)
  {
    if s != [] { SmallerDigits(s[..|s| - 1], t[..|t| - 1]); }
  }

  /** What a torn record's bytes are. */
  lemma TornBytes(s: seq<Byte>, e: Record, index: nat, n: nat, i: nat)
    requires Torn(s, e, index, n) && i < HEADER + |e.payload|
    ensures s[i] == if i < n then Encode(e, index)[i] else 0
  {
    if i < n {
      assert s[i] == s[..n][i] == Encode(e, index)[..n][i];
    } else {
      assert s[i] == s[n..][i - n];
    }
  }

  /** A part of the record survives exactly when what it lost was zeros. */
  lemma PartSurvives(s: seq<Byte>, e: Record, index: nat, n: nat, from: nat, to: nat)
    requires Torn(s, e, index, n) && from <= to <= HEADER + |e.payload|
    ensures s[from..to] == Encode(e, index)[from..to] <==> LostZeros(e, index, n, from, to)
    ensures forall i :: 0 <= i < to - from ==> s[from..to][i] <= Encode(e, index)[from..to][i]
  {
    hide Encode;
    var w := Encode(e, index);
    var a, b := s[from..to], w[from..to];
    forall k | 0 <= k < to - from ensures a[k] == if from + k < n then b[k] else 0 {
      TornBytes(s, e, index, n, from + k);
    }
    if a == b {
      forall i | from <= i < to && n <= i ensures w[i] == 0 {
        assert w[i] == b[i - from] == a[i - from];
      }
    } else {
      var k :| 0 <= k < |a| && a[k] != b[k];
      assert n <= from + k && w[from + k] == b[k];
    }
  }

  /** The fields of an encoded record, as the scan reads them. */
  lemma EncodedFields(e: Record, index: nat)
    requires Fits(e) && index < Span(8)
    ensures var w := Encode(e, index);
            w[8..16] == Be(8, index) && FromBe(w[8..16]) == index && FromBe(w[20..24]) == |e.payload|
  {
    hide Be, FromBe, Span;
    var w := Encode(e, index);
    assert w[..HEADER] == Header(e, index);
    HeaderReads(e, index, w);
    assert w[8..16] == Header(e, index)[8..16] == Be(8, index);
  }

  /** The index field reads as expected exactly when it lost nothing but zeros; the length reads no larger than it
      was. */
  lemma TornFields(s: seq<Byte>, e: Record, index: nat, n: nat)
    requires Torn(s, e, index, n) && Fits(e) && index < Span(8)
    ensures FromBe(s[8..16]) == index <==> LostZeros(e, index, n, 8, 16)
    ensures FromBe(s[20..24]) <= |e.payload|
  {
    hide Be, FromBe, Span, Encode, LostZeros;
    var w := Encode(e, index);
    EncodedFields(e, index);
    PartSurvives(s, e, index, n, 8, 16);
    PartSurvives(s, e, index, n, 20, 24);
    SmallerDigits(s[20..24], w[20..24]);
    FromBeRoundTrip(s[8..16]);
  }

  /** Recovery drops a torn record exactly when its index field lost a byte that was not zero, and reads the record back
      exactly when nothing but zeros was lost; otherwise it accepts a record that was never written. */
  lemma TornRecord(s: seq<Byte>, e: Record, index: nat, n: nat)
    requires Torn(s, e, index, n) && Fits(e) && index < Span(8) && |e.payload| <= MAX_PAYLOAD
    ensures ParseRecord(s, index) == Stop <==> !LostZeros(e, index, n, 8, 16)
    ensures ParseRecord(s, index) == Whole(e) <==> LostZeros(e, index, n, 0, HEADER + |e.payload|)
  {
    hide Be, FromBe, Span, Encode, LostZeros;
    var w, len := Encode(e, index), HEADER + |e.payload|;
    TornFields(s, e, index, n);
    PartSurvives(s, e, index, n, 0, len);
    assert w[0..len] == w && s[0..len] == s[..len];
    if s[..len] == w {
      assert s == w + s[len..];
      ParseEncoded(e, index, s[len..]);
    } else if ParseRecord(s, index) == Whole(e) {
      ParsedIsEncoded(s, index);
      assert false;
    }
  }

  /** Once the payload itself is being written, a torn record is always accepted, its lost bytes replaced by zeros. */
  lemma TornPayload(s: seq<Byte>, e: Record, index: nat, n: nat)
    requires Torn(s, e, index, n) && Fits(e) && index < Span(8) && |e.payload| <= MAX_PAYLOAD && n >= HEADER
    ensures var p := ParseRecord(s, index);
            && p.Whole? && p.e.term == e.term && p.e.op == e.op && |p.e.payload| == |e.payload|
            && p.e.payload[..n - HEADER] == e.payload[..n - HEADER] && Zeros(p.e.payload[n - HEADER..])
  {
    hide Be, FromBe, Span;
    var len, k := HEADER + |e.payload|, n - HEADER;
    assert s[..HEADER] == s[..n][..HEADER] == Header(e, index);
    HeaderReads(e, index, s);
    var got := s[HEADER..len];
    assert ParseRecord(s, index) == Whole(Record(e.term, e.op, got));
    hide ParseRecord;
    PayloadFront(e, index, n);
    assert got[..k] == s[..n][HEADER..];
    assert got[k..] == s[n..][..len - n];
  }

  lemma PayloadFront(e: Record, index: nat, n: nat)
    requires HEADER <= n <= HEADER + |e.payload|
    ensures Encode(e, index)[..n][HEADER..] == e.payload[..n - HEADER]
  {
    hide Header;
  }

  /** A file of whole records, a torn one, and zeros: recovery returns the whole ones, and the torn one is dropped
      exactly when its index field lost a byte that was not zero. */
  lemma {:induction false} RecoverTorn(es: seq<Record>, first: nat, s: seq<Byte>, e: Record, n: nat)
    requires first >= 1 && first + |es| < Span(8) && Torn(s, e, first + |es|, n)
    requires Storable(es + [e])
    ensures var got := Scan(EncodeAll(es, first) + s, first);
            && es <= got
            && (got == es <==> !LostZeros(e, first + |es|, n, 8, 16))
            && (es + [e] <= got <==> LostZeros(e, first + |es|, n, 0, HEADER + |e.payload|))
  {
    assert (es + [e])[|es|] == e;
    assert Storable(es) by {
      forall i | 0 <= i < |es| ensures Fits(es[i]) && |es[i].payload| <= MAX_PAYLOAD { assert (es + [e])[i] == es[i]; }
    }
    TornRecord(s, e, first + |es|, n);
    WholeThenRest(es, first, s);
    hide Storable, Torn, LostZeros, Fits, ParseRecord;
    var rest := Scan(s, first + |es|);
    assert rest == [] <==> ParseRecord(s, first + |es|) == Stop;
    assert es + [] == es && (es + rest)[|es|..] == rest;
    ExtendsBy(es, e, rest);
  }

  lemma ExtendsBy(es: seq<Record>, e: Record, rest: seq<Record>)
    ensures es + [e] <= es + rest <==> rest != [] && rest[0] == e
  {
    if es + [e] <= es + rest {
      assert (es + [e])[|es|] == (es + rest)[|es|];
    }
  }

  lemma WholeFirst(es: seq<Record>, first: nat, s: seq<Byte>)
    requires es != [] && Fits(es[0]) && |es[0].payload| <= MAX_PAYLOAD && first < Span(8)
    ensures Scan(EncodeAll(es, first) + s, first) == [es[0]] + Scan(EncodeAll(es[1..], first + 1) + s, first + 1)
  {
    hide Scan, Encode, Fits, Span;
    var tail := EncodeAll(es[1..], first + 1) + s;
    assert EncodeAll(es, first) + s == Encode(es[0], first) + tail;
    ScanFirst(es[0], first, tail);
  }

  /** Records that recovery accepts when they are whole. */
  ghost predicate Storable(es: seq<Record>) {
    forall i :: 0 <= i < |es| ==> Fits(es[i]) && |es[i].payload| <= MAX_PAYLOAD
  }

  lemma StorableTail(es: seq<Record>)
    requires es != [] && Storable(es)
    ensures Storable(es[1..]) && Fits(es[0]) && |es[0].payload| <= MAX_PAYLOAD
  {
    hide Fits;
  }

  lemma {:induction false} WholeThenRest(es: seq<Record>, first: nat, s: seq<Byte>)
    requires first + |es| <= Span(8) && Storable(es)
    ensures Scan(EncodeAll(es, first) + s, first) == es + Scan(s, first + |es|)
  {
    hide Storable, Scan, Fits, Span, EncodeAll;
    if es == [] {
      NoneWhole(first, s);
    } else {
      StorableTail(es);
      WholeFirst(es, first, s);
      WholeThenRest(es[1..], first + 1, s);
      Regroup(es, Scan(s, first + |es|));
    }
  }

  lemma NoneWhole(first: nat, s: seq<Byte>)
    ensures Scan(EncodeAll([], first) + s, first) == [] + Scan(s, first)
  {
    hide Scan;
    assert EncodeAll([], first) + s == s;
  }

  lemma Regroup(es: seq<Record>, rest: seq<Record>)
    requires es != []
    ensures [es[0]] + (es[1..] + rest) == es + rest
  {}
}
