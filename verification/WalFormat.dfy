/** The write-ahead log file: records laid end to end, and the recovery scan. */
module WalFormat {
  import opened Bytes

  /** A log entry as it is written; its index is written too. */
  datatype Record = Record(term: nat, op: nat, payload: seq<Byte>)

  const HEADER: nat := 24
  const MAX_PAYLOAD: nat := 16 * 1024 * 1024

  /** The fields fit the widths of the record header. */
  ghost predicate Fits(e: Record) {
    e.term < Span(8) && e.op < Span(4) && |e.payload| < Span(4)
  }

  ghost predicate AllFit(es: seq<Record>, first: nat) {
    first + |es| <= Span(8) && forall i :: 0 <= i < |es| ==> Fits(es[i])
  }

  function Header(e: Record, index: nat): (s: seq<Byte>)
    ensures |s| == HEADER
  {
    Be(8, e.term) + Be(8, index) + Be(4, e.op) + Be(4, |e.payload|)
  }

  function Encode(e: Record, index: nat): (s: seq<Byte>)
    ensures |s| == HEADER + |e.payload|
  {
    Header(e, index) + e.payload
  }

  /** Records with consecutive indices from `first`. */
  function EncodeAll(es: seq<Record>, first: nat): (s: seq<Byte>) {
    if es == [] then [] else Encode(es[0], first) + EncodeAll(es[1..], first + 1)
  }

  lemma {:induction false} EncodeConcat(a: seq<Record>, b: seq<Record>, first: nat)
    ensures EncodeAll(a + b, first) == EncodeAll(a, first) + EncodeAll(b, first + |a|)
  {
    if a == [] {
      assert a + b == b;
    } else {
      assert (a + b)[1..] == a[1..] + b;
      EncodeConcat(a[1..], b, first + 1);
      hide Encode;
    }
  }

  lemma EncodeLast(es: seq<Record>, e: Record, first: nat)
    ensures EncodeAll(es + [e], first) == EncodeAll(es, first) + Encode(e, first + |es|)
  {
    EncodeConcat(es, [e], first);
    assert EncodeAll([e], first + |es|) == Encode(e, first + |es|);
  }

  // ---- recovery ----

  datatype Parsed = Stop | Whole(e: Record)

  /** One step of the scan: a whole record with the expected index and an acceptable length, or the end. */
  function ParseRecord(s: seq<Byte>, expected: nat): (p: Parsed)
    ensures p.Whole? ==> HEADER + |p.e.payload| <= |s|
  {
    if |s| < HEADER then Stop
    else
      var term, index := FromBe(s[0..8]), FromBe(s[8..16]);
      var op, len := FromBe(s[16..20]), FromBe(s[20..24]);
      if len > MAX_PAYLOAD || index != expected then Stop
      else if |s| < HEADER + len then Stop
      else Whole(Record(term, op, s[HEADER..HEADER + len]))
  }

  function Scan(s: seq<Byte>, expected: nat): (es: seq<Record>)
    decreases |s|
  {
    match ParseRecord(s, expected)
    case Stop => []
    case Whole(e) => [e] + Scan(s[HEADER + |e.payload|..], expected + 1)
  }

  /** What the header of an encoded record reads as, whatever follows it. */
  lemma HeaderReads(e: Record, index: nat, s: seq<Byte>)
    requires Fits(e) && index < Span(8) && |s| >= HEADER && s[..HEADER] == Header(e, index)
    ensures FromBe(s[0..8]) == e.term && FromBe(s[8..16]) == index
    ensures FromBe(s[16..20]) == e.op && FromBe(s[20..24]) == |e.payload|
  {
    hide Be, FromBe, Span;
    BeRoundTrip(8, e.term);
    BeRoundTrip(8, index);
    BeRoundTrip(4, e.op);
    BeRoundTrip(4, |e.payload|);
    var h := s[..HEADER];
    assert s[0..8] == h[0..8] == Be(8, e.term);
    assert s[8..16] == h[8..16] == Be(8, index);
    assert s[16..20] == h[16..20] == Be(4, e.op);
    assert s[20..24] == h[20..24] == Be(4, |e.payload|);
  }

  /** A whole record in front is read back; one that is too long stops the scan. */
  lemma ParseEncoded(e: Record, index: nat, rest: seq<Byte>)
    requires Fits(e) && index < Span(8)
    ensures ParseRecord(Encode(e, index) + rest, index) == if |e.payload| <= MAX_PAYLOAD then Whole(e) else Stop
  {
    hide FromBe, Span, Be;
    var s := Encode(e, index) + rest;
    assert s[..HEADER] == Header(e, index);
    HeaderReads(e, index, s);
    assert s[HEADER..HEADER + |e.payload|] == e.payload;
  }

  /** Conversely, what is read as a record is the encoding of that record. */
  lemma ParsedIsEncoded(s: seq<Byte>, expected: nat)
    requires ParseRecord(s, expected).Whole?
    ensures var e := ParseRecord(s, expected).e;
            Fits(e) && expected < Span(8) && s[..HEADER + |e.payload|] == Encode(e, expected)
  {
    hide FromBe, Span, Be;
    var e := ParseRecord(s, expected).e;
    FromBeRoundTrip(s[0..8]);
    FromBeRoundTrip(s[8..16]);
    FromBeRoundTrip(s[16..20]);
    FromBeRoundTrip(s[20..24]);
    HeaderOf(s, e, expected);
    assert s[..HEADER + |e.payload|] == s[..HEADER] + e.payload;
  }

  lemma HeaderOf(s: seq<Byte>, e: Record, expected: nat)
    requires |s| >= HEADER && s[0..8] == Be(8, e.term) && s[8..16] == Be(8, expected)
    requires s[16..20] == Be(4, e.op) && s[20..24] == Be(4, |e.payload|)
    ensures s[..HEADER] == Header(e, expected)
  {
    hide Be;
    assert s[..HEADER] == s[0..8] + s[8..16] + s[16..20] + s[20..24];
  }

  /** A record cut short stops the scan. */
  lemma ParseTorn(e: Record, index: nat, n: nat)
    requires Fits(e) && index < Span(8) && n < HEADER + |e.payload|
    ensures ParseRecord(Encode(e, index)[..n], index) == Stop
  {
    hide FromBe, Span, Be;
    if n >= HEADER {
      var s := Encode(e, index)[..n];
      assert s[..HEADER] == Header(e, index);
      HeaderReads(e, index, s);
    }
  }

  lemma ParseZeros(z: seq<Byte>, expected: nat)
    requires Zeros(z) && expected >= 1
    ensures ParseRecord(z, expected) == Stop
  {
    hide FromBe;
    if |z| >= HEADER { ZerosReadZero(z[8..16]); }
  }

  /** The entries before the first whose payload is over the limit. */
  function Legal(es: seq<Record>): (r: seq<Record>)
    ensures (forall i :: 0 <= i < |es| ==> |es[i].payload| <= MAX_PAYLOAD) ==> r == es
    ensures r <= es
  {
    if es == [] || |es[0].payload| > MAX_PAYLOAD then [] else [es[0]] + Legal(es[1..])
  }

  lemma {:induction false} LegalIff(es: seq<Record>)
    ensures Legal(es) == es <==> forall i :: 0 <= i < |es| ==> |es[i].payload| <= MAX_PAYLOAD
  {
    if es != [] {
      LegalIff(es[1..]);
      assert es == [es[0]] + es[1..];
      if Legal(es) == es {
        assert Legal(es[1..]) == Legal(es)[1..] == es[1..];
        forall i | 0 <= i < |es| ensures |es[i].payload| <= MAX_PAYLOAD {
          if i > 0 { assert es[i] == es[1..][i - 1]; }
        }
      }
    }
  }

  lemma ScanFirst(e: Record, index: nat, rest: seq<Byte>)
    requires Fits(e) && index < Span(8)
    ensures Scan(Encode(e, index) + rest, index) ==
            if |e.payload| <= MAX_PAYLOAD then [e] + Scan(rest, index + 1) else []
  {
    hide ParseRecord, Encode;
    ParseEncoded(e, index, rest);
    var s := Encode(e, index) + rest;
    if |e.payload| <= MAX_PAYLOAD {
      assert s[HEADER + |e.payload|..] == rest;
    }
  }

  /** Scanning the records of any entries followed by zero padding gives the entries up to the first oversize one. */
  lemma {:induction false} ScanWhole(es: seq<Record>, first: nat, z: seq<Byte>)
    requires AllFit(es, first) && Zeros(z) && first >= 1
    ensures Scan(EncodeAll(es, first) + z, first) == Legal(es)
  {
    hide ParseRecord, Encode, Zeros;
    if es == [] {
      assert EncodeAll(es, first) + z == z;
      ParseZeros(z, first);
    } else {
      var tail := EncodeAll(es[1..], first + 1) + z;
      assert EncodeAll(es, first) + z == Encode(es[0], first) + tail;
      ScanFirst(es[0], first, tail);
      ScanWhole(es[1..], first + 1, z);
    }
  }

  /** How many records lie wholly within the first `n` bytes. */
  function WholeIn(es: seq<Record>, n: nat): (k: nat)
    ensures k <= |es|
  {
    if es == [] || n < HEADER + |es[0].payload| then 0
    else 1 + WholeIn(es[1..], n - HEADER - |es[0].payload|)
  }

  /** It is the most records whose bytes fit. */
  lemma {:induction false} WholeInIsMost(es: seq<Record>, first: nat, n: nat, k: nat)
    requires k <= |es|
    ensures k <= WholeIn(es, n) <==> |EncodeAll(es[..k], first)| <= n
  {
    if k > 0 {
      assert es[..k][1..] == es[1..][..k - 1] && es[..k][0] == es[0];
      if n >= HEADER + |es[0].payload| {
        WholeInIsMost(es[1..], first + 1, n - HEADER - |es[0].payload|, k - 1);
      }
    }
  }

  lemma CutFirst(e: Record, index: nat, rest: seq<Byte>, n: nat)
    requires Fits(e) && index < Span(8) && n < HEADER + |e.payload|
    ensures Scan((Encode(e, index) + rest)[..n], index) == []
  {
    hide ParseRecord, Encode;
    assert (Encode(e, index) + rest)[..n] == Encode(e, index)[..n];
    ParseTorn(e, index, n);
  }

  lemma CutLater(e: Record, index: nat, rest: seq<Byte>, n: nat)
    requires Fits(e) && index < Span(8) && HEADER + |e.payload| <= n <= HEADER + |e.payload| + |rest|
    ensures Scan((Encode(e, index) + rest)[..n], index) ==
            if |e.payload| <= MAX_PAYLOAD then [e] + Scan(rest[..n - HEADER - |e.payload|], index + 1) else []
  {
    hide Encode, Scan;
    var m := n - HEADER - |e.payload|;
    assert (Encode(e, index) + rest)[..n] == Encode(e, index) + rest[..m];
    ScanFirst(e, index, rest[..m]);
  }

  lemma LegalCut(es: seq<Record>, k: nat)
    requires 0 < k <= |es|
    ensures Legal(es[..k]) == if |es[0].payload| <= MAX_PAYLOAD then [es[0]] + Legal(es[1..][..k - 1]) else []
  {
    assert es[..k][1..] == es[1..][..k - 1] && es[..k][0] == es[0];
  }

  /** Cutting the file at any byte keeps exactly the entries whose records are whole. */
  lemma {:induction false} ScanCut(es: seq<Record>, first: nat, n: nat)
    requires AllFit(es, first) && first >= 1 && n <= |EncodeAll(es, first)|
    ensures Scan(EncodeAll(es, first)[..n], first) == Legal(es[..WholeIn(es, n)])
  {
    if es != [] {
      hide ParseRecord, Encode, Scan, Legal, Fits, Span;
      var len, rest := HEADER + |es[0].payload|, EncodeAll(es[1..], first + 1);
      if n < len {
        CutFirst(es[0], first, rest, n);
      } else {
        CutLater(es[0], first, rest, n);
        ScanCut(es[1..], first + 1, n - len);
        LegalCut(es, WholeIn(es, n));
      }
    } else {
      hide ParseRecord;
      assert EncodeAll(es, first)[..n] == [];
      assert Scan([], first) == [] by { ParseZeros([], first); }
    }
  }

  /** The bytes the records of these entries take. */
  function Extent(es: seq<Record>): (n: nat) {
    if es == [] then 0 else Extent(es[..|es| - 1]) + HEADER + |es[|es| - 1].payload|
  }

  lemma ExtentPush(es: seq<Record>, e: Record)
    ensures Extent(es + [e]) == Extent(es) + HEADER + |e.payload|
  {
    assert (es + [e])[..|es|] == es;
  }

  lemma {:induction false} ExtentIsLength(es: seq<Record>, first: nat)
    ensures |EncodeAll(es, first)| == Extent(es)
  {
    if es != [] {
      var n := |es| - 1;
      ExtentIsLength(es[..n], first);
      assert es == es[..n] + [es[n]];
      EncodeLast(es[..n], es[n], first);
    }
  }

  /** The part of the file a scan accepts is the encoding of what it returns. */
  lemma {:induction false} ScannedIsEncoded(s: seq<Byte>, expected: nat)
    ensures var es := Scan(s, expected);
            |EncodeAll(es, expected)| <= |s| && s[..|EncodeAll(es, expected)|] == EncodeAll(es, expected)
            && (es != [] ==> AllFit(es, expected))
    decreases |s|
  {
    hide ParseRecord, Encode, Fits, Span;
    var p := ParseRecord(s, expected);
    if p.Whole? {
      var n := HEADER + |p.e.payload|;
      ParsedIsEncoded(s, expected);
      ScannedIsEncoded(s[n..], expected + 1);
      var rest := Scan(s[n..], expected + 1);
      var m := |EncodeAll(rest, expected + 1)|;
      assert Scan(s, expected)[1..] == rest;
      assert s[..n + m] == s[..n] + s[n..][..m];
    }
  }

  /** Where each record begins, for records laid out from `start`. */
  ghost predicate OffsetsOf(start: nat, es: seq<Record>, offsets: seq<nat>) {
    |offsets| == |es| && forall i :: 0 <= i < |es| ==> offsets[i] == start + Extent(es[..i])
  }

  lemma OffsetsPush(start: nat, es: seq<Record>, offsets: seq<nat>, e: Record)
    requires OffsetsOf(start, es, offsets)
    ensures OffsetsOf(start, es + [e], offsets + [start + Extent(es)])
  {
    hide Extent;
    assert forall i :: 0 <= i <= |es| ==> (es + [e])[..i] == es[..i];
    assert es[..|es|] == es;
  }

  /** The scan so far, and what is left to scan, make up the whole scan. */
  ghost predicate ScannedTo(file: seq<Byte>, start: nat, base: nat, es: seq<Record>, end: nat) {
    && start <= end <= |file| && end == start + Extent(es)
    && es + Scan(file[end..], base + |es| + 1) == Scan(file[start..], base + 1)
  }

  lemma ScanStep(file: seq<Byte>, start: nat, base: nat, es: seq<Record>, end: nat, e: Record)
    requires ScannedTo(file, start, base, es, end)
    requires ParseRecord(file[end..], base + |es| + 1) == Whole(e)
    ensures ScannedTo(file, start, base, es + [e], end + HEADER + |e.payload|)
  {
    hide ParseRecord, Extent;
    ExtentPush(es, e);
    var next := end + HEADER + |e.payload|;
    assert file[end..][HEADER + |e.payload|..] == file[next..];
    var rest := Scan(file[next..], base + |es| + 2);
    assert es + ([e] + rest) == (es + [e]) + rest;
  }

  lemma ScanStart(file: seq<Byte>, start: nat, base: nat)
    requires start <= |file|
    ensures ScannedTo(file, start, base, [], start) && OffsetsOf(start, [], [])
  {
    assert [] + Scan(file[start..], base + 1) == Scan(file[start..], base + 1);
  }

  lemma ScanEnd(file: seq<Byte>, start: nat, base: nat, es: seq<Record>, end: nat)
    requires ScannedTo(file, start, base, es, end) && ParseRecord(file[end..], base + |es| + 1) == Stop
    ensures es == Scan(file[start..], base + 1) && end == start + Extent(es)
  {
    hide ParseRecord;
    assert es + [] == es;
  }

  /** The recovery loop: read records from `start` while they are acceptable, noting where each begins. */
  method Recover(file: seq<Byte>, start: nat, base: nat) returns (es: seq<Record>, offsets: seq<nat>, end: nat)
    requires start <= |file|
    ensures es == Scan(file[start..], base + 1)
    ensures OffsetsOf(start, es, offsets) && end == start + Extent(es) <= |file|
  {
    hide ParseRecord, Scan, Extent, OffsetsOf;
    es, offsets, end := [], [], start;
    ScanStart(file, start, base);
    while true
      invariant ScannedTo(file, start, base, es, end) && OffsetsOf(start, es, offsets)
      decreases |file| - end
    {
      var p := ParseRecord(file[end..], base + |es| + 1);
      if p.Stop? { break; }
      assert ParseRecord(file[end..], base + |es| + 1) == Whole(p.e);
      ScanStep(file, start, base, es, end, p.e);
      OffsetsPush(start, es, offsets, p.e);
      offsets := offsets + [end];
      end := end + HEADER + |p.e.payload|;
      es := es + [p.e];
    }
    ScanEnd(file, start, base, es, end);
  }
}
