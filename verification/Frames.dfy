/** The frame envelope (section 4.2.3 of AMQP 0-9-1): type, channel, length, payload, end octet. */
module Frames {
  import opened Bytes

  datatype Frame = Frame(kind: Byte, channel: nat, payload: seq<Byte>)

  const HEADER_SIZE: nat := 7
  const OVERHEAD: nat := 8
  const FRAME_END: Byte := 0xCE
  const MAX_FRAME: nat := 16 * 1024 * 1024
  const METHOD: Byte := 1
  const HEADER: Byte := 2
  const BODY: Byte := 3
  const HEARTBEAT: Byte := 8

  function Write(f: Frame): (s: seq<Byte>)
    ensures |s| == |f.payload| + OVERHEAD
  {
    [f.kind] + Be(2, f.channel) + Be(4, |f.payload|) + f.payload + [FRAME_END]
  }

  function WriteAll(frames: seq<Frame>): (s: seq<Byte>) {
    if frames == [] then [] else Write(frames[0]) + WriteAll(frames[1..])
  }

  datatype Parsed = Incomplete | Bad | Got(f: Frame)

  /** One look at the front of the input. */
  function Parse(s: seq<Byte>): (p: Parsed)
    ensures p.Got? ==> |p.f.payload| + OVERHEAD <= |s|
  {
    if |s| < HEADER_SIZE then Incomplete
    else
      var len := FromBe(s[3..7]);
      if len > MAX_FRAME then Bad
      else if |s| < len + OVERHEAD then Incomplete
      else if s[len + OVERHEAD - 1] != FRAME_END then Bad
      else Got(Frame(s[0], FromBe(s[1..3]), s[7..7 + len]))
  }

  /** What has been decided about the front of the input is not changed by later input. */
  lemma ParseStable(s: seq<Byte>, more: seq<Byte>)
    requires !Parse(s).Incomplete?
    ensures Parse(s + more) == Parse(s)
  {
    hide FromBe;
    var t := s + more;
    assert t[3..7] == s[3..7] && t[1..3] == s[1..3] && t[0] == s[0];
    var len := FromBe(s[3..7]);
    if len <= MAX_FRAME {
      assert t[7..7 + len] == s[7..7 + len];
    }
  }

  /** A written frame that is within the size limit is read back, whatever follows it. */
  lemma WriteParse(f: Frame, rest: seq<Byte>)
    requires f.channel < Span(2) && |f.payload| <= MAX_FRAME
    ensures Parse(Write(f) + rest) == Got(f)
  {
    hide Be, FromBe;
    var s, len := Write(f) + rest, |f.payload|;
    assert MAX_FRAME < Span(4);
    BeRoundTrip(2, f.channel);
    BeRoundTrip(4, len);
    assert s[0] == f.kind && s[1..3] == Be(2, f.channel) && s[3..7] == Be(4, len);
    assert s[7..7 + len] == f.payload && s[len + 7] == FRAME_END;
  }

  /** Where each field of a frame is on the wire: type, channel and length in front, the end octet 206 behind. */
  lemma FrameLayout(f: Frame)
    requires f.channel < Span(2) && |f.payload| < Span(4)
    ensures var s, n := Write(f), |f.payload|;
            && |s| == n + 8 && s[0] == f.kind && s[7..n + 7] == f.payload && s[n + 7] == 206
            && s[1] as nat * 256 + s[2] as nat == f.channel && FromBe(s[3..7]) == n
  {
    hide Be, FromBe, Span;
    var s, n := Write(f), |f.payload|;
    BeRoundTrip(2, f.channel);
    BeRoundTrip(4, n);
    assert s[1..3] == Be(2, f.channel) && s[3..7] == Be(4, n) && s[7..n + 7] == f.payload;
    TwoBytes(s[1..3]);
  }

  lemma TwoBytes(s: seq<Byte>)
    requires |s| == 2
    ensures FromBe(s) == s[0] as nat * 256 + s[1] as nat
  {
    assert s[..1][..0] == [];
    assert FromBe(s[..1]) == s[0] as nat;
  }

  /** What is read as a frame is exactly its written form. */
  lemma ParseWrite(s: seq<Byte>)
    requires Parse(s).Got?
    ensures var f := Parse(s).f;
            f.channel < Span(2) && |f.payload| <= MAX_FRAME && s[..|f.payload| + OVERHEAD] == Write(f)
  {
    hide Be, FromBe, Span;
    var f := Parse(s).f;
    FromBeRoundTrip(s[1..3]);
    FromBeRoundTrip(s[3..7]);
    var n := |f.payload| + OVERHEAD;
    assert s[..n] == [s[0]] + s[1..3] + s[3..7] + s[7..n - 1] + [s[n - 1]];
  }

  /** The output buffer, in which a frame's length is filled in once its payload is known. */
  class FrameBuffer {
    var data: seq<Byte>
    var error: bool

    constructor ()
      ensures data == [] && !error
    {
      data, error := [], false;
    }

    method Put(bytes: seq<Byte>)
      modifies this`data
      ensures data == old(data) + bytes
    {
      data := data + bytes;
    }

    method WriteFrame(f: Frame)
      modifies this`data
      ensures data == old(data) + Write(f)
    {
      Put([f.kind]);
      Put(Be(2, f.channel));
      Put(Be(4, |f.payload|));
      Put(f.payload);
      Put([FRAME_END]);
      Reassociate(old(data), f);
    }

    /** Starts a frame with a length still open; returns where its payload begins. */
    method Begin(kind: Byte, channel: nat) returns (start: nat)
      modifies this`data
      ensures data == old(data) + Opened(kind, channel) && start == |data|
    {
      data := data + Opened(kind, channel);
      start := |data|;
    }

    /** Completes the frame begun at `start`: the same bytes as writing it whole. A payload too long for the length
        field is refused. */
    method Finish(start: nat, ghost before: seq<Byte>, ghost f: Frame)
      requires !error && data == before + Opened(f.kind, f.channel) + f.payload && start == |before| + HEADER_SIZE
      modifies this
      ensures error == (|f.payload| >= Span(4))
      ensures data == if error then old(data) else before + Write(f)
    {
      assert Span(4) == 0x1_0000_0000;
      hide Be;
      var len := |data| - start;
      if len > 0xFFFF_FFFF {
        error := true;
        return;
      }
      data := data[..start - 4] + Be(4, len) + data[start..];
      data := data + [FRAME_END];
      Patched(before, f);
    }
  }

  /** A frame header whose length is still zero. */
  function Opened(kind: Byte, channel: nat): (s: seq<Byte>)
    ensures |s| == HEADER_SIZE
  {
    [kind] + Be(2, channel) + Be(4, 0)
  }

  lemma Reassociate(before: seq<Byte>, f: Frame)
    ensures before + [f.kind] + Be(2, f.channel) + Be(4, |f.payload|) + f.payload + [FRAME_END] == before + Write(f)
  {
    hide Be;
  }

  lemma Patched(before: seq<Byte>, f: Frame)
    ensures var data, start := before + Opened(f.kind, f.channel) + f.payload, |before| + HEADER_SIZE;
            data[..start - 4] + Be(4, |f.payload|) + data[start..] + [FRAME_END] == before + Write(f)
  {
    hide Be;
    var data, start := before + Opened(f.kind, f.channel) + f.payload, |before| + HEADER_SIZE;
    assert data[..start - 4] == before + [f.kind] + Be(2, f.channel);
    assert data[start..] == f.payload;
  }
}
