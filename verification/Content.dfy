/** Message bodies on the wire (section 4.2.6 of AMQP 0-9-1): cut into body frames, and put together again. */
module Content {
  import opened Bytes
  import opened Frames
  import opened Sequences

  const DEFAULT_FRAME_MAX: nat := 131072
  const CLASS_BASIC: nat := 60

  // ---- sending ----

  /** The pieces of a body, each of at most `chunk` bytes. */
  function Pieces(body: seq<Byte>, chunk: nat): (r: seq<seq<Byte>>)
    requires chunk > 0
    decreases |body|
  {
    if body == [] then []
    else
      var n := if |body| < chunk then |body| else chunk;
      [body[..n]] + Pieces(body[n..], chunk)
  }

  /** Nothing is lost or empty, and every piece but the last is full. */
  lemma {:induction false} PiecesCover(body: seq<Byte>, chunk: nat)
    requires chunk > 0
    ensures Flatten(Pieces(body, chunk)) == body
    ensures forall i :: 0 <= i < |Pieces(body, chunk)| ==> 0 < |Pieces(body, chunk)[i]| <= chunk
    ensures forall i :: 0 <= i < |Pieces(body, chunk)| - 1 ==> |Pieces(body, chunk)[i]| == chunk
    decreases |body|
  {
    if body != [] {
      var n := if |body| < chunk then |body| else chunk;
      PiecesCover(body[n..], chunk);
      assert body == body[..n] + body[n..];
      var rest := Pieces(body[n..], chunk);
      forall i | 0 <= i < |Pieces(body, chunk)|
        ensures 0 < |Pieces(body, chunk)[i]| <= chunk
        ensures i < |Pieces(body, chunk)| - 1 ==> |Pieces(body, chunk)[i]| == chunk
      {
        if i > 0 { assert Pieces(body, chunk)[i] == rest[i - 1]; }
      }
    }
  }

  function BodyFrames(channel: nat, pieces: seq<seq<Byte>>): (r: seq<Frame>) {
    seq(|pieces|, i requires 0 <= i < |pieces| => Frame(BODY, channel, pieces[i]))
  }

  /** The chunk size used when answering a client directly: a frame size under 1024 is replaced by the default. */
  function ReplyChunk(frameMax: nat): (c: nat)
    ensures c > 0
  {
    (if frameMax < 1024 then DEFAULT_FRAME_MAX else frameMax) - OVERHEAD
  }

  /** The chunk size used for deliveries: no agreed size means the default, and one too small for a frame 4096. */
  function DeliveryChunk(frameMax: nat): (c: nat)
    ensures c > 0
  {
    var f := if frameMax != 0 then frameMax else DEFAULT_FRAME_MAX;
    if f > OVERHEAD then f - OVERHEAD else 4096
  }

  /** The sending loop of a reply. */
  method SendBody(channel: nat, body: seq<Byte>, chunk: nat) returns (frames: seq<Frame>)
    requires chunk > 0
    ensures frames == BodyFrames(channel, Pieces(body, chunk))
  {
    hide Pieces, BodyFrames;
    frames := [];
    var p := 0;
    ghost var sent: seq<seq<Byte>> := [];
    assert body[0..] == body && sent + Pieces(body, chunk) == Pieces(body, chunk);
    assert BodyFrames(channel, []) == [] by { NoFrames(channel); }
    while p < |body|
      invariant 0 <= p <= |body|
      invariant sent + Pieces(body[p..], chunk) == Pieces(body, chunk)
      invariant frames == BodyFrames(channel, sent)
    {
      var n := if |body| - p < chunk then |body| - p else chunk;
      NextPiece(body, p, n, chunk, sent);
      BodyFramesPush(channel, sent, body[p..p + n]);
      sent := sent + [body[p..p + n]];
      frames := frames + [Frame(BODY, channel, body[p..p + n])];
      p := p + n;
    }
    assert body[p..] == [] && sent + [] == sent;
    assert Pieces([], chunk) == [] by { NoPieces(chunk); }
  }

  lemma NoPieces(chunk: nat)
    requires chunk > 0
    ensures Pieces([], chunk) == []
  {
  }

  lemma NoFrames(channel: nat)
    ensures BodyFrames(channel, []) == []
  {
  }

  lemma NextPiece(body: seq<Byte>, p: nat, n: nat, chunk: nat, sent: seq<seq<Byte>>)
    requires p < |body| && chunk > 0 && n == if |body| - p < chunk then |body| - p else chunk
    ensures sent + Pieces(body[p..], chunk) == (sent + [body[p..p + n]]) + Pieces(body[p + n..], chunk)
  {
    assert body[p..][..n] == body[p..p + n] && body[p..][n..] == body[p + n..];
    assert Pieces(body[p..], chunk) == [body[p..p + n]] + Pieces(body[p + n..], chunk);
  }

  lemma BodyFramesPush(channel: nat, pieces: seq<seq<Byte>>, piece: seq<Byte>)
    ensures BodyFrames(channel, pieces + [piece]) == BodyFrames(channel, pieces) + [Frame(BODY, channel, piece)]
  {
  }

  ghost predicate AllFit(frames: seq<Frame>, limit: nat) {
    forall i :: 0 <= i < |frames| ==> |Write(frames[i])| <= limit
  }

  lemma FirstPiece(body: seq<Byte>, chunk: nat)
    requires chunk > 0 && body != []
    ensures Pieces(body, chunk) != [] && |Pieces(body, chunk)[0]| == if |body| < chunk then |body| else chunk
  {
  }

  /** Every body frame of a reply fits the agreed frame size exactly when that size is at least 1024, or the body is
      empty, or the whole body fits one frame of that size: below 1024 the default is used instead. */
  lemma ReplyFitsIff(channel: nat, body: seq<Byte>, frameMax: nat)
    ensures AllFit(BodyFrames(channel, Pieces(body, ReplyChunk(frameMax))), frameMax) <==>
            frameMax >= 1024 || body == [] || |body| + OVERHEAD <= frameMax
  {
    var chunk := ReplyChunk(frameMax);
    var frames := BodyFrames(channel, Pieces(body, chunk));
    PiecesCover(body, chunk);
    hide Pieces, Flatten, Write;
    if body != [] {
      FirstPiece(body, chunk);
      if frameMax < 1024 && |body| + OVERHEAD <= frameMax { OnePiece(body, chunk); }
      assert |Write(frames[0])| == |Pieces(body, chunk)[0]| + OVERHEAD;
    }
  }

  /** A delivery's body frames fit the agreed size exactly when that size has room for some payload or the body is
      empty. */
  lemma DeliveryFitsIff(channel: nat, body: seq<Byte>, frameMax: nat)
    requires frameMax != 0
    ensures AllFit(BodyFrames(channel, Pieces(body, DeliveryChunk(frameMax))), frameMax) <==>
            frameMax > OVERHEAD || body == []
  {
    var chunk := DeliveryChunk(frameMax);
    var frames := BodyFrames(channel, Pieces(body, chunk));
    PiecesCover(body, chunk);
    if body != [] {
      FirstPiece(body, chunk);
      hide Pieces;
      assert |Write(frames[0])| == |Pieces(body, chunk)[0]| + OVERHEAD;
    }
  }

  /** How large the frames are: a reply's full frames take exactly the agreed size, or the default where that is under
      1024; a delivery's take the agreed size, the default where none is agreed, and 4104 where it has no room for a
      payload. */
  lemma FullFrames(channel: nat, body: seq<Byte>, frameMax: nat, i: nat)
    ensures var frames := BodyFrames(channel, Pieces(body, ReplyChunk(frameMax)));
            i + 1 < |frames| ==> |Write(frames[i])| == if frameMax >= 1024 then frameMax else 131072
    ensures var frames := BodyFrames(channel, Pieces(body, DeliveryChunk(frameMax)));
            i + 1 < |frames| ==>
              |Write(frames[i])| == if frameMax == 0 then 131072 else if frameMax > 8 then frameMax else 4104
  {
    PiecesCover(body, ReplyChunk(frameMax));
    PiecesCover(body, DeliveryChunk(frameMax));
    hide Pieces, Flatten;
  }

  lemma OnePiece(body: seq<Byte>, chunk: nat)
    requires 0 < |body| <= chunk
    ensures Pieces(body, chunk) == [body]
  {
    assert body[..|body|] == body && body[|body|..] == [];
  }

  /** The bytes of a delivered body: a body that fits one frame is streamed between a frame header and an end octet
      without being copied; any other body is written frame by frame. */
  function DeliveredBody(channel: nat, body: seq<Byte>, chunk: nat): (s: seq<Byte>)
    requires chunk > 0
  {
    if 0 < |body| <= chunk then ([BODY] + Be(2, channel) + Be(4, |body|)) + body + [FRAME_END]
    else WriteAll(BodyFrames(channel, Pieces(body, chunk)))
  }

  /** Streaming produces the bytes that writing frame by frame would. */
  lemma StreamedIsWritten(channel: nat, body: seq<Byte>, chunk: nat)
    requires chunk > 0
    ensures DeliveredBody(channel, body, chunk) == WriteAll(BodyFrames(channel, Pieces(body, chunk)))
  {
    if 0 < |body| <= chunk {
      OnePiece(body, chunk);
      var frames := BodyFrames(channel, [body]);
      assert frames == [Frame(BODY, channel, body)];
      assert WriteAll(frames) == Write(frames[0]) + [] == Write(frames[0]);
    }
  }

  // ---- the content header ----

  function HeaderPayload(size: nat, props: seq<Byte>): (s: seq<Byte>) {
    Be(2, CLASS_BASIC) + Be(2, 0) + Be(8, size) + if props != [] then props else Be(2, 0)
  }

  datatype HeaderRead = Malformed | Header(size: nat, props: seq<Byte>)

  function ReadHeader(s: seq<Byte>): (h: HeaderRead) {
    if |s| < 12 then Malformed else Header(FromBe(s[4..12]), s[12..])
  }

  /** The size is read back, and the properties with it; absent properties are read as an empty property list. */
  lemma HeaderRoundTrip(size: nat, props: seq<Byte>)
    requires size < Span(8)
    ensures ReadHeader(HeaderPayload(size, props)) == Header(size, if props != [] then props else [0, 0])
  {
    hide Be, FromBe;
    BeRoundTrip(8, size);
    var s := HeaderPayload(size, props);
    var tail := if props != [] then props else Be(2, 0);
    assert s[4..12] == Be(8, size) && s[12..] == tail;
    assert Be(2, 0) == [0, 0] by { NoProperties(); }
  }

  /** A content header names class 60 and weight 0, then the size, then the properties. */
  lemma HeaderLayout(size: nat, props: seq<Byte>)
    requires size < Span(8)
    ensures var s := HeaderPayload(size, props);
            && |s| >= 12 && s[..4] == [0, 60, 0, 0] && FromBe(s[4..12]) == size
            && s[12..] == if props == [] then [0, 0] else props
  {
    hide FromBe, Span;
    BeRoundTrip(8, size);
    NoProperties();
    ClassBytes();
    hide Be;
    var s := HeaderPayload(size, props);
    assert s[..4] == Be(2, CLASS_BASIC) + Be(2, 0) && s[4..12] == Be(8, size);
  }

  lemma ClassBytes()
    ensures Be(2, CLASS_BASIC) == [0, 60]
  {
    assert Be(1, 0) == Be(0, 0) + [0] && Be(0, 0) == [];
  }

  lemma NoProperties()
    ensures Be(2, 0) == [0, 0]
  {
    assert Be(0, 0) == [] && Be(1, 0) == [] + [0];
  }

  // ---- receiving ----

  /** A publish being received. `buffer` is allocated only once a body turns out to need several frames. */
  datatype Assembly =
    | Idle
    | AwaitHeader(channel: nat)
    | AwaitBody(channel: nat, size: nat, props: seq<Byte>, buffer: Buffer)
    | Failed

  datatype Buffer = NoBuffer | Partial(received: seq<Byte>)

  datatype Outcome = Nothing | Finalised(props: seq<Byte>, body: seq<Byte>)

  function OnHeader(a: Assembly, f: Frame, limit: nat): (r: (Assembly, Outcome))
    requires a.AwaitHeader?
  {
    if f.kind != HEADER || f.channel != a.channel then (Failed, Nothing)
    else
      match ReadHeader(f.payload)
      case Malformed => (Failed, Nothing)
      case Header(size, props) =>
        if size > limit then (Failed, Nothing)
        else if size == 0 then (Idle, Finalised(props, []))
        else (AwaitBody(a.channel, size, props, NoBuffer), Nothing)
  }

  function Received(b: Buffer): (s: seq<Byte>) {
    if b.NoBuffer? then [] else b.received
  }

  function OnBody(a: Assembly, f: Frame): (r: (Assembly, Outcome))
    requires a.AwaitBody?
  {
    if f.kind != BODY || f.channel != a.channel then (Failed, Nothing)
    else if |Received(a.buffer)| + |f.payload| > a.size then (Failed, Nothing)
    else if a.buffer.NoBuffer? && |f.payload| == a.size then (Idle, Finalised(a.props, f.payload))
    else
      var got := Received(a.buffer) + f.payload;
      if |got| == a.size then (Idle, Finalised(a.props, got)) else (a.(buffer := Partial(got)), Nothing)
  }

  /** The direct path for a body in a single frame finalises exactly what accumulating it would. */
  lemma FastPathAgrees(a: Assembly, f: Frame)
    requires a.AwaitBody? && a.buffer.NoBuffer? && |f.payload| == a.size && a.size > 0
    ensures OnBody(a, f) == OnBody(a.(buffer := Partial([])), f)
  {
    assert [] + f.payload == f.payload;
  }

  /** Outside a publish heartbeats are ignored, and any frame but a method frame is fatal. */
  function OnFrame(a: Assembly, f: Frame, limit: nat): (r: (Assembly, Outcome)) {
    match a
    case AwaitHeader(_) => OnHeader(a, f, limit)
    case AwaitBody(_, _, _, _) => OnBody(a, f)
    case Failed => (Failed, Nothing)
    case Idle => (if f.kind == HEARTBEAT || f.kind == METHOD then Idle else Failed, Nothing)
  }

  /** All outcomes of a run of frames, in order, up to the method frame that begins something else. */
  function Receive(a: Assembly, frames: seq<Frame>, limit: nat): (r: (Assembly, seq<Outcome>))
    decreases |frames|
  {
    if frames == [] || (a.Idle? && frames[0].kind == METHOD) then (a, [])
    else
      var step := OnFrame(a, frames[0], limit);
      var rest := Receive(step.0, frames[1..], limit);
      (rest.0, (if step.1.Nothing? then [] else [step.1]) + rest.1)
  }

  /** Once a publish is finalised or has failed, nothing more is finalised before the next method frame; a failure
      stays. */
  lemma {:induction false} NothingMore(a: Assembly, frames: seq<Frame>, limit: nat)
    requires a.Idle? || a.Failed?
    ensures Receive(a, frames, limit).1 == []
    ensures a.Failed? ==> Receive(a, frames, limit).0 == Failed
    decreases |frames|
  {
    if frames != [] && !(a.Idle? && frames[0].kind == METHOD) {
      NothingMore(OnFrame(a, frames[0], limit).0, frames[1..], limit);
    }
  }

  /** A content frame outside a publish is fatal. */
  lemma StrayContentIsFatal(frames: seq<Frame>, limit: nat)
    requires frames != [] && (frames[0].kind == HEADER || frames[0].kind == BODY)
    ensures Receive(Idle, frames, limit) == (Failed, [])
  {
    assert OnFrame(Idle, frames[0], limit) == (Failed, Nothing);
    NothingMore(Failed, frames[1..], limit);
    NothingMore(Idle, frames, limit);
    assert Receive(Idle, frames, limit).0 == Receive(Failed, frames[1..], limit).0;
  }

  /** The frames of one message as they are sent. */
  function ContentFrames(channel: nat, props: seq<Byte>, body: seq<Byte>, chunk: nat): (r: seq<Frame>)
    requires chunk > 0
  {
    [Frame(HEADER, channel, HeaderPayload(|body|, props))] + BodyFrames(channel, Pieces(body, chunk))
  }

  lemma ReceiveGoesOn(a: Assembly, frames: seq<Frame>, limit: nat, next: Assembly)
    requires frames != [] && (a.AwaitHeader? || a.AwaitBody?) && OnFrame(a, frames[0], limit) == (next, Nothing)
    ensures Receive(a, frames, limit) == Receive(next, frames[1..], limit)
  {
    hide OnHeader, OnBody;
    var rest := Receive(next, frames[1..], limit);
    assert [] + rest.1 == rest.1;
  }

  lemma ReceiveEnds(a: Assembly, frames: seq<Frame>, limit: nat, next: Assembly, o: Outcome)
    requires frames != [] && (a.AwaitHeader? || a.AwaitBody?) && OnFrame(a, frames[0], limit) == (next, o)
    requires next.Idle? || next.Failed?
    ensures Receive(a, frames, limit) == (Receive(next, frames[1..], limit).0, if o.Nothing? then [] else [o])
  {
    hide OnHeader, OnBody;
    var out := if o.Nothing? then [] else [o];
    NothingMore(next, frames[1..], limit);
    assert out + [] == out;
  }

  lemma {:induction false} BodyReceived(channel: nat, props: seq<Byte>, so: seq<Byte>, pieces: seq<seq<Byte>>,
                                        a: Assembly,
                                        limit: nat, rest: seq<Frame>)
    requires a.AwaitBody? && a.channel == channel && a.props == props && a.size == |so + Flatten(pieces)| && pieces != []
    requires Received(a.buffer) == so
    requires forall i :: 0 <= i < |pieces| ==> |pieces[i]| > 0
    ensures Receive(a, BodyFrames(channel, pieces) + rest, limit) ==
            (Receive(Idle, rest, limit).0, [Finalised(props, so + Flatten(pieces))])
    decreases |pieces|
  {
    var frames, later := BodyFrames(channel, pieces) + rest, pieces[1..];
    var got := so + pieces[0];
    assert frames[1..] == BodyFrames(channel, later) + rest && so + Flatten(pieces) == got + Flatten(later);
    assert a.buffer.NoBuffer? ==> got == pieces[0];
    if later == [] {
      assert got + [] == got && BodyFrames(channel, later) + rest == rest;
      assert OnBody(a, frames[0]) == (Idle, Finalised(props, got));
      ReceiveEnds(a, frames, limit, Idle, Finalised(props, got));
    } else {
      FlattenNonEmpty(later);
      var next := a.(buffer := Partial(got));
      assert OnBody(a, frames[0]) == (next, Nothing);
      ReceiveGoesOn(a, frames, limit, next);
      BodyReceived(channel, props, got, later, next, limit, rest);
    }
  }

  lemma FlattenNonEmpty(pieces: seq<seq<Byte>>)
    requires pieces != [] && |pieces[0]| > 0
    ensures |Flatten(pieces)| > 0
  {
  }

  /** Every body, cut at any size, is put together again and finalised exactly once, with its properties, whatever frames
      come behind it. */
  lemma ContentRoundTrip(channel: nat, props: seq<Byte>, body: seq<Byte>, chunk: nat, limit: nat, rest: seq<Frame>)
    requires chunk > 0 && |body| <= limit && limit < Span(8)
    ensures Receive(AwaitHeader(channel), ContentFrames(channel, props, body, chunk) + rest, limit) ==
            (Receive(Idle, rest, limit).0, [Finalised(if props != [] then props else [0, 0], body)])
  {
    var frames := ContentFrames(channel, props, body, chunk) + rest;
    var carried := if props != [] then props else [0, 0];
    var pieces := Pieces(body, chunk);
    HeaderAccepted(channel, props, body, limit);
    assert frames[0] == Frame(HEADER, channel, HeaderPayload(|body|, props))
           && frames[1..] == BodyFrames(channel, pieces) + rest;
    hide HeaderPayload, OnFrame, Receive;
    if body == [] {
      assert frames[1..] == rest;
      ReceiveEnds(AwaitHeader(channel), frames, limit, Idle, Finalised(carried, []));
    } else {
      PiecesCover(body, chunk);
      FirstPiece(body, chunk);
      hide Pieces;
      var a := AwaitBody(channel, |body|, carried, NoBuffer);
      ReceiveGoesOn(AwaitHeader(channel), frames, limit, a);
      assert [] + Flatten(pieces) == body;
      BodyReceived(channel, carried, [], pieces, a, limit, rest);
    }
  }

  lemma HeaderAccepted(channel: nat, props: seq<Byte>, body: seq<Byte>, limit: nat)
    requires |body| <= limit && limit < Span(8)
    ensures var carried := if props != [] then props else [0, 0];
            OnFrame(AwaitHeader(channel), Frame(HEADER, channel, HeaderPayload(|body|, props)), limit) ==
            if body == [] then (Idle, Finalised(carried, []))
            else (AwaitBody(channel, |body|, carried, NoBuffer), Nothing)
  {
    HeaderRoundTrip(|body|, props);
    hide ReadHeader, HeaderPayload;
  }

  /** A body over the limit is refused at its header and nothing is finalised. */
  lemma OversizeRefused(channel: nat, props: seq<Byte>, body: seq<Byte>, chunk: nat, limit: nat, rest: seq<Frame>)
    requires chunk > 0 && limit < |body| < Span(8)
    ensures Receive(AwaitHeader(channel), ContentFrames(channel, props, body, chunk) + rest, limit) == (Failed, [])
  {
    var frames := ContentFrames(channel, props, body, chunk) + rest;
    HeaderRoundTrip(|body|, props);
    hide ReadHeader, HeaderPayload;
    ReceiveEnds(AwaitHeader(channel), frames, limit, Failed, Nothing);
    NothingMore(Failed, frames[1..], limit);
  }

  // ---- what is finalised was sent ----

  /** The payloads of these frames, joined. */
  function Payloads(frames: seq<Frame>): (b: seq<Byte>) {
    if frames == [] then [] else frames[0].payload + Payloads(frames[1..])
  }

  ghost predicate AllBody(frames: seq<Frame>, channel: nat) {
    forall i :: 0 <= i < |frames| ==> frames[i].kind == BODY && frames[i].channel == channel
  }

  /** These frames, all body frames of the channel, complete the body. */
  ghost predicate Completes(a: Assembly, frames: seq<Frame>, n: nat, o: Outcome)
    requires a.AwaitBody?
  {
    && n <= |frames| && AllBody(frames[..n], a.channel)
    && o == Finalised(a.props, Received(a.buffer) + Payloads(frames[..n]))
    && |Received(a.buffer) + Payloads(frames[..n])| == a.size
  }

  lemma {:induction false} BodyWasSent(a: Assembly, frames: seq<Frame>, limit: nat) returns (n: nat)
    requires a.AwaitBody? && Receive(a, frames, limit).1 != []
    ensures Receive(a, frames, limit).1 == [Receive(a, frames, limit).1[0]]
    ensures Completes(a, frames, n, Receive(a, frames, limit).1[0])
    decreases |frames|
  {
    var step := OnBody(a, frames[0]);
    if step.1.Nothing? {
      if step.0.Failed? {
        NothingMore(Failed, frames[1..], limit);
        assert false;
      } else {
        n := BodyWasSent(step.0, frames[1..], limit);
        n := n + 1;
        FirstThenRest(a, frames, n, Receive(a, frames, limit).1[0]);
      }
    } else {
      NothingMore(step.0, frames[1..], limit);
      n := 1;
      assert frames[..1] == [frames[0]] && Payloads(frames[..1]) == frames[0].payload + [];
      assert Received(a.buffer) + frames[0].payload == Received(a.buffer) + Payloads(frames[..1]);
    }
  }

  lemma FirstThenRest(a: Assembly, frames: seq<Frame>, n: nat, o: Outcome)
    requires a.AwaitBody? && frames != [] && n > 0 && frames[0].kind == BODY && frames[0].channel == a.channel
    requires Completes(a.(buffer := Partial(Received(a.buffer) + frames[0].payload)), frames[1..], n - 1, o)
    ensures Completes(a, frames, n, o)
  {
    assert frames[..n] == [frames[0]] + frames[1..][..n - 1];
    assert frames[..n][1..] == frames[1..][..n - 1];
    assert Received(a.buffer) + Payloads(frames[..n]) ==
           Received(a.buffer) + frames[0].payload + Payloads(frames[1..][..n - 1]);
  }

  /** For all frames, well-formed or not: at most one message is finalised before the next method frame, and then the
      first frame was a header on the channel, within the limit, with these properties, and behind it came body frames of
      the channel whose payloads join to the body announced. */
  lemma FinalisedWasSent(channel: nat, frames: seq<Frame>, limit: nat) returns (n: nat)
    requires Receive(AwaitHeader(channel), frames, limit).1 != []
    ensures Receive(AwaitHeader(channel), frames, limit).1 == [Receive(AwaitHeader(channel), frames, limit).1[0]]
    ensures var o := Receive(AwaitHeader(channel), frames, limit).1[0];
            && 1 <= n <= |frames| && frames[0].kind == HEADER && frames[0].channel == channel && |frames[0].payload| >= 12
            && AllBody(frames[1..n], channel) && o == Finalised(frames[0].payload[12..], Payloads(frames[1..n]))
            && FromBe(frames[0].payload[4..12]) == |Payloads(frames[1..n])| <= limit
  {
    hide FromBe;
    var step := OnHeader(AwaitHeader(channel), frames[0], limit);
    if step.1.Nothing? {
      if step.0.Failed? {
        NothingMore(Failed, frames[1..], limit);
        assert false;
      } else {
        var k := BodyWasSent(step.0, frames[1..], limit);
        n := k + 1;
        assert frames[1..][..k] == frames[1..n];
        assert [] + Payloads(frames[1..n]) == Payloads(frames[1..n]);
      }
    } else {
      NothingMore(step.0, frames[1..], limit);
      n := 1;
      assert frames[1..1] == [];
    }
  }

  /** The publish fields of a connection; the body buffer is filled in place. */
  class PublishState {
    var active: bool
    var haveHeader: bool
    var fatal: bool
    var channel: nat
    var size: nat
    var received: nat
    var props: seq<Byte>
    var body: array?<Byte>

    ghost predicate Valid() reads this, body {
      && (body == null ==> received == 0)
      && (body != null ==> haveHeader && body.Length == size && received <= size)
    }

    ghost function Value(): (a: Assembly)
      requires Valid()
      reads this, body
    {
      if fatal then Failed
      else if !active then Idle
      else if !haveHeader then AwaitHeader(channel)
      else AwaitBody(channel, size, props, if body == null then NoBuffer else Partial(body[..received]))
    }

    /** Basic.Publish was received on a channel. */
    constructor (ch: nat)
      ensures Valid() && Value() == AwaitHeader(ch)
    {
      active, haveHeader, fatal := true, false, false;
      channel, size, received, props, body := ch, 0, 0, [], null;
    }

    /** Forgets the finished publish. */
    method Reset()
      modifies this
      ensures Valid() && fatal == old(fatal) && (!fatal ==> Value() == Idle)
    {
      active, haveHeader, received, props, body := false, false, 0, [], null;
    }

    method HandleHeader(f: Frame, limit: nat) returns (o: Outcome)
      requires Valid() && Value().AwaitHeader? && body == null
      modifies this
      ensures Valid() && (Value(), o) == OnHeader(old(Value()), f, limit)
    {
      hide FromBe;
      o := Nothing;
      if f.kind != HEADER || f.channel != channel || |f.payload| < 12 {
        fatal := true;
        return;
      }
      var bodySize := FromBe(f.payload[4..12]);
      if bodySize > limit {
        fatal := true;
        return;
      }
      props := f.payload[12..];
      size, received, haveHeader := bodySize, 0, true;
      if bodySize == 0 {
        o := Finalised(props, []);
        Reset();
      }
    }

    method HandleBody(f: Frame) returns (o: Outcome)
      requires Valid() && Value().AwaitBody?
      modifies this, body
      ensures Valid() && (Value(), o) == OnBody(old(Value()), f)
    {
      o := Nothing;
      var n := |f.payload|;
      if f.kind != BODY || f.channel != channel || received + n > size {
        fatal := true;
        return;
      }
      if body == null && received == 0 && n == size {
        o := Finalised(props, f.payload);
        Reset();
        return;
      }
      if body == null { body := new Byte[size]; }
      ghost var so := body[..received];
      forall i | 0 <= i < n { body[received + i] := f.payload[i]; }
      received := received + n;
      assert body[..received] == so + f.payload;
      if received == size {
        o := Finalised(props, body[..size]);
        Reset();
      }
    }

    /** One frame, in whatever state the publish is. */
    method Dispatch(f: Frame, limit: nat) returns (o: Outcome)
      requires Valid() && (Value().AwaitHeader? ==> body == null)
      modifies this, body
      ensures Valid() && (Value(), o) == OnFrame(old(Value()), f, limit)
    {
      hide OnHeader, OnBody;
      o := Nothing;
      if fatal { return; }
      if active {
        if !haveHeader {
          o := HandleHeader(f, limit);
        } else {
          o := HandleBody(f);
        }
      } else if f.kind != HEARTBEAT && f.kind != METHOD {
        fatal := true;
      }
    }
  }
}
