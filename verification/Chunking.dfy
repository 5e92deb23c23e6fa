/** The receive side of a connection: bytes arrive in arbitrary pieces, frames leave in order. */
module Chunking {
  import opened Bytes
  import opened Frames
  import opened Sequences

  /** The greeting: "AMQP", 0, 0, 9, 1. */
  const GREETING: seq<Byte> := [65, 77, 81, 80, 0, 0, 9, 1]

  datatype Fault = NoFault | BadGreeting | BadFraming | FrameTooLarge

  /** What handling a frame leads to: the application state, the agreed frame size (0 before it is agreed),
      and whether the connection is closing. */
  datatype Reaction<S> = Reaction(app: S, frameMax: nat, closing: bool)

  /** The connection as far as input is concerned; `seen` lists the frames dispatched so far. */
  datatype Conn<S> = Conn(app: S, frameMax: nat, closing: bool, greeted: bool, fault: Fault, seen: seq<Frame>)

  function Fail<S>(c: Conn<S>, f: Fault): (r: Conn<S>) {
    c.(closing := true, fault := f)
  }

  function Dispatch<S>(h: (S, Frame) -> Reaction<S>, c: Conn<S>, f: Frame): (r: Conn<S>) {
    var e := h(c.app, f);
    Conn(e.app, e.frameMax, e.closing, c.greeted, c.fault, c.seen + [f])
  }

  /** Dispatch every complete frame at the front of the buffer. */
  function Drain<S>(h: (S, Frame) -> Reaction<S>, c: Conn<S>, buf: seq<Byte>): (r: (Conn<S>, seq<Byte>))
    decreases |buf|
  {
    if c.closing then (c, buf)
    else
      match Parse(buf)
      case Incomplete => (c, buf)
      case Bad => (Fail(c, BadFraming), buf)
      case Got(f) =>
        if c.frameMax > 0 && |f.payload| > c.frameMax then (Fail(c, FrameTooLarge), buf)
        else Drain(h, Dispatch(h, c, f), buf[|f.payload| + OVERHEAD..])
  }

  /** Work through the buffer: the greeting once, then frames. */
  function Process<S>(h: (S, Frame) -> Reaction<S>, c: Conn<S>, buf: seq<Byte>): (r: (Conn<S>, seq<Byte>)) {
    if c.closing then (c, buf)
    else if c.greeted then Drain(h, c, buf)
    else if |buf| < |GREETING| then (c, buf)
    else if buf[..|GREETING|] != GREETING then (Fail(c, BadGreeting), buf)
    else Drain(h, c.(greeted := true), buf[|GREETING|..])
  }

  /** Reads one after the other; what a read leaves over is kept for the next. */
  function Feed<S>(h: (S, Frame) -> Reaction<S>, c: Conn<S>, buf: seq<Byte>, pieces: seq<seq<Byte>>)
    : (r: (Conn<S>, seq<Byte>))
    decreases |pieces|
  {
    if pieces == [] then (c, buf)
    else
      var step := if c.closing then (c, buf) else Process(h, c, buf + pieces[0]);
      Feed(h, step.0, step.1, pieces[1..])
  }

  /** Same connection, and while it is open the same bytes still waiting. */
  ghost predicate Same<S>(a: (Conn<S>, seq<Byte>), b: (Conn<S>, seq<Byte>)) {
    a.0 == b.0 && (!a.0.closing ==> a.1 == b.1)
  }

  /** Draining in two steps is draining at once. */
  lemma {:induction false} DrainSplit<S>(h: (S, Frame) -> Reaction<S>, c: Conn<S>, a: seq<Byte>, b: seq<Byte>)
    ensures var first := Drain(h, c, a);
            Same(Drain(h, c, a + b), if first.0.closing then first else Drain(h, first.0, first.1 + b))
    decreases |a|
  {
    hide Parse;
    if !c.closing && !Parse(a).Incomplete? {
      ParseStable(a, b);
      if Parse(a).Got? {
        var f := Parse(a).f;
        var n := |f.payload| + OVERHEAD;
        if !(c.frameMax > 0 && |f.payload| > c.frameMax) {
          assert (a + b)[n..] == a[n..] + b;
          DrainSplit(h, Dispatch(h, c, f), a[n..], b);
        }
      }
    }
  }

  lemma ProcessSplit<S>(h: (S, Frame) -> Reaction<S>, c: Conn<S>, a: seq<Byte>, b: seq<Byte>)
    ensures var first := Process(h, c, a);
            Same(Process(h, c, a + b), if first.0.closing then first else Process(h, first.0, first.1 + b))
  {
    hide Drain, Parse;
    if c.closing {
    } else if c.greeted {
      DrainSplit(h, c, a, b);
      DrainKeepsGreeted(h, c, a);
    } else if |a| >= |GREETING| {
      assert (a + b)[..|GREETING|] == a[..|GREETING|];
      if a[..|GREETING|] == GREETING {
        assert (a + b)[|GREETING|..] == a[|GREETING|..] + b;
        DrainSplit(h, c.(greeted := true), a[|GREETING|..], b);
        DrainKeepsGreeted(h, c.(greeted := true), a[|GREETING|..]);
      }
    }
  }

  lemma {:induction false} DrainKeepsGreeted<S>(h: (S, Frame) -> Reaction<S>, c: Conn<S>, buf: seq<Byte>)
    requires c.greeted
    ensures Drain(h, c, buf).0.greeted
    decreases |buf|
  {
    if !c.closing && Parse(buf).Got? {
      var f := Parse(buf).f;
      if !(c.frameMax > 0 && |f.payload| > c.frameMax) {
        DrainKeepsGreeted(h, Dispatch(h, c, f), buf[|f.payload| + OVERHEAD..]);
      }
    }
  }

  lemma ClosedIgnoresInput<S>(h: (S, Frame) -> Reaction<S>, c: Conn<S>, buf: seq<Byte>, pieces: seq<seq<Byte>>)
    requires c.closing
    ensures Feed(h, c, buf, pieces) == (c, buf)
    decreases |pieces|
  {
  }

  /** However a byte stream is cut into reads, the same frames are dispatched in the same order and the connection
      ends in the same state as if the stream had arrived in one read. */
  lemma {:induction false} ChunkingIndependent<S>(h: (S, Frame) -> Reaction<S>, c: Conn<S>, buf: seq<Byte>,
                                                  pieces: seq<seq<Byte>>)
    requires !c.closing && Process(h, c, buf) == (c, buf)
    ensures Same(Feed(h, c, buf, pieces), Process(h, c, buf + Flatten(pieces)))
    decreases |pieces|
  {
    hide Process, Drain;
    if pieces == [] {
      assert buf + [] == buf;
    } else {
      var step := Process(h, c, buf + pieces[0]);
      assert buf + Flatten(pieces) == (buf + pieces[0]) + Flatten(pieces[1..]);
      ProcessSplit(h, c, buf + pieces[0], Flatten(pieces[1..]));
      if step.0.closing {
        ClosedIgnoresInput(h, step.0, step.1, pieces[1..]);
      } else {
        ProcessSettles(h, c, buf + pieces[0]);
        ChunkingIndependent(h, step.0, step.1, pieces[1..]);
      }
    }
  }

  /** What is left after processing gives nothing more by itself. */
  lemma ProcessSettles<S>(h: (S, Frame) -> Reaction<S>, c: Conn<S>, buf: seq<Byte>)
    ensures var r := Process(h, c, buf);
            Same(Process(h, r.0, r.1), r)
  {
    hide Drain;
    if !c.closing {
      if c.greeted {
        DrainSettles(h, c, buf);
        DrainKeepsGreeted(h, c, buf);
      } else if |buf| >= |GREETING| && buf[..|GREETING|] == GREETING {
        DrainSettles(h, c.(greeted := true), buf[|GREETING|..]);
        DrainKeepsGreeted(h, c.(greeted := true), buf[|GREETING|..]);
      }
    }
  }

  lemma {:induction false} DrainSettles<S>(h: (S, Frame) -> Reaction<S>, c: Conn<S>, buf: seq<Byte>)
    ensures var r := Drain(h, c, buf);
            Same(Drain(h, r.0, r.1), r)
    decreases |buf|
  {
    hide Parse;
    if !c.closing && Parse(buf).Got? {
      var f := Parse(buf).f;
      if !(c.frameMax > 0 && |f.payload| > c.frameMax) {
        DrainSettles(h, Dispatch(h, c, f), buf[|f.payload| + OVERHEAD..]);
      }
    }
  }

  /** From a new connection, any two ways of cutting the same stream lead to the same place. */
  lemma AnyTwoCutsAgree<S>(h: (S, Frame) -> Reaction<S>, app: S, x: seq<seq<Byte>>, y: seq<seq<Byte>>)
    requires Flatten(x) == Flatten(y)
    ensures var c := Conn(app, 0, false, false, NoFault, []);
            Same(Feed(h, c, [], x), Feed(h, c, [], y))
  {
    var c := Conn(app, 0, false, false, NoFault, []);
    assert Process(h, c, []) == (c, []);
    ChunkingIndependent(h, c, [], x);
    ChunkingIndependent(h, c, [], y);
  }

  // ---- what arrives is what was sent ----

  /** The written form of legal frames is dispatched frame by frame; all of them, unless the connection closes first. */
  lemma {:induction false} SentIsSeen<S>(h: (S, Frame) -> Reaction<S>, c: Conn<S>, frames: seq<Frame>)
    requires forall i :: 0 <= i < |frames| ==> frames[i].channel < Span(2) && |frames[i].payload| <= MAX_FRAME
    ensures var r := Drain(h, c, WriteAll(frames));
            && c.seen <= r.0.seen <= c.seen + frames
            && (!r.0.closing ==> r.0.seen == c.seen + frames && r.1 == [])
    decreases |frames|
  {
    hide Parse, Write;
    if frames == [] {
      assert c.seen + frames == c.seen;
      assert Parse([]) == Incomplete by { NothingParses(); }
    } else if !c.closing {
      var f, rest := frames[0], WriteAll(frames[1..]);
      WriteParse(f, rest);
      assert (Write(f) + rest)[|f.payload| + OVERHEAD..] == rest;
      if !(c.frameMax > 0 && |f.payload| > c.frameMax) {
        SentIsSeen(h, Dispatch(h, c, f), frames[1..]);
        assert c.seen + [f] + frames[1..] == c.seen + frames;
      }
    }
  }

  lemma NothingParses()
    ensures Parse([]) == Incomplete
  {
  }

  /** Every byte is accounted for, whatever arrives: what has been worked through is exactly the written form of the
      frames dispatched, and what is left waits for more bytes unless the connection is closing. A fault is the one
      that the next bytes show: a frame broken at its length or end, or one over the size agreed. */
  lemma {:induction false} EveryByteAccounted<S>(h: (S, Frame) -> Reaction<S>, c: Conn<S>, buf: seq<Byte>)
    requires c.fault == NoFault
    ensures var r := Drain(h, c, buf);
            && c.seen <= r.0.seen && buf == WriteAll(r.0.seen[|c.seen|..]) + r.1
            && (!r.0.closing ==> Parse(r.1).Incomplete? && r.0.fault == NoFault)
            && (r.0.fault == BadFraming ==> Parse(r.1).Bad?)
            && (r.0.fault == FrameTooLarge ==> Parse(r.1).Got? && 0 < r.0.frameMax < |Parse(r.1).f.payload|)
            && r.0.fault != BadGreeting && (r.0.fault != NoFault ==> r.0.closing)
    decreases |buf|
  {
    hide Parse, Write, WriteAll;
    assert WriteAll(c.seen[|c.seen|..]) + buf == buf by { NothingWritten(c.seen, buf); }
    if !c.closing && Parse(buf).Got? && !(c.frameMax > 0 && |Parse(buf).f.payload| > c.frameMax) {
      var f := Parse(buf).f;
      var n := |f.payload| + OVERHEAD;
      ParseWrite(buf);
      EveryByteAccounted(h, Dispatch(h, c, f), buf[n..]);
      var r := Drain(h, Dispatch(h, c, f), buf[n..]);
      assert r == Drain(h, c, buf);
      hide Drain;
      OneMoreFrame(c.seen, f, r.0.seen, buf, r.1);
    }
  }

  lemma NothingWritten(seen: seq<Frame>, buf: seq<Byte>)
    ensures WriteAll(seen[|seen|..]) + buf == buf
  {
    assert seen[|seen|..] == [] && [] + buf == buf;
  }

  lemma OneMoreFrame(before: seq<Frame>, f: Frame, after: seq<Frame>, buf: seq<Byte>, rest: seq<Byte>)
    requires before + [f] <= after && |Write(f)| <= |buf| && buf[..|Write(f)|] == Write(f)
    requires buf[|Write(f)|..] == WriteAll(after[|before + [f]|..]) + rest
    ensures before <= after && buf == WriteAll(after[|before|..]) + rest
  {
    hide Write;
    var more := after[|before|..];
    assert more[0] == f && more[1..] == after[|before + [f]|..];
    assert buf == buf[..|Write(f)|] + buf[|Write(f)|..];
  }

  /** No frame over the size agreed is dispatched. */
  lemma OversizeIsFatal<S>(h: (S, Frame) -> Reaction<S>, c: Conn<S>, f: Frame, rest: seq<Byte>)
    requires !c.closing && f.channel < Span(2) && |f.payload| <= MAX_FRAME
    ensures var r := Drain(h, c, Write(f) + rest);
            if 0 < c.frameMax < |f.payload| then r.0 == c.(closing := true, fault := FrameTooLarge)
            else |r.0.seen| > |c.seen| && r.0.seen[..|c.seen| + 1] == c.seen + [f]
  {
    hide Parse, Write;
    WriteParse(f, rest);
    if !(0 < c.frameMax < |f.payload|) {
      assert (Write(f) + rest)[|f.payload| + OVERHEAD..] == rest;
      DrainExtends(h, Dispatch(h, c, f), rest);
    }
  }

  lemma {:induction false} DrainExtends<S>(h: (S, Frame) -> Reaction<S>, c: Conn<S>, buf: seq<Byte>)
    ensures c.seen <= Drain(h, c, buf).0.seen
    decreases |buf|
  {
    hide Parse;
    if !c.closing && Parse(buf).Got? && !(c.frameMax > 0 && |Parse(buf).f.payload| > c.frameMax) {
      DrainExtends(h, Dispatch(h, c, Parse(buf).f), buf[|Parse(buf).f.payload| + OVERHEAD..]);
    }
  }

  /** A new connection waits for eight bytes, and goes on if and only if they are "AMQP", 0, 0, 9, 1. */
  lemma GreetingDecides<S>(h: (S, Frame) -> Reaction<S>, app: S, buf: seq<Byte>)
    ensures var c := Conn(app, 0, false, false, NoFault, []);
            var r := Process(h, c, buf);
            && (|buf| < 8 ==> r == (c, buf))
            && (|buf| >= 8 ==> (r.0.fault == BadGreeting <==> buf[..8] != [65, 77, 81, 80, 0, 0, 9, 1]))
            && (|buf| >= 8 && buf[..8] != [65, 77, 81, 80, 0, 0, 9, 1] ==> r.0.closing && r.0.seen == [])
            && (|buf| >= 8 && buf[..8] == [65, 77, 81, 80, 0, 0, 9, 1] ==>
                  buf[8..] == WriteAll(r.0.seen) + r.1)
  {
    var c := Conn(app, 0, false, false, NoFault, []);
    var d := c.(greeted := true);
    if |buf| >= 8 {
      hide Drain;
      EveryByteAccounted(h, d, buf[8..]);
      assert Drain(h, d, buf[8..]).0.seen[0..] == Drain(h, d, buf[8..]).0.seen;
    }
  }

  // ---- the input buffer ----

  /** The buffer object: `inbuf[pos..len]` is what is still to be worked through. */
  class Input<S> {
    const handle: (S, Frame) -> Reaction<S>
    var conn: Conn<S>
    var inbuf: array<Byte>
    var pos: nat
    var len: nat

    ghost predicate Valid() reads this, inbuf {
      pos <= len <= inbuf.Length
    }

    ghost function Waiting(): (s: seq<Byte>)
      requires Valid()
      reads this, inbuf
    {
      inbuf[pos..len]
    }

    constructor (h: (S, Frame) -> Reaction<S>, app: S)
      ensures Valid() && fresh(inbuf) && Waiting() == [] && handle == h
      ensures conn == Conn(app, 0, false, false, NoFault, [])
    {
      handle := h;
      conn := Conn(app, 0, false, false, NoFault, []);
      inbuf := new Byte[0];
      pos, len := 0, 0;
    }

    /** Moves what is waiting to the front, then adds the new bytes, in a larger buffer if need be. */
    method Append(data: seq<Byte>)
      requires Valid()
      modifies this`inbuf, this`pos, this`len, inbuf
      ensures Valid() && Waiting() == old(Waiting()) + data && (inbuf == old(inbuf) || fresh(inbuf))
    {
      Reclaim();
      var need := len + |data|;
      Reserve(need);
      CopyIn(data);
      len := need;
    }

    method CopyIn(data: seq<Byte>)
      requires len + |data| <= inbuf.Length
      modifies inbuf
      ensures inbuf[..len + |data|] == old(inbuf[..len]) + data
    {
      forall i | 0 <= i < |data| { inbuf[len + i] := data[i]; }
    }

    /** A buffer of at least `need` bytes, holding the same content. */
    method Reserve(need: nat)
      requires len <= inbuf.Length
      modifies this`inbuf
      ensures need <= inbuf.Length && len <= inbuf.Length && inbuf[..len] == old(inbuf[..len])
      ensures inbuf == old(inbuf) || fresh(inbuf)
    {
      if need > inbuf.Length {
        var cap := if inbuf.Length > 0 then inbuf.Length else 256;
        while cap < need
          invariant cap > 0 && cap >= inbuf.Length
          decreases need - cap
        {
          cap := cap * 2;
        }
        var nb := new Byte[cap];
        forall i | 0 <= i < len { nb[i] := inbuf[i]; }
        assert nb[..len] == inbuf[..len];
        inbuf := nb;
      }
    }

    method Reclaim()
      requires Valid()
      modifies this`pos, this`len, inbuf
      ensures Valid() && pos == 0 && Waiting() == old(Waiting())
    {
      if pos > 0 {
        var rem := len - pos;
        ghost var was := inbuf[pos..len];
        forall i | 0 <= i < rem { inbuf[i] := inbuf[pos + i]; }
        assert inbuf[..rem] == was;
        len, pos := rem, 0;
      }
    }

    /** One read. */
    method OnData(data: seq<Byte>)
      requires Valid()
      modifies this`conn, this`inbuf, this`pos, this`len, inbuf
      ensures Valid() && (inbuf == old(inbuf) || fresh(inbuf))
      ensures old(conn.closing) ==> conn == old(conn)
      ensures !old(conn.closing) ==> Same((conn, Waiting()), Process(handle, old(conn), old(Waiting()) + data))
    {
      if conn.closing { return; }
      Append(data);
      if !conn.greeted {
        if len - pos < |GREETING| { return; }
        ghost var w := Waiting();
        assert w[..|GREETING|] == inbuf[pos..pos + |GREETING|];
        if inbuf[pos..pos + |GREETING|] != GREETING {
          conn := Fail(conn, BadGreeting);
          return;
        }
        conn := conn.(greeted := true);
        pos := pos + |GREETING|;
        assert Waiting() == w[|GREETING|..];
      }
      DrainFrames();
    }

    /** The frame loop; the cursor moves and no byte is shifted. */
    method DrainFrames()
      requires Valid()
      modifies this`conn, this`pos
      ensures Valid() && Same((conn, Waiting()), Drain(handle, old(conn), old(Waiting())))
    {
      hide Parse;
      while true
        invariant Valid() && Drain(handle, conn, Waiting()) == Drain(handle, old(conn), old(Waiting()))
        decreases len - pos
      {
        if conn.closing { return; }
        var p := Parse(inbuf[pos..len]);
        if p.Incomplete? { return; }
        if p.Bad? {
          conn := Fail(conn, BadFraming);
          return;
        }
        if conn.frameMax > 0 && |p.f.payload| > conn.frameMax {
          conn := Fail(conn, FrameTooLarge);
          return;
        }
        ghost var w := Waiting();
        conn := Dispatch(handle, conn, p.f);
        pos := pos + |p.f.payload| + OVERHEAD;
        assert Waiting() == w[|p.f.payload| + OVERHEAD..];
      }
    }
  }
}
