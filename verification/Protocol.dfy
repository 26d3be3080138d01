// protocol/decoder.go: framing on a transport, with Go's 32-bit arithmetic and byte slices.
module Protocol {
  import opened Bytes
  import opened Errors
  import opened Codec
  import opened Transport

  datatype MarshalResult = Written | Failed(err: Failure) | Panicked

  datatype UnmarshalResult = Received(msg: Message) | Error(err: Failure)

  /** binary.BigEndian.PutUint32(b[off:off+4], v) */
  method PutUint32At(b: array<byte>, off: nat, v: uint32)
    requires off + 4 <= b.Length
    modifies b
    ensures b[..] == old(b[..off]) + PutUint32(v) + old(b[off + 4..])
  {
    var r := PutUint32(v);
    b[off], b[off + 1], b[off + 2], b[off + 3] := r[0], r[1], r[2], r[3];
  }

  /** `handled` came out of the stream and `bytes` are still in it. */
  ghost predicate Handled(all: Drained, handled: seq<Message>, bytes: seq<byte>, end: Failure, max: uint32) {
    var d := DecodeAll(bytes, end, max);
    all == Drained(handled + d.msgs, d.err, d.rest)
  }

  lemma HandledStep(all: Drained, handled: seq<Message>, bytes: seq<byte>, end: Failure, max: uint32)
    requires Handled(all, handled, bytes, end, max)
    ensures match Decode(bytes, end, max)
      case Ok(m, rest) => Handled(all, handled + [m], rest, end, max)
      case Bad(e, rest) => all == Drained(handled, e, rest)
  {
    match Decode(bytes, end, max)
    case Ok(m, rest) =>
      var ms := DecodeAll(rest, end, max).msgs;
      assert handled + ([m] + ms) == (handled + [m]) + ms;
    case Bad(_, _) =>
      assert handled + [] == handled;
  }

  /** The buffer of Marshal; slicing b[0:4] or b[4:8] panics when the 32-bit size has wrapped. */
  method BuildFrame(id: uint32, data: seq<byte>) returns (panicked: bool, frame: seq<byte>)
    ensures panicked <==> HEADER + ToUint32(|data|) >= TWO_32
    ensures !panicked ==> frame == Encode(Message(id, data))
    ensures !panicked ==>
      && |frame| == 8 + |data| % 0x1_0000_0000
      && frame[0] as int * 0x100_0000 + frame[1] as int * 0x1_0000 + frame[2] as int * 0x100 + frame[3] == id
      && frame[4] as int * 0x100_0000 + frame[5] as int * 0x1_0000 + frame[6] as int * 0x100 + frame[7]
         == |data| % 0x1_0000_0000
  {
    var n := |data| % TWO_32;
    var size := (HEADER + n) % TWO_32;
    var b := new byte[size](_ => 0);
    if size < 4 { return true, []; }
    PutUint32At(b, 0, id);
    if size < 8 { return true, []; }
    PutUint32At(b, 4, n);
    assert b[..8] == PutUint32(id) + PutUint32(n);
    var copied := Copy(b, 8, data);
    assert copied == n;
    panicked, frame := false, b[..];
    assert frame == Encode(Message(id, data));
    WireFormat(Message(id, data));
  }

  class Decoder {
    const maxDataLen: uint32

    constructor (limit: uint32)
      ensures maxDataLen == EffectiveMax(limit) == if limit == 0 then 2_097_152 else limit
    {
      maxDataLen := if limit == 0 then DEFAULT_MAX else limit;
    }

    /**
     * The result and the wire are those of MarshalPlan: a refused message and a slice panic
     * put nothing on the wire, otherwise the frame is written if the transport takes it, and a
     * failure of the transport writes some front part of it.
     */
    method Marshal(c: Conn, id: uint32, data: seq<byte>) returns (r: MarshalResult)
      modifies c.Obj()
      ensures c.View() == old(c.View()) && c.Closed() == old(c.Closed())
      ensures var wire := old(c.Wire());
        match MarshalPlan(maxDataLen, Message(id, data))
        case Refuse => r == Failed(DataLength) && c.Wire() == wire
        case Crash => r == Panicked && c.Wire() == wire
        case Frame(f) =>
          && r != Panicked && wire <= c.Wire() <= wire + f
          && (r.Written? <==> old(c.Accepts(f)))
          && (r.Written? ==> c.Wire() == wire + f)
          && (r.Failed? ==> r.err == old(c.WriteError()))
          && (c.Closed() ==> r == Failed(ClosedPipe) && c.Wire() == wire)
    {
      var n := |data| % TWO_32;
      if n > maxDataLen { return Failed(DataLength); }
      var panicked, frame := BuildFrame(id, data);
      if panicked { return Panicked; }
      var err := c.Write(frame);
      r := if err.Some? then Failed(err.value) else Written;
    }

    /** The result, and what is left of the stream, are those of Decode, however the bytes arrive. */
    method Unmarshal(c: Conn) returns (r: UnmarshalResult)
      modifies c.Obj()
      ensures c.Wire() == old(c.Wire()) && c.Closed() == old(c.Closed())
      ensures var s := old(c.View());
        match Decode(s.Bytes(), s.end, maxDataLen)
        case Ok(m, rest) => r == Received(m) && c.View().Bytes() == rest && c.View().end == s.end
        case Bad(e, rest) => r == Error(e) && c.View().Bytes() == rest
    {
      var buf := new byte[8](_ => 0);
      var err := ReadFull(c, buf);
      if err.Some? { return Error(err.value); }
      ghost var bytes := old(c.View()).Bytes();
      assert buf[..4] == bytes[..4] && buf[4..8] == bytes[4..8];
      var id := GetUint32(buf[..4]);
      var size := GetUint32(buf[4..8]);
      if size > maxDataLen { return Error(DataLength); }
      var body := new byte[size](_ => 0);
      err := ReadFull(c, body);
      if err.Some? { return Error(err.value); }
      assert bytes[8..][..size] == bytes[8..8 + size] && bytes[8..][size..] == bytes[8 + size..];
      r := Received(Message(id, body[..]));
    }

    /**
     * HandlerManager.read: Unmarshal until it fails, handing every message on. The messages
     * and the error are those of DecodeAll on the bytes of the stream.
     */
    method ReadAll(c: Conn) returns (handled: seq<Message>, err: Failure)
      modifies c.Obj()
      ensures c.Wire() == old(c.Wire())
      ensures var s := old(c.View());
        var d := DecodeAll(s.Bytes(), s.end, maxDataLen);
        handled == d.msgs && err == d.err && c.View().Bytes() == d.rest
    {
      ghost var s := c.View();
      ghost var bytes := s.Bytes();
      ghost var all := DecodeAll(bytes, s.end, maxDataLen);
      handled := [];
      while true
        invariant c.Wire() == old(c.Wire()) && c.View().end == s.end && c.View().Bytes() == bytes
        invariant Handled(all, handled, bytes, s.end, maxDataLen)
        decreases |bytes|
      {
        HandledStep(all, handled, bytes, s.end, maxDataLen);
        var r := Unmarshal(c);
        bytes := c.View().Bytes();
        match r
        case Error(e) => return handled, e;
        case Received(m) => handled := handled + [m];
      }
    }
  }
}
