// The frame format as pure functions: 4-byte big-endian MsgID, 4-byte big-endian
// length, body. The methods of module Protocol are proved against these functions.
module Codec {
  import opened Bytes
  import opened Errors

  datatype Message = Message(id: uint32, data: seq<byte>)

  const HEADER: nat := 8
  const DEFAULT_MAX: uint32 := 1024 * 1024 * 2

  /** A limit of 0 means the default of 2 MB. */
  function EffectiveMax(limit: uint32): uint32 {
    if limit == 0 then DEFAULT_MAX else limit
  }

  /** The length field is 32 bits wide, so a longer body is cut modulo 2^32. */
  function Truncated(m: Message): Message {
    m.(data := m.data[..ToUint32(|m.data|)])
  }

  predicate Fits(m: Message) {
    |m.data| < TWO_32
  }

  function Encode(m: Message): (r: seq<byte>)
    ensures |r| == HEADER + ToUint32(|m.data|)
  {
    PutUint32(m.id) + PutUint32(ToUint32(|m.data|)) + m.data[..ToUint32(|m.data|)]
  }

  function EncodeAll(ms: seq<Message>): seq<byte> {
    if ms == [] then [] else Encode(ms[0]) + EncodeAll(ms[1..])
  }

  /** What Marshal does with a message: refuse it, panic on a slice, or write a frame. */
  datatype Plan = Refuse | Crash | Frame(bytes: seq<byte>)

  function MarshalPlan(max: uint32, m: Message): Plan {
    var n := ToUint32(|m.data|);
    if n > max then Refuse
    else if HEADER + n >= TWO_32 then Crash
    else Frame(Encode(m))
  }

  // ----- decoding

  datatype Decoded =
    | Ok(msg: Message, rest: seq<byte>)
    | Bad(err: Failure, rest: seq<byte>)

  /** One Unmarshal on a stream that holds `bytes` and then fails with `end`. */
  function Decode(bytes: seq<byte>, end: Failure, max: uint32): (r: Decoded)
    ensures |r.rest| <= |bytes|
    ensures r.Ok? ==> |r.rest| < |bytes|
  {
    if |bytes| < HEADER then Bad(ShortRead(|bytes|, end), [])
    else
      var size := GetUint32(bytes[4..8]);
      if size > max then Bad(DataLength, bytes[8..])
      else if |bytes| - HEADER < size then Bad(ShortRead(|bytes| - HEADER, end), [])
      else Ok(Message(GetUint32(bytes[..4]), bytes[8..8 + size]), bytes[8 + size..])
  }

  datatype Drained = Drained(msgs: seq<Message>, err: Failure, rest: seq<byte>)

  /** Unmarshal repeated until it fails. */
  function DecodeAll(bytes: seq<byte>, end: Failure, max: uint32): Drained
    decreases |bytes|
  {
    match Decode(bytes, end, max)
    case Bad(e, rest) => Drained([], e, rest)
    case Ok(m, rest) =>
      var d := DecodeAll(rest, end, max);
      d.(msgs := [m] + d.msgs)
  }

  // ----- one frame

  lemma EncodeTruncated(m: Message)
    ensures Encode(Truncated(m)) == Encode(m)
    ensures Fits(Truncated(m))
    ensures Truncated(m) == m <==> Fits(m)
  {
    var t, n := Truncated(m), ToUint32(|m.data|);
    assert |t.data| == n && ToUint32(n) == n;
    assert t.data[..n] == t.data;
    if Fits(m) {
      assert n == |m.data|;
      assert m.data[..n] == m.data;
    }
  }

  lemma EncodeParts(m: Message, tail: seq<byte>)
    ensures (Encode(m) + tail)[..4] == PutUint32(m.id)
    ensures (Encode(m) + tail)[4..8] == PutUint32(ToUint32(|m.data|))
    ensures (Encode(m) + tail)[8..|Encode(m)|] == m.data[..ToUint32(|m.data|)]
    ensures (Encode(m) + tail)[|Encode(m)|..] == tail
  {
  }

  /**
   * The wire format in numbers: four bytes of the id and four of the length, the most
   * significant byte first, then the body.
   */
  lemma WireFormat(m: Message)
    ensures var f, n := Encode(m), |m.data| % 0x1_0000_0000;
      && |f| == 8 + n && f[8..] == m.data[..n]
      && f[0] as int * 0x100_0000 + f[1] as int * 0x1_0000 + f[2] as int * 0x100 + f[3] == m.id
      && f[4] as int * 0x100_0000 + f[5] as int * 0x1_0000 + f[6] as int * 0x100 + f[7] == n
  {
    var n := ToUint32(|m.data|);
    BigEndian(m.id);
    BigEndian(n);
    assert Encode(m)[8..] == m.data[..n];
  }

  /** What is accepted carries these numbers, too, and the body is what follows them. */
  lemma AcceptedFormat(bytes: seq<byte>, end: Failure, max: uint32)
    requires Decode(bytes, end, max).Ok?
    ensures var m, n := Decode(bytes, end, max).msg, |Decode(bytes, end, max).msg.data|;
      && |bytes| >= 8 + n && bytes[8..8 + n] == m.data
      && bytes[0] as int * 0x100_0000 + bytes[1] as int * 0x1_0000 + bytes[2] as int * 0x100 + bytes[3] == m.id
      && bytes[4] as int * 0x100_0000 + bytes[5] as int * 0x1_0000 + bytes[6] as int * 0x100 + bytes[7] == n
  {
    EncodeDecode(bytes, end, max);
    WireFormat(Decode(bytes, end, max).msg);
  }

  /** A frame followed by anything decodes to its message, or is refused by the limit. */
  lemma DecodeEncode(m: Message, tail: seq<byte>, end: Failure, max: uint32)
    requires Fits(m)
    ensures Decode(Encode(m) + tail, end, max) ==
            if |m.data| <= max then Ok(m, tail) else Bad(DataLength, m.data + tail)
  {
    EncodeParts(m, tail);
    GetPut(m.id);
    GetPut(|m.data|);
    assert (Encode(m) + tail)[8..] == m.data + tail;
  }

  /**
   * 32-bit frame arithmetic: Marshal writes a frame from which a receiver with the same limit
   * recovers this very message exactly when the body is within the limit and the 32-bit size
   * of the frame does not wrap. Up to the limit 2^32 - 9, and so for the default of 2 MB, the
   * second condition follows from the first.
   */
  lemma RoundTripIff(limit: uint32, m: Message)
    ensures var max := EffectiveMax(limit);
      && ((MarshalPlan(max, m).Frame? && Decode(MarshalPlan(max, m).bytes, Eof, max) == Ok(m, []))
          <==> |m.data| <= max && |m.data| < TWO_32 - HEADER)
      && (max <= TWO_32 - 9 && Fits(m) ==> (MarshalPlan(max, m).Frame? <==> |m.data| <= max))
    ensures EffectiveMax(0) <= TWO_32 - 9
  {
    var max := EffectiveMax(limit);
    if MarshalPlan(max, m).Frame? {
      var t := Truncated(m);
      EncodeTruncated(m);
      assert Encode(t) + [] == Encode(m);
      DecodeEncode(t, [], Eof, max);
    }
  }

  /**
   * The limit in numbers: up to 2^32 - 9 a frame is written exactly for the bodies within the
   * limit given to NewDecoder, or within 2097152 bytes if that was 0.
   */
  lemma LimitBoundary(limit: uint32, m: Message)
    requires Fits(m) && limit <= 0xffff_fff7
    ensures MarshalPlan(EffectiveMax(limit), m).Frame? <==> |m.data| <= (if limit == 0 then 2_097_152 else limit)
  {
    RoundTripIff(limit, m);
  }

  /** What decodes is exactly one frame. */
  lemma EncodeDecode(bytes: seq<byte>, end: Failure, max: uint32)
    requires Decode(bytes, end, max).Ok?
    ensures var r := Decode(bytes, end, max);
            Fits(r.msg) && |r.msg.data| <= max && bytes == Encode(r.msg) + r.rest
  {
    PutGet(bytes[..4]);
    PutGet(bytes[4..8]);
    var size := GetUint32(bytes[4..8]);
    assert bytes == bytes[..4] + bytes[4..8] + bytes[8..8 + size] + bytes[8 + size..];
  }

  /**
   * No proper prefix of a frame decodes. The end of the stream shows as io.ErrUnexpectedEOF
   * except in two cases, in which it is the clean io.EOF: nothing was read, or the stream ends
   * just behind the header of a non-empty body. Any other error of the stream is passed on.
   */
  lemma DecodePrefix(m: Message, p: seq<byte>, end: Failure, max: uint32)
    requires Fits(m) && |m.data| <= max
    requires p < Encode(m)
    ensures Decode(p, end, max) == Bad(if end == Eof && |p| != 0 && |p| != HEADER then UnexpectedEof else end, [])
  {
    if |p| >= HEADER {
      HeaderSize(m, p);
    }
  }

  lemma HeaderSize(m: Message, p: seq<byte>)
    requires Fits(m) && p <= Encode(m) && |p| >= HEADER
    ensures GetUint32(p[4..8]) == |m.data|
  {
    EncodeParts(m, []);
    assert Encode(m) + [] == Encode(m);
    GetPut(|m.data|);
    assert p[4..8] == Encode(m)[4..8];
  }

  // ----- streams of frames

  predicate AllFit(ms: seq<Message>) {
    forall i :: 0 <= i < |ms| ==> Fits(ms[i])
  }

  predicate Within(ms: seq<Message>, max: uint32) {
    forall i :: 0 <= i < |ms| ==> |ms[i].data| <= max
  }

  lemma {:induction false} EncodeAllAppend(xs: seq<Message>, ys: seq<Message>)
    ensures EncodeAll(xs + ys) == EncodeAll(xs) + EncodeAll(ys)
  {
    if xs == [] {
      assert xs + ys == ys;
    } else {
      assert (xs + ys)[1..] == xs[1..] + ys;
      EncodeAllAppend(xs[1..], ys);
    }
  }

  lemma EncodeAllSnoc(xs: seq<Message>, m: Message)
    ensures EncodeAll(xs + [m]) == EncodeAll(xs) + Encode(m)
  {
    EncodeAllAppend(xs, [m]);
    assert EncodeAll([m]) == Encode(m);
  }

  lemma HeadTail<T>(s: seq<T>, t: seq<T>)
    requires s != []
    ensures [s[0]] + (s[1..] + t) == s + t
  {
  }

  lemma DecodeAllFrame(m: Message, tail: seq<byte>, end: Failure, max: uint32)
    requires Fits(m) && |m.data| <= max
    ensures var d := DecodeAll(tail, end, max);
            DecodeAll(Encode(m) + tail, end, max) == Drained([m] + d.msgs, d.err, d.rest)
  {
    DecodeEncode(m, tail, end, max);
  }

  /** Frames in front of any tail are delivered one by one, then the tail is decoded. */
  lemma {:induction false} DecodeAllFrames(ms: seq<Message>, tail: seq<byte>, end: Failure, max: uint32)
    requires AllFit(ms) && Within(ms, max)
    ensures var d := DecodeAll(tail, end, max);
            DecodeAll(EncodeAll(ms) + tail, end, max) == Drained(ms + d.msgs, d.err, d.rest)
  {
    var d := DecodeAll(tail, end, max);
    if ms == [] {
      assert EncodeAll(ms) + tail == tail;
      assert ms + d.msgs == d.msgs;
    } else {
      assert EncodeAll(ms) + tail == Encode(ms[0]) + (EncodeAll(ms[1..]) + tail);
      DecodeAllFrame(ms[0], EncodeAll(ms[1..]) + tail, end, max);
      DecodeAllFrames(ms[1..], tail, end, max);
      HeadTail(ms, d.msgs);
    }
  }

  /**
   * Stream decoding: any stream of complete frames within the limit, cut anywhere inside a
   * last frame, yields exactly the messages of the complete frames, in order, and then the
   * error of the stream. The clean io.EOF does not imply a frame boundary: a cut right
   * behind a header reports it too, and no other cut does.
   */
  lemma DecodeCutStream(ms: seq<Message>, last: Message, p: seq<byte>, end: Failure, max: uint32)
    requires AllFit(ms) && Within(ms, max)
    requires Fits(last) && |last.data| <= max && p < Encode(last)
    ensures DecodeAll(EncodeAll(ms) + p, end, max) ==
            Drained(ms, if end == Eof && |p| != 0 && |p| != HEADER then UnexpectedEof else end, [])
  {
    DecodeAllFrames(ms, p, end, max);
    DecodePrefix(last, p, end, max);
  }

  /** The messages a receiver with limit `max` accepts: those before the first larger one. */
  function Accepted(ms: seq<Message>, max: uint32): (r: seq<Message>)
    ensures r <= ms && Within(r, max)
    ensures |r| < |ms| ==> |ms[|r|].data| > max
  {
    if ms == [] || |ms[0].data| > max then [] else [ms[0]] + Accepted(ms[1..], max)
  }

  /** A receiver's limit may be smaller than the sender's: it delivers up to the first larger message. */
  lemma DecodeAllOfEncodeAll(ms: seq<Message>, end: Failure, max: uint32)
    requires AllFit(ms)
    ensures var d := DecodeAll(EncodeAll(ms), end, max);
            d.msgs == Accepted(ms, max) && d.err == if d.msgs == ms then end else DataLength
  {
    var good := Accepted(ms, max);
    var others := ms[|good|..];
    assert ms == good + others;
    EncodeAllAppend(good, others);
    DecodeAllFrames(good, EncodeAll(others), end, max);
    if others != [] {
      DecodeEncode(others[0], EncodeAll(others[1..]), end, max);
    }
  }

  /** Whatever bytes arrive, the delivered messages are exactly the frames the bytes start with. */
  lemma {:induction false} DecodeAllSound(bytes: seq<byte>, end: Failure, max: uint32)
    ensures var d := DecodeAll(bytes, end, max);
            AllFit(d.msgs) && Within(d.msgs, max) && EncodeAll(d.msgs) <= bytes
            && Decode(bytes[|EncodeAll(d.msgs)|..], end, max) == Bad(d.err, d.rest)
    decreases |bytes|
  {
    var r := Decode(bytes, end, max);
    if r.Ok? {
      EncodeDecode(bytes, end, max);
      DecodeAllSound(r.rest, end, max);
      var ms := DecodeAll(r.rest, end, max).msgs;
      assert EncodeAll([r.msg] + ms) == Encode(r.msg) + EncodeAll(ms);
      assert bytes[|EncodeAll([r.msg] + ms)|..] == r.rest[|EncodeAll(ms)|..];
    } else {
      assert bytes[0..] == bytes;
    }
  }

  /** Frames form a prefix code: a prefix of the bytes is a prefix of the messages. */
  lemma {:induction false} PrefixCode(xs: seq<Message>, ys: seq<Message>)
    requires AllFit(xs) && AllFit(ys)
    requires EncodeAll(xs) <= EncodeAll(ys)
    ensures xs <= ys
  {
    if xs != [] {
      assert |EncodeAll(xs)| >= HEADER;
      assert ys != [];
      var max: uint32 := TWO_32 - 1;
      var xt, yt := EncodeAll(xs[1..]), EncodeAll(ys[1..]);
      var gap := EncodeAll(ys)[|EncodeAll(xs)|..];
      assert EncodeAll(ys) == Encode(xs[0]) + (xt + gap) == Encode(ys[0]) + yt;
      DecodeEncode(xs[0], xt + gap, Eof, max);
      DecodeEncode(ys[0], yt, Eof, max);
      assert xs[0] == ys[0] && xt + gap == yt;
      PrefixCode(xs[1..], ys[1..]);
      assert xs == [xs[0]] + xs[1..] && ys == [ys[0]] + ys[1..];
    }
  }

  /** Different message lists give different byte streams. */
  lemma EncodeAllInjective(xs: seq<Message>, ys: seq<Message>)
    requires AllFit(xs) && AllFit(ys)
    ensures EncodeAll(xs) == EncodeAll(ys) <==> xs == ys
  {
    if EncodeAll(xs) == EncodeAll(ys) {
      PrefixCode(xs, ys);
      PrefixCode(ys, xs);
    }
  }
}
