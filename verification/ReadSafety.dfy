// What every step of an endpoint keeps about the bytes it has read and the messages it handed on.
module ReadSafety {
  import opened Bytes
  import opened Errors
  import opened Codec
  import opened Endpoint

  /** The bytes read behind the last delivered frame. */
  function Partial(pc: ReadPc): seq<byte> {
    match pc
    case InHeader(got) => got
    case InBody(id, size, got) => PutUint32(id) + PutUint32(size) + got
    case _ => []
  }

  /**
   * The bytes read are the frames of the delivered messages followed by bytes that do not
   * hold a complete frame: everything complete has been handed on, in order, and nothing else.
   */
  ghost predicate ReadInv(max: uint32, r: In) {
    && AllFit(r.delivered) && Within(r.delivered, max)
    && exists rest :: Leftover(max, r, rest)
  }

  ghost predicate Leftover(max: uint32, r: In, rest: seq<byte>) {
    && r.taken <= |r.received| && r.received[..r.taken] == EncodeAll(r.delivered) + rest
    && Decode(rest, Eof, max).Bad?
    && Explained(max, r, rest)
    && match r.pc
       case InHeader(got) => |got| < HEADER && rest == got
       case InBody(id, size, got) => |got| < size <= max && rest == Partial(r.pc)
       case Handling => rest == []
       case ReadUnborn => rest == [] && r.delivered == []
       case _ => true
  }

  /** A failure is ErrDataLength exactly if the next header exceeds the limit, and ends the reading. */
  ghost predicate Explained(max: uint32, r: In, rest: seq<byte>)
    requires Decode(rest, Eof, max).Bad?
  {
    match r.failure
    case None => !r.pc.ReadFailed?
    case Some(e) =>
      && (r.pc.ReadFailed? ==> r.pc.e == e)
      && !r.pc.InHeader? && !r.pc.InBody? && !r.pc.Handling? && !r.pc.ReadUnborn?
      && (e == DataLength <==> Decode(rest, Eof, max).err == DataLength)
  }

  lemma BodyPartial(id: uint32, size: uint32, got: seq<byte>, max: uint32)
    requires |got| <= size <= max
    ensures var p := PutUint32(id) + PutUint32(size) + got;
            && (|got| < size ==> Decode(p, Eof, max).Bad? && Decode(p, Eof, max).err != DataLength)
            && (|got| == size ==> p == Encode(Message(id, got)))
  {
    var p := PutUint32(id) + PutUint32(size) + got;
    assert p[4..8] == PutUint32(size);
    GetPut(size);
  }

  /** The complete header: too large, empty body, or a body to read. */
  lemma HeaderDoneRead(max: uint32, r: In, head: seq<byte>)
    requires r.taken <= |r.received| && AllFit(r.delivered) && Within(r.delivered, max) && r.failure.None?
    requires |head| == HEADER && r.received[..r.taken] == EncodeAll(r.delivered) + head
    ensures ReadInv(max, HeaderDone(max, r, head))
  {
    var r' := HeaderDone(max, r, head);
    var id, size := GetUint32(head[..4]), GetUint32(head[4..8]);
    PutGet(head[..4]);
    PutGet(head[4..8]);
    assert head == PutUint32(id) + PutUint32(size);
    if size > max {
      assert Leftover(max, r', head);
    } else if size == 0 {
      assert head == Encode(Message(id, []));
      EncodeAllSnoc(r.delivered, Message(id, []));
      assert EncodeAll(r'.delivered) + [] == EncodeAll(r'.delivered);
      assert Leftover(max, r', []);
    } else {
      BodyPartial(id, size, [], max);
      assert Partial(r'.pc) == head;
      assert Leftover(max, r', head);
    }
  }

  lemma ReadMore(max: uint32, r: In, rest: seq<byte>, n: nat)
    requires Leftover(max, r, rest) && r.taken + n <= |r.received|
    ensures r.received[..r.taken + n] == EncodeAll(r.delivered) + (rest + r.received[r.taken..r.taken + n])
  {
    var more := r.received[r.taken..r.taken + n];
    assert r.received[..r.taken + n] == r.received[..r.taken] + more;
    assert (EncodeAll(r.delivered) + rest) + more == EncodeAll(r.delivered) + (rest + more);
  }

  lemma InHeaderRead(max: uint32, r: In, n: nat)
    requires ReadInv(max, r) && r.pc.InHeader? && TakeBytes(max, r, n).Some?
    ensures ReadInv(max, TakeBytes(max, r, n).value)
  {
    var rest :| Leftover(max, r, rest);
    var more := r.received[r.taken..r.taken + n];
    var r1 := r.(taken := r.taken + n);
    ReadMore(max, r, rest, n);
    if |rest| + n < HEADER {
      assert Leftover(max, TakeBytes(max, r, n).value, rest + more);
    } else {
      HeaderDoneRead(max, r1, rest + more);
    }
  }

  /** More of the body: still incomplete, or a frame that is handed on. */
  lemma BodyMoreRead(max: uint32, r: In, id: uint32, size: uint32, body: seq<byte>)
    requires r.taken <= |r.received| && AllFit(r.delivered) && Within(r.delivered, max) && r.failure.None?
    requires |body| <= size <= max
    requires r.received[..r.taken] == EncodeAll(r.delivered) + Partial(InBody(id, size, body))
    ensures |body| < size ==> ReadInv(max, r.(pc := InBody(id, size, body)))
    ensures |body| == size ==> ReadInv(max, r.(pc := Handling, delivered := r.delivered + [Message(id, body)]))
  {
    BodyPartial(id, size, body, max);
    if |body| < size {
      assert Leftover(max, r.(pc := InBody(id, size, body)), Partial(InBody(id, size, body)));
    } else {
      var ms := r.delivered + [Message(id, body)];
      EncodeAllSnoc(r.delivered, Message(id, body));
      assert EncodeAll(ms) + [] == EncodeAll(ms);
      assert Leftover(max, r.(pc := Handling, delivered := ms), []);
    }
  }

  lemma PartialMore(id: uint32, size: uint32, got: seq<byte>, more: seq<byte>)
    ensures Partial(InBody(id, size, got)) + more == Partial(InBody(id, size, got + more))
  {
    var head := PutUint32(id) + PutUint32(size);
    assert (head + got) + more == head + (got + more);
  }

  lemma InBodyRead(max: uint32, r: In, n: nat)
    requires ReadInv(max, r) && r.pc.InBody? && TakeBytes(max, r, n).Some?
    ensures ReadInv(max, TakeBytes(max, r, n).value)
  {
    var rest :| Leftover(max, r, rest);
    var more := r.received[r.taken..r.taken + n];
    var r1 := r.(taken := r.taken + n);
    var id, size, body := r.pc.id, r.pc.size, r.pc.got + more;
    ReadMore(max, r, rest, n);
    PartialMore(id, size, r.pc.got, more);
    BodyMoreRead(max, r1, id, size, body);
  }

  lemma ArriveRead(max: uint32, r: In, bytes: seq<byte>)
    requires ReadInv(max, r)
    ensures ReadInv(max, r.(received := r.received + bytes))
  {
    var rest :| Leftover(max, r, rest);
    var r' := r.(received := r.received + bytes);
    assert r'.received[..r.taken] == r.received[..r.taken];
    assert Leftover(max, r', rest);
  }

  /** Moving on without reading: to the next header, into a failure, or out of the loop. */
  ghost predicate Moves(r: In, r': In) {
    || r' == r
    || ((r.pc.Handling? || r.pc.ReadUnborn?) && r' == r.(pc := InHeader([])))
    || ((r.pc.InHeader? || r.pc.InBody?) && r'.pc.ReadFailed? && r'.pc.e != DataLength && r' == Fail(r, r'.pc.e))
    || ((r'.pc.ReadStopping? || r'.pc.ReadEnding? || r'.pc.ReadGone?) && r' == r.(pc := r'.pc))
  }

  lemma MoveRead(max: uint32, r: In, r': In)
    requires ReadInv(max, r) && Moves(r, r')
    ensures ReadInv(max, r')
  {
    var rest :| Leftover(max, r, rest);
    if r.pc.InBody? {
      BodyPartial(r.pc.id, r.pc.size, r.pc.got, max);
    }
    assert Leftover(max, r', rest);
  }

  /** The read loop does not exist before NewHandlerManager has started it. */
  ghost predicate UnbornRead(s: State) {
    s.life.built < 2 ==> s.inp.pc.ReadUnborn?
  }

  lemma OtherRead(max: uint32, s: State, l: Label)
    requires Step(max, s, l).Some? && UnbornRead(s)
    requires (l.Read? ==> !l.ra.ReadSome?) && (l.Env? ==> !l.ea.Arrive?)
    ensures Moves(s.inp, Step(max, s, l).value.inp)
  {
  }

  lemma StepUnbornRead(max: uint32, s: State, l: Label)
    requires Step(max, s, l).Some? && UnbornRead(s)
    ensures UnbornRead(Step(max, s, l).value)
  {
  }

  lemma StepRead(max: uint32, s: State, l: Label)
    requires ReadInv(max, s.inp) && UnbornRead(s) && Step(max, s, l).Some?
    ensures var s' := Step(max, s, l).value; ReadInv(max, s'.inp) && UnbornRead(s')
  {
    StepUnbornRead(max, s, l);
    match l
    case Read(ReadSome(n)) =>
      if s.inp.pc.InHeader? {
        InHeaderRead(max, s.inp, n);
      } else {
        InBodyRead(max, s.inp, n);
      }
    case Env(Arrive(bytes)) => ArriveRead(max, s.inp, bytes);
    case _ =>
      OtherRead(max, s, l);
      MoveRead(max, s.inp, Step(max, s, l).value.inp);
  }

  /** The delivered messages are what repeated Unmarshal calls yield on the bytes read. */
  lemma DeliveredIsDecoded(max: uint32, r: In)
    requires ReadInv(max, r)
    ensures r.delivered == DecodeAll(r.received[..r.taken], Eof, max).msgs
    ensures r.failure.Some? ==>
      (r.failure.value == DataLength <==> DecodeAll(r.received[..r.taken], Eof, max).err == DataLength)
  {
    var rest :| Leftover(max, r, rest);
    DecodeAllFrames(r.delivered, rest, Eof, max);
    assert EncodeAll(r.delivered) + rest == r.received[..r.taken];
    assert DecodeAll(rest, Eof, max).msgs == [];
    assert r.delivered + [] == r.delivered;
  }

  lemma InitRead(max: uint32)
    ensures ReadInv(max, INIT.inp) && UnbornRead(INIT)
  {
    assert Leftover(max, INIT.inp, []);
  }
}
