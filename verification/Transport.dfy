// The two transports a connection runs on, and io.ReadFull over either of them.
module Transport {
  import opened Bytes
  import opened Errors

  function Flatten(chunks: seq<seq<byte>>): seq<byte> {
    if chunks == [] then [] else chunks[0] + Flatten(chunks[1..])
  }

  lemma {:induction false} FlattenSnoc(chunks: seq<seq<byte>>, last: seq<byte>)
    ensures Flatten(chunks + [last]) == Flatten(chunks) + last
  {
    if chunks == [] {
      assert chunks + [last] == [last];
    } else {
      assert (chunks + [last])[1..] == chunks[1..] + [last];
      FlattenSnoc(chunks[1..], last);
    }
  }

  /**
   * What a reader still has to give: pieces in the sizes in which they will arrive, then
   * the error of the first read behind them, then the error of every later read.
   */
  datatype Stream = Stream(chunks: seq<seq<byte>>, end: Failure, later: Failure) {
    function Bytes(): seq<byte> {
      Flatten(chunks)
    }

    function Work(): nat {
      |chunks| + |Flatten(chunks)|
    }

    function Ended(): Stream {
      Stream([], later, later)
    }
  }

  /**
   * The io.Reader contract: `got` is the front of the stream, and a read that may return a
   * byte and does not fail makes progress. An error may come with the last bytes or behind them.
   */
  ghost predicate ReadOutcome(before: Stream, after: Stream, room: nat, got: seq<byte>, err: Option<Failure>) {
    && |got| <= room
    && before.Bytes() == got + after.Bytes()
    && match err
       case None =>
         && after.end == before.end && after.later == before.later
         && (room > 0 ==> after.Work() < before.Work())
       case Some(e) =>
         && e == before.end && after == before.Ended()
         && (got != [] ==> before.end == before.later)
  }

  function Min(a: int, b: int): int {
    if a <= b then a else b
  }

  /**
   * Conservation over any sequence of reads with any buffer sizes: the bytes handed out so far
   * followed by what the reader still holds are always the whole stream, and behind an error
   * no byte is handed out.
   */
  lemma {:induction false} ReadsConserve(streams: seq<Stream>, rooms: seq<nat>, gots: seq<seq<byte>>,
                                         errs: seq<Option<Failure>>)
    requires |streams| == |gots| + 1 && |rooms| == |errs| == |gots|
    requires forall i :: 0 <= i < |gots| ==> ReadOutcome(streams[i], streams[i + 1], rooms[i], gots[i], errs[i])
    ensures streams[0].Bytes() == Flatten(gots) + streams[|gots|].Bytes()
    ensures (exists i :: 0 <= i < |gots| && errs[i].Some?) ==> streams[|gots|].Bytes() == []
  {
    if gots != [] {
      var n := |gots| - 1;
      ReadsConserve(streams[..n + 1], rooms[..n], gots[..n], errs[..n]);
      assert ReadOutcome(streams[n], streams[n + 1], rooms[n], gots[n], errs[n]);
      assert gots == gots[..n] + [gots[n]];
      FlattenSnoc(gots[..n], gots[n]);
      if i :| 0 <= i < |gots| && errs[i].Some? {
        if i < n {
          assert errs[..n][i].Some?;
        }
      }
    }
  }

  /** Taking n bytes from the first piece, as `copy` and re-slicing do. */
  function Take(chunks: seq<seq<byte>>, n: nat): seq<seq<byte>>
    requires chunks != [] && n <= |chunks[0]|
  {
    if n == |chunks[0]| then chunks[1..] else [chunks[0][n..]] + chunks[1..]
  }

  /** The plain read of a reader that serves its pieces one by one. */
  function PieceRead(s: Stream, room: nat): (seq<byte>, Option<Failure>, Stream) {
    if s.chunks == [] then ([], Some(s.end), s.Ended())
    else
      var n := Min(|s.chunks[0]|, room);
      (s.chunks[0][..n], None, s.(chunks := Take(s.chunks, n)))
  }

  /** Serving pieces one by one meets the reader contract. */
  lemma PieceReadOutcome(s: Stream, room: nat)
    ensures var (got, err, after) := PieceRead(s, room); ReadOutcome(s, after, room, got, err)
  {
    if s.chunks != [] {
      var n := Min(|s.chunks[0]|, room);
      var c, more := s.chunks[0], s.chunks[1..];
      var after := Take(s.chunks, n);
      assert c == c[..n] + c[n..];
      if n < |c| {
        assert after[1..] == more;
        assert Flatten(after) == c[n..] + Flatten(more);
        assert c[..n] + (c[n..] + Flatten(more)) == c + Flatten(more);
      } else {
        assert c[..n] == c;
      }
    }
  }

  /** Go's `copy(p[off:], src)`. */
  method Copy(p: array<byte>, off: nat, src: seq<byte>) returns (n: nat)
    requires off <= p.Length
    modifies p
    ensures n == Min(|src|, p.Length - off)
    ensures p[..] == old(p[..off]) + src[..n] + old(p[off + n..])
  {
    n := 0;
    while n < |src| && off + n < p.Length
      invariant n <= |src| && off + n <= p.Length
      invariant p[..] == old(p[..off]) + src[..n] + old(p[off + n..])
    {
      p[off + n] := src[n];
      n := n + 1;
    }
  }

  /** A stream socket: the network decides the sizes in which bytes arrive. */
  class TcpConn {
    var chunks: seq<seq<byte>>  // still to arrive
    var end: Failure            // then reads fail with this
    var eager: bool             // the failure comes together with the last bytes
    var closed: bool
    var sent: seq<byte>         // accepted for transmission
    var budget: nat             // bytes accepted before writes fail
    var writeEnd: Failure

    constructor (chunks: seq<seq<byte>>, end: Failure, eager: bool, budget: nat, writeEnd: Failure)
      ensures View() == Stream(chunks, end, end) && sent == [] && !closed
    {
      this.chunks, this.end, this.eager, this.closed := chunks, end, eager, false;
      this.sent, this.budget, this.writeEnd := [], budget, writeEnd;
    }

    ghost function View(): Stream
      reads this
    {
      if closed then Stream([], ClosedPipe, ClosedPipe) else Stream(chunks, end, end)
    }

    method Read(p: array<byte>, off: nat) returns (n: nat, err: Option<Failure>)
      requires off <= p.Length
      modifies this`chunks, p
      ensures off + n <= p.Length && p[..off] == old(p[..off]) && p[off + n..] == old(p[off + n..])
      ensures ReadOutcome(old(View()), View(), p.Length - off, p[off..off + n], err)
    {
      if closed { return 0, Some(ClosedPipe); }
      if chunks == [] { return 0, Some(end); }
      n := Copy(p, off, chunks[0]);
      PieceReadOutcome(View(), p.Length - off);
      chunks := Take(chunks, n);
      err := if eager && chunks == [] then Some(end) else None;
      assert p[off..off + n] == old(chunks)[0][..n];
    }

    ghost predicate Accepts(b: seq<byte>)
      reads this
    {
      !closed && |b| <= budget
    }

    /** What a Write that fails now fails with. */
    ghost function WriteError(): Failure
      reads this
    {
      if closed then ClosedPipe else writeEnd
    }

    method Write(b: seq<byte>) returns (err: Option<Failure>)
      modifies this`sent, this`budget
      ensures err.Some? ==> err.value == old(WriteError())
      ensures old(sent) <= sent <= old(sent) + b
      ensures err.None? <==> old(Accepts(b))
      ensures err.None? ==> sent == old(sent) + b
      ensures closed ==> sent == old(sent)
    {
      if closed { return Some(ClosedPipe); }
      if |b| <= budget {
        sent, budget := sent + b, budget - |b|;
        return None;
      }
      sent, budget := sent + b[..budget], 0;
      return Some(writeEnd);
    }

    method Close()
      modifies this`closed
      ensures closed && View() == Stream([], ClosedPipe, ClosedPipe)
    {
      closed := true;
    }
  }

  /** What became of the close frame; FrameGone is websocket.ErrCloseSent. */
  datatype CloseFrame = FrameSent | FrameGone | FrameFailed(e: Failure)

  /** The WebSocket adaptor: whole messages below, a byte stream above. */
  class WsConn {
    var inbox: seq<seq<byte>>  // messages ReadMessage will still return
    var fail: Failure          // then ReadMessage fails with this
    var normalClose: bool      // `fail` is a normal or going-away close
    var readBuf: seq<byte>     // rest of the last message
    var readErr: Option<Failure>
    var closed: bool
    var outbox: seq<seq<byte>> // messages written
    var budget: nat            // messages accepted before WriteMessage fails
    var writeFail: Failure
    var writeErr: Option<Failure>
    var cancelled: bool        // the context handed out by NewWebSocketConn
    var underCloses: nat       // calls of the underlying Close

    constructor (inbox: seq<seq<byte>>, fail: Failure, normalClose: bool, budget: nat, writeFail: Failure)
      ensures View() == Stream(inbox, if normalClose then Eof else fail, fail)
      ensures outbox == [] && !closed && writeErr.None? && !cancelled && underCloses == 0
    {
      this.cancelled, this.underCloses := false, 0;
      this.inbox, this.fail, this.normalClose := inbox, fail, normalClose;
      this.readBuf, this.readErr, this.closed := [], None, false;
      this.outbox, this.budget, this.writeFail, this.writeErr := [], budget, writeFail, None;
    }

    /** Leftover bytes followed by the unread messages. */
    ghost function Pending(): seq<seq<byte>>
      reads this
    {
      (if readBuf == [] then [] else [readBuf]) + inbox
    }

    ghost function View(): Stream
      reads this
    {
      if closed then Stream([], ClosedPipe, ClosedPipe)
      else match readErr
        case Some(e) => Stream([], e, e)
        case None => Stream(Pending(), if normalClose then Eof else fail, fail)
    }

    /**
     * Leftover bytes and unread messages are served piece by piece: while the connection is
     * open, the bytes handed out, readBuf and the unread messages together stay the same byte
     * string (PieceReadOutcome). After a failure or a close no call that starts then returns a byte.
     */
    method Read(p: array<byte>, off: nat) returns (n: nat, err: Option<Failure>)
      requires off <= p.Length
      modifies this`inbox, this`readBuf, this`readErr, p
      ensures off + n <= p.Length && p[..off] == old(p[..off]) && p[off + n..] == old(p[off + n..])
      ensures (p[off..off + n], err, View()) == PieceRead(old(View()), p.Length - off)
    {
      if closed { return 0, Some(ClosedPipe); }
      assert p[off..off] == [];
      if readErr.Some? { return 0, readErr; }
      if |readBuf| > 0 {
        n := Drain(p, off);
        return n, None;
      }
      assert Pending() == inbox;
      n, err := Fetch(p, off);
    }

    /** Serving a read from the rest of the last message. */
    method Drain(p: array<byte>, off: nat) returns (n: nat)
      requires off <= p.Length && readBuf != []
      modifies this`readBuf, p
      ensures n == Min(|old(readBuf)|, p.Length - off)
      ensures p[..off] == old(p[..off]) && p[off..off + n] == old(readBuf)[..n] && p[off + n..] == old(p[off + n..])
      ensures Pending() == Take([old(readBuf)] + inbox, n)
    {
      n := Copy(p, off, readBuf);
      assert p[off..off + n] == readBuf[..n];
      readBuf := readBuf[n..];
    }

    /**
     * The second critical section of Read, behind the unlocked ReadMessage. It does not look
     * at `closed` again: a read that is in flight when Close runs may still return bytes.
     */
    method Fetch(p: array<byte>, off: nat) returns (n: nat, err: Option<Failure>)
      requires off <= p.Length && readBuf == [] && readErr.None?
      modifies this`inbox, this`readBuf, this`readErr, p
      ensures off + n <= p.Length && p[..off] == old(p[..off]) && p[off + n..] == old(p[off + n..])
      ensures old(inbox) == [] ==>
        && n == 0 && err == Some(if normalClose then Eof else fail)
        && inbox == [] && readBuf == [] && readErr == Some(fail)
      ensures old(inbox) != [] ==>
        && err.None? && readErr.None?
        && n == Min(|old(inbox)[0]|, p.Length - off) && p[off..off + n] == old(inbox)[0][..n]
        && Pending() == Take(old(inbox), n)
    {
      if inbox == [] {
        readErr := Some(fail);
        return 0, Some(if normalClose then Eof else fail);
      }
      var msg := inbox[0];
      inbox := inbox[1..];
      n := Copy(p, off, msg);
      if n < |msg| {
        readBuf := msg[n..];
      }
      err := None;
      assert p[off..off + n] == msg[..n];
    }

    ghost predicate Accepts()
      reads this
    {
      !closed && writeErr.None? && budget > 0
    }

    /** What a Write that fails now fails with: a failure of WriteMessage sticks. */
    ghost function WriteError(): Failure
      reads this
    {
      if closed then ClosedPipe else if writeErr.Some? then writeErr.value else writeFail
    }

    method Write(b: seq<byte>) returns (err: Option<Failure>)
      modifies this`outbox, this`budget, this`writeErr
      ensures err.None? ==> outbox == old(outbox) + [b] && writeErr == old(writeErr)
      ensures err.Some? ==> outbox == old(outbox) && err.value == old(WriteError())
      ensures err.None? <==> old(Accepts())
      ensures WriteError() == old(WriteError()) && (err.Some? && !closed ==> writeErr == err)
    {
      if closed { return Some(ClosedPipe); }
      if writeErr.Some? { return writeErr; }
      if budget == 0 {
        writeErr := Some(writeFail);
        return writeErr;
      }
      outbox, budget := outbox + [b], budget - 1;
      return None;
    }

    /**
     * The first call decides: `frame` is what WriteMessage made of the close frame and `under`
     * the result of the underlying Close, which is not called behind a failed frame.
     */
    method Close(frame: CloseFrame, under: Option<Failure>) returns (err: Option<Failure>)
      modifies this`closed, this`cancelled, this`underCloses
      ensures closed && cancelled && View() == Stream([], ClosedPipe, ClosedPipe)
      ensures old(closed) ==> err.None? && underCloses == old(underCloses)
      ensures !old(closed) ==>
        if frame.FrameFailed? then err == Some(frame.e) && underCloses == old(underCloses)
        else err == under && underCloses == old(underCloses) + 1
    {
      cancelled := true;
      if closed { return None; }
      closed := true;
      if frame.FrameFailed? { return Some(frame.e); }
      underCloses := underCloses + 1;
      return under;
    }
  }

  /** connection.Conn: one of the two implementations. */
  datatype Conn = Tcp(tcp: TcpConn) | Ws(ws: WsConn) {
    ghost function Obj(): object {
      match this case Tcp(t) => t case Ws(w) => w
    }

    ghost function View(): Stream
      reads Obj()
    {
      match this case Tcp(t) => t.View() case Ws(w) => w.View()
    }

    /** The bytes put on the wire. */
    ghost function Wire(): seq<byte>
      reads Obj()
    {
      match this case Tcp(t) => t.sent case Ws(w) => Flatten(w.outbox)
    }

    ghost predicate Closed()
      reads Obj()
    {
      match this case Tcp(t) => t.closed case Ws(w) => w.closed
    }

    /** The transport takes all of `b`. */
    ghost predicate Accepts(b: seq<byte>)
      reads Obj()
    {
      match this case Tcp(t) => t.Accepts(b) case Ws(w) => w.Accepts()
    }

    ghost function WriteError(): Failure
      reads Obj()
    {
      match this case Tcp(t) => t.WriteError() case Ws(w) => w.WriteError()
    }

    method Read(p: array<byte>, off: nat) returns (n: nat, err: Option<Failure>)
      requires off <= p.Length
      modifies Obj(), p
      ensures Wire() == old(Wire()) && Closed() == old(Closed())
      ensures off + n <= p.Length && p[..off] == old(p[..off]) && p[off + n..] == old(p[off + n..])
      ensures ReadOutcome(old(View()), View(), p.Length - off, p[off..off + n], err)
    {
      match this
      case Tcp(t) => n, err := t.Read(p, off);
      case Ws(w) =>
        PieceReadOutcome(w.View(), p.Length - off);
        n, err := w.Read(p, off);
    }

    /** A write that returns nil wrote everything; a failed one may have written any front part. */
    method Write(b: seq<byte>) returns (err: Option<Failure>)
      modifies Obj()
      ensures View() == old(View()) && Closed() == old(Closed())
      ensures old(Wire()) <= Wire() <= old(Wire()) + b
      ensures err.None? <==> old(Accepts(b))
      ensures err.None? ==> Wire() == old(Wire()) + b
      ensures err.Some? ==> err.value == old(WriteError())
      ensures Closed() ==> err == Some(ClosedPipe) && Wire() == old(Wire())
    {
      match this
      case Tcp(t) => err := t.Write(b);
      case Ws(w) =>
        FlattenSnoc(w.outbox, b);
        err := w.Write(b);
    }
  }

  /** ReadFull under way: `got` is read, `now` is left, `err` is the last read's error. */
  ghost predicate Reading(s: Stream, got: seq<byte>, now: Stream, err: Option<Failure>) {
    && s.Bytes() == got + now.Bytes()
    && match err
       case None => now.end == s.end && now.later == s.later
       case Some(e) => e == s.end && now == s.Ended()
  }

  lemma ReadingStep(s: Stream, got: seq<byte>, now: Stream, next: Stream, room: nat, more: seq<byte>,
                    err: Option<Failure>)
    requires Reading(s, got, now, None) && ReadOutcome(now, next, room, more, err)
    ensures Reading(s, got + more, next, err)
    ensures err.Some? && more != [] ==> s.end == s.later
  {
    assert got + (more + next.Bytes()) == (got + more) + next.Bytes();
  }

  /** Where ReadFull stops: with a full buffer, or with all of a shorter stream. */
  lemma ReadingStops(s: Stream, got: seq<byte>, now: Stream, err: Option<Failure>, want: nat)
    requires Reading(s, got, now, err) && |got| <= want && (|got| == want || err.Some?)
    requires err.Some? && |got| == want ==> s.end == s.later || got == []
    requires want == 0 ==> now == s
    ensures |got| == want ==>
      want <= |s.Bytes()| && got == s.Bytes()[..want] && now.Bytes() == s.Bytes()[want..]
      && now.end == s.end && now.later == s.later
    ensures |got| < want ==> |s.Bytes()| == |got| && err == Some(s.end) && now == s.Ended()
  {
  }

  /** One pass of ReadFull's loop. */
  method ReadOn(c: Conn, p: array<byte>, n: nat, ghost s: Stream) returns (m: nat, err: Option<Failure>)
    requires n < p.Length && Reading(s, p[..n], c.View(), None)
    modifies c.Obj(), p
    ensures c.Wire() == old(c.Wire()) && c.Closed() == old(c.Closed())
    ensures n + m <= p.Length && Reading(s, p[..n + m], c.View(), err)
    ensures err.None? ==> c.View().Work() < old(c.View().Work())
    ensures err.Some? && m > 0 ==> s.end == s.later
  {
    ghost var front, now := p[..n], c.View();
    m, err := c.Read(p, n);
    ReadingStep(s, front, now, c.View(), p.Length - n, p[n..n + m], err);
    assert p[..n + m] == front + p[n..n + m];
  }

  /**
   * io.ReadFull. The result depends on the bytes of the stream and its end only, never on
   * the sizes in which they arrive; an empty buffer touches nothing.
   */
  method ReadFull(c: Conn, p: array<byte>) returns (err: Option<Failure>)
    modifies c.Obj(), p
    ensures c.Wire() == old(c.Wire()) && c.Closed() == old(c.Closed())
    ensures p.Length == 0 ==> c.View() == old(c.View())
    ensures var s := old(c.View());
            if p.Length <= |s.Bytes()|
            then err.None? && p[..] == s.Bytes()[..p.Length] && c.View().Bytes() == s.Bytes()[p.Length..]
                 && c.View().end == s.end && c.View().later == s.later
            else err == Some(ShortRead(|s.Bytes()|, s.end)) && c.View() == s.Ended()
  {
    ghost var s := c.View();
    ghost var work := s.Work();
    var n: nat := 0;
    err := None;
    while n < p.Length && err.None?
      invariant n <= p.Length && work == c.View().Work()
      invariant c.Wire() == old(c.Wire()) && c.Closed() == old(c.Closed())
      invariant Reading(s, p[..n], c.View(), err)
      invariant err.Some? && n == p.Length ==> s.end == s.later
      invariant p.Length == 0 ==> c.View() == s
      decreases err.None?, work
    {
      var m;
      m, err := ReadOn(c, p, n, s);
      n, work := n + m, c.View().Work();
    }
    ReadingStops(s, p[..n], c.View(), err, p.Length);
    assert p[..p.Length] == p[..];
    if n >= p.Length {
      err := None;
    } else if n > 0 && err == Some(Eof) {
      err := Some(UnexpectedEof);
    }
  }
}
