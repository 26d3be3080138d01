// Bytes, fixed-width integers and their big-endian encoding.
module Bytes {

  type byte = x: int | 0 <= x < 256

  const TWO_32: int := 0x1_0000_0000

  type uint32 = x: int | 0 <= x < TWO_32

  /** Go's conversion of an `int` length to `uint32`. */
  function ToUint32(n: nat): (r: uint32) {
    n % TWO_32
  }

  const MAX_INT32: int := 0x7fff_ffff

  /** The value an int32 holds after wrapping around. */
  function ToInt32(n: int): int {
    var r := n % TWO_32;
    if r > MAX_INT32 then r - TWO_32 else r
  }

  function PutUint32(v: uint32): (r: seq<byte>)
    ensures |r| == 4
  {
    [v / 0x100_0000, v / 0x1_0000 % 0x100, v / 0x100 % 0x100, v % 0x100]
  }

  function GetUint32(s: seq<byte>): (r: uint32)
    requires |s| == 4
  {
    var b0: int, b1: int, b2: int, b3: int := s[0], s[1], s[2], s[3];
    b0 * 0x100_0000 + b1 * 0x1_0000 + b2 * 0x100 + b3
  }

  lemma GetPut(v: uint32)
    ensures GetUint32(PutUint32(v)) == v
  {
    var q1, q2, q3 := v / 0x100, v / 0x1_0000, v / 0x100_0000;
    assert v == q1 * 0x100 + v % 0x100;
    assert q1 == q2 * 0x100 + q1 % 0x100;
    assert q2 == q3 * 0x100 + q2 % 0x100;
  }

  /** The most significant byte comes first. */
  lemma BigEndian(v: uint32)
    ensures var b := PutUint32(v); b[0] as int * 0x100_0000 + b[1] as int * 0x1_0000 + b[2] as int * 0x100 + b[3] == v
  {
    GetPut(v);
  }

  lemma PutGet(s: seq<byte>)
    requires |s| == 4
    ensures PutUint32(GetUint32(s)) == s
  {
    var b0: int, b1: int, b2: int := s[0], s[1], s[2];
    var v := GetUint32(s);
    assert v / 0x100 == b0 * 0x1_0000 + b1 * 0x100 + b2 && v % 0x100 == s[3];
    assert v / 0x1_0000 == b0 * 0x100 + b1;
    assert v / 0x100_0000 == b0;
  }
}

// The error kinds of the program; their texts are not modelled.
module Errors {

  datatype Option<+T> = None | Some(value: T)

  datatype Failure =
    | DataLength         // protocol.ErrDataLength
    | Eof                // io.EOF
    | UnexpectedEof      // io.ErrUnexpectedEOF
    | ClosedPipe         // reading or writing a closed transport
    | IsClose            // connection.ErrIsClose
    | ContextDone        // ctx.Err()
    | Transport(code: int)  // any other error of the transport

  /** A Go `error` that is stored or returned: nil or a failure. */
  datatype Result = Nil | Err(e: Failure)

  /** The error of `io.ReadFull` when the reader ends early after `got` bytes. */
  function ShortRead(got: nat, end: Failure): Failure {
    if got > 0 && end == Eof then UnexpectedEof else end
  }
}
