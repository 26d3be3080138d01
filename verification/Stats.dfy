// stats/stats.go as objects, and handleMsg of client and server over any interleaving of calls.
module Stats {
  import opened Bytes
  import opened Errors

  const TWO_64: int := 0x1_0000_0000_0000_0000

  function ToUint64(n: int): int {
    n % TWO_64
  }

  function ToInt64(n: int): int {
    var r := n % TWO_64;
    if r >= 0x8000_0000_0000_0000 then r - TWO_64 else r
  }

  /** 64-bit counters: the value in range that differs by a multiple of 2^64. */
  lemma Wraps(n: int)
    ensures 0 <= ToUint64(n) < 0x1_0000_0000_0000_0000 && (ToUint64(n) - n) % 0x1_0000_0000_0000_0000 == 0
    ensures -0x8000_0000_0000_0000 <= ToInt64(n) < 0x8000_0000_0000_0000
    ensures (ToInt64(n) - n) % 0x1_0000_0000_0000_0000 == 0
  {
    var q := n / TWO_64;
    assert n == q * TWO_64 + n % TWO_64;
    assert (-q * TWO_64) % TWO_64 == 0 && ((-q - 1) * TWO_64) % TWO_64 == 0;
  }

  datatype Entry = Entry(successPacket: int, successBytes: int, failedPacket: int, failedBytes: int)

  const ZERO: Entry := Entry(0, 0, 0, 0)

  /** One packet more, with its bytes. */
  function AddTo(e: Entry, bytes: nat, success: bool): Entry {
    if success
    then e.(successPacket := ToInt64(e.successPacket + 1), successBytes := ToUint64(e.successBytes + bytes))
    else e.(failedPacket := ToInt64(e.failedPacket + 1), failedBytes := ToUint64(e.failedBytes + bytes))
  }

  /** GetStatistic of an id without an entry. */
  function Lookup(t: map<uint32, Entry>, id: uint32): Entry {
    if id in t then t[id] else ZERO
  }

  class HandlerStatistic {
    const msgID: uint32
    var successPacket: int
    var successBytes: int
    var failedPacket: int
    var failedBytes: int

    constructor (msgID: uint32)
      ensures this.msgID == msgID && Value() == ZERO
    {
      this.msgID := msgID;
      successPacket, successBytes, failedPacket, failedBytes := 0, 0, 0, 0;
    }

    function Value(): Entry
      reads this
    {
      Entry(successPacket, successBytes, failedPacket, failedBytes)
    }

    /** The locked part of AddBytes. */
    method Record(bytes: nat, success: bool)
      modifies this
      ensures Value() == AddTo(old(Value()), bytes, success)
    {
      if success {
        successPacket, successBytes := ToInt64(successPacket + 1), ToUint64(successBytes + bytes);
      } else {
        failedPacket, failedBytes := ToInt64(failedPacket + 1), ToUint64(failedBytes + bytes);
      }
    }
  }

  ghost function Values(m: map<uint32, HandlerStatistic>): map<uint32, Entry>
    reads m.Values
  {
    map id | id in m :: m[id].Value()
  }

  class HandlerStats {
    var statistic: map<uint32, HandlerStatistic>
    var unknownMsg: int

    /** Every entry is filed under its own id, so two ids never share an entry. */
    ghost predicate Valid()
      reads this
    {
      forall id | id in statistic :: statistic[id].msgID == id
    }

    constructor ()
      ensures Valid() && statistic == map[] && unknownMsg == 0
    {
      statistic, unknownMsg := map[], 0;
    }

    /** An entry, once created, is never replaced. */
    method GetOrCreateStatistic(id: uint32) returns (stat: HandlerStatistic)
      requires Valid()
      modifies this`statistic
      ensures Valid() && id in statistic && statistic[id] == stat
      ensures id in old(statistic) ==> statistic == old(statistic)
      ensures id !in old(statistic) ==> statistic == old(statistic)[id := stat] && fresh(stat)
      ensures Values(statistic) == old(Values(statistic))[id := Lookup(old(Values(statistic)), id)]
    {
      if id in statistic {
        stat := statistic[id];
        assert Values(statistic) == old(Values(statistic));
      } else {
        ghost var values := Values(statistic);
        stat := new HandlerStatistic(id);
        statistic := statistic[id := stat];
        assert Values(statistic) == values[id := ZERO];
      }
    }

    method AddBytes(id: uint32, bytes: nat, success: bool)
      requires Valid() && bytes < TWO_64
      modifies this`statistic, statistic.Values
      ensures Valid()
      ensures forall k | k in old(statistic) :: k in statistic && statistic[k] == old(statistic[k])
      ensures var v := old(Values(statistic)); Values(statistic) == v[id := AddTo(Lookup(v, id), bytes, success)]
    {
      ghost var v := Values(statistic);
      var stat := GetOrCreateStatistic(id);
      ghost var v1 := Values(statistic);
      assert forall k | k in statistic && k != id :: statistic[k] != stat;
      stat.Record(bytes, success);
      assert Values(statistic) == v1[id := AddTo(v1[id], bytes, success)];
    }

    /** Packets and bytes of one and the same state; an unknown id reads as zeros and stays unknown. */
    method GetStatistic(id: uint32) returns (e: Entry)
      requires Valid()
      ensures e == Lookup(Values(statistic), id)
    {
      if id !in statistic { return ZERO; }
      e := statistic[id].Value();
    }

    method IncUnknownMsg()
      modifies this`unknownMsg
      ensures unknownMsg == ToInt64(old(unknownMsg) + 1)
    {
      unknownMsg := ToInt64(unknownMsg + 1);
    }
  }
}
