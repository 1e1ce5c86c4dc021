/** An abstract two-wire (I2C) master with scripted replies.

    The transport is reduced to what the driver can observe: the status code of
    each `endTransmission`, and the bytes delivered by each `requestFrom`.  Both
    come from finite scripts fixed by the caller; every completed bus operation
    is appended to a log.  Once a script runs out the bus behaves as if no
    device were attached: `endTransmission` reports an address NACK and
    `requestFrom` delivers nothing. */
module Wire {
  import opened Registers

  /** One completed bus operation. */
  datatype Event =
    /** beginTransmission(addr), write(bytes...), endTransmission(stop) returning `code` */
    | Tx(addr: byte, bytes: seq<byte>, stop: bool, code: byte)
    /** requestFrom(addr, requested), which delivered `data` */
    | Rx(addr: byte, requested: byte, data: seq<byte>)

  /** endTransmission status: success. */
  const ACK: byte := 0
  /** endTransmission status: address not acknowledged. */
  const NACK_ADDR: byte := 2
  /** What read() yields on an empty receive buffer: -1 stored into a uint8_t. */
  const EMPTY_READ: byte := 0xFF

  /** The status the next endTransmission reports. */
  function NextReply(replies: seq<byte>): byte
  {
    if replies == [] then NACK_ADDR else replies[0]
  }

  /** The reply script after one endTransmission. */
  function RestReplies(replies: seq<byte>): (rest: seq<byte>)
    ensures replies != [] ==> |rest| == |replies| - 1
  {
    if replies == [] then [] else replies[1..]
  }

  /** The bytes the next requestFrom(addr, n) delivers: the scripted response,
      cut to the n bytes the master clocks in. */
  function NextResponse(responses: seq<seq<byte>>, n: byte): (data: seq<byte>)
    ensures |data| <= n
  {
    var r := if responses == [] then [] else responses[0];
    if |r| <= n then r else r[..n]
  }

  /** The response script after one requestFrom. */
  function RestResponses(responses: seq<seq<byte>>): seq<seq<byte>>
  {
    if responses == [] then [] else responses[1..]
  }

  /** `seg` is what a bus whose scripts start as `r0`, `p0` does, leaving them
      as `r1`, `p1`: every transmission reports the next scripted status and
      every read delivers the next scripted bytes, in log order. */
  predicate Scripted(seg: seq<Event>, r0: seq<byte>, p0: seq<seq<byte>>, r1: seq<byte>, p1: seq<seq<byte>>)
    decreases |seg|
  {
    if seg == [] then r1 == r0 && p1 == p0
    else match seg[0]
      case Tx(_, _, _, code) =>
        code == NextReply(r0) && Scripted(seg[1..], RestReplies(r0), p0, r1, p1)
      case Rx(_, n, data) =>
        data == NextResponse(p0, n) && Scripted(seg[1..], r0, RestResponses(p0), r1, p1)
  }

  /** One transmission reporting the next scripted status. */
  lemma ScriptedTx(e: Event, r0: seq<byte>, p0: seq<seq<byte>>)
    requires e.Tx? && e.code == NextReply(r0)
    ensures Scripted([e], r0, p0, RestReplies(r0), p0)
  {
    assert [e][1..] == [];
  }

  /** Two stretches of scripted traffic, the second starting where the first
      left the scripts, are one stretch. */
  lemma {:induction false} ScriptedConcat(a: seq<Event>, b: seq<Event>,
                                          r0: seq<byte>, p0: seq<seq<byte>>,
                                          r1: seq<byte>, p1: seq<seq<byte>>,
                                          r2: seq<byte>, p2: seq<seq<byte>>)
    requires Scripted(a, r0, p0, r1, p1) && Scripted(b, r1, p1, r2, p2)
    ensures Scripted(a + b, r0, p0, r2, p2)
    decreases |a|
  {
    if a == [] {
      assert a + b == b;
    } else {
      assert (a + b)[0] == a[0];
      assert (a + b)[1..] == a[1..] + b;
      match a[0]
      case Tx(_, _, _, _) =>
        ScriptedConcat(a[1..], b, RestReplies(r0), p0, r1, p1, r2, p2);
      case Rx(_, _, _) =>
        ScriptedConcat(a[1..], b, r0, RestResponses(p0), r1, p1, r2, p2);
    }
  }

  /** The scripts that remain after scripted traffic are determined by it. */
  lemma {:induction false} ScriptedDeterministic(seg: seq<Event>, r0: seq<byte>, p0: seq<seq<byte>>,
                                                 r1: seq<byte>, p1: seq<seq<byte>>,
                                                 r2: seq<byte>, p2: seq<seq<byte>>)
    requires Scripted(seg, r0, p0, r1, p1) && Scripted(seg, r0, p0, r2, p2)
    ensures r1 == r2 && p1 == p2
    decreases |seg|
  {
    if seg != [] {
      match seg[0]
      case Tx(_, _, _, _) =>
        ScriptedDeterministic(seg[1..], RestReplies(r0), p0, r1, p1, r2, p2);
      case Rx(_, _, _) =>
        ScriptedDeterministic(seg[1..], r0, RestResponses(p0), r1, p1, r2, p2);
    }
  }

  class ScriptedWire {
    /** Every completed bus operation, oldest first. */
    var log: seq<Event>
    /** Status codes still to be reported by endTransmission. */
    var replies: seq<byte>
    /** Byte strings still to be delivered by requestFrom. */
    var responses: seq<seq<byte>>
    /** The transmission being assembled. */
    var txAddr: byte
    var txBuf: seq<byte>
    /** Bytes received by the last requestFrom and not read yet. */
    var rxBuf: seq<byte>

    constructor (replyScript: seq<byte>, responseScript: seq<seq<byte>>)
      ensures log == [] && replies == replyScript && responses == responseScript
      ensures txBuf == [] && rxBuf == []
    {
      log := [];
      replies := replyScript;
      responses := responseScript;
      txAddr := 0;
      txBuf := [];
      rxBuf := [];
    }

    /** Starts a transmission to `addr`; nothing goes on the bus yet. */
    method BeginTransmission(addr: byte)
      modifies this`txAddr, this`txBuf
      ensures txAddr == addr && txBuf == []
    {
      txAddr := addr;
      txBuf := [];
    }

    /** Queues one byte of the transmission. */
    method Write(b: byte)
      modifies this`txBuf
      ensures txBuf == old(txBuf) + [b]
    {
      txBuf := txBuf + [b];
    }

    /** Sends the queued transmission, ending with STOP or, if `stop` is false,
      leaving the bus held for a repeated start; returns the scripted status. */
    method EndTransmission(stop: bool) returns (code: byte)
      modifies this`log, this`replies, this`txBuf
      ensures code == NextReply(old(replies))
      ensures replies == RestReplies(old(replies))
      ensures log == old(log) + [Tx(txAddr, old(txBuf), stop, code)]
      ensures txBuf == []
    {
      code := NextReply(replies);
      replies := RestReplies(replies);
      log := log + [Tx(txAddr, txBuf, stop, code)];
      txBuf := [];
    }

    /** Reads up to `n` bytes from `addr` into the receive buffer and returns
      how many arrived. */
    method RequestFrom(addr: byte, n: byte) returns (got: byte)
      modifies this`log, this`responses, this`rxBuf
      ensures rxBuf == NextResponse(old(responses), n) && got == |rxBuf|
      ensures responses == RestResponses(old(responses))
      ensures log == old(log) + [Rx(addr, n, rxBuf)]
    {
      rxBuf := NextResponse(responses, n);
      responses := RestResponses(responses);
      log := log + [Rx(addr, n, rxBuf)];
      got := |rxBuf|;
    }

    /** Takes the next received byte. */
    method Read() returns (b: byte)
      modifies this`rxBuf
      ensures old(rxBuf) != [] ==> b == old(rxBuf)[0] && rxBuf == old(rxBuf)[1..]
      ensures old(rxBuf) == [] ==> b == EMPTY_READ && rxBuf == []
    {
      if rxBuf == [] {
        b := EMPTY_READ;
      } else {
        b := rxBuf[0];
        rxBuf := rxBuf[1..];
      }
    }
  }
}
