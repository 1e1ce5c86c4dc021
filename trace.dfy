/** The shapes the driver's register operations leave in the bus log, and the
    facts about those shapes that the acquisition and averaging proofs use. */
module Trace {
  import opened Registers
  import opened Conversion
  import opened Wire

  /** writeReg(reg, val): one transaction to the device, [reg, val], then STOP. */
  function RegWrite(reg: byte, val: byte, code: byte): Event
  {
    Tx(I2C_ADDR, [reg, val], true, code)
  }

  /** The address phase of readRegs(reg, ...): the register byte, no STOP. */
  function AddressPhase(reg: byte, code: byte): Event
  {
    Tx(I2C_ADDR, [reg], false, code)
  }

  /** A register read that delivered all `n` requested bytes `data`. */
  function RegRead(reg: byte, n: byte, data: seq<byte>): seq<Event>
  {
    [AddressPhase(reg, ACK), Rx(I2C_ADDR, n, data)]
  }

  /** A register read of `n` bytes that did not deliver `n` bytes: either the
      address phase failed (and nothing was requested), or fewer bytes came. */
  predicate FailedRegRead(seg: seq<Event>, reg: byte, n: byte)
  {
    (|seg| == 1 && seg[0].Tx? && seg[0] == AddressPhase(reg, seg[0].code) && seg[0].code != ACK)
    || (|seg| == 2 && seg[0] == AddressPhase(reg, ACK)
        && seg[1].Rx? && seg[1] == Rx(I2C_ADDR, n, seg[1].data) && |seg[1].data| != n)
  }

  /** readRegs(reg, buf, n) as seen on the bus: if `ok`, all `n` bytes arrived;
      otherwise the read failed as FailedRegRead says. */
  predicate RegReadTrace(seg: seq<Event>, reg: byte, n: byte, ok: bool)
  {
    if ok then |seg| == 2 && seg[1].Rx? && seg == RegRead(reg, n, seg[1].data) && |seg[1].data| == n
    else FailedRegRead(seg, reg, n)
  }

  /** The bring-up configuration, register and value, in the order it is written. */
  function DefaultConfig(): seq<(byte, byte)>
  {
    [(REG_CAP_SETUP, DEFAULT_CAP_SETUP),
     (REG_EXC_SETUP, DEFAULT_EXC_SETUP),
     (REG_CONFIGURATION, DEFAULT_CONFIGURATION)]
  }

  /** The bring-up writes are the defaults the register map documents, each to
      a distinct configuration register. */
  lemma DefaultConfigDocumented()
    ensures DefaultConfig() == [(0x07, 0x81), (0x09, 0x08), (0x0A, 0x21)]
    ensures forall i, j :: 0 <= i < j < |DefaultConfig()| ==> DefaultConfig()[i].0 != DefaultConfig()[j].0
  {
  }

  /** The trace of applyDefaultConfig: a prefix of the default writes, in
      order, every one acknowledged but possibly the last, and stopping early
      only at a write that was not acknowledged. */
  predicate ConfigTrace(seg: seq<Event>)
  {
    1 <= |seg| <= |DefaultConfig()|
    && (forall k :: 0 <= k < |seg| ==>
          seg[k].Tx? && seg[k] == RegWrite(DefaultConfig()[k].0, DefaultConfig()[k].1, seg[k].code))
    && (forall k :: 0 <= k < |seg| - 1 ==> seg[k].code == ACK)
    && (|seg| < |DefaultConfig()| ==> seg[|seg| - 1].code != ACK)
  }

  /** All three default writes were acknowledged. */
  predicate ConfigSucceeded(seg: seq<Event>)
    requires ConfigTrace(seg)
  {
    |seg| == |DefaultConfig()| && seg[|seg| - 1].code == ACK
  }

  /** The trace of a run of successful one-byte STATUS reads returning `polls`. */
  function StatusReads(polls: seq<byte>): (seg: seq<Event>)
    ensures |seg| == 2 * |polls|
  {
    if polls == [] then []
    else StatusReads(polls[..|polls| - 1]) + RegRead(REG_STATUS, 1, [polls[|polls| - 1]])
  }

  /** The trace of readCapRaw: STATUS polls until one finds RDYCAP clear, then
      the three data bytes; it stops at the first read that comes back short.
      `polls` are the STATUS bytes read, `code` the assembled result. */
  ghost predicate CapRawTrace(seg: seq<Event>, polls: seq<byte>, ok: bool, code: uint32)
  {
    2 * |polls| <= |seg| && seg[..2 * |polls|] == StatusReads(polls)
    && (forall k :: 0 <= k < |polls| - 1 ==> CapNotReady(polls[k]))
    && var tail := seg[2 * |polls|..];
    if ok then
      |polls| > 0 && !CapNotReady(polls[|polls| - 1])
      && |tail| == 2 && tail[0] == AddressPhase(REG_CAP_DATA_H, ACK)
      && tail[1].Rx? && tail[1] == Rx(I2C_ADDR, 3, tail[1].data) && |tail[1].data| == 3
      && code == Assemble(tail[1].data[0], tail[1].data[1], tail[1].data[2])
    else
      (|polls| > 0 && CapNotReady(polls[|polls| - 1]) && FailedRegRead(tail, REG_STATUS, 1))
      || (polls == [] && FailedRegRead(tail, REG_STATUS, 1))
      || (|polls| > 0 && !CapNotReady(polls[|polls| - 1]) && FailedRegRead(tail, REG_CAP_DATA_H, 3))
  }

  /** The code a complete three-byte read from the device carries, if `e` is one. */
  function SampleOf(e: Event): (s: seq<uint32>)
    ensures |s| <= 1
  {
    if e.Rx? && e.addr == I2C_ADDR && e.requested == 3 && |e.data| == 3
    then [Assemble(e.data[0], e.data[1], e.data[2])]
    else []
  }

  /** The codes of all complete three-byte reads in a trace, in order.  Only the
      capacitance data read asks the device for three bytes. */
  function Samples(seg: seq<Event>): seq<uint32>
  {
    if seg == [] then [] else Samples(seg[..|seg| - 1]) + SampleOf(seg[|seg| - 1])
  }

  /** Every STATUS read that a capacitance data read relies on: the two events
      before position k read one STATUS byte with RDYCAP clear. */
  predicate ReadyBefore(seg: seq<Event>, k: int)
  {
    2 <= k < |seg| && seg[k - 2] == AddressPhase(REG_STATUS, ACK)
    && seg[k - 1].Rx? && seg[k - 1].addr == I2C_ADDR && seg[k - 1].requested == 1
    && |seg[k - 1].data| == 1 && !CapNotReady(seg[k - 1].data[0])
  }

  /** No access to the capacitance data registers without a fresh STATUS read
      that found the result ready. */
  predicate DataReadsAfterReady(seg: seq<Event>)
  {
    forall k :: 0 <= k < |seg| && seg[k].Tx? && seg[k].bytes == [REG_CAP_DATA_H] ==> ReadyBefore(seg, k)
  }

  /** Samples of a concatenated trace are the samples of its parts. */
  lemma {:induction false} SamplesConcat(a: seq<Event>, b: seq<Event>)
    ensures Samples(a + b) == Samples(a) + Samples(b)
  {
    if b != [] {
      var b' := b[..|b| - 1];
      assert (a + b)[..|a + b| - 1] == a + b';
      SamplesConcat(a, b');
    } else {
      assert a + b == a;
    }
  }

  /** Every sample is a 24-bit code. */
  lemma {:induction false} SamplesAre24Bit(seg: seq<Event>)
    ensures forall k :: 0 <= k < |Samples(seg)| ==> Samples(seg)[k] < CODE_LIMIT
  {
    if seg != [] {
      SamplesAre24Bit(seg[..|seg| - 1]);
    }
  }

  /** STATUS polling carries no sample. */
  lemma {:induction false} StatusReadsNoSamples(polls: seq<byte>)
    ensures Samples(StatusReads(polls)) == []
  {
    if polls != [] {
      var init := polls[..|polls| - 1];
      StatusReadsNoSamples(init);
      var tail := RegRead(REG_STATUS, 1, [polls[|polls| - 1]]);
      SamplesConcat(StatusReads(init), tail);
      ShortSamples(tail);
    }
  }

  /** STATUS polling addresses no register but STATUS. */
  lemma {:induction false} StatusReadsOnlyStatus(polls: seq<byte>)
    ensures forall k :: 0 <= k < |StatusReads(polls)| && StatusReads(polls)[k].Tx? ==>
      StatusReads(polls)[k] == AddressPhase(REG_STATUS, ACK)
  {
    if polls != [] {
      var init := polls[..|polls| - 1];
      StatusReadsOnlyStatus(init);
      var head: seq<Event>, tail: seq<Event> := StatusReads(init), RegRead(REG_STATUS, 1, [polls[|polls| - 1]]);
      assert StatusReads(polls) == head + tail;
      forall k | 0 <= k < |head + tail| && (head + tail)[k].Tx?
        ensures (head + tail)[k] == AddressPhase(REG_STATUS, ACK)
      {
        if k < |head| {
          assert (head + tail)[k] == head[k];
        } else {
          assert (head + tail)[k] == tail[k - |head|];
        }
      }
    }
  }

  /** The samples of a trace of at most two events. */
  lemma ShortSamples(seg: seq<Event>)
    requires |seg| <= 2
    ensures |seg| == 1 ==> Samples(seg) == SampleOf(seg[0])
    ensures |seg| == 2 ==> Samples(seg) == SampleOf(seg[0]) + SampleOf(seg[1])
  {
    if |seg| == 2 {
      assert seg[..1][..0] == [];
    } else if |seg| == 1 {
      assert seg[..0] == [];
    }
  }

  /** The data read of readCapRaw is the one sample of its trace, present
      exactly when it succeeded. */
  lemma CapRawTraceSamples(seg: seq<Event>, polls: seq<byte>, ok: bool, code: uint32)
    requires CapRawTrace(seg, polls, ok, code)
    ensures Samples(seg) == if ok then [code] else []
  {
    var head, tail := seg[..2 * |polls|], seg[2 * |polls|..];
    assert seg == head + tail;
    StatusReadsNoSamples(polls);
    SamplesConcat(head, tail);
    if ok {
      ShortSamples(tail);
    } else if FailedRegRead(tail, REG_STATUS, 1) {
      FailedNoSamples(tail, REG_STATUS, 1);
    } else {
      FailedNoSamples(tail, REG_CAP_DATA_H, 3);
    }
  }

  /** A register read that failed delivers no sample. */
  lemma FailedNoSamples(seg: seq<Event>, reg: byte, n: byte)
    requires FailedRegRead(seg, reg, n)
    ensures Samples(seg) == []
  {
    ShortSamples(seg);
  }

  /** readCapRaw reaches the data registers only right after a STATUS read that
      found RDYCAP clear. */
  lemma CapRawTraceGuarded(seg: seq<Event>, polls: seq<byte>, ok: bool, code: uint32)
    requires CapRawTrace(seg, polls, ok, code)
    ensures DataReadsAfterReady(seg)
  {
    var n := 2 * |polls|;
    var head, tail := seg[..n], seg[n..];
    StatusReadsOnlyStatus(polls);
    // the only event that may address the data registers is the first one after the polls,
    // and it does so only when the last poll found RDYCAP clear
    assert forall j :: 0 <= j < |tail| && tail[j].Tx? && tail[j].bytes == [REG_CAP_DATA_H] ==>
      j == 0 && |polls| > 0 && !CapNotReady(polls[|polls| - 1]);
    forall k | 0 <= k < |seg| && seg[k].Tx? && seg[k].bytes == [REG_CAP_DATA_H]
      ensures ReadyBefore(seg, k)
    {
      assert k >= n;
      assert seg[k] == tail[k - n];
      StatusReadsLast(polls);
      assert seg[n - 2] == head[n - 2];
      assert seg[n - 1] == head[n - 1];
    }
  }

  /** The last two events of a run of STATUS reads are the read of the last byte. */
  lemma StatusReadsLast(polls: seq<byte>)
    requires polls != []
    ensures StatusReads(polls)[2 * |polls| - 2] == AddressPhase(REG_STATUS, ACK)
    ensures StatusReads(polls)[2 * |polls| - 1] == Rx(I2C_ADDR, 1, [polls[|polls| - 1]])
  {
  }

  /** The guard survives concatenation of traces. */
  lemma GuardedConcat(a: seq<Event>, b: seq<Event>)
    requires DataReadsAfterReady(a) && DataReadsAfterReady(b)
    ensures DataReadsAfterReady(a + b)
  {
    forall k | 0 <= k < |a + b| && (a + b)[k].Tx? && (a + b)[k].bytes == [REG_CAP_DATA_H]
      ensures ReadyBefore(a + b, k)
    {
      if k < |a| {
        assert ReadyBefore(a, k);
      } else {
        assert (a + b)[k] == b[k - |a|];
        assert ReadyBefore(b, k - |a|);
      }
    }
  }

  /** Appending a trace piece by piece is appending it at once. */
  lemma AppendAssoc(a: seq<Event>, b: seq<Event>, c: seq<Event>)
    ensures (a + b) + c == a + (b + c)
  {
  }

  /** The trace of readCapRaw's STATUS poll.  If `ok`: successful reads of
      `polls`, RDYCAP set in all but the last.  Otherwise: successful reads of
      `polls`, all with RDYCAP set, then a STATUS read that came back short. */
  predicate PollTrace(seg: seq<Event>, polls: seq<byte>, ok: bool)
  {
    (forall k :: 0 <= k < |polls| - 1 ==> CapNotReady(polls[k]))
    && if ok then
      seg == StatusReads(polls) && polls != [] && !CapNotReady(polls[|polls| - 1])
    else
      (polls != [] ==> CapNotReady(polls[|polls| - 1]))
      && 2 * |polls| <= |seg| && seg[..2 * |polls|] == StatusReads(polls)
      && FailedRegRead(seg[2 * |polls|..], REG_STATUS, 1)
  }

  /** Busy STATUS reads followed by a short one are a failed poll. */
  lemma PollFailed(polls: seq<byte>, s: seq<Event>)
    requires forall k :: 0 <= k < |polls| ==> CapNotReady(polls[k])
    requires FailedRegRead(s, REG_STATUS, 1)
    ensures PollTrace(StatusReads(polls) + s, polls, false)
  {
    var seg := StatusReads(polls) + s;
    assert seg[..2 * |polls|] == StatusReads(polls);
    assert seg[2 * |polls|..] == s;
  }

  /** One more busy-or-ready STATUS read extends a run of busy reads. */
  lemma PollStep(polls: seq<byte>, x: byte, s: seq<Event>)
    requires forall k :: 0 <= k < |polls| ==> CapNotReady(polls[k])
    requires s == RegRead(REG_STATUS, 1, [x])
    ensures StatusReads(polls) + s == StatusReads(polls + [x])
    ensures forall k :: 0 <= k < |polls + [x]| - 1 ==> CapNotReady((polls + [x])[k])
  {
    assert (polls + [x])[..|polls|] == polls;
  }

  /** A failed poll is a failed readCapRaw trace. */
  lemma PollFailedCapRaw(seg: seq<Event>, polls: seq<byte>, code: uint32)
    requires PollTrace(seg, polls, false)
    ensures CapRawTrace(seg, polls, false, code)
  {
  }

  /** A poll that found RDYCAP clear, followed by the data read, is a readCapRaw
      trace that succeeds exactly when the data read delivered three bytes. */
  lemma PollReady(seg: seq<Event>, polls: seq<byte>, s: seq<Event>, ok: bool, code: uint32)
    requires PollTrace(seg, polls, true)
    requires RegReadTrace(s, REG_CAP_DATA_H, 3, ok)
    requires ok ==> code == Assemble(s[1].data[0], s[1].data[1], s[1].data[2])
    ensures CapRawTrace(seg + s, polls, ok, code)
  {
    assert (seg + s)[..2 * |polls|] == seg;
    assert (seg + s)[2 * |polls|..] == s;
  }

  /** One readCapRaw attempt of an averaging session: its trace, the STATUS
      bytes it polled, whether it succeeded, and the code it read. */
  datatype Attempt = Attempt(seg: seq<Event>, polls: seq<byte>, ok: bool, raw: uint32)

  /** The attempt's trace has the shape readCapRaw leaves. */
  ghost predicate IsCapRawAttempt(a: Attempt)
  {
    CapRawTrace(a.seg, a.polls, a.ok, a.raw)
  }

  /** Every attempt of the run has the shape readCapRaw leaves. */
  ghost predicate AllCapRaw(attempts: seq<Attempt>)
  {
    attempts == [] || (AllCapRaw(attempts[..|attempts| - 1]) && IsCapRawAttempt(attempts[|attempts| - 1]))
  }

  /** AllCapRaw says of each attempt what IsCapRawAttempt says. */
  lemma {:induction false} AllCapRawEach(attempts: seq<Attempt>)
    requires AllCapRaw(attempts)
    ensures forall j :: 0 <= j < |attempts| ==> IsCapRawAttempt(attempts[j])
  {
    if attempts != [] {
      var init := attempts[..|attempts| - 1];
      AllCapRawEach(init);
      assert forall j :: 0 <= j < |init| ==> attempts[j] == init[j];
    }
  }

  /** The traces of a run of attempts, one after another. */
  function Flatten(attempts: seq<Attempt>): seq<Event>
  {
    if attempts == [] then []
    else Flatten(attempts[..|attempts| - 1]) + attempts[|attempts| - 1].seg
  }

  /** The codes of the successful attempts, in order. */
  function OkCodes(attempts: seq<Attempt>): seq<uint32>
  {
    if attempts == [] then []
    else OkCodes(attempts[..|attempts| - 1])
         + (if attempts[|attempts| - 1].ok then [attempts[|attempts| - 1].raw] else [])
  }

  /** One more attempt extends the trace by its own and the codes by its code if it succeeded. */
  lemma AttemptsAppend(attempts: seq<Attempt>, a: Attempt)
    ensures Flatten(attempts + [a]) == Flatten(attempts) + a.seg
    ensures OkCodes(attempts + [a]) == OkCodes(attempts) + (if a.ok then [a.raw] else [])
    ensures AllCapRaw(attempts + [a]) <==> AllCapRaw(attempts) && IsCapRawAttempt(a)
  {
    assert (attempts + [a])[..|attempts|] == attempts;
  }

  /** The samples of a run of readCapRaw attempts are the codes of the
      successful ones: failed attempts contribute nothing. */
  lemma {:induction false} AttemptsSamples(attempts: seq<Attempt>)
    requires AllCapRaw(attempts)
    ensures Samples(Flatten(attempts)) == OkCodes(attempts)
  {
    if attempts != [] {
      var init, a := attempts[..|attempts| - 1], attempts[|attempts| - 1];
      AttemptsSamples(init);
      SamplesConcat(Flatten(init), a.seg);
      CapRawTraceSamples(a.seg, a.polls, a.ok, a.raw);
    }
  }

  /** A run of readCapRaw attempts reads data only after a ready STATUS. */
  lemma {:induction false} AttemptsGuarded(attempts: seq<Attempt>)
    requires AllCapRaw(attempts)
    ensures DataReadsAfterReady(Flatten(attempts))
  {
    if attempts != [] {
      var init, a := attempts[..|attempts| - 1], attempts[|attempts| - 1];
      AttemptsGuarded(init);
      CapRawTraceGuarded(a.seg, a.polls, a.ok, a.raw);
      GuardedConcat(Flatten(init), a.seg);
    }
  }
}
