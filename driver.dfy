/** The AD7746 driver object: register protocol, bring-up, acquisition and
    averaging, acting on the bus it was given. */
module Driver {
  import opened Registers
  import opened Conversion
  import opened Averaging
  import opened Wire
  import opened Trace

  /** An unsigned 16-bit quantity (uint16_t). */
  type uint16 = x: int | 0 <= x < 0x1_0000

  /** What readAverage yields. */
  datatype Average =
    /** the mean of the successful readings */
    | Mean(pf: real)
    /** 0.0 / 0, the NAN the source returns when asked for zero samples */
    | NaN
    /** the reply script ran out before N readings succeeded: from then on every
        transaction fails and the source's retry loop never returns */
    | Blocked

  class Ad7746 {
    /** The transport, `wire_`. */
    var wire: ScriptedWire

    /** A driver bound to the bus `w`. */
    constructor (w: ScriptedWire)
      ensures wire == w
    {
      wire := w;
    }

    /** Bring-up: general-call reset (its status ignored), the default
        configuration, then one STATUS read to confirm the device answers. */
    method Begin(w: ScriptedWire) returns (ok: bool, ghost seg: seq<Event>, ghost cfgLen: nat)
      modifies this, w
      ensures wire == w
      ensures w.log == old(w.log) + seg
      ensures 1 + cfgLen <= |seg|
      ensures seg[0] == Tx(GENERAL_CALL_ADDR, [RESET_CMD], true, NextReply(old(w.replies)))
      ensures ConfigTrace(seg[1..1 + cfgLen])
      ensures !ConfigSucceeded(seg[1..1 + cfgLen]) ==> !ok && |seg| == 1 + cfgLen
      ensures ConfigSucceeded(seg[1..1 + cfgLen]) ==> RegReadTrace(seg[1 + cfgLen..], REG_STATUS, 1, ok)
      ensures Scripted(seg, old(w.replies), old(w.responses), w.replies, w.responses)
      ensures ok <==> |old(w.replies)| >= 5 && old(w.replies)[1..5] == [ACK, ACK, ACK, ACK]
                      && |NextResponse(old(w.responses), 1)| == 1
    {
      wire := w;
      ghost var r0, p0 := w.replies, w.responses;
      ghost var s0 := [Tx(GENERAL_CALL_ADDR, [RESET_CMD], true, NextReply(w.replies))];
      ScriptedTx(s0[0], r0, p0);
      GeneralCallReset();
      ghost var r1 := w.replies;
      var cfgOk, s1 := ApplyDefaultConfig();
      cfgLen := |s1|;
      ScriptedConcat(s0, s1, r0, p0, r1, p0, w.replies, p0);
      AppendAssoc(old(w.log), s0, s1);
      seg := s0 + s1;
      assert seg[1..1 + cfgLen] == s1;
      BringUpScript(r0);
      if !cfgOk {
        ok := false;
        return;
      }
      var st;
      ghost var r2, s2 := w.replies, [];
      ok, st, s2 := ReadStatus(0);
      ScriptedConcat(seg, s2, r0, p0, r2, p0, w.replies, w.responses);
      AppendAssoc(old(w.log), seg, s2);
      seg := seg + s2;
      assert seg[1..1 + cfgLen] == s1;
      assert seg[1 + cfgLen..] == s2;
    }

    /** Address-only probe: true iff the device acknowledges. */
    method TestConnection() returns (ok: bool)
      modifies wire
      ensures wire.log == old(wire.log) + [Tx(I2C_ADDR, [], true, NextReply(old(wire.replies)))]
      ensures ok <==> NextReply(old(wire.replies)) == ACK
      ensures wire.replies == RestReplies(old(wire.replies))
      ensures wire.responses == old(wire.responses)
    {
      wire.BeginTransmission(I2C_ADDR);
      var code := wire.EndTransmission(true);
      ok := code == ACK;
    }

    /** Direct write of CAP SETUP. */
    method SetCapSetup(v: byte) returns (ok: bool)
      modifies wire
      ensures wire.log == old(wire.log) + [RegWrite(REG_CAP_SETUP, v, NextReply(old(wire.replies)))]
      ensures ok <==> NextReply(old(wire.replies)) == ACK
      ensures wire.replies == RestReplies(old(wire.replies))
      ensures wire.responses == old(wire.responses)
    {
      ok := WriteReg(REG_CAP_SETUP, v);
    }

    /** Direct write of EXC SETUP. */
    method SetExcSetup(v: byte) returns (ok: bool)
      modifies wire
      ensures wire.log == old(wire.log) + [RegWrite(REG_EXC_SETUP, v, NextReply(old(wire.replies)))]
      ensures ok <==> NextReply(old(wire.replies)) == ACK
      ensures wire.replies == RestReplies(old(wire.replies))
      ensures wire.responses == old(wire.responses)
    {
      ok := WriteReg(REG_EXC_SETUP, v);
    }

    /** Direct write of CONFIGURATION. */
    method SetConfiguration(v: byte) returns (ok: bool)
      modifies wire
      ensures wire.log == old(wire.log) + [RegWrite(REG_CONFIGURATION, v, NextReply(old(wire.replies)))]
      ensures ok <==> NextReply(old(wire.replies)) == ACK
      ensures wire.replies == RestReplies(old(wire.replies))
      ensures wire.responses == old(wire.responses)
    {
      ok := WriteReg(REG_CONFIGURATION, v);
    }

    /** Direct write of CAP DAC A. */
    method SetCapDacA(v: byte) returns (ok: bool)
      modifies wire
      ensures wire.log == old(wire.log) + [RegWrite(REG_CAP_DAC_A, v, NextReply(old(wire.replies)))]
      ensures ok <==> NextReply(old(wire.replies)) == ACK
      ensures wire.replies == RestReplies(old(wire.replies))
      ensures wire.responses == old(wire.responses)
    {
      ok := WriteReg(REG_CAP_DAC_A, v);
    }

    /** Direct write of CAP DAC B. */
    method SetCapDacB(v: byte) returns (ok: bool)
      modifies wire
      ensures wire.log == old(wire.log) + [RegWrite(REG_CAP_DAC_B, v, NextReply(old(wire.replies)))]
      ensures ok <==> NextReply(old(wire.replies)) == ACK
      ensures wire.replies == RestReplies(old(wire.replies))
      ensures wire.responses == old(wire.responses)
    {
      ok := WriteReg(REG_CAP_DAC_B, v);
    }

    /** One capacitance reading.  `capPf` is the caller's variable: it is
        overwritten with the reading on success and left as it was on failure. */
    method ReadOnce(capPf: real)
      returns (ok: bool, capPfOut: real, ghost seg: seq<Event>, ghost polls: seq<byte>, ghost raw: uint32)
      modifies wire
      ensures wire.log == old(wire.log) + seg
      ensures CapRawTrace(seg, polls, ok, raw)
      ensures Scripted(seg, old(wire.replies), old(wire.responses), wire.replies, wire.responses)
      ensures ok ==> capPfOut == CodeToPf(raw)
      ensures !ok ==> capPfOut == capPf
      ensures Samples(seg) == if ok then [raw] else []
      ensures DataReadsAfterReady(seg)
      ensures |wire.replies| <= |old(wire.replies)|
      ensures old(wire.replies) != [] ==> |wire.replies| < |old(wire.replies)|
    {
      var code, st;
      ok, code, st, seg, polls := ReadCapRaw(0, 0);
      raw := code;
      CapRawTraceSamples(seg, polls, ok, raw);
      CapRawTraceGuarded(seg, polls, ok, raw);
      if !ok {
        capPfOut := capPf;
        return;
      }
      capPfOut := CodeToPf(code);
    }

    /** readOnce as the retry loop of readAverage sees it: one attempt of
        the session, its trace and outcome packed into an Attempt. */
    method ReadAttempt(capPf: real) returns (ok: bool, capPfOut: real, ghost a: Attempt)
      modifies wire
      ensures wire.log == old(wire.log) + a.seg
      ensures IsCapRawAttempt(a) && a.ok == ok
      ensures Scripted(a.seg, old(wire.replies), old(wire.responses), wire.replies, wire.responses)
      ensures ok ==> capPfOut == CodeToPf(a.raw)
      ensures !ok ==> capPfOut == capPf
      ensures old(wire.replies) != [] ==> |wire.replies| < |old(wire.replies)|
    {
      ghost var s, p, raw;
      ok, capPfOut, s, p, raw := ReadOnce(capPf);
      a := Attempt(s, p, ok, raw);
    }

    /** Mean of N successful readings; failed attempts are retried and add
        nothing to the sum or the count. */
    method ReadAverage(N: uint16) returns (r: Average, ghost seg: seq<Event>, ghost attempts: seq<Attempt>)
      modifies wire
      ensures wire.log == old(wire.log) + seg
      ensures Scripted(seg, old(wire.replies), old(wire.responses), wire.replies, wire.responses)
      ensures seg == Flatten(attempts)
      ensures AllCapRaw(attempts)
      ensures Samples(seg) == OkCodes(attempts)
      ensures r.Blocked? ==> |Samples(seg)| < N && wire.replies == []
      ensures !r.Blocked? ==> |Samples(seg)| == N
      ensures !r.Blocked? && N > 0 ==> attempts[|attempts| - 1].ok
      ensures N == 0 ==> r == NaN && seg == []
      ensures N > 0 && !r.Blocked? ==> r == Mean(MeanPf(Samples(seg)))
      ensures r.Mean? ==> -FULL_SCALE <= r.pf < FULL_SCALE
      ensures DataReadsAfterReady(seg)
    {
      var sum, good;
      sum, good, attempts := CollectReadings(N);
      seg := Flatten(attempts);
      SessionOutcome(attempts, sum);
      if good < N {
        r := Blocked;
        return;
      }
      r := if good == N then Quotient(sum, good) else NaN;
    }

    /** The retry loop of readAverage: readOnce until N readings have succeeded,
        summing the successful ones.  The source retries without bound; once
        the reply script is exhausted every attempt fails, so the model stops
        there with fewer than N readings. */
    method CollectReadings(N: uint16) returns (sum: real, good: uint16, ghost attempts: seq<Attempt>)
      modifies wire
      ensures good <= N
      ensures wire.log == old(wire.log) + Flatten(attempts)
      ensures Scripted(Flatten(attempts), old(wire.replies), old(wire.responses), wire.replies, wire.responses)
      ensures AllCapRaw(attempts)
      ensures |OkCodes(attempts)| == good && sum == SumPf(OkCodes(attempts))
      ensures good < N ==> wire.replies == []
      ensures attempts != [] && !attempts[|attempts| - 1].ok ==> good < N
      ensures N == 0 ==> attempts == []
    {
      sum := 0.0;
      good := 0;
      var i: uint16 := 0;
      attempts := [];
      var c := 0.0;
      while i < N && wire.replies != []
        invariant i <= N && good == i
        invariant wire.log == old(wire.log) + Flatten(attempts)
        invariant Scripted(Flatten(attempts), old(wire.replies), old(wire.responses), wire.replies, wire.responses)
        invariant AllCapRaw(attempts)
        invariant |OkCodes(attempts)| == i && sum == SumPf(OkCodes(attempts))
        invariant attempts != [] && !attempts[|attempts| - 1].ok ==> i < N
        invariant N == 0 ==> attempts == []
        decreases |wire.replies|
      {
        var ok;
        ghost var a;
        ghost var r1, p1 := wire.replies, wire.responses;
        ok, c, a := ReadAttempt(c);
        SessionStep(old(wire.log), attempts, a, sum, c, old(wire.replies), old(wire.responses), r1, p1, wire.replies, wire.responses);
        if ok {
          sum := sum + c;
          good := good + 1;
          i := i + 1;
        }
        attempts := attempts + [a];
      }
    }

    /** STATUS read into the caller's `status`, which is left as it was when
        no byte arrives. */
    method ReadStatus(status: byte) returns (ok: bool, statusOut: byte, ghost seg: seq<Event>)
      modifies wire
      ensures wire.log == old(wire.log) + seg
      ensures RegReadTrace(seg, REG_STATUS, 1, ok)
      ensures ok ==> seg == RegRead(REG_STATUS, 1, [statusOut])
      ensures !ok ==> statusOut == status
      ensures Scripted(seg, old(wire.replies), old(wire.responses), wire.replies, wire.responses)
      ensures ok <==> NextReply(old(wire.replies)) == ACK && |NextResponse(old(wire.responses), 1)| == 1
      ensures ok ==> statusOut == NextResponse(old(wire.responses), 1)[0]
      ensures wire.replies == RestReplies(old(wire.replies))
      ensures ok ==> |wire.replies| < |old(wire.replies)|
    {
      var buf := new byte[1];
      buf[0] := status;
      var got;
      got, seg := ReadRegs(REG_STATUS, buf, 1);
      ok := got == 1;
      statusOut := buf[0];
      if ok {
        assert buf[..1] == seg[1].data == [statusOut];
      }
    }

    /** Polls STATUS until RDYCAP clears, then reads the three data registers
        and assembles the big-endian 24-bit code.  `code24` and `status` are
        the caller's variables; `code24` is written only on success. */
    method ReadCapRaw(code24: uint32, status: byte)
      returns (ok: bool, code24Out: uint32, statusOut: byte, ghost seg: seq<Event>, ghost polls: seq<byte>)
      modifies wire
      ensures wire.log == old(wire.log) + seg
      ensures CapRawTrace(seg, polls, ok, code24Out)
      ensures Scripted(seg, old(wire.replies), old(wire.responses), wire.replies, wire.responses)
      ensures !ok ==> code24Out == code24
      ensures statusOut == if polls == [] then status else polls[|polls| - 1]
      ensures |wire.replies| <= |old(wire.replies)|
      ensures old(wire.replies) != [] ==> |wire.replies| < |old(wire.replies)|
    {
      code24Out := code24;
      ok, statusOut, seg, polls := PollStatus(status);
      if !ok {
        PollFailedCapRaw(seg, polls, code24Out);
        return;
      }
      var d := new byte[3];
      var got;
      ghost var s;
      ghost var r1, p1 := wire.replies, wire.responses;
      got, s := ReadRegs(REG_CAP_DATA_H, d, 3);
      ScriptedConcat(seg, s, old(wire.replies), old(wire.responses), r1, p1, wire.replies, wire.responses);
      ok := got == 3;
      if ok {
        assert d[..3] == s[1].data;
        code24Out := Assemble(d[0], d[1], d[2]);
      }
      PollReady(seg, polls, s, ok, code24Out);
      AppendAssoc(old(wire.log), seg, s);
      seg := seg + s;
    }

    /** The do-while STATUS poll of readCapRaw: reads STATUS into `status`
        until RDYCAP is clear, giving up at the first read that comes back short. */
    method PollStatus(status: byte) returns (ok: bool, statusOut: byte, ghost seg: seq<Event>, ghost polls: seq<byte>)
      modifies wire
      ensures wire.log == old(wire.log) + seg
      ensures PollTrace(seg, polls, ok)
      ensures Scripted(seg, old(wire.replies), old(wire.responses), wire.replies, wire.responses)
      ensures statusOut == if polls == [] then status else polls[|polls| - 1]
      ensures |wire.replies| + |polls| <= |old(wire.replies)|
      ensures old(wire.replies) != [] ==> |wire.replies| < |old(wire.replies)|
    {
      statusOut := status;
      seg, polls := [], [];
      var ready := false;
      while !ready
        invariant wire.log == old(wire.log) + seg
        invariant seg == StatusReads(polls)
        invariant forall k :: 0 <= k < |polls| - 1 ==> CapNotReady(polls[k])
        invariant polls != [] ==> (ready <==> !CapNotReady(polls[|polls| - 1]))
        invariant ready ==> polls != []
        invariant statusOut == if polls == [] then status else polls[|polls| - 1]
        invariant |wire.replies| + |polls| <= |old(wire.replies)|
        invariant Scripted(seg, old(wire.replies), old(wire.responses), wire.replies, wire.responses)
        decreases |wire.replies|, !ready
      {
        var got;
        ghost var s;
        ghost var r1, p1 := wire.replies, wire.responses;
        // readRegs(REG_STATUS, &status, 1) == 1 is readStatus(status)
        got, statusOut, s := ReadStatus(statusOut);
        ScriptedConcat(seg, s, old(wire.replies), old(wire.responses), r1, p1, wire.replies, wire.responses);
        if !got {
          PollFailed(polls, s);
          AppendAssoc(old(wire.log), seg, s);
          seg := seg + s;
          ok := false;
          return;
        }
        PollStep(polls, statusOut, s);
        polls := polls + [statusOut];
        AppendAssoc(old(wire.log), seg, s);
        seg := seg + s;
        ready := !CapNotReady(statusOut);
      }
      ok := true;
    }

    /** One register write: [reg, val] to the device, then STOP. */
    method WriteReg(reg: byte, val: byte) returns (ok: bool)
      modifies wire
      ensures wire.log == old(wire.log) + [RegWrite(reg, val, NextReply(old(wire.replies)))]
      ensures ok <==> NextReply(old(wire.replies)) == ACK
      ensures wire.replies == RestReplies(old(wire.replies))
      ensures wire.responses == old(wire.responses)
    {
      wire.BeginTransmission(I2C_ADDR);
      wire.Write(reg);
      wire.Write(val);
      assert wire.txBuf == [reg, val];
      var code := wire.EndTransmission(true);
      ok := code == ACK;
    }

    /** Register read: address phase without STOP, then, if it was acknowledged,
        a repeated-start read of up to n bytes into buf[0..got). */
    method ReadRegs(reg: byte, buf: array<byte>, n: byte) returns (got: byte, ghost seg: seq<Event>)
      requires n <= buf.Length
      modifies wire, buf
      ensures wire.log == old(wire.log) + seg
      ensures |seg| >= 1 && seg[0] == AddressPhase(reg, NextReply(old(wire.replies)))
      ensures wire.replies == RestReplies(old(wire.replies))
      ensures NextReply(old(wire.replies)) != ACK ==>
        |seg| == 1 && got == 0 && wire.responses == old(wire.responses)
      ensures NextReply(old(wire.replies)) == ACK ==>
        |seg| == 2 && seg[1] == Rx(I2C_ADDR, n, NextResponse(old(wire.responses), n))
        && got == |seg[1].data| && wire.responses == RestResponses(old(wire.responses))
      ensures got <= n
      ensures got > 0 ==> buf[..got] == seg[1].data
      ensures buf[got..] == old(buf[got..])
      ensures n > 0 ==> RegReadTrace(seg, reg, n, got == n)
      ensures Scripted(seg, old(wire.replies), old(wire.responses), wire.replies, wire.responses)
    {
      wire.BeginTransmission(I2C_ADDR);
      wire.Write(reg);
      assert wire.txBuf == [reg];
      var code := wire.EndTransmission(false);
      seg := [AddressPhase(reg, code)];
      if code != ACK {
        return 0, seg;
      }
      got := wire.RequestFrom(I2C_ADDR, n);
      ghost var data := wire.rxBuf;
      seg := seg + [Rx(I2C_ADDR, n, data)];
      for i := 0 to got
        invariant wire.rxBuf == data[i..]
        invariant buf[..i] == data[..i]
        invariant buf[i..] == old(buf[i..])
        invariant wire.log == old(wire.log) + seg
        invariant wire.replies == RestReplies(old(wire.replies))
        invariant wire.responses == RestResponses(old(wire.responses))
      {
        var b := wire.Read();
        buf[i] := b;
      }
    }

    /** The three default configuration writes, stopping at the first one the
        device does not acknowledge. */
    method ApplyDefaultConfig() returns (ok: bool, ghost seg: seq<Event>)
      modifies wire
      ensures wire.log == old(wire.log) + seg
      ensures ConfigTrace(seg)
      ensures ok <==> ConfigSucceeded(seg)
      ensures Scripted(seg, old(wire.replies), old(wire.responses), wire.replies, wire.responses)
      ensures ok <==> |old(wire.replies)| >= 3 && old(wire.replies)[..3] == [ACK, ACK, ACK]
      ensures ok ==> wire.replies == old(wire.replies)[3..]
      ensures wire.responses == old(wire.responses)
    {
      ghost var r0, p0 := wire.replies, wire.responses;
      seg := [];
      // the three writes of DefaultConfig(), in order, up to the first failure
      ghost var e := RegWrite(REG_CAP_SETUP, DEFAULT_CAP_SETUP, NextReply(wire.replies));
      ScriptedTx(e, wire.replies, p0);
      ScriptedConcat(seg, [e], r0, p0, wire.replies, p0, RestReplies(wire.replies), p0);
      seg := seg + [e];
      ok := WriteReg(REG_CAP_SETUP, DEFAULT_CAP_SETUP);
      if !ok { return; }
      assert wire.replies == r0[1..];
      e := RegWrite(REG_EXC_SETUP, DEFAULT_EXC_SETUP, NextReply(wire.replies));
      ScriptedTx(e, wire.replies, p0);
      ScriptedConcat(seg, [e], r0, p0, wire.replies, p0, RestReplies(wire.replies), p0);
      seg := seg + [e];
      ok := WriteReg(REG_EXC_SETUP, DEFAULT_EXC_SETUP);
      if !ok { return; }
      assert wire.replies == r0[2..];
      e := RegWrite(REG_CONFIGURATION, DEFAULT_CONFIGURATION, NextReply(wire.replies));
      ScriptedTx(e, wire.replies, p0);
      ScriptedConcat(seg, [e], r0, p0, wire.replies, p0, RestReplies(wire.replies), p0);
      seg := seg + [e];
      ok := WriteReg(REG_CONFIGURATION, DEFAULT_CONFIGURATION);
      if !ok { return; }
      assert wire.replies == r0[3..];
      assert r0[..3] == [ACK, ACK, ACK];
    }

    /** General-call reset: 0x06 to address 0x00; the chip does not
        acknowledge a general call, so the status is not looked at. */
    method GeneralCallReset()
      modifies wire
      ensures wire.log == old(wire.log) + [Tx(GENERAL_CALL_ADDR, [RESET_CMD], true, NextReply(old(wire.replies)))]
      ensures wire.replies == RestReplies(old(wire.replies))
      ensures wire.responses == old(wire.responses)
    {
      wire.BeginTransmission(GENERAL_CALL_ADDR);
      wire.Write(RESET_CMD);
      assert wire.txBuf == [RESET_CMD];
      var _ := wire.EndTransmission(true);
    }
  }

  /** The reply script as bring-up consumes it: the reset takes the first
      status, the three configuration writes the next three, the STATUS read
      the fifth. */
  lemma BringUpScript(r0: seq<byte>)
    ensures (|RestReplies(r0)| >= 3 && RestReplies(r0)[..3] == [ACK, ACK, ACK])
            <==> (|r0| >= 4 && r0[1..4] == [ACK, ACK, ACK])
    ensures |r0| >= 4 ==> RestReplies(r0)[3..] == r0[4..]
    ensures (|r0| >= 5 && r0[1..5] == [ACK, ACK, ACK, ACK])
            <==> (|r0| >= 4 && r0[1..4] == [ACK, ACK, ACK] && NextReply(r0[4..]) == ACK)
  {
    if |r0| >= 5 {
      var four, three := r0[1..5], r0[1..4];
      assert four == three + [r0[4]];
      assert NextReply(r0[4..]) == r0[4];
      if four == [ACK, ACK, ACK, ACK] {
        assert three == four[..3];
        assert r0[4] == four[3];
      }
      if three == [ACK, ACK, ACK] && r0[4] == ACK {
        assert four == [ACK, ACK, ACK, ACK];
      }
    } else if |r0| == 4 {
      assert r0[4..] == [];
    }
  }

  /** What one readOnce attempt contributes to an averaging session: its
      reading and one to the count if it succeeded, nothing if it failed. */
  lemma AttemptStep(attempts: seq<Attempt>, a: Attempt, sum: real, c: real)
    requires sum == SumPf(OkCodes(attempts))
    requires a.ok ==> c == CodeToPf(a.raw)
    ensures SumPf(OkCodes(attempts + [a])) == if a.ok then sum + c else sum
    ensures |OkCodes(attempts + [a])| == |OkCodes(attempts)| + if a.ok then 1 else 0
  {
    AttemptsAppend(attempts, a);
    if a.ok {
      SumPfAppend(OkCodes(attempts), a.raw);
    } else {
      assert OkCodes(attempts) + [] == OkCodes(attempts);
    }
  }

  /** One more attempt extends the session: its trace follows the earlier
      ones on the bus and in the reply script, and a successful one adds its
      reading to the running sum. */
  lemma SessionStep(log0: seq<Event>, attempts: seq<Attempt>, a: Attempt, sum: real, c: real,
                    r0: seq<byte>, p0: seq<seq<byte>>, r1: seq<byte>, p1: seq<seq<byte>>,
                    r2: seq<byte>, p2: seq<seq<byte>>)
    requires Scripted(Flatten(attempts), r0, p0, r1, p1) && Scripted(a.seg, r1, p1, r2, p2)
    requires AllCapRaw(attempts) && IsCapRawAttempt(a)
    requires sum == SumPf(OkCodes(attempts))
    requires a.ok ==> c == CodeToPf(a.raw)
    ensures (log0 + Flatten(attempts)) + a.seg == log0 + Flatten(attempts + [a])
    ensures Scripted(Flatten(attempts + [a]), r0, p0, r2, p2)
    ensures AllCapRaw(attempts + [a])
    ensures SumPf(OkCodes(attempts + [a])) == if a.ok then sum + c else sum
    ensures |OkCodes(attempts + [a])| == |OkCodes(attempts)| + if a.ok then 1 else 0
  {
    AttemptsAppend(attempts, a);
    ScriptedConcat(Flatten(attempts), a.seg, r0, p0, r1, p1, r2, p2);
    AppendAssoc(log0, Flatten(attempts), a.seg);
    AttemptStep(attempts, a, sum, c);
  }

  /** What a finished run of readCapRaw attempts amounts to: its samples are
      the codes of the successful attempts, it reads data only after a ready
      STATUS, and the running sum over the count is the mean of the samples. */
  lemma SessionOutcome(attempts: seq<Attempt>, sum: real)
    requires AllCapRaw(attempts)
    requires sum == SumPf(OkCodes(attempts))
    ensures Samples(Flatten(attempts)) == OkCodes(attempts)
    ensures DataReadsAfterReady(Flatten(attempts))
    ensures |OkCodes(attempts)| > 0 ==>
      Quotient(sum, |OkCodes(attempts)|) == Mean(MeanPf(OkCodes(attempts)))
      && -FULL_SCALE <= MeanPf(OkCodes(attempts)) < FULL_SCALE
  {
    AttemptsSamples(attempts);
    AttemptsGuarded(attempts);
    SamplesAre24Bit(Flatten(attempts));
    QuotientIsMean(sum, OkCodes(attempts));
  }

  /** Dividing the running sum by the count of readings gives their mean,
      which lies within the span. */
  lemma QuotientIsMean(sum: real, codes: seq<uint32>)
    requires sum == SumPf(codes)
    requires forall k :: 0 <= k < |codes| ==> codes[k] < CODE_LIMIT
    ensures |codes| > 0 ==> Quotient(sum, |codes|) == Mean(MeanPf(codes))
    ensures |codes| > 0 ==> -FULL_SCALE <= Quotient(sum, |codes|).pf < FULL_SCALE
    ensures |codes| == 0 ==> Quotient(sum, |codes|) == NaN
  {
    if |codes| > 0 {
      MeanInRange(codes);
    }
  }

  /** `sum / good` in the source's double arithmetic: 0.0 / 0 is NaN.  With no
      good reading the sum is still 0.0, so a nonzero sum over zero (an
      infinity in doubles) never arises. */
  function Quotient(sum: real, good: nat): (r: Average)
    requires good == 0 ==> sum == 0.0
    ensures r.NaN? <==> good == 0
    ensures good > 0 ==> r.Mean? && r.pf * (good as real) == sum
  {
    if good == 0 then NaN else Mean(sum / (good as real))
  }
}
