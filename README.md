# AD7746 capacitance-to-digital driver, modelled in Dafny

A model of the Arduino driver for the Analog Devices AD7746 capacitance-to-digital
converter (`Arduino_AD7746`), with proofs about it. The driver talks to the chip
over I2C at the fixed address 0x48. It does four things:

- It brings the chip up with a general-call reset and three configuration writes.
- It polls the STATUS register until the capacitance result is ready (RDYCAP, bit 0, clear).
- It reads the three data registers and assembles a big-endian 24-bit code.
- It converts that code to picofarads with a fixed linear map: 0x800000 is 0 pF and the span is ±4.096 pF.

`readAverage` retries single readings until N of them succeed and returns their mean.

The bus is abstract. `Wire.ScriptedWire` is a class with these parts:

- a log of completed bus operations (`Tx`: a transmission with its status code; `Rx`: a `requestFrom` with the bytes it delivered);
- a script of `endTransmission` status codes;
- a script of byte strings that `requestFrom` delivers.

Once a script is used up, the bus acts as if no device were attached. `endTransmission` then reports an address NACK (2), `requestFrom` delivers nothing, and `read()` on an empty buffer yields 0xFF.

The driver's methods change the bus in place. Each contract states three things:

- the events the method appends to the log, exactly for the register operations and bring-up, and as a shape defined in `Trace` for the polling reads;
- through `Wire.Scripted`, that every status code and every delivered byte string in those events is the next one the scripts held;
- what is left of both scripts afterwards.

`readAverage` returns its log as a sequence of attempts. Each attempt is one `readCapRaw` trace, with exactly N successes, and for N > 0 the last attempt succeeded. `Trace` defines the shapes of these traces:

- a register write;
- a register read with a repeated start;
- the default-configuration sequence;
- a STATUS poll followed by the data read.

It also defines `Samples`, the 24-bit codes carried by the complete three-byte reads in a trace. The averaging proofs are stated over `Samples`.

Modules:

- `Registers`: address, register map, STATUS bits, documented defaults.
- `Conversion`: byte assembly, the `int32_t` cast, code to picofarads and its inverse.
- `Averaging`: running sum and mean.
- `Wire`: the scripted bus.
- `Trace`: trace shapes and their lemmas.
- `Driver`: the `Arduino_AD7746` class.

## Model

| member | source | states |
|---|---|---|
| Registers.RegisterMapDistinct | src/Arduino_AD7746.h:19-37 | the 17 register addresses are 0x00..0x10 in order and pairwise distinct |
| Registers.CapDataConsecutive | src/Arduino_AD7746.h:21-23 | CAP_DATA_H/M/L are consecutive, so a 3-byte read from CAP_DATA_H covers H, M, L in that order |
| Registers.AddressesValid | src/Arduino_AD7746.h:16 | 0x48 is a 7-bit address outside the reserved ranges and differs from the general-call address 0x00 |
| Registers.Mask | src/Arduino_AD7746.cpp:48 | `1 << bit` is a nonzero byte mask for every bit below 8 |
| Registers.StatusBits | src/Arduino_AD7746.h:40-42 | the STATUS bit positions are below 8 and distinct; the RDYCAP mask is 0x01, so the poll's test is exactly "the status byte is odd" |
| Conversion.Int32Of | src/Arduino_AD7746.cpp:59 | the `(int32_t)` cast gives a value in the int32 range congruent to its argument modulo 2^32 |
| Conversion.CodeToPf | src/Arduino_AD7746.cpp:56-60 | zero picofarads exactly at 0x800000; every 24-bit code maps into [-4.096, 4.096), negative exactly below the midpoint |
| Conversion.CodeToPfOn24Bit | src/Arduino_AD7746.cpp:56-60 | on 24-bit codes the map is (c - 2^23) * 4.096 / 2^23: 0x000000 gives -4.096, 0x800000 gives 0, 0xFFFFFF gives 4.096 - 4.096/2^23 |
| Conversion.CodeToPfStrictlyIncreasing | src/Arduino_AD7746.cpp:56-60 | the map is strictly increasing on 24-bit codes, by exactly one LSB per code step |
| Conversion.CodeFor | src/Arduino_AD7746.cpp:56-60 | inverse of the map: for a reading inside the span, the 24-bit code whose reading is the largest not above it, within one LSB |
| Conversion.CodeForCodeToPf | src/Arduino_AD7746.cpp:56-60 | converting a 24-bit code to picofarads and back yields the same code |
| Conversion.Assemble | src/Arduino_AD7746.cpp:52 | the code assembled from three bytes is below 2^24 and its high byte is d0 |
| Conversion.ShiftOrIsSum | src/Arduino_AD7746.cpp:52 | on 32-bit words holding bytes, `(d0 << 16) \| (d1 << 8) \| d2` equals d0*2^16 + d1*2^8 + d2 |
| Conversion.SplitAssemble | src/Arduino_AD7746.cpp:50-53 | splitting an assembled code returns the three bytes that were read |
| Conversion.AssembleSplit | src/Arduino_AD7746.cpp:50-53 | every 24-bit code is assembled from its own three bytes |
| Averaging.SumPfAppend | src/Arduino_AD7746.cpp:34 | a successful reading adds its picofarads to the running sum |
| Averaging.SumOfIdentical | src/Arduino_AD7746.cpp:29-37 | n identical readings sum to n times that reading |
| Averaging.MeanOfIdentical | src/Arduino_AD7746.cpp:37 | the mean of identical readings is that reading; N midpoint codes average to 0 pF |
| Averaging.SumInRange | src/Arduino_AD7746.cpp:29-37 | the sum of n readings of 24-bit codes lies within n times the span |
| Averaging.MeanInRange | src/Arduino_AD7746.cpp:37 | the mean of readings of 24-bit codes lies in [-4.096, 4.096) |
| Wire.RestReplies | src/Arduino_AD7746.cpp:72 | each endTransmission consumes one scripted status while any remain |
| Wire.NextResponse | src/Arduino_AD7746.cpp:73 | requestFrom(addr, n) never delivers more than n bytes |
| Wire.ScriptedWire.BeginTransmission | src/Arduino_AD7746.cpp:63 | starting a transmission sets its address and empties the pending bytes |
| Wire.ScriptedWire.Write | src/Arduino_AD7746.cpp:64-65 | write appends one byte to the pending transmission |
| Wire.ScriptedWire.EndTransmission | src/Arduino_AD7746.cpp:66 | the pending transmission is logged with its stop flag and the next scripted status, which is returned |
| Wire.ScriptedWire.RequestFrom | src/Arduino_AD7746.cpp:73 | the next scripted bytes, cut to n, fill the receive buffer and are logged; their count is returned |
| Wire.ScriptedWire.Read | src/Arduino_AD7746.cpp:74 | read takes the next received byte, or yields 0xFF when none is left |
| Wire.ScriptedConcat | src/Arduino_AD7746.cpp:62-76 | two bus traces that each took the next scripted statuses and bytes, back to back, together took them in order |
| Wire.ScriptedDeterministic | src/Arduino_AD7746.cpp:62-76 | a trace determines what is left of both scripts after it |
| Trace.DefaultConfigDocumented | src/Arduino_AD7746.h:76-78 | the bring-up writes are (0x07,0x81), (0x09,0x08), (0x0A,0x21), the documented defaults, to three distinct registers |
| Trace.StatusReads | src/Arduino_AD7746.cpp:46-48 | a run of k successful STATUS reads is 2k bus events |
| Trace.StatusReadsNoSamples | src/Arduino_AD7746.cpp:46-48 | STATUS polling carries no capacitance sample |
| Trace.StatusReadsOnlyStatus | src/Arduino_AD7746.cpp:46-48 | every transmission of a STATUS poll addresses the STATUS register |
| Trace.StatusReadsLast | src/Arduino_AD7746.cpp:46-48 | the last two events of a poll read the last status byte |
| Trace.PollFailed | src/Arduino_AD7746.cpp:46-48 | STATUS reads all finding RDYCAP set, then a short STATUS read, are a failed poll |
| Trace.PollStep | src/Arduino_AD7746.cpp:46-48 | one more STATUS read after busy ones extends the poll: the trace grows by that read and all but the last byte still have RDYCAP set |
| Trace.PollFailedCapRaw | src/Arduino_AD7746.cpp:47 | a failed poll is a failed readCapRaw trace |
| Trace.PollReady | src/Arduino_AD7746.cpp:48-53 | a poll that ended with RDYCAP clear, followed by the data read, is a readCapRaw trace; it succeeds exactly when 3 bytes arrived, with the assembled code |
| Trace.CapRawTraceSamples | src/Arduino_AD7746.cpp:44-54 | a readCapRaw trace carries one sample, its code, when it succeeded, and none when it failed |
| Trace.FailedNoSamples | src/Arduino_AD7746.cpp:47-51 | a register read that came back short carries no sample |
| Trace.CapRawTraceGuarded | src/Arduino_AD7746.cpp:44-54 | readCapRaw addresses the data registers only right after a STATUS read that found RDYCAP clear |
| Trace.SamplesConcat | src/Arduino_AD7746.cpp:32-36 | the samples of consecutive attempts are the samples of each, in order |
| Trace.SamplesAre24Bit | src/Arduino_AD7746.cpp:52 | every sample in any trace is a 24-bit code |
| Trace.GuardedConcat | src/Arduino_AD7746.cpp:32-36 | the ready-before-data guard survives concatenation of traces |
| Trace.AttemptsAppend | src/Arduino_AD7746.cpp:32-36 | one more attempt appends its trace to the session's trace and its code, if it succeeded, to the session's codes; the session stays a run of readCapRaw traces exactly when the attempt is one |
| Trace.AllCapRawEach | src/Arduino_AD7746.cpp:32-36 | in a run of readCapRaw attempts, every attempt is a readCapRaw trace |
| Trace.AttemptsSamples | src/Arduino_AD7746.cpp:32-36 | the samples of a run of readCapRaw attempts are the codes of its successful attempts, in order |
| Trace.AttemptsGuarded | src/Arduino_AD7746.cpp:32-36 | a run of readCapRaw attempts reads the data registers only right after a STATUS read that found RDYCAP clear |
| Driver.Ad7746.constructor | src/Arduino_AD7746.h:44 | a driver is bound to the bus it is given |
| Driver.Ad7746.Begin | src/Arduino_AD7746.cpp:3-9 | the general-call reset comes first, and its status is ignored; then comes the default-config trace; if that failed, nothing more and false; otherwise one STATUS read whose success is the result. Every event took the next scripted status or bytes. The result is true iff statuses 2-5 of the script are ACK and the next response is one byte |
| Driver.Ad7746.TestConnection | src/Arduino_AD7746.cpp:11-14 | one address-only transmission to 0x48; true iff acknowledged |
| Driver.Ad7746.SetCapSetup | src/Arduino_AD7746.cpp:16 | exactly one write of v to 0x07 and nothing else; true iff acknowledged |
| Driver.Ad7746.SetExcSetup | src/Arduino_AD7746.cpp:17 | exactly one write of v to 0x09 and nothing else; true iff acknowledged |
| Driver.Ad7746.SetConfiguration | src/Arduino_AD7746.cpp:18 | exactly one write of v to 0x0A and nothing else; true iff acknowledged |
| Driver.Ad7746.SetCapDacA | src/Arduino_AD7746.cpp:19 | exactly one write of v to 0x0B and nothing else; true iff acknowledged |
| Driver.Ad7746.SetCapDacB | src/Arduino_AD7746.cpp:20 | exactly one write of v to 0x0C and nothing else; true iff acknowledged |
| Driver.Ad7746.ReadOnce | src/Arduino_AD7746.cpp:22-27 | the attempt is a readCapRaw trace that took the next scripted statuses and bytes. The reading is CodeToPf of the code read; it is written only on success and left untouched on failure. The attempt carries exactly that sample, reads data only after a ready STATUS, and uses up at least one status while any remain |
| Driver.Ad7746.ReadAverage | src/Arduino_AD7746.cpp:29-38 | the trace is a sequence of readCapRaw attempts that took the scripts in order. Its samples are the codes of the successful attempts. On return exactly N of them succeeded, the last attempt among them, and the result is their mean, inside the span. N = 0 gives NaN and no bus traffic |
| Driver.Ad7746.CollectReadings | src/Arduino_AD7746.cpp:30-36 | the retry loop: its trace is a run of readCapRaw attempts that took the scripts in order; `good` counts the successful ones and the sum is theirs; it stops short of N only when the status script is used up; a failed last attempt means fewer than N |
| Driver.Ad7746.ReadAttempt | src/Arduino_AD7746.cpp:34 | one readOnce of the loop, packed as an attempt: a readCapRaw trace taking the next scripted statuses and bytes, with the reading CodeToPf of its code on success |
| Driver.Ad7746.ReadStatus | src/Arduino_AD7746.cpp:40-42 | one 1-byte STATUS read that took the next scripted status and bytes. It succeeds iff that status is ACK and the next response is one byte; on success the status is that byte, on failure it is unchanged |
| Driver.Ad7746.ReadCapRaw | src/Arduino_AD7746.cpp:44-54 | STATUS polls while RDYCAP is set, then one 3-byte read from CAP_DATA_H; false at the first short read. On success the code is the big-endian assembly; otherwise the caller's code is kept. Every event took the next scripted status or bytes |
| Driver.Ad7746.PollStatus | src/Arduino_AD7746.cpp:45-48 | the do-while poll of readCapRaw: STATUS reads until one finds RDYCAP clear (success) or one comes back short (failure). Every read took the next scripted status and bytes; the status left is the last byte read |
| Driver.Ad7746.WriteReg | src/Arduino_AD7746.cpp:62-67 | one transmission [reg, val] to 0x48 with STOP; true iff acknowledged; the read script is untouched |
| Driver.Ad7746.ReadRegs | src/Arduino_AD7746.cpp:69-76 | an address phase without STOP; on NACK it returns 0 without requestFrom. Otherwise it returns the count delivered (at most n), fills exactly buf[0..got) with the scripted bytes and leaves the rest of buf unchanged |
| Driver.Ad7746.ApplyDefaultConfig | src/Arduino_AD7746.cpp:78-86 | the default writes in order, stopping at the first one not acknowledged, each taking the next scripted status; true iff the next three statuses are ACK, which are then used up |
| Driver.Ad7746.GeneralCallReset | src/Arduino_AD7746.cpp:88-93 | one transmission [0x06] to address 0x00 with STOP; its status is consumed and ignored |
| Driver.AttemptStep | src/Arduino_AD7746.cpp:34 | an attempt adds its reading to the codes, the count and the sum when it succeeds, and nothing when it fails |
| Driver.SessionStep | src/Arduino_AD7746.cpp:32-36 | one more attempt keeps the loop's facts: the log, the use of the scripts in order, the run of readCapRaw traces, and the count and sum of the successful readings |
| Driver.SessionOutcome | src/Arduino_AD7746.cpp:29-37 | a finished run of attempts has the codes of its successful attempts as samples and reads data only after a ready STATUS; over n > 0 readings, sum / n is their mean, inside the span |
| Driver.BringUpScript | src/Arduino_AD7746.cpp:3-9 | the status script as begin uses it: reset, three config writes, then the STATUS read, take statuses 1, 2-4 and 5 |
| Driver.QuotientIsMean | src/Arduino_AD7746.cpp:37 | sum / good over n > 0 readings is their mean, inside the span; over none it is NaN |
| Driver.Quotient | src/Arduino_AD7746.cpp:37 | `sum / good` is NaN exactly when good is 0 (with nothing summed), and otherwise a value that, multiplied by good, gives sum |

## Left out

- The Wire/TwoWire transport internals are not modelled: clocking, ACK electrics, the 32-byte buffer, and the meaning of endTransmission codes other than 0. A code is whatever the script says; once the script is used up the code is 2.
- `delay(2)` (src/Arduino_AD7746.cpp:35, 92) is a no-op, because timing is not observable in the log.
- Double arithmetic is not modelled. Picofarads are exact reals, so the rounding of 4.096/2^23 and of the running sum are not modelled. `NAN` is the `NaN` case of `Driver.Average`.
- The global default `Wire` instance and the default argument of `begin` (src/Arduino_AD7746.h:48, 70) are not modelled. The driver is always given its bus.
- The return value of `Wire.write` is not modelled, because the source ignores it.
- Driver.Ad7746.ReadAverage: the source retries forever. When the status script runs out, every later attempt fails, so the model stops and returns `Blocked` instead of hanging. Its contract then states only that fewer than N samples were taken.
- Driver.Ad7746.CollectReadings: for the same reason, the loop stops when the status script is used up. It then states only that fewer than N readings succeeded.
- Driver.Ad7746.ReadCapRaw: a device that reports "not ready" forever needs an infinite script. The model's scripts are finite, so every poll ends, on success or at the first short read.
- Conversion.ShiftOrIsSum: proved on 32-bit bit-vectors. Its link to the integer `Assemble` (same numerals, bytes below 0x100) is not a proof step, because the bit-vector/integer conversions are too costly for the solver.
- Nothing is said about timing between attempts or about concurrent users of the bus. The driver is single-threaded.
