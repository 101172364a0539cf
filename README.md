# Parallel_PWM in Dafny

This project models the two engines of the Parallel_PWM package. Each one drives the lines of a PC parallel port through a driver library.

- **The bit-banged I2C master** (`I2C` in bitbang_i2c.py) wiggles an SDA and an SCL pin.
  - Each line change is a read-modify-write of the line's register.
  - An acknowledge or a data bit is read by sampling the register.
  - On top of that it builds start, repeated start and stop conditions, byte shift-out and shift-in, the address frame, and the `write` and `read` transactions.
- **The PWM engine** (`PWM` in bitbang_pwm.py and the `PWMCycle` worker of bitbang_pwm.py and gpioport_pwm.py) toggles one pin.
  - The owner checks the pin and the duty cycle when they are set.
  - `startCycle` drives the pin low and starts a worker.
  - The worker snapshots the pin's register, flips the pin's bit in a copy, and then loops. Each turn writes the copy and then the snapshot, until its end flag is set. No turn writes while its pause flag is set.

The port (`ParallelPort.Port`) holds:
- a map from register number to the byte latched there;
- an append-only trace of writes and samples;
- the stream of bytes the port reports when SDA is sampled, which is where a device on the bus pulls SDA low.

The I2C layer comes in two parts:
- `I2cBus` is a pure model of programs of line steps (`Drive(line, level)` or `SampleSda`) with an interpreter `Run`. It also holds the programs each operation of bitbang_i2c.py performs, and the lemmas about them:
  - which lines change, and in what order;
  - which SDA levels a device clocks in on rising SCL edges (`Presented`);
  - how many samples are taken;
  - what is left on the lines;
  - what `write` and `read` return.
- `BitbangI2c.I2C` is the class itself. Each of its methods is proved to leave the port exactly as `Run` of the matching program would.

The PWM layer also comes in two parts:
- `PwmCycle` covers:
  - the worker's flags, as a state machine over commands;
  - the set-up of `runCycle`;
  - the writes of its loop, as a function of the schedule of commands the owner issues between turns;
  - the `PWMCycle` class, whose loop is proved against that function.
- `BitbangPwm.PWM` is the owner class.

Several lines of bitbang_i2c.py and bitbang_pwm.py do not do what the protocol or the program evidently intends. Each one is modelled as written, and a corrected version is modelled beside it; see "## Findings". `I2cCorrected` holds the corrected I2C operations.

Where the code cannot run as written, one interpretation was chosen:
- bitbang_i2c.py:167 unpacks a pair from `_readI2CByte`, which returns one integer. The model reads it as "`_readI2CByte` yields the byte and the status is true". The dead NACK branch at lines 168-169 is therefore not modelled.
- `read` with `num_bytes == 0` reaches line 175 with `data_read` never assigned. The model answers `Unassigned`.
- `read` is declared to return an unsigned integer, so its `False` on an address NACK is 0 (`ReturnedValue`). `ReadBytesLoop` keeps the list `bytelist` as `read` builds it, but `read` returns only its last byte.

## Model

| member | source | states |
|---|---|---|
| ParallelPort.IsolatedBit | bitbang_i2c.py:65-66 | `((1 << i) & b) >> i` is 0 or 1, and 1 exactly when bit i of b is set |
| ParallelPort.SetBit | bitbang_i2c.py:42-47 | the masked byte has bit i equal to the requested value |
| ParallelPort.SetBitOther | bitbang_i2c.py:42-47 | setting or clearing bit i leaves every other bit of the byte as it was |
| ParallelPort.SetBitIdempotent | bitbang_i2c.py:42-47 | applying the same set or clear twice gives the byte the first application gave |
| ParallelPort.Toggle | bitbang_pwm.py:96-97 | `(1 << i) ^ b` flips bit i |
| ParallelPort.ToggleOther | bitbang_pwm.py:96-97 | the flip leaves every other bit of the byte as it was |
| ParallelPort.BitsInjective | bitbang_i2c.py:91-92 | a byte is determined by its eight bits in wire order, most significant first |
| ParallelPort.ShiftInBit | bitbang_i2c.py:109 | `(acc << 1) \| bit` drops the top bit of acc and appends bit at the bottom |
| ParallelPort.ReplayedAppend | gpioport_pwm.py:54-59 | replaying the writes of two runs of events is replaying the first and then the second |
| ParallelPort.Port.Read | bitbang_i2c.py:41 | a read for read-modify-write returns the byte latched in the register |
| ParallelPort.Port.Write | gpioport_pwm.py:54 | the register takes the byte, and the trace records exactly that write |
| ParallelPort.Port.Sense | bitbang_i2c.py:64 | a sample returns the next byte of the port's input stream; registers are unchanged, and the trace records the read |
| ParallelPort.Port.WritePin | bitbang_pwm.py:43 | the pin's register gets the pin's bit set to the requested level (inverted for an inverted pin); the line reads back at that level, and one write is traced |
| I2cBus.SampledBit | bitbang_i2c.py:59-66 | the k-th sample is bit `sda.bitIndex` of the k-th input byte, with no inversion applied |
| I2cBus.AckAt | bitbang_i2c.py:113-122 | `_checkAck` reports an acknowledge at the k-th sample exactly when SDA is read as 0 |
| I2cBus.Exec | bitbang_i2c.py:32-66 | a sample consumes exactly one input byte and leaves the registers alone; a drive consumes none; both pins stay wired |
| I2cBus.ExecRealizes | bitbang_i2c.py:32-66 | a drive adds one write to the line's register that leaves the line at the driven level; a sample adds one read of SDA's register that returns the next input byte |
| I2cBus.Run | bitbang_i2c.py:68-82 | a program of pin operations played in order on the port, keeping both pins wired (every method of the master is such a program) |
| I2cBus.RunExtends | bitbang_i2c.py:32-66 | a program only appends to the trace: one event per step, with earlier events kept |
| I2cBus.RunAppend | bitbang_i2c.py:69-82 | running two programs one after the other is running their concatenation |
| I2cBus.RunRealizes | bitbang_i2c.py:32-66 | the k-th event a program adds is how the port sees its k-th step |
| I2cBus.ExecOtherLine | bitbang_i2c.py:51-56 | driving one line never changes the level of the other line |
| I2cBus.RunLevels | bitbang_i2c.py:32-56 | after any program, each line sits at the last level the program drove it to, or where it started if the program never drove it |
| I2cBus.PresentedAppend | bitbang_i2c.py:91-95 | the bits clocked in during two programs are those of the first followed by those of the second, started from the SDA level the first left |
| I2cBus.SamplesAppend | bitbang_i2c.py:107-108 | the samples of two programs add up |
| I2cBus.LastLevelAppend | bitbang_i2c.py:69-82 | the level a concatenation leaves on a line is the level the second part leaves, started from where the first part left it |
| I2cBus.SetPinWrite | bitbang_i2c.py:32-48 | `_setPin` writes back the byte just read with bit `bitindex` equal to `value XOR isinvert` and its other seven bits as read; no other register changes, and one write is traced |
| I2cBus.SetPinIdempotent | bitbang_i2c.py:42-48 | repeating the same pin write leaves the registers unchanged |
| I2cBus.SharedRegisterUntouched | bitbang_i2c.py:32-56 | when SDA and SCL share a register at different bits, driving one never changes the other's bit |
| I2cBus.StartSteps | bitbang_i2c.py:68-71 | the program of `_startCond`: SDA low, then SCL low (what it leaves and clocks: `ConditionLevels`, `ConditionEdges`) |
| I2cBus.RepStartSteps | bitbang_i2c.py:73-76 | the program of `_repStartCond`: SCL high, then the start program |
| I2cBus.StopSteps | bitbang_i2c.py:78-82 | the program of `_endCond`: SDA low, SCL high, SDA high |
| I2cBus.CheckAckSteps | bitbang_i2c.py:113-122 | the program of `_checkAck`: SCL high, one sample of SDA, SCL low, SDA high |
| I2cBus.AssertAckSteps | bitbang_i2c.py:124-129 | the program of `_assertAck(value)`: SDA to `not value`, one SCL pulse, SDA high |
| I2cBus.ConditionLevels | bitbang_i2c.py:69-82 | start and repeated start leave SDA and SCL low; stop leaves both high; ACK check and ACK assertion leave SDA high and SCL low |
| I2cBus.ConditionEdges | bitbang_i2c.py:69-82 | a start clocks in nothing; a stop raises SCL while SDA is low (one edge, seeing 0); a repeated start raises SCL once at the current SDA level |
| I2cBus.NextBit | bitbang_i2c.py:92 | as written, `((1 << i) \| b) >> i` has its low bit set for every byte, so it is never 0 |
| I2cBus.ClockOut | bitbang_i2c.py:93-95 | one data bit: SDA to the level, then SCL high and low |
| I2cBus.ShiftOut | bitbang_i2c.py:91-95 | the program of the shift-out loop from bit index 7 down to i, one SDA drive and one SCL pulse per index (each turn: `ShiftOutNext`) |
| I2cBus.ShiftOutNext | bitbang_i2c.py:91-95 | each turn of the shift-out loop is one SDA drive to the computed bit, then SCL high, then SCL low |
| I2cBus.WriteByteSteps | bitbang_i2c.py:84-96 | the program of `_writeI2CByte`: SDA low, the shift-out loop, the ACK check (what it clocks and samples: `WriteByteShape`) |
| I2cBus.WriteByteRun | bitbang_i2c.py:85-96 | `_writeI2CByte` is SDA low, then the eight-turn loop, then the ACK check |
| I2cBus.ShiftOutPresentsOnes | bitbang_i2c.py:91-95 | as written, every one of the eight clock pulses presents SDA high and takes no sample |
| I2cBus.WriteByteShape | bitbang_i2c.py:85-96 | as written, a byte write clocks in nine high bits (eight data bits and the ACK slot), takes one sample, and leaves SDA high and SCL low |
| I2cBus.WriteByteIgnoresByte | bitbang_i2c.py:92 | as written, the line activity of a byte write does not depend on the byte |
| I2cBus.Sampling | bitbang_i2c.py:107-108 | the n samples of SDA of the as-written read loop, no line driven between them |
| I2cBus.ReadByteSteps | bitbang_i2c.py:98-111 | the program of `_readI2CByte`: SDA low, eight samples, `_assertAck(True)` (its shape: `ReadByteShape`) |
| I2cBus.ShiftIn | bitbang_i2c.py:105-109 | the accumulator of `_readI2CByte` after n samples (its bits: `ShiftInBits`) |
| I2cBus.ShiftInNext | bitbang_i2c.py:107-109 | each turn of the shift-in loop shifts the next sample into the accumulator |
| I2cBus.AnsweredAt | bitbang_i2c.py:107-108 | the m-th bit answered is the m-th sample |
| I2cBus.ShiftInBits | bitbang_i2c.py:105-109 | after n samples the accumulator holds them in its low n bits, first sample most significant, with its high bits clear |
| I2cBus.SamplingShape | bitbang_i2c.py:107-108 | the sampling loop takes n samples, clocks in nothing and drives no line |
| I2cBus.ReadByteShape | bitbang_i2c.py:99-111 | as written, the eight samples of a byte read happen with no SCL edge at all; its only clock presents SDA low (an ACK); it leaves SDA high and SCL low |
| I2cBus.AddressFrame | bitbang_i2c.py:132-134 | the frame's low bit is the R/W flag, and the address sits above it |
| I2cBus.FirstNack | bitbang_i2c.py:145-148 | the index of the first data byte not acknowledged, at most the number of bytes (n when all are acknowledged) |
| I2cBus.FirstNackIsFirst | bitbang_i2c.py:145-148 | every data byte before the first NACK is acknowledged, and the byte at the first NACK is not |
| I2cBus.BytesSteps | bitbang_i2c.py:145-146 | the programs of `_writeI2CByte` for each data byte, in order |
| I2cBus.WriteProgram | bitbang_i2c.py:136-153 | the program and result of `write` for the acknowledges the device gives (its cases: `WriteAddressNack`, `WriteDataNack`, `WriteAllAcked`, `WriteResult`) |
| I2cBus.WriteAddressNack | bitbang_i2c.py:141-144 | on address NACK, `write` is only the start and the address frame, and returns False |
| I2cBus.WriteDataNack | bitbang_i2c.py:145-148 | on the first NACKed data byte, `write` stops right after that byte, with no later byte and no stop condition, and returns False |
| I2cBus.WriteAllAcked | bitbang_i2c.py:149-153 | when every byte is acknowledged, `write` sends all bytes, then a repeated start if `hold_device` or a stop otherwise, and returns True |
| I2cBus.WriteResult | bitbang_i2c.py:136-153 | `write` returns True exactly when the address and every data byte are acknowledged |
| I2cBus.WriteSendsPrefix | bitbang_i2c.py:136-153 | `write` sends the address and a prefix of the data, and ends with a condition only on success; on success the prefix is all the data |
| I2cBus.WriteSamples | bitbang_i2c.py:136-153 | `write` takes one ACK sample per frame it sends |
| I2cBus.BytesStepsShape | bitbang_i2c.py:145-146 | sending k data bytes takes k samples and clocks in 9k bits |
| I2cBus.WriteEndLevels | bitbang_i2c.py:136-153 | on failure `write` leaves SCL low (the bus still claimed); on success both lines are high after a stop and low after a repeated start |
| I2cBus.ReadBytesSteps | bitbang_i2c.py:166-170 | the programs of `_readI2CByte` for the n bytes of `read`, in order |
| I2cBus.ReadProgram | bitbang_i2c.py:155-175 | the program and reply of `read` for the acknowledges the device gives (its cases: `ReadAddressNack`, `ReadAcked`, `ReadReplyIsLastByte`) |
| I2cBus.ReadBytesShape | bitbang_i2c.py:166-170 | as written, reading n bytes clocks in n low levels (every byte acknowledged) and takes 8n samples |
| I2cBus.ReadBytes | bitbang_i2c.py:161-170 | the list `read` builds: n bytes, one per eight samples |
| I2cBus.ReadBytesNext | bitbang_i2c.py:166-170 | the bytes read after one more turn of the loop are the earlier ones plus the next eight samples shifted in |
| I2cBus.ReadAddressNack | bitbang_i2c.py:161-165 | on address NACK, `read` is the start and the address frame only, and returns False |
| I2cBus.ReadAcked | bitbang_i2c.py:161-175 | an acknowledged `read` runs n byte reads, ends with a repeated start or a stop, and returns the last byte read (or nothing when n is 0) |
| I2cBus.ReadReplyIsLastByte | bitbang_i2c.py:161-175 | `read` fails exactly on address NACK; otherwise it returns only the last byte, the last eight samples shifted in |
| I2cBus.LastByteBits | bitbang_i2c.py:107-109 | the bits of a byte read are its eight samples in order |
| I2cBus.ReadSamples | bitbang_i2c.py:161-175 | an acknowledged `read` of n bytes takes 1 + 8n samples |
| I2cBus.ReturnedValue | bitbang_i2c.py:155-175 | the unsigned integer `read` returns is below 256: the last byte read, or 0 (False) on an address NACK |
| I2cBus.ReadReturnsZero | bitbang_i2c.py:155-175 | `read` returns 0 exactly when the address is NACKed or the last byte read is 0x00, so a caller cannot tell the two apart |
| I2cBus.ShiftInFromSamples | bitbang_i2c.py:105-109 | the byte shifted in depends only on its eight samples |
| BitbangI2c.I2C.constructor | bitbang_i2c.py:18-29 | the master keeps the port and the SDA and SCL pins it is given |
| BitbangI2c.I2C.SetPin | bitbang_i2c.py:32-48 | `_setPin` writes the register with the pin's bit set or cleared (value XOR inversion), and traces that write |
| BitbangI2c.I2C.SetSda | bitbang_i2c.py:50-52 | `_setSDA` is the SDA drive step |
| BitbangI2c.I2C.SetScl | bitbang_i2c.py:54-56 | `_setSCL` is the SCL drive step |
| BitbangI2c.I2C.GetSda | bitbang_i2c.py:58-66 | `_getSDA` returns the SDA bit of the next sampled byte and is the sample step |
| BitbangI2c.I2C.StartCond | bitbang_i2c.py:68-71 | `_startCond` is the start program |
| BitbangI2c.I2C.RepStartCond | bitbang_i2c.py:73-76 | `_repStartCond` is the repeated-start program |
| BitbangI2c.I2C.EndCond | bitbang_i2c.py:78-82 | `_endCond` is the stop program |
| BitbangI2c.I2C.CheckAck | bitbang_i2c.py:113-122 | `_checkAck` returns true iff the sampled SDA bit is 0, and is the ACK-check program |
| BitbangI2c.I2C.AssertAck | bitbang_i2c.py:124-129 | `_assertAck` is the ACK-assertion program |
| BitbangI2c.I2C.WriteI2CByte | bitbang_i2c.py:84-96 | the byte-write loop does to the port what the byte-write program does, and returns the ACK |
| BitbangI2c.I2C.ReadI2CByte | bitbang_i2c.py:98-111 | the byte-read loop returns the eight samples shifted in, and does what the byte-read program does |
| BitbangI2c.I2C.WriteAddressFrame | bitbang_i2c.py:131-134 | the address frame is a byte write of the address and the R/W bit |
| BitbangI2c.I2C.WriteDataBytes | bitbang_i2c.py:145-148 | the data loop sends bytes up to and including the first NACKed one, and reports whether all were acknowledged |
| BitbangI2c.I2C.Write | bitbang_i2c.py:136-153 | `write` runs the write program for the ACKs the bus gives, and returns its result |
| BitbangI2c.I2C.ReadBytesLoop | bitbang_i2c.py:166-170 | the read loop runs n byte reads and keeps the last byte |
| BitbangI2c.I2C.Read | bitbang_i2c.py:155-175 | `read` runs the read program for the ACKs the bus gives, and returns its reply |
| I2cCorrected.DataBit | bitbang_i2c.py:92 | the corrected bit (`&` for `\|`) is bit i of the byte |
| I2cCorrected.SendBits | bitbang_i2c.py:91-95 | the corrected shift-out loop from bit index 7 down to i, putting bit i of the byte on SDA for each pulse |
| I2cCorrected.SendByteSteps | bitbang_i2c.py:84-96 | the corrected `_writeI2CByte`: SDA low, the corrected loop, the ACK check |
| I2cCorrected.SendBitsPresents | bitbang_i2c.py:91-95 | the corrected loop presents the byte's bits from index 7 down to the loop's start |
| I2cCorrected.SendBitsSamples | bitbang_i2c.py:91-95 | the corrected loop takes no sample |
| I2cCorrected.SendByteShape | bitbang_i2c.py:85-96 | a corrected byte write clocks in the byte's eight bits, then a high ACK slot; it takes one sample and leaves SDA high and SCL low |
| I2cCorrected.FromBitsBits | bitbang_i2c.py:107-109 | shifting a byte's eight bits into a register, most significant first, gives the byte back |
| I2cCorrected.SendByteRoundTrip | bitbang_i2c.py:85-96 | round trip: a device clocking in a corrected byte write receives the byte that was sent |
| I2cCorrected.AsWrittenSendsOnes | bitbang_i2c.py:85-96 | as written, a device clocking in any byte write receives 0xFF |
| I2cCorrected.SampledLevel | bitbang_i2c.py:59-66 | the corrected sample: the SDA bit read with the pin's inversion applied, as `_setPin` applies it when writing |
| I2cCorrected.AsWrittenInvertedMissesAck | bitbang_i2c.py:59-66 | as written, on an inverted SDA pin a device holding SDA low is read as a NACK |
| I2cCorrected.SampleRoundTrip | bitbang_i2c.py:32-66 | round trip: the corrected sample reads back the level `_setPin` latched, on every pin; as written the sample reads it back exactly on a non-inverted pin |
| I2cCorrected.ClockedSamplesAppend | bitbang_i2c.py:107-108 | the samples taken with SCL high in two programs add up |
| I2cCorrected.SamplingUnclocked | bitbang_i2c.py:107-108 | the as-written sampling loop, entered with SCL low, takes no sample while SCL is high |
| I2cCorrected.AsWrittenReadsUnclocked | bitbang_i2c.py:99-111 | as written, a byte read takes eight samples and none of them while SCL is high |
| I2cCorrected.ClockInSteps | bitbang_i2c.py:107-108 | one corrected data-bit read: SCL high, sample SDA, SCL low |
| I2cCorrected.ClockIn | bitbang_i2c.py:107-108 | the corrected read loop: n clocked data-bit reads |
| I2cCorrected.ClockInShape | bitbang_i2c.py:107-109 | a corrected shift-in takes each of its n samples while SCL is high, leaves SCL low, and never moves SDA |
| I2cCorrected.AssertAckShape | bitbang_i2c.py:125-129 | `_assertAck(v)` clocks in one bit, `not v`, takes no sample, and leaves SDA high and SCL low |
| I2cCorrected.ReceiveByteSteps | bitbang_i2c.py:98-111 | the corrected `_readI2CByte`: SDA released, each sample on an SCL pulse, then the ACK or NACK asked for |
| I2cCorrected.ReceiveByteShape | bitbang_i2c.py:99-111 | a corrected byte read releases SDA, takes each of its samples with SCL high, and then acknowledges or not as asked |
| I2cCorrected.AckedBytesCount | bitbang_i2c.py:166-170 | the bytes read before the last carry one ACK each |
| I2cCorrected.RepeatAckedShape | bitbang_i2c.py:166-170 | m acknowledged corrected byte reads clock in m ACKs and take bits · m samples |
| I2cCorrected.AckPatternCount | bitbang_i2c.py:166-170 | with n bytes read, there are n - 1 ACKs and the last slot is a NACK |
| I2cCorrected.Receiving | bitbang_i2c.py:166-170 | the corrected read loop: n - 1 acknowledged byte reads, then one not acknowledged |
| I2cCorrected.ReceivingShape | bitbang_i2c.py:166-170 | a corrected read of n bytes clocks in the ACK pattern and takes its samples |
| I2cCorrected.ReceiveBytesSteps | bitbang_i2c.py:166-170 | the corrected read loop for n bytes of eight bits |
| I2cCorrected.ReceiveBytesShape | bitbang_i2c.py:166-170 | a corrected read of n bytes acknowledges all but the last byte, NACKs the last, and takes 8n samples |
| I2cCorrected.AsWrittenAcksLast | bitbang_i2c.py:110 | as written, all n bytes are acknowledged, the last one included |
| I2cCorrected.FrameByte | bitbang_i2c.py:132-134 | the corrected frame byte has the R/W flag in bit 0 and a 7-bit address above it |
| I2cCorrected.SendBytesSteps | bitbang_i2c.py:145-146 | the corrected byte writes for every data byte, in order |
| I2cCorrected.SendProgram | bitbang_i2c.py:136-153 | the corrected `write`: each byte sent whole, and a stop condition after any NACK |
| I2cCorrected.SendEndsIdle | bitbang_i2c.py:136-153 | a corrected `write` returns True exactly when every frame is acknowledged; it always ends with a stop (both lines high), except for a held success, which ends with a repeated start |
| I2cCorrected.AsWrittenNackHoldsBus | bitbang_i2c.py:143-144 | as written, `write` on address NACK returns False with SCL low: no stop, and the bus stays claimed |
| I2cCorrected.ReceiveBody | bitbang_i2c.py:155-170 | the corrected `read` before its closing condition: start and address frame, then the corrected byte reads when the address is acknowledged and there are bytes to read |
| I2cCorrected.ReceiveProgram | bitbang_i2c.py:155-175 | the corrected `read`: a stop after an address NACK; otherwise the corrected byte reads, then a repeated start or a stop; it replies with `ReceiveReply` |
| I2cCorrected.ReceiveReply | bitbang_i2c.py:155-175 | what the corrected `read` returns: None on an address NACK, else the list of all bytes read |
| I2cCorrected.ReceiveEndsIdle | bitbang_i2c.py:155-175 | a corrected `read` always ends with a stop (both lines high), except after an acknowledged address with the device held, which ends with a repeated start (both low) |
| I2cCorrected.ReceiveSamples | bitbang_i2c.py:155-175 | a corrected `read` takes one sample for the address ACK and, when the address is acknowledged, eight per byte |
| I2cCorrected.ReceiveReplyIsList | bitbang_i2c.py:161-175 | a corrected `read` answers None exactly on address NACK; otherwise it returns the list of all n bytes, byte i being its eight samples shifted in |
| I2cCorrected.ReadBytesIndex | bitbang_i2c.py:166-170 | byte i of the bytes read is the i-th run of eight samples |
| PwmCycle.Apply | gpioport_pwm.py:65-72 | one owner command on the flags: `stopCycle` sets the end flag, `pauseCycle` sets the pause flag, `unpauseCycle` clears it |
| PwmCycle.ApplyAll | gpioport_pwm.py:65-72 | a run of owner commands applied in order (what it leaves: `EndIsSticky`, `PausedIsLastWord`) |
| PwmCycle.EndIsSticky | gpioport_pwm.py:65-66 | the end flag is set after a run of commands iff it was set before or a stop was among them: nothing clears it |
| PwmCycle.PausedIsLastWord | gpioport_pwm.py:68-72 | the pause flag is set iff some pause is not followed by an unpause, or it was set and no unpause came |
| PwmCycle.PauseStandsAfterPause | gpioport_pwm.py:68-69 | a pause as the last command leaves the worker paused |
| PwmCycle.PauseFallsAfterUnpause | gpioport_pwm.py:71-72 | an unpause as the last command leaves the worker unpaused |
| PwmCycle.PauseStandsAfterStop | gpioport_pwm.py:65-72 | a stop does not change whether the worker is paused |
| PwmCycle.Setup | gpioport_pwm.py:38-49 | the set-up of `runCycle`: the register and bit of the pin, the on and off times, the snapshot of the register and the byte with the pin's bit flipped |
| PwmCycle.Turn | gpioport_pwm.py:53-62 | the writes of one unpaused turn: the flipped byte, then the snapshot, both to the pin's register |
| PwmCycle.SetupToggles | gpioport_pwm.py:38-49 | the byte the loop writes first differs from the snapshot in exactly the pin's bit |
| PwmCycle.SetupTimes | gpioport_pwm.py:43-44 | on time plus off time is the cycle time; both lie in [0, cycle time] when the duty cycle is in [0, 1] |
| PwmCycle.OnPhaseHigh | gpioport_pwm.py:46-58 | started from a low pin, the first write of a turn drives it high and the second drives it low again |
| PwmCycle.AsWrittenEdgeDuties | gpioport_pwm.py:53-61 | as written, at duty cycle 0 a turn still drives the pin high for an on time of 0, and at duty cycle 1 it still drives it low for an off time of 0 |
| PwmCycle.ShapedTurn | gpioport_pwm.py:53-61 | the corrected turn: each write only when the phase it opens has a positive length |
| PwmCycle.ShapedTurnEdgeDuties | gpioport_pwm.py:53-61 | from a low pin, the corrected turn never drives the pin high at duty cycle 0 and never drives it low at duty cycle 1; strictly between them, with a positive cycle time, it is the turn as written |
| PwmCycle.TurnEvents | gpioport_pwm.py:52-62 | a turn writes either nothing or the whole pair, and writes the pair exactly when neither flag is set |
| PwmCycle.CycleTrace | gpioport_pwm.py:52-62 | the writes of the whole loop for a schedule of commands, one turn per schedule entry, until the end flag is read set |
| PwmCycle.FlagsAfter | gpioport_pwm.py:52-62 | the flags the loop leaves behind for a schedule |
| PwmCycle.LoopEnds | gpioport_pwm.py:52 | the loop leaves within the schedule iff the worker was stopped already or a stop arrives |
| PwmCycle.StopEndsWrites | gpioport_pwm.py:52-62 | nothing is written after the turn at which a stop arrives |
| PwmCycle.CycleTraceAlternates | gpioport_pwm.py:52-62 | the loop's writes alternate toggled byte and snapshot, always to the pin's register, and come in whole pairs |
| PwmCycle.TurnReplayed | gpioport_pwm.py:54-59 | after a turn's two writes, the register holds the snapshot |
| PwmCycle.CycleRestores | gpioport_pwm.py:52-62 | replaying all the loop's writes restores every register it started with |
| PwmCycle.WorkerAttributes | bitbang_pwm.py:52-58 | the attributes a bitbang_pwm.py worker has: the ones its class declares, all assigned by its constructor; `pwm_gpioport` is not among them |
| PwmCycle.PWMCycle.constructor | gpioport_pwm.py:25-31 | a new worker stores the pin, duty cycle and cycle time unchanged, with both flags clear, and has the attributes its class declares |
| PwmCycle.PWMCycle.StopCycle | gpioport_pwm.py:65-66 | `stopCycle` sets the end flag |
| PwmCycle.PWMCycle.PauseCycle | gpioport_pwm.py:68-69 | `pauseCycle` sets the pause flag |
| PwmCycle.PWMCycle.UnpauseCycle | gpioport_pwm.py:71-72 | `unpauseCycle` clears the pause flag |
| PwmCycle.PWMCycle.IsStopped | gpioport_pwm.py:74-75 | `isStopped` returns the end flag |
| PwmCycle.PWMCycle.IsPaused | gpioport_pwm.py:77-78 | `isPaused` returns the pause flag |
| PwmCycle.PWMCycle.Lookup | bitbang_pwm.py:95 | `self.<name>` is found exactly when the worker has that attribute, and otherwise raises an AttributeError naming it |
| PwmCycle.PWMCycle.Begin | gpioport_pwm.py:38-49 | the set-up reads the pin's register and computes the times and the toggled byte as `Setup` does |
| PwmCycle.PWMCycle.WriteTurn | gpioport_pwm.py:54-62 | an unpaused turn writes the toggled byte and then the snapshot, and the register ends on the snapshot |
| PwmCycle.PWMCycle.LoopTurn | gpioport_pwm.py:52-62 | one turn: the commands arrive; then the turn leaves on the end flag, writes nothing when paused, and otherwise writes the pair; the registers are unchanged afterwards |
| PwmCycle.PWMCycle.CycleLoop | gpioport_pwm.py:52-62 | the loop's writes are those of the schedule's trace, the registers end as they started, and the flags end as the schedule leaves them |
| PwmCycle.PWMCycle.RunCycle | gpioport_pwm.py:36-63 | `runCycle` is set-up and loop; when it is done, every register holds what it held at the start |
| PwmCycle.PWMCycle.RunCycleAsInBitbangPwm | bitbang_pwm.py:72-108 | `runCycle` as written ends as the lookup of `self.pwm_gpioport` does. When that fails, the port and the flags are as before. When it succeeds, the writes, registers and flags are those of the gpioport_pwm.py loop |
| BitbangPwm.PWM.constructor | bitbang_pwm.py:13-18 | stores the port, pin, duty cycle and cycle time unchecked, with no worker |
| BitbangPwm.PWM.GetPin | bitbang_pwm.py:20-22 | returns the stored pin and changes nothing |
| BitbangPwm.PWM.SetPin | bitbang_pwm.py:24-29 | accepts the pin iff it can drive output; otherwise it raises with the source's message and the pin is kept |
| BitbangPwm.PWM.GetDutyCycle | bitbang_pwm.py:31-33 | returns the stored duty cycle and changes nothing |
| BitbangPwm.PWM.SetDutyCycle | bitbang_pwm.py:35-40 | accepts d iff 0 ≤ d ≤ 1; otherwise it raises ValueError and the duty cycle is kept |
| BitbangPwm.PWM.StartCycle | bitbang_pwm.py:42-44 | first drives the pin low by a read-modify-write of its register, with one traced write; then makes a fresh worker with the same port, pin, duty cycle and cycle time, and both flags clear |
| BitbangPwm.PWM.StartCycleAsWritten | bitbang_pwm.py:42-95 | `startCycle` with the bitbang_pwm.py worker: the pin is driven low with one traced write, and the worker's thread then raises AttributeError on `pwm_gpioport`, with no further write |
| BitbangPwm.PWM.EndCycle | bitbang_pwm.py:46-47 | sets the worker's end flag; with no worker started it fails with an AttributeError |
| BitbangPwm.StartedCycleShape | bitbang_pwm.py:42-44 | after `startCycle`, each turn of the worker drives the pin high and then low, and never changes the register's other bits |
| BitbangPwm.OtherBitsKept | bitbang_pwm.py:43 | the byte written high differs from the register before `startCycle` only in the pin's bit |

## Left out

- Threads, `threading.Event` and the daemon thread (bitbang_pwm.py:66-70, gpioport_pwm.py:30-34) are replaced by a schedule.
  - The schedule holds, for each turn of the loop, the commands the owner issues before the worker next reads its flags. The flags are read only at the top of a turn, so every interleaving of the owner's flag commands (`stopCycle`, `pauseCycle`, `unpauseCycle`) with the worker is one such schedule.
  - No other writer touches the port while a cycle runs. In the program, the worker writes back a whole byte, so it overwrites whatever another writer put in the same register in the meantime: a second worker, an I2C master on that register, or the `writePin` of a later `startCycle`. `RunCycle` and `CycleRestores` state that the registers end as they started only because the model has no such writer.
  - The schedule's length bounds the number of turns modelled. A worker that is never stopped runs forever, which is not modelled.
- The busy waits against `time()` (bitbang_pwm.py:102-107, gpioport_pwm.py:55-61) are left out. They are wall-clock; each is a no-op after one of the two writes of a turn, and `onTime`/`offTime` are only computed.
- The `print` calls of gpioport_pwm.py (lines 47, 50, 58 and 63) are left out because they are console output.
- `cython.longdouble` is modelled as `real`. There is no rounding, NaN or infinity, so `SetDutyCycle` and `SetupTimes` hold over exact reals.
- The port driver library (`DlReadPortReadUchar`, `DlPortReadPortUchar`, `DlPortWritePortUchar`) is not part of this model.
  - It is replaced by `Port`: a register map, a trace, and an input stream for the reads that sample SDA.
  - A read for read-modify-write returns the byte latched there.
- ParallelPort.Port.Read and ParallelPort.Port.Sense answer one driver call two ways. The program reads the port with the same `DlReadPortReadUchar` both for the read-modify-write of `_setPin` (bitbang_i2c.py:41) and for the SDA sample of `_getSDA` (bitbang_i2c.py:64). The model answers the first with the latched byte and the second with the next byte of an independent input stream. `I2cBus.SetPinIdempotent` and `I2cBus.SharedRegisterUntouched` hold because the read-modify-write never sees the device. The acknowledge lemmas need the sample to see it. What the model does not capture:
  - On a port whose reads return line levels, the `_setSCL(False)` of `_checkAck` (bitbang_i2c.py:120) comes right after an ACK. When SDA and SCL share a register, it writes the device's low SDA back into that register.
  - On a port whose reads return only the latched byte, `_checkAck` as written never sees an ACK on a non-inverted SDA pin. Line 92 leaves SDA's latched bit high before the ACK clock.
- `GPIOPort.writePin` (used by `startCycle`) is not part of this model. It is modelled as `Port.WritePin`, the same read-modify-write as `_setPin`.
- `gpioport._parallel_port` (bitbang_pwm.py:62, gpioport_pwm.py:26) and `i2c_port._parallel_port` (bitbang_i2c.py:20) are not modelled: the worker and the I2C master are given the port itself.
- Pin objects (`register`, `bit_index`, `_hw_inverted`, `isOutputAllowed()`) are not part of this model. They are the `Pin` datatype, whose bit index is 0 to 7.
- BitbangI2c.I2C.WriteI2CByte: the byte parameter is declared `bint` (bitbang_i2c.py:85), so any nonzero value becomes 1. The method takes a 32-bit value and turns it into 0 or 1 as that declaration does; integers wider than 32 bits are not modelled. With the line 92 `|` every bit sent is 1 whatever the value, so the width does not change the result.
- The Cython integer types of the parameters are not enforced. `I2C.write` and `I2C.read` take `i2c_address` as a `uchar`, `write` takes each `databyte` as a `uchar`, and `read` takes `num_bytes` as a `uint` (bitbang_i2c.py:136-139, 155-156). A value out of range raises OverflowError. For an out-of-range data byte this happens inside the loop, after earlier bytes were sent, and leaves the bus claimed. The model takes `byte` and `nat` arguments, so these error paths are not modelled.
- BitbangPwm.PWM.StartCycle: it makes a worker of the corrected kind (`PwmCycle.PWMCycle`), whose loop runs. The bitbang_pwm.py worker dies with an AttributeError (see the bitbang_pwm.py:95 row of "## Findings"). A later `startCycle` only replaces the owner's reference. In the program, a worker started earlier and not stopped keeps running and writing its bytes; the model does not capture that worker.
- qwiic_led_stick_test.py and setup.py/setup2.py are not part of this model. They are an application driver and build scripts.

## Findings

| source | as written | input that shows it | evidently intended | confidence | as-written member | corrected member |
|---|---|---|---|---|---|---|
| bitbang_i2c.py:92 | `((1 << i) \| b) >> i` puts 1 on SDA for every bit | byte 0x00: the device clocks in 0xFF | `(1 << i) & b`, the bit itself | high; not executed | I2cCorrected.AsWrittenSendsOnes | I2cCorrected.SendByteRoundTrip |
| bitbang_i2c.py:106-110 | the byte read drives SDA low, samples eight times with no SCL pulse, and ACKs every byte including the last | any read: zero samples are taken with SCL high; with n = 1 the only byte is ACKed | release SDA, take each sample on an SCL pulse, and NACK the last byte (section 3.1.6 of the NXP I2C-bus specification UM10204) | high; not executed | I2cCorrected.AsWrittenReadsUnclocked | I2cCorrected.ReceiveBytesShape |
| bitbang_i2c.py:110 | every byte read is acknowledged, the last included | n = 1: `Presented` is `[false]`, an ACK | NACK the last byte | high; not executed | I2cCorrected.AsWrittenAcksLast | I2cCorrected.AckPatternCount |
| bitbang_i2c.py:175 | `read` returns only the last byte read | n = 2: the first byte is lost | return `bytelist` | medium; not executed | I2cBus.ReadReplyIsLastByte | I2cCorrected.ReceiveReplyIsList |
| bitbang_i2c.py:165 | `read` returns `False`, which its unsigned return type makes 0, on an address NACK | a missing device and a device whose last byte is 0x00 both give 0 | a reply that tells a NACK from data | medium; not executed | I2cBus.ReadReturnsZero | I2cCorrected.ReceiveReplyIsList |
| bitbang_i2c.py:64-66 | `_getSDA` returns the register bit without applying the pin's inversion, which `_setPin` applies at lines 39-40 | an inverted SDA pin with a device acknowledging (SDA low): the bit reads 1 and `_checkAck` reports a NACK | apply the inversion, as `_setPin` does | medium; not executed | I2cCorrected.AsWrittenInvertedMissesAck | I2cCorrected.SampleRoundTrip |
| bitbang_i2c.py:143-148 | `write` returns on a NACK without a stop condition | address NACK: SCL is left low | send a stop before returning False | medium; not executed | I2cCorrected.AsWrittenNackHoldsBus | I2cCorrected.SendEndsIdle |
| bitbang_pwm.py:95 | `runCycle` reads through `self.pwm_gpioport`, never assigned (line 62 assigns `self.gpioport`) | any `startCycle`: the worker thread raises AttributeError before its first write | use `self.gpioport`, as gpioport_pwm.py:41 does | high; not executed | BitbangPwm.PWM.StartCycleAsWritten | PwmCycle.PWMCycle.RunCycle |
| gpioport_pwm.py:53-61 | every unpaused turn writes the flipped byte and then the snapshot, whatever the on and off times | duty cycle 0: the pin goes high once per turn for the length of a port call; duty cycle 1: it goes low once per turn | duty cycle 0 keeps the pin low and duty cycle 1 keeps it high | medium; not executed | PwmCycle.AsWrittenEdgeDuties | PwmCycle.ShapedTurnEdgeDuties |
