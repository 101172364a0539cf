/** Corrected forms of the I2C master's byte and transaction programs, laid
    out as section 3.1 of the NXP I2C-bus specification (UM10204) has them:
    each data bit is the byte's own bit, most significant first, and SDA is
    released for the acknowledge clock; a byte is read by clocking SCL once
    per bit and sampling SDA while SCL is high; the master acknowledges every
    byte it reads but the last; a transaction the device does not
    acknowledge ends with a stop condition. Each is set beside the as-written
    program of `I2cBus`, with a lemma that shows where the two differ. */
module I2cCorrected {
  import opened ParallelPort
  import opened I2cBus

  // ---------------------------------------------------------------------
  // Writing a byte (bitbang_i2c.py:85-96)

  /** The bit to put on SDA for index `i`: `((1 << i) & b) >> i`. */
  function DataBit(b: byte, i: BitIndex): (r: bool)
    ensures r == Bit(b, i)
  {
    IsolatedBit(b, i) != 0
  }

  /** The shift loop over bit indices 7 down to `i`, each bit the byte's own. */
  function SendBits(b: byte, i: nat): seq<Step>
    requires i <= 8
    decreases 8 - i, b
  {
    if i == 8 then [] else SendBits(b, i + 1) + ClockOut(DataBit(b, i as BitIndex))
  }

  /** A corrected `_writeI2CByte`: SDA low, the eight bits of the whole byte,
      SDA released, then the acknowledge check. */
  function SendByteSteps(b: byte): seq<Step> {
    [Drive(SDA, false)] + SendBits(b, 0) + [Drive(SDA, true)] + CheckAckSteps()
  }

  /** Element `7 - i` of `Bits(b)` is bit `i`. */
  lemma BitsAt(b: byte, i: nat)
    requires i < 8
    ensures Bits(b)[7 - i] == Bit(b, i as BitIndex)
  {
  }

  /** The loop over indices 7 down to `i` clocks out the top `8 - i` bits of
      the byte, most significant first. */
  lemma {:induction false} SendBitsPresents(b: byte, i: nat, x: bool)
    requires i <= 8
    ensures Presented(SendBits(b, i), x) == Bits(b)[..8 - i]
    decreases 8 - i
  {
    if i < 8 {
      var head := SendBits(b, i + 1);
      var bit := DataBit(b, i as BitIndex);
      SendBitsPresents(b, i + 1, x);
      PresentedAppend(head, ClockOut(bit), x);
      ClockOutPresents(bit, LastLevel(head, SDA, x));
      BitsAt(b, i);
      PrefixNext(Bits(b), 7 - i);
    }
  }

  /** The shift loop takes no sample. */
  lemma {:induction false} SendBitsSamples(b: byte, i: nat)
    requires i <= 8
    ensures Samples(SendBits(b, i)) == 0
    decreases 8 - i
  {
    if i < 8 {
      SendBitsSamples(b, i + 1);
      SamplesAppend(SendBits(b, i + 1), ClockOut(DataBit(b, i as BitIndex)));
    }
  }

  /** One data bit clocked out presents that bit. */
  lemma ClockOutPresents(v: bool, x: bool)
    ensures Presented(ClockOut(v), x) == [v]
  {
    var s0 := ClockOut(v);
    assert s0[1..] == [Drive(SCL, true), Drive(SCL, false)] && s0[1..][1..] == [Drive(SCL, false)];
  }

  lemma PrefixNext<T>(s: seq<T>, k: nat)
    requires k < |s|
    ensures s[..k + 1] == s[..k] + [s[k]]
  {
  }

  /** A corrected byte write clocks out the byte's eight bits, most
      significant first, then one acknowledge clock with SDA released; it
      samples SDA once and leaves SCL low and SDA released. */
  lemma SendByteShape(b: byte, x: bool, y: bool)
    ensures Presented(SendByteSteps(b), x) == Bits(b) + [true]
    ensures Samples(SendByteSteps(b)) == 1
    ensures LastLevel(SendByteSteps(b), SDA, x) && !LastLevel(SendByteSteps(b), SCL, y)
  {
    var pre := [Drive(SDA, false)];
    var body := pre + SendBits(b, 0);
    var tail := [Drive(SDA, true)] + CheckAckSteps();
    SendBitsPresents(b, 0, false);
    SendBitsSamples(b, 0);
    PresentedAppend(pre, SendBits(b, 0), x);
    PresentedAppend(body, tail, x);
    SamplesAppend(pre, SendBits(b, 0));
    SamplesAppend(body, tail);
    LastLevelAppend(body, tail, SDA, x);
    LastLevelAppend(body, tail, SCL, y);
    assert body + tail == SendByteSteps(b);
  }

  /** What a device's shift register holds after the bits `bits` are
      clocked in, the first one ending up most significant. */
  function FromBits(bits: seq<bool>): byte
    requires |bits| <= 8
    decreases |bits|
  {
    if bits == [] then 0 else Shifted(FromBits(bits[..|bits| - 1]), bits[|bits| - 1])
  }

  /** One bit shifted into a device's register from the right. */
  function Shifted(acc: byte, bit: bool): byte {
    (acc << 1) | (if bit then 1 else 0)
  }

  /** Shifting in one more bit of `s`. */
  lemma FromBitsNext(s: seq<bool>, k: nat)
    requires k < |s| <= 8
    ensures FromBits(s[..k + 1]) == Shifted(FromBits(s[..k]), s[k])
  {
    assert s[..k + 1][..k] == s[..k] && s[..k + 1][k] == s[k];
  }

  /** Eight bits shifted in one after the other. */
  lemma FromBitsEight(s: seq<bool>)
    requires |s| == 8
    ensures FromBits(s) == Shifted(Shifted(Shifted(Shifted(Shifted(Shifted(Shifted(Shifted(
                             0, s[0]), s[1]), s[2]), s[3]), s[4]), s[5]), s[6]), s[7])
  {
    assert s[..0] == [] && s[..8] == s;
    FromBitsNext(s, 0);
    FromBitsNext(s, 1);
    FromBitsNext(s, 2);
    FromBitsNext(s, 3);
    FromBitsNext(s, 4);
    FromBitsNext(s, 5);
    FromBitsNext(s, 6);
    FromBitsNext(s, 7);
  }

  /** Shifting in the eight bits of `b`, most significant first, gives `b`. */
  lemma FromBitsBits(b: byte)
    ensures FromBits(Bits(b)) == b
  {
    FromBitsEight(Bits(b));
  }

  /** Round trip: a device that clocks in the first eight bits of a
      corrected byte write receives the byte that was sent. */
  lemma SendByteRoundTrip(b: byte, x: bool)
    ensures |Presented(SendByteSteps(b), x)| == 9
    ensures FromBits(Presented(SendByteSteps(b), x)[..8]) == b
  {
    SendByteShape(b, x, x);
    assert (Bits(b) + [true])[..8] == Bits(b);
    FromBitsBits(b);
  }

  /** As written, every byte reaches the device as 0xFF: whatever byte is
      passed in, the eight data clocks present SDA high, so any byte other
      than 0xFF is received wrongly (0x00, for one, arrives as 0xFF). */
  lemma AsWrittenSendsOnes(b: byte, x: bool)
    ensures |Presented(WriteByteSteps(b as bv32), x)| == 9
    ensures FromBits(Presented(WriteByteSteps(b as bv32), x)[..8]) == 0xFF
  {
    WriteByteShape(b as bv32, x, x);
    assert seq(9, _ => true)[..8] == Bits(0xFF);
    FromBitsBits(0xFF);
  }

  // ---------------------------------------------------------------------
  // Reading a byte (bitbang_i2c.py:99-111)

  /** The number of samples of SDA a program takes while SCL is high,
      starting with SCL at `scl`: only those read a bit that a device puts on
      the bus, since a device shifts out its next bit on each clock. */
  function ClockedSamples(steps: seq<Step>, scl: bool): nat {
    if steps == [] then 0
    else match steps[0]
      case Drive(SCL, v) => ClockedSamples(steps[1..], v)
      case Drive(SDA, _) => ClockedSamples(steps[1..], scl)
      case SampleSda => (if scl then 1 else 0) + ClockedSamples(steps[1..], scl)
  }

  lemma {:induction false} ClockedSamplesAppend(a: seq<Step>, b: seq<Step>, scl: bool)
    ensures ClockedSamples(a + b, scl) == ClockedSamples(a, scl) + ClockedSamples(b, LastLevel(a, SCL, scl))
    decreases |a|
  {
    if a != [] {
      assert (a + b)[1..] == a[1..] + b;
      match a[0]
      case Drive(SCL, v) => ClockedSamplesAppend(a[1..], b, v);
      case Drive(SDA, _) => ClockedSamplesAppend(a[1..], b, scl);
      case SampleSda => ClockedSamplesAppend(a[1..], b, scl);
    } else {
      assert a + b == b;
    }
  }

  lemma {:induction false} SamplingUnclocked(n: nat)
    ensures ClockedSamples(Sampling(n), false) == 0
    ensures LastLevel(Sampling(n), SCL, false) == false
  {
    if n > 0 {
      assert Sampling(n) == Sampling(n - 1) + [SampleSda];
      SamplingUnclocked(n - 1);
      ClockedSamplesAppend(Sampling(n - 1), [SampleSda], false);
      LastLevelAppend(Sampling(n - 1), [SampleSda], SCL, false);
    }
  }

  /** As written, `_readI2CByte` entered with SCL low (as the address frame
      and every earlier byte leave it) takes none of its eight samples while
      SCL is high: the device is never clocked for a data bit. */
  lemma AsWrittenReadsUnclocked()
    ensures Samples(ReadByteSteps()) == 8
    ensures ClockedSamples(ReadByteSteps(), false) == 0
  {
    var pre := [Drive(SDA, false)];
    SamplingUnclocked(8);
    ReadByteShape(false, false);
    ClockedSamplesAppend(pre, Sampling(8), false);
    ClockedSamplesAppend(pre + Sampling(8), AssertAckSteps(true), false);
    LastLevelAppend(pre, Sampling(8), SCL, false);
  }

  // ---------------------------------------------------------------------
  // The polarity of a sample (bitbang_i2c.py:59-66)

  /** The logical SDA level at the k-th sample: the pin's bit with the
      pin's inversion applied, as `_setPin` applies it when writing. */
  predicate SampledLevel(bus: Bus, k: nat) {
    Level(bus.input(k), bus.sda)
  }

  /** As written, on an inverted SDA pin a device that pulls SDA low (an
      acknowledge) is read as SDA high: `_checkAck` reports a NACK. */
  lemma AsWrittenInvertedMissesAck(bus: Bus, k: nat)
    requires bus.sda.inverted && !SampledLevel(bus, k)
    ensures !AckAt(bus, k)
  {
  }

  /** Round trip: when the port reports the byte `_setPin` latches for
      level `v` on SDA, the corrected sample reads `v` back on every pin,
      and the sample as written reads `v` exactly on a non-inverted pin. */
  lemma SampleRoundTrip(bus: Bus, k: nat, b: byte, v: bool)
    requires bus.input(k) == SetBit(b, bus.sda.bitIndex, v != bus.sda.inverted)
    ensures SampledLevel(bus, k) == v
    ensures SampledBit(bus, k) == v <==> !bus.sda.inverted
  {
  }

  /** One data bit read as UM10204 has it: SCL high, sample SDA, SCL low. */
  function ClockInSteps(): seq<Step> {
    [Drive(SCL, true), SampleSda, Drive(SCL, false)]
  }

  /** `n` data bits clocked in. */
  function ClockIn(n: nat): (r: seq<Step>)
    ensures |r| == 3 * n
  {
    seq(3 * n, i => ClockInSteps()[i % 3])
  }

  lemma ClockInNext(n: nat)
    requires n > 0
    ensures ClockIn(n) == ClockIn(n - 1) + ClockInSteps()
  {
    forall i | 3 * (n - 1) <= i < 3 * n
      ensures ClockIn(n)[i] == ClockInSteps()[i - 3 * (n - 1)]
    {
      assert i % 3 == i - 3 * (n - 1);
    }
  }

  /** A corrected `_readI2CByte`: release SDA, clock in `bits` bits (eight
      for a byte), then acknowledge the byte (`ack`) or not. */
  function ReceiveByteSteps(bits: nat, ack: bool): seq<Step> {
    [Drive(SDA, true)] + ClockIn(bits) + AssertAckSteps(ack)
  }

  lemma {:induction false} ClockInShape(n: nat, x: bool, y: bool)
    ensures Presented(ClockIn(n), x) == seq(n, _ => x)
    ensures Samples(ClockIn(n)) == n
    ensures ClockedSamples(ClockIn(n), y) == n
    ensures LastLevel(ClockIn(n), SDA, x) == x
    ensures n > 0 ==> !LastLevel(ClockIn(n), SCL, y)
  {
    if n > 0 {
      var head := ClockIn(n - 1);
      ClockInNext(n);
      ClockInShape(n - 1, x, y);
      PresentedAppend(head, ClockInSteps(), x);
      SamplesAppend(head, ClockInSteps());
      ClockedSamplesAppend(head, ClockInSteps(), y);
      LastLevelAppend(head, ClockInSteps(), SDA, x);
      LastLevelAppend(head, ClockInSteps(), SCL, y);
      assert seq(n, _ => x) == seq(n - 1, _ => x) + [x];
    }
  }

  /** What an asserted acknowledge does: one clock with SDA at the answer,
      no sample, SCL left low and SDA released. */
  lemma AssertAckShape(ack: bool, x: bool, y: bool)
    ensures Presented(AssertAckSteps(ack), x) == [!ack]
    ensures Samples(AssertAckSteps(ack)) == 0 && ClockedSamples(AssertAckSteps(ack), y) == 0
    ensures LastLevel(AssertAckSteps(ack), SDA, x) && !LastLevel(AssertAckSteps(ack), SCL, y)
  {
    var s0 := AssertAckSteps(ack);
    var s1 := [Drive(SCL, true), Drive(SCL, false), Drive(SDA, true)];
    var s2 := [Drive(SCL, false), Drive(SDA, true)];
    var s3 := [Drive(SDA, true)];
    var s4: seq<Step> := [];
    assert s0[1..] == s1 && s1[1..] == s2 && s2[1..] == s3 && s3[1..] == s4;
    assert Presented(s0, x) == Presented(s1, !ack) == [!ack] + Presented(s2, !ack);
    assert Presented(s2, !ack) == Presented(s3, !ack) == Presented(s4, true) == [];
    assert Samples(s0) == Samples(s1) == Samples(s2) == Samples(s3) == Samples(s4) == 0;
    assert ClockedSamples(s0, y) == ClockedSamples(s1, y) == ClockedSamples(s2, true) == ClockedSamples(s3, false) == 0;
    assert LastLevel(s0, SDA, x) == LastLevel(s1, SDA, !ack) == LastLevel(s2, SDA, !ack) == LastLevel(s3, SDA, !ack) == true;
    assert LastLevel(s0, SCL, y) == LastLevel(s1, SCL, y) == LastLevel(s2, SCL, true) == LastLevel(s3, SCL, false) == false;
  }

  /** A corrected byte read takes each of its samples while SCL is high, one
      per bit, with SDA released so the device can drive it; the next clock
      presents SDA low (acknowledge) or high (not acknowledge). It leaves SCL
      low and SDA released. */
  lemma ReceiveByteShape(bits: nat, ack: bool, x: bool, y: bool)
    ensures Presented(ReceiveByteSteps(bits, ack), x) == seq(bits, _ => true) + [!ack]
    ensures Samples(ReceiveByteSteps(bits, ack)) == bits
    ensures ClockedSamples(ReceiveByteSteps(bits, ack), y) == bits
    ensures LastLevel(ReceiveByteSteps(bits, ack), SDA, x) && !LastLevel(ReceiveByteSteps(bits, ack), SCL, y)
  {
    var pre := [Drive(SDA, true)];
    var body := pre + ClockIn(bits);
    var ackSteps := AssertAckSteps(ack);
    assert Presented(pre, x) == [] && Samples(pre) == 0 && ClockedSamples(pre, y) == 0;
    assert LastLevel(pre, SDA, x) && LastLevel(pre, SCL, y) == y;
    ClockInShape(bits, true, y);
    PresentedAppend(pre, ClockIn(bits), x);
    SamplesAppend(pre, ClockIn(bits));
    ClockedSamplesAppend(pre, ClockIn(bits), y);
    LastLevelAppend(pre, ClockIn(bits), SDA, x);
    LastLevelAppend(pre, ClockIn(bits), SCL, y);
    AssertAckShape(ack, LastLevel(body, SDA, x), LastLevel(body, SCL, y));
    PresentedAppend(body, ackSteps, x);
    SamplesAppend(body, ackSteps);
    ClockedSamplesAppend(body, ackSteps, y);
    LastLevelAppend(body, ackSteps, SDA, x);
    LastLevelAppend(body, ackSteps, SCL, y);
  }

  /** The bits presented by `n` corrected byte reads of `bits` data bits
      each: the released data clocks, then an acknowledge (SDA low) for every
      byte but the last, which is not acknowledged (SDA high). */
  function AckPattern(n: nat, bits: nat): seq<bool>
    requires n > 0
  {
    AckedBytes(n - 1, bits) + (seq(bits, _ => true) + [true])
  }

  function AckedBytes(m: nat, bits: nat): seq<bool>
  {
    if m == 0 then [] else AckedBytes(m - 1, bits) + (seq(bits, _ => true) + [false])
  }

  /** One byte's eight high levels and its acknowledge bit hold a low level
      exactly when the byte was acknowledged. */
  lemma ByteAckCount(bits: nat, last: bool)
    ensures multiset(seq(bits, _ => true) + [last])[false] == (if last then 0 else 1)
  {
    var ones := seq(bits, _ => true);
    assert false !in ones;
    assert multiset(ones + [last]) == multiset(ones) + multiset{last};
  }

  /** The bytes read before the last are each acknowledged once. */
  lemma {:induction false} AckedBytesCount(m: nat, bits: nat)
    ensures multiset(AckedBytes(m, bits))[false] == m
  {
    if m > 0 {
      var head := AckedBytes(m - 1, bits);
      var rest := seq(bits, _ => true) + [false];
      AckedBytesCount(m - 1, bits);
      ByteAckCount(bits, false);
      assert multiset(head + rest) == multiset(head) + multiset(rest);
    }
  }

  /** `n` corrected byte reads of `bits` data bits each, all acknowledged
      but the last. */
  function Receiving(n: nat, bits: nat): seq<Step>
    requires n > 0
  {
    Repeat(ReceiveByteSteps(bits, true), n - 1) + ReceiveByteSteps(bits, false)
  }

  /** A corrected read of `n` bytes. */
  function ReceiveBytesSteps(n: nat): seq<Step>
    requires n > 0
  {
    Receiving(n, 8)
  }

  lemma {:induction false} RepeatAckedShape(m: nat, bits: nat, x: bool)
    ensures Presented(Repeat(ReceiveByteSteps(bits, true), m), x) == AckedBytes(m, bits)
    ensures Samples(Repeat(ReceiveByteSteps(bits, true), m)) == bits * m
  {
    if m > 0 {
      var head := Repeat(ReceiveByteSteps(bits, true), m - 1);
      var byteSteps := ReceiveByteSteps(bits, true);
      RepeatAckedShape(m - 1, bits, x);
      ReceiveByteShape(bits, true, LastLevel(head, SDA, x), false);
      PresentedAppend(head, byteSteps, x);
      SamplesAppend(head, byteSteps);
      assert bits * m == bits * (m - 1) + bits;
      assert AckedBytes(m, bits) == AckedBytes(m - 1, bits) + (seq(bits, _ => true) + [false]);
    }
  }

  /** All but the last of `n` bytes are acknowledged, and the last clock
      presents SDA high. */
  lemma AckPatternCount(n: nat, bits: nat)
    requires n > 0
    ensures multiset(AckPattern(n, bits))[false] == n - 1
    ensures AckPattern(n, bits)[|AckPattern(n, bits)| - 1]
  {
    var head := AckedBytes(n - 1, bits);
    var rest := seq(bits, _ => true) + [true];
    AckedBytesCount(n - 1, bits);
    ByteAckCount(bits, true);
    assert multiset(head + rest) == multiset(head) + multiset(rest);
    assert (head + rest)[|head + rest| - 1] == rest[|rest| - 1];
  }

  lemma ReceivingShape(n: nat, bits: nat, x: bool)
    requires n > 0
    ensures Presented(Receiving(n, bits), x) == AckPattern(n, bits)
    ensures Samples(Receiving(n, bits)) == bits * n
  {
    var head := Repeat(ReceiveByteSteps(bits, true), n - 1);
    var last := ReceiveByteSteps(bits, false);
    RepeatAckedShape(n - 1, bits, x);
    ReceiveByteShape(bits, false, LastLevel(head, SDA, x), false);
    PresentedAppend(head, last, x);
    SamplesAppend(head, last);
    assert AckPattern(n, bits) == AckedBytes(n - 1, bits) + (seq(bits, _ => true) + [true]);
    assert bits * n == bits * (n - 1) + bits;
  }

  /** A corrected read of `n` bytes acknowledges exactly `n - 1` of them,
      and its last acknowledge clock leaves SDA released: the master does
      not acknowledge the last byte, which tells the device to stop sending.
      It takes eight samples per byte. */
  lemma ReceiveBytesShape(n: nat, x: bool)
    requires n > 0
    ensures Presented(ReceiveBytesSteps(n), x) == AckPattern(n, 8)
    ensures multiset(AckPattern(n, 8))[false] == n - 1 && AckPattern(n, 8)[|AckPattern(n, 8)| - 1]
    ensures Samples(ReceiveBytesSteps(n)) == 8 * n
  {
    ReceivingShape(n, 8, x);
    AckPatternCount(n, 8);
  }

  /** As written, a read of `n` bytes acknowledges all `n`, the last one
      included. */
  lemma AsWrittenAcksLast(n: nat, x: bool)
    requires n > 0
    ensures multiset(Presented(ReadBytesSteps(n), x))[false] == n
    ensures !Presented(ReadBytesSteps(n), x)[n - 1]
  {
    ReadBytesShape(n, x);
    SeqFalseCount(n);
  }

  lemma {:induction false} SeqFalseCount(n: nat)
    ensures multiset(seq(n, _ => false))[false] == n
  {
    if n > 0 {
      SeqFalseCount(n - 1);
      assert seq(n, _ => false) == seq(n - 1, _ => false) + [false];
    }
  }

  // ---------------------------------------------------------------------
  // Transactions (bitbang_i2c.py:131-175)

  /** The address frame as a byte: the 7-bit address in bits 7..1 and R/W in
      bit 0; bit 7 of `address`, which a 7-bit address does not have, is
      shifted out. */
  function FrameByte(address: byte, read: bool): (r: byte)
    ensures Bit(r, 0) == read
    ensures address < 0x80 ==> r >> 1 == address
  {
    (address << 1) | (if read then 1 else 0)
  }

  /** The corrected writes of every byte of `data`, in order. */
  function SendBytesSteps(data: seq<byte>): seq<Step>
    decreases |data|
  {
    if data == [] then [] else SendBytesSteps(data[..|data| - 1]) + SendByteSteps(data[|data| - 1])
  }

  /** A corrected `write`: like `write` as written, but every byte is sent whole
      and a NACK, of the address or of a data byte, ends the transaction
      with a stop condition. */
  function SendProgram(bus: Bus, k: nat, address: byte, data: seq<byte>, hold: bool): (seq<Step>, bool) {
    var head := StartSteps() + SendByteSteps(FrameByte(address, false));
    if !AckAt(bus, k) then (head + StopSteps(), false)
    else
      var m := FirstNack(bus, k + 1, |data|);
      if m < |data| then (head + SendBytesSteps(data[..m + 1]) + StopSteps(), false)
      else (head + SendBytesSteps(data) + (if hold then RepStartSteps() else StopSteps()), true)
  }

  /** Whatever the device answers, a corrected `write` ends with both lines
      high (a stop condition, the bus idle), except after a success with the
      device held, when both are low (a repeated start); it succeeds exactly
      when the address and every data byte are acknowledged. */
  lemma SendEndsIdle(bus: Bus, k: nat, address: byte, data: seq<byte>, hold: bool, x: bool, y: bool)
    ensures var (steps, ok) := SendProgram(bus, k, address, data, hold);
            LastLevel(steps, SDA, x) == !(ok && hold) && LastLevel(steps, SCL, y) == !(ok && hold) &&
            (ok <==> forall i :: k <= i <= k + |data| ==> AckAt(bus, i))
  {
    var (steps, ok) := SendProgram(bus, k, address, data, hold);
    var tail := if ok && hold then RepStartSteps() else StopSteps();
    var body := steps[..|steps| - |tail|];
    assert steps == body + tail;
    LastLevelAppend(body, tail, SDA, x);
    LastLevelAppend(body, tail, SCL, y);
    ConditionLevels(LastLevel(body, SDA, x), LastLevel(body, SCL, y), true);
    WriteResult(bus, k, address, data, hold);
  }

  /** As written, a `write` whose address is not acknowledged returns False
      with SCL still low: no stop condition, the bus left claimed. */
  lemma AsWrittenNackHoldsBus(bus: Bus, k: nat, address: byte, data: seq<byte>, hold: bool, x: bool, y: bool)
    requires !AckAt(bus, k)
    ensures var (steps, ok) := WriteProgram(bus, k, address, data, hold);
            !ok && !LastLevel(steps, SCL, y)
  {
    WriteEndLevels(bus, k, address, data, hold, x, y);
  }

  datatype Option<T> = None | Some(value: T)

  /** The steps of a corrected `read` before its closing condition. */
  function ReceiveBody(bus: Bus, k: nat, address: byte, n: nat): seq<Step> {
    var head := StartSteps() + SendByteSteps(FrameByte(address, true));
    if AckAt(bus, k) && n > 0 then head + ReceiveBytesSteps(n) else head
  }

  /** A corrected `read` of `n` bytes: a stop condition after an address
      NACK; otherwise each byte clocked in, all acknowledged but the last,
      then a repeated start or a stop; it returns the whole list of bytes. */
  function ReceiveProgram(bus: Bus, k: nat, address: byte, n: nat, hold: bool): (seq<Step>, Option<seq<byte>>) {
    var tail := if AckAt(bus, k) && hold then RepStartSteps() else StopSteps();
    (ReceiveBody(bus, k, address, n) + tail, ReceiveReply(bus, k, n))
  }

  /** What a corrected `read` returns: None on an address NACK, otherwise
      the list of the `n` bytes read. */
  function ReceiveReply(bus: Bus, k: nat, n: nat): Option<seq<byte>> {
    if !AckAt(bus, k) then None else Some(ReadBytes(bus, k + 1, n))
  }

  /** Whatever the device answers, a corrected `read` ends with both lines
      high (a stop condition, the bus idle), except after an acknowledged
      address with the device held, when both are low (a repeated start). */
  lemma ReceiveEndsIdle(bus: Bus, k: nat, address: byte, n: nat, hold: bool, x: bool, y: bool)
    ensures var (steps, reply) := ReceiveProgram(bus, k, address, n, hold);
            var held := reply.Some? && hold;
            LastLevel(steps, SDA, x) == !held && LastLevel(steps, SCL, y) == !held
  {
    var body := ReceiveBody(bus, k, address, n);
    var tail := if AckAt(bus, k) && hold then RepStartSteps() else StopSteps();
    LastLevelAppend(body, tail, SDA, x);
    LastLevelAppend(body, tail, SCL, y);
    ConditionLevels(LastLevel(body, SDA, x), LastLevel(body, SCL, y), true);
  }

  /** A corrected `read` samples SDA once for the acknowledge of the
      address and, when that is acknowledged, eight times per byte. */
  lemma ReceiveSamples(bus: Bus, k: nat, address: byte, n: nat, hold: bool)
    ensures var (steps, reply) := ReceiveProgram(bus, k, address, n, hold);
            Samples(steps) == (if reply.Some? then 1 + 8 * n else 1)
  {
    var head := StartSteps() + SendByteSteps(FrameByte(address, true));
    var body := ReceiveBody(bus, k, address, n);
    var tail := if AckAt(bus, k) && hold then RepStartSteps() else StopSteps();
    SendByteShape(FrameByte(address, true), false, false);
    SamplesAppend(StartSteps(), SendByteSteps(FrameByte(address, true)));
    SamplesAppend(body, tail);
    assert Samples(tail) == 0;
    if AckAt(bus, k) && n > 0 {
      ReceiveBytesShape(n, false);
      SamplesAppend(head, ReceiveBytesSteps(n));
    }
  }

  /** A corrected `read` answers None exactly on an address NACK; otherwise
      it returns all `n` bytes, byte `i` being the eight samples taken for
      it, shifted in most significant first. */
  lemma ReceiveReplyIsList(bus: Bus, k: nat, n: nat)
    ensures var reply := ReceiveReply(bus, k, n);
            (reply.None? <==> !AckAt(bus, k)) &&
            (reply.Some? ==>
               |reply.value| == n &&
               forall i :: 0 <= i < n ==> reply.value[i] == ShiftIn(bus, k + 1 + 8 * i, 8))
  {
    if AckAt(bus, k) {
      forall i | 0 <= i < n
        ensures ReadBytes(bus, k + 1, n)[i] == ShiftIn(bus, k + 1 + 8 * i, 8)
      {
        ReadBytesIndex(bus, k + 1, n, i);
      }
    }
  }

  /** Byte `i` of the list is the `i`-th run of eight samples. */
  lemma {:induction false} ReadBytesIndex(bus: Bus, k: nat, n: nat, i: nat)
    requires i < n
    ensures ReadBytes(bus, k, n)[i] == ShiftIn(bus, k + 8 * i, 8)
  {
    if i < n - 1 {
      ReadBytesIndex(bus, k, n - 1, i);
    }
  }
}
