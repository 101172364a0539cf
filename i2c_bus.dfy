/** The bit-banged I2C master of bitbang_i2c.py as programs of line steps.
    Each step drives SDA or SCL to a logical level (one read-modify-write of
    the line's register) or samples SDA (one read of the port). `Run` plays a
    program on a port state; the operations of the master are programs, and
    the lemmas say which lines change, in what order, and what is left in the
    registers. */
module I2cBus {
  import opened ParallelPort

  datatype Line = SDA | SCL

  datatype Step = Drive(line: Line, level: bool) | SampleSda

  /** The data and clock pins of the master, and the bytes the port reports
      each time SDA is sampled (input(k) for the k-th sample). */
  datatype Bus = Bus(sda: Pin, scl: Pin, input: nat -> byte)

  function PinOf(bus: Bus, line: Line): Pin {
    if line == SDA then bus.sda else bus.scl
  }

  /** Both pins' registers exist on the port. */
  predicate Wired(bus: Bus, s: PortState) {
    bus.sda.register in s.regs && bus.scl.register in s.regs
  }

  /** SDA and SCL are different lines (they may share a register). */
  predicate Separate(bus: Bus) {
    bus.sda.register != bus.scl.register || bus.sda.bitIndex != bus.scl.bitIndex
  }

  /** The logical level of `line` as latched in its register. */
  predicate LineLevel(bus: Bus, s: PortState, line: Line)
    requires Wired(bus, s)
  {
    Level(s.regs[PinOf(bus, line).register], PinOf(bus, line))
  }

  /** The value `_getSDA` returns at the k-th sample: bit `sda.bitIndex` of
      the byte read, with no inversion applied. */
  function SampledBit(bus: Bus, k: nat): (r: bool)
    ensures r == Bit(bus.input(k), bus.sda.bitIndex)
  {
    IsolatedBit(bus.input(k), bus.sda.bitIndex) != 0
  }

  /** `_checkAck` at the k-th sample reports an acknowledge: SDA read as 0. */
  predicate AckAt(bus: Bus, k: nat) {
    !SampledBit(bus, k)
  }

  /** One step. A drive is `_setPin` on the line's pin: read the register,
      set or clear the bit (inverted for an inverted pin), write it back. A
      sample is the port read of `_getSDA`. */
  function Exec(bus: Bus, s: PortState, step: Step): (t: PortState)
    requires Wired(bus, s)
    ensures Wired(bus, t)
    ensures t.sensed == s.sensed + (if step.SampleSda? then 1 else 0)
    ensures step.SampleSda? ==> t.regs == s.regs
  {
    match step
    case Drive(line, level) =>
      var pin := PinOf(bus, line);
      var b := SetBit(s.regs[pin.register], pin.bitIndex, level != pin.inverted);
      PortState(s.regs[pin.register := b], s.trace + [Written(pin.register, b)], s.sensed)
    case SampleSda =>
      PortState(s.regs, s.trace + [Sampled(bus.sda.register, bus.input(s.sensed))], s.sensed + 1)
  }

  /** The event a step adds is how the port sees that step; a drive leaves
      its line at the driven level, and a sample reads the next input byte. */
  lemma ExecRealizes(bus: Bus, s: PortState, step: Step)
    requires Wired(bus, s)
    ensures var t := Exec(bus, s, step);
            Realizes(bus, step, t.trace[|s.trace|]) &&
            (step.Drive? ==> LineLevel(bus, t, step.line) == step.level) &&
            (step.SampleSda? ==> t.trace[|s.trace|].value == bus.input(s.sensed))
  {
  }

  /** Number of samples in a program. */
  function Samples(steps: seq<Step>): nat {
    if steps == [] then 0 else (if steps[0].SampleSda? then 1 else 0) + Samples(steps[1..])
  }

  /** Play a program: the trace grows by one event per step, earlier events
      stay as they were, and one input byte is consumed per sample. */
  function Run(bus: Bus, s: PortState, steps: seq<Step>): (t: PortState)
    requires Wired(bus, s)
    ensures Wired(bus, t)
    decreases |steps|
  {
    if steps == [] then s else Run(bus, Exec(bus, s, steps[0]), steps[1..])
  }

  /** A program only appends to the trace: one event per step, earlier
      events as they were. */
  lemma {:induction false} RunExtends(bus: Bus, s: PortState, steps: seq<Step>)
    requires Wired(bus, s)
    ensures var t := Run(bus, s, steps);
            |t.trace| == |s.trace| + |steps| && t.trace[..|s.trace|] == s.trace
    decreases |steps|
  {
    if steps != [] {
      var s1 := Exec(bus, s, steps[0]);
      assert s1.trace[..|s.trace|] == s.trace;
      RunExtends(bus, s1, steps[1..]);
      var t := Run(bus, s, steps);
      assert t.trace[..|s.trace|] == t.trace[..|s1.trace|][..|s.trace|];
    }
  }

  /** Event `e` is how the port sees `step`: a drive is one write to the
      line's register leaving the line at the driven level; a sample is one
      read of SDA's register. */
  predicate Realizes(bus: Bus, step: Step, e: Event) {
    match step
    case Drive(line, level) => e.Written? && e.register == PinOf(bus, line).register && Level(e.value, PinOf(bus, line)) == level
    case SampleSda => e.Sampled? && e.register == bus.sda.register
  }

  /** The level of `line` after a program: the last level it drove there,
      or `init` when it never drives it. */
  function LastLevel(steps: seq<Step>, line: Line, init: bool): bool {
    if steps == [] then init
    else LastLevel(steps[1..], line, if steps[0].Drive? && steps[0].line == line then steps[0].level else init)
  }

  /** The SDA level at each rising SCL edge of a program (a Drive(SCL, true)
      step), starting from SDA at `sda`: the bits a device on the bus clocks in. */
  function Presented(steps: seq<Step>, sda: bool): seq<bool> {
    if steps == [] then []
    else match steps[0]
      case Drive(SDA, v) => Presented(steps[1..], v)
      case Drive(SCL, v) => (if v then [sda] else []) + Presented(steps[1..], sda)
      case SampleSda => Presented(steps[1..], sda)
  }

  // ---------------------------------------------------------------------
  // Running programs

  lemma {:induction false} RunAppend(bus: Bus, s: PortState, a: seq<Step>, b: seq<Step>)
    requires Wired(bus, s)
    ensures Run(bus, s, a + b) == Run(bus, Run(bus, s, a), b)
    decreases |a|
  {
    if a != [] {
      assert (a + b)[1..] == a[1..] + b;
      RunAppend(bus, Exec(bus, s, a[0]), a[1..], b);
    } else {
      assert a + b == b;
    }
  }

  /** Running one more step after a program is one `Exec` of it. */
  lemma RunSnoc(bus: Bus, s: PortState, a: seq<Step>, step: Step)
    requires Wired(bus, s)
    ensures Run(bus, s, a + [step]) == Exec(bus, Run(bus, s, a), step)
  {
    RunAppend(bus, s, a, [step]);
  }

  /** Programs of one to four steps are those steps' `Exec`s in turn. */
  lemma RunOne(bus: Bus, s: PortState, x: Step)
    requires Wired(bus, s)
    ensures Run(bus, s, [x]) == Exec(bus, s, x)
  {
    RunSnoc(bus, s, [], x);
    assert [] + [x] == [x];
  }

  lemma RunTwo(bus: Bus, s: PortState, x: Step, y: Step)
    requires Wired(bus, s)
    ensures Run(bus, s, [x, y]) == Exec(bus, Exec(bus, s, x), y)
  {
    assert [x, y][1..] == [y];
    RunOne(bus, Exec(bus, s, x), y);
  }

  lemma RunThree(bus: Bus, s: PortState, x: Step, y: Step, z: Step)
    requires Wired(bus, s)
    ensures Run(bus, s, [x, y, z]) == Exec(bus, Exec(bus, Exec(bus, s, x), y), z)
  {
    assert [x, y, z][1..] == [y, z];
    RunTwo(bus, Exec(bus, s, x), y, z);
  }

  lemma RunFour(bus: Bus, s: PortState, x: Step, y: Step, z: Step, w: Step)
    requires Wired(bus, s)
    ensures Run(bus, s, [x, y, z, w]) == Exec(bus, Exec(bus, Exec(bus, Exec(bus, s, x), y), z), w)
  {
    assert [x, y, z, w][1..] == [y, z, w];
    RunThree(bus, Exec(bus, s, x), y, z, w);
  }

  /** A program made of three or four parts runs part after part. */
  lemma RunParts(bus: Bus, s: PortState, a: seq<Step>, b: seq<Step>, c: seq<Step>, d: seq<Step>)
    requires Wired(bus, s)
    ensures Run(bus, s, a + b + c) == Run(bus, Run(bus, Run(bus, s, a), b), c)
    ensures Run(bus, s, a + b + c + d) == Run(bus, Run(bus, Run(bus, Run(bus, s, a), b), c), d)
  {
    RunAppend(bus, s, a, b);
    RunAppend(bus, s, a + b, c);
    RunAppend(bus, s, a + b + c, d);
  }

  /** The k-th new event of the trace is how the port sees the k-th step. */
  lemma {:induction false} RunRealizes(bus: Bus, s: PortState, steps: seq<Step>, k: nat)
    requires Wired(bus, s) && k < |steps|
    ensures var t := Run(bus, s, steps);
            |t.trace| == |s.trace| + |steps| && Realizes(bus, steps[k], t.trace[|s.trace| + k])
    decreases |steps|
  {
    var s1 := Exec(bus, s, steps[0]);
    var t := Run(bus, s1, steps[1..]);
    RunExtends(bus, s1, steps[1..]);
    RunExtends(bus, s, steps);
    if k == 0 {
      assert t.trace[..|s1.trace|] == s1.trace;
      assert t.trace[|s.trace|] == s1.trace[|s.trace|];
      ExecRealizes(bus, s, steps[0]);
    } else {
      RunRealizes(bus, s1, steps[1..], k - 1);
    }
  }

  /** Driving one line leaves the level of the other as it was. */
  lemma ExecOtherLine(bus: Bus, s: PortState, step: Step, line: Line)
    requires Wired(bus, s) && Separate(bus)
    requires step.Drive? ==> step.line != line
    ensures LineLevel(bus, Exec(bus, s, step), line) == LineLevel(bus, s, line)
  {
    if step.Drive? {
      var p, q := PinOf(bus, step.line), PinOf(bus, line);
      if p.register == q.register {
        SetBitOther(s.regs[p.register], p.bitIndex, step.level != p.inverted, q.bitIndex);
      }
    }
  }

  /** What a program leaves on each line is the last level it drove there. */
  lemma {:induction false} RunLevels(bus: Bus, s: PortState, steps: seq<Step>, line: Line)
    requires Wired(bus, s) && Separate(bus)
    ensures LineLevel(bus, Run(bus, s, steps), line) == LastLevel(steps, line, LineLevel(bus, s, line))
    decreases |steps|
  {
    if steps != [] {
      var s1 := Exec(bus, s, steps[0]);
      if !(steps[0].Drive? && steps[0].line == line) {
        ExecOtherLine(bus, s, steps[0], line);
      }
      RunLevels(bus, s1, steps[1..], line);
    }
  }

  lemma {:induction false} LastLevelAppend(a: seq<Step>, b: seq<Step>, line: Line, init: bool)
    ensures LastLevel(a + b, line, init) == LastLevel(b, line, LastLevel(a, line, init))
    decreases |a|
  {
    if a != [] {
      assert (a + b)[1..] == a[1..] + b;
      LastLevelAppend(a[1..], b, line, if a[0].Drive? && a[0].line == line then a[0].level else init);
    } else {
      assert a + b == b;
    }
  }

  lemma {:induction false} PresentedAppend(a: seq<Step>, b: seq<Step>, sda: bool)
    ensures Presented(a + b, sda) == Presented(a, sda) + Presented(b, LastLevel(a, SDA, sda))
    decreases |a|
  {
    if a != [] {
      assert (a + b)[1..] == a[1..] + b;
      match a[0]
      case Drive(SDA, v) => PresentedAppend(a[1..], b, v);
      case Drive(SCL, v) => PresentedAppend(a[1..], b, sda);
      case SampleSda => PresentedAppend(a[1..], b, sda);
    } else {
      assert a + b == b;
    }
  }

  lemma {:induction false} SamplesAppend(a: seq<Step>, b: seq<Step>)
    ensures Samples(a + b) == Samples(a) + Samples(b)
    decreases |a|
  {
    if a != [] {
      assert (a + b)[1..] == a[1..] + b;
      SamplesAppend(a[1..], b);
    } else {
      assert a + b == b;
    }
  }

  // ---------------------------------------------------------------------
  // Pin writes (bitbang_i2c.py:32-56)

  /** `_setPin`: the byte written back has the pin's bit equal to the level
      XOR the inversion flag and its other seven bits as read. */
  lemma SetPinWrite(bus: Bus, s: PortState, line: Line, level: bool)
    requires Wired(bus, s)
    ensures var pin := PinOf(bus, line);
            var t := Exec(bus, s, Drive(line, level));
            t.trace == s.trace + [Written(pin.register, t.regs[pin.register])] &&
            Bit(t.regs[pin.register], pin.bitIndex) == (level != pin.inverted) &&
            (forall j: BitIndex :: j != pin.bitIndex ==> Bit(t.regs[pin.register], j) == Bit(s.regs[pin.register], j)) &&
            (forall r :: r in s.regs && r != pin.register ==> t.regs[r] == s.regs[r])
  {
    var pin := PinOf(bus, line);
    var t := Exec(bus, s, Drive(line, level));
    assert t.trace == t.trace[..|s.trace|] + [t.trace[|s.trace|]];
    forall j: BitIndex | j != pin.bitIndex
      ensures Bit(t.regs[pin.register], j) == Bit(s.regs[pin.register], j)
    {
      SetBitOther(s.regs[pin.register], pin.bitIndex, level != pin.inverted, j);
    }
  }

  /** `_setPin` is idempotent: driving a line to the level it was just
      driven to leaves every register as it was. */
  lemma SetPinIdempotent(bus: Bus, s: PortState, line: Line, level: bool)
    requires Wired(bus, s)
    ensures var t := Exec(bus, s, Drive(line, level));
            Exec(bus, t, Drive(line, level)).regs == t.regs
  {
    var pin := PinOf(bus, line);
    SetBitIdempotent(s.regs[pin.register], pin.bitIndex, level != pin.inverted);
  }

  /** When SDA and SCL share a register, `_setSCL` leaves the SDA bit of the
      register as it was, and `_setSDA` the SCL bit. */
  lemma SharedRegisterUntouched(bus: Bus, s: PortState, line: Line, level: bool)
    requires Wired(bus, s) && bus.sda.register == bus.scl.register && bus.sda.bitIndex != bus.scl.bitIndex
    ensures var other := PinOf(bus, if line == SDA then SCL else SDA);
            var t := Exec(bus, s, Drive(line, level));
            Bit(t.regs[other.register], other.bitIndex) == Bit(s.regs[other.register], other.bitIndex)
  {
    var pin := PinOf(bus, line);
    var other := PinOf(bus, if line == SDA then SCL else SDA);
    SetBitOther(s.regs[pin.register], pin.bitIndex, level != pin.inverted, other.bitIndex);
  }

  // ---------------------------------------------------------------------
  // Bus conditions (bitbang_i2c.py:68-82, 113-129)

  /** `_startCond`: SDA low, then SCL low. */
  function StartSteps(): seq<Step> {
    [Drive(SDA, false), Drive(SCL, false)]
  }

  /** `_repStartCond`: SCL high, then the start condition. */
  function RepStartSteps(): seq<Step> {
    [Drive(SCL, true)] + StartSteps()
  }

  /** `_endCond`: SDA low, SCL high, SDA high. */
  function StopSteps(): seq<Step> {
    [Drive(SDA, false), Drive(SCL, true), Drive(SDA, true)]
  }

  /** `_checkAck`: SCL high, sample SDA, SCL low, SDA high. */
  function CheckAckSteps(): seq<Step> {
    [Drive(SCL, true), SampleSda, Drive(SCL, false), Drive(SDA, true)]
  }

  /** `_assertAck(value)`: SDA to `not value`, one SCL pulse, SDA high. */
  function AssertAckSteps(value: bool): seq<Step> {
    [Drive(SDA, !value), Drive(SCL, true), Drive(SCL, false), Drive(SDA, true)]
  }

  /** The lines each condition leaves behind, whatever they were before: a
      start or repeated start leaves both low (the master owns the bus), a
      stop leaves both high (the bus is idle), an acknowledge check or an
      asserted acknowledge leaves SCL low and SDA released. */
  lemma ConditionLevels(x: bool, y: bool, value: bool)
    ensures !LastLevel(StartSteps(), SDA, x) && !LastLevel(StartSteps(), SCL, y)
    ensures !LastLevel(RepStartSteps(), SDA, x) && !LastLevel(RepStartSteps(), SCL, y)
    ensures LastLevel(StopSteps(), SDA, x) && LastLevel(StopSteps(), SCL, y)
    ensures LastLevel(CheckAckSteps(), SDA, x) && !LastLevel(CheckAckSteps(), SCL, y)
    ensures LastLevel(AssertAckSteps(value), SDA, x) && !LastLevel(AssertAckSteps(value), SCL, y)
  {
    assert StartSteps()[1..][1..] == [];
    assert !LastLevel(StartSteps()[1..], SCL, y);
  }

  /** No condition clocks data: a start has no rising SCL edge, a stop
      has one, with SDA low, before it raises SDA, and a repeated start has
      one, with SDA as it was, before it pulls SDA low. */
  lemma ConditionEdges(x: bool)
    ensures Presented(StartSteps(), x) == [] && Presented(StopSteps(), x) == [false]
    ensures Presented(RepStartSteps(), x) == [x]
  {
  }

  // ---------------------------------------------------------------------
  // Shifting a byte out (bitbang_i2c.py:84-96)

  /** `((1 << bitindex) | i2cbyte) >> bitindex` as written: bit 0 of the
      result is always 1, so the value handed to `_setSDA` is never 0. */
  function NextBit(b: bv32, i: BitIndex): (r: bv32)
    ensures r & 1 == 1 && r != 0
  {
    (((1 as bv32) << i) | b) >> i
  }

  /** One data bit: SDA to `level`, then SCL high and low. */
  function ClockOut(level: bool): seq<Step> {
    [Drive(SDA, level), Drive(SCL, true), Drive(SCL, false)]
  }

  /** The loop of `_writeI2CByte` over bit indices 7 down to `i`. */
  function ShiftOut(b: bv32, i: nat): seq<Step>
    requires i <= 8
    decreases 8 - i, b
  {
    if i == 8 then [] else ShiftOut(b, i + 1) + ClockOut(NextBit(b, i as BitIndex) != 0)
  }

  /** One more turn of the shift loop: the bit for index `i`, clocked. */
  lemma ShiftOutNext(bus: Bus, s: PortState, b: bv32, i: nat)
    requires Wired(bus, s) && i < 8
    ensures var t := Run(bus, s, ShiftOut(b, i + 1));
            var bit := NextBit(b, i as BitIndex) != 0;
            Run(bus, s, ShiftOut(b, i)) == Exec(bus, Exec(bus, Exec(bus, t, Drive(SDA, bit)), Drive(SCL, true)), Drive(SCL, false))
  {
    var bit := NextBit(b, i as BitIndex) != 0;
    RunAppend(bus, s, ShiftOut(b, i + 1), ClockOut(bit));
    RunThree(bus, Run(bus, s, ShiftOut(b, i + 1)), Drive(SDA, bit), Drive(SCL, true), Drive(SCL, false));
  }

  /** `_writeI2CByte`: SDA low, the eight data bits, the acknowledge check. */
  function WriteByteSteps(b: bv32): seq<Step> {
    [Drive(SDA, false)] + ShiftOut(b, 0) + CheckAckSteps()
  }

  /** `_writeI2CByte` runs as SDA low, its shift loop on `shifted` (the
      byte as the loop sees it), then the acknowledge check. */
  lemma WriteByteRun(bus: Bus, s: PortState, b: bv32, shifted: bv32)
    requires Wired(bus, s)
    ensures var s1 := Exec(bus, s, Drive(SDA, false));
            Run(bus, s, WriteByteSteps(b)) == Run(bus, Run(bus, s1, ShiftOut(shifted, 0)), CheckAckSteps())
  {
    ShiftOutIgnoresByte(b, shifted, 0);
    var body := [Drive(SDA, false)] + ShiftOut(b, 0);
    RunAppend(bus, s, body, CheckAckSteps());
    assert body[1..] == ShiftOut(b, 0);
  }

  /** As written, the shift loop clocks out 8 - i ones: SDA is high at every
      rising edge whatever the byte, and the loop never samples SDA. */
  lemma {:induction false} ShiftOutPresentsOnes(b: bv32, i: nat, x: bool)
    requires i <= 8
    ensures Presented(ShiftOut(b, i), x) == seq(8 - i, _ => true)
    ensures i < 8 ==> LastLevel(ShiftOut(b, i), SDA, x)
    ensures !LastLevel(ShiftOut(b, i), SCL, x) || i == 8
    ensures Samples(ShiftOut(b, i)) == 0
    decreases 8 - i
  {
    if i < 8 {
      var head := ShiftOut(b, i + 1);
      var bit := NextBit(b, i as BitIndex) != 0;
      ShiftOutPresentsOnes(b, i + 1, x);
      PresentedAppend(head, ClockOut(bit), x);
      LastLevelAppend(head, ClockOut(bit), SDA, x);
      LastLevelAppend(head, ClockOut(bit), SCL, x);
      SamplesAppend(head, ClockOut(bit));
      assert seq(8 - i, _ => true) == seq(8 - (i + 1), _ => true) + [true];
    }
  }

  /** `_writeI2CByte` as written: nine SCL pulses, the first eight with SDA
      high whatever the byte (so every byte goes out as 0xFF), the ninth
      the acknowledge clock; exactly one sample; SCL left low, SDA released. */
  lemma WriteByteShape(b: bv32, x: bool, y: bool)
    ensures Presented(WriteByteSteps(b), x) == seq(9, _ => true)
    ensures Samples(WriteByteSteps(b)) == 1
    ensures LastLevel(WriteByteSteps(b), SDA, x) && !LastLevel(WriteByteSteps(b), SCL, y)
  {
    var pre := [Drive(SDA, false)];
    ShiftOutPresentsOnes(b, 0, false);
    PresentedAppend(pre, ShiftOut(b, 0), x);
    PresentedAppend(pre + ShiftOut(b, 0), CheckAckSteps(), x);
    LastLevelAppend(pre, ShiftOut(b, 0), SDA, x);
    LastLevelAppend(pre + ShiftOut(b, 0), CheckAckSteps(), SDA, x);
    LastLevelAppend(pre + ShiftOut(b, 0), CheckAckSteps(), SCL, y);
    SamplesAppend(pre, ShiftOut(b, 0));
    SamplesAppend(pre + ShiftOut(b, 0), CheckAckSteps());
    assert seq(9, _ => true) == seq(8, _ => true) + [true];
  }

  /** As written, `_writeI2CByte` puts the same steps on the bus whatever
      the byte. */
  lemma WriteByteIgnoresByte(b: bv32, c: bv32)
    ensures WriteByteSteps(b) == WriteByteSteps(c)
  {
    ShiftOutIgnoresByte(b, c, 0);
  }

  lemma {:induction false} ShiftOutIgnoresByte(b: bv32, c: bv32, i: nat)
    requires i <= 8
    ensures ShiftOut(b, i) == ShiftOut(c, i)
    decreases 8 - i
  {
    if i < 8 {
      ShiftOutIgnoresByte(b, c, i + 1);
    }
  }

  // ---------------------------------------------------------------------
  // Shifting a byte in (bitbang_i2c.py:98-111)

  function Repeat(steps: seq<Step>, n: nat): seq<Step> {
    if n == 0 then [] else Repeat(steps, n - 1) + steps
  }

  /** `n` samples of SDA in a row. */
  function Sampling(n: nat): (r: seq<Step>)
    ensures |r| == n
  {
    seq(n, _ => SampleSda)
  }

  /** `_readI2CByte` as written: SDA low, eight samples of SDA with no clock
      pulse between them, then an acknowledge for the byte. */
  function ReadByteSteps(): seq<Step> {
    [Drive(SDA, false)] + Sampling(8) + AssertAckSteps(true)
  }

  /** The accumulator of `_readI2CByte` after `n` samples taken from input
      index `k` on: `current_byte = (current_byte << 1) | nextbit`. */
  function ShiftIn(bus: Bus, k: nat, n: nat): byte
    requires n <= 8
  {
    if n == 0 then 0 else (ShiftIn(bus, k, n - 1) << 1) | (if SampledBit(bus, k + n - 1) then 1 else 0)
  }

  /** One more sample after a run of samples. */
  lemma SampleNext(bus: Bus, s: PortState, n: nat)
    requires Wired(bus, s)
    ensures Run(bus, s, Sampling(n + 1)) == Exec(bus, Run(bus, s, Sampling(n)), SampleSda)
  {
    assert Sampling(n + 1) == Sampling(n) + [SampleSda];
    RunSnoc(bus, s, Sampling(n), SampleSda);
  }

  /** `_readI2CByte` runs as SDA low, its eight samples, then the
      acknowledge. */
  lemma ReadByteRun(bus: Bus, s: PortState)
    requires Wired(bus, s)
    ensures var s1 := Exec(bus, s, Drive(SDA, false));
            Run(bus, s, ReadByteSteps()) == Run(bus, Run(bus, s1, Sampling(8)), AssertAckSteps(true))
  {
    var body := [Drive(SDA, false)] + Sampling(8);
    RunAppend(bus, s, body, AssertAckSteps(true));
    assert body[1..] == Sampling(8);
  }

  /** The accumulator update of `_readI2CByte` takes `ShiftIn` one sample on. */
  lemma ShiftInNext(bus: Bus, k: nat, n: nat, j: nat, acc: byte, bit: bool)
    requires n < 8 && j == k + n && acc == ShiftIn(bus, k, n) && bit == SampledBit(bus, j)
    ensures (acc << 1) | (if bit then 1 else 0) == ShiftIn(bus, k, n + 1)
  {
  }

  /** The bits the device answered, in the order they were sampled. */
  function Answered(bus: Bus, k: nat, n: nat): (r: seq<bool>)
    ensures |r| == n
  {
    if n == 0 then [] else Answered(bus, k, n - 1) + [SampledBit(bus, k + n - 1)]
  }

  /** The m-th answered bit is the m-th sample. */
  lemma {:induction false} AnsweredAt(bus: Bus, k: nat, n: nat, m: nat)
    requires m < n
    ensures Answered(bus, k, n)[m] == SampledBit(bus, k + m)
  {
    if m < n - 1 {
      AnsweredAt(bus, k, n - 1, m);
    }
  }

  /** One more sample shifts the accumulator left and puts the sample in
      its lowest bit. */
  lemma ShiftInStep(bus: Bus, k: nat, n: nat)
    requires 0 < n <= 8
    ensures Bits(ShiftIn(bus, k, n)) == Bits(ShiftIn(bus, k, n - 1))[1..] + [SampledBit(bus, k + n - 1)]
  {
    ShiftInBit(ShiftIn(bus, k, n - 1), SampledBit(bus, k + n - 1));
  }

  lemma WindowStep(prev: seq<bool>, cur: seq<bool>, answered: seq<bool>, b: bool, n: nat)
    requires 0 < n <= 8 && |answered| == n - 1
    requires prev == seq(8 - (n - 1), _ => false) + answered
    requires cur == prev[1..] + [b]
    ensures cur == seq(8 - n, _ => false) + (answered + [b])
  {
    assert prev[1..] == seq(8 - n, _ => false) + answered;
  }

  /** After `n` samples the accumulator holds them in its low `n` bits, the
      first sample the most significant; its high bits are clear. */
  lemma {:induction false} ShiftInBits(bus: Bus, k: nat, n: nat)
    requires n <= 8
    ensures Bits(ShiftIn(bus, k, n)) == seq(8 - n, _ => false) + Answered(bus, k, n)
  {
    if n == 0 {
      ZeroBits();
    } else {
      var b := SampledBit(bus, k + n - 1);
      ShiftInStep(bus, k, n);
      ShiftInBits(bus, k, n - 1);
      WindowStep(Bits(ShiftIn(bus, k, n - 1)), Bits(ShiftIn(bus, k, n)), Answered(bus, k, n - 1), b, n);
    }
  }

  lemma ZeroBits()
    ensures Bits(0) == seq(8, _ => false)
  {
  }

  lemma {:induction false} SamplingShape(n: nat, x: bool, line: Line)
    ensures Presented(Sampling(n), x) == []
    ensures Samples(Sampling(n)) == n
    ensures LastLevel(Sampling(n), line, x) == x
  {
    if n > 0 {
      assert Sampling(n) == Sampling(n - 1) + [SampleSda];
      SamplingShape(n - 1, x, line);
      PresentedAppend(Sampling(n - 1), [SampleSda], x);
      SamplesAppend(Sampling(n - 1), [SampleSda]);
      LastLevelAppend(Sampling(n - 1), [SampleSda], line, x);
    }
  }

  /** As written, `_readI2CByte` takes its eight samples with no rising SCL
      edge before them; its only clock pulse is the acknowledge, with SDA
      low, so the byte is always acknowledged. SCL is left low, SDA high. */
  lemma ReadByteShape(x: bool, y: bool)
    ensures Presented(ReadByteSteps()[..9], x) == [] && Samples(ReadByteSteps()[..9]) == 8
    ensures Presented(ReadByteSteps(), x) == [false]
    ensures Samples(ReadByteSteps()) == 8
    ensures LastLevel(ReadByteSteps(), SDA, x) && !LastLevel(ReadByteSteps(), SCL, y)
  {
    var pre := [Drive(SDA, false)] + Sampling(8);
    assert ReadByteSteps()[..9] == pre;
    SamplingShape(8, false, SDA);
    SamplingShape(8, y, SCL);
    PresentedAppend([Drive(SDA, false)], Sampling(8), x);
    SamplesAppend([Drive(SDA, false)], Sampling(8));
    LastLevelAppend([Drive(SDA, false)], Sampling(8), SDA, x);
    LastLevelAppend([Drive(SDA, false)], Sampling(8), SCL, y);
    PresentedAppend(pre, AssertAckSteps(true), x);
    SamplesAppend(pre, AssertAckSteps(true));
    LastLevelAppend(pre, AssertAckSteps(true), SDA, x);
    LastLevelAppend(pre, AssertAckSteps(true), SCL, y);
  }

  // ---------------------------------------------------------------------
  // Transactions (bitbang_i2c.py:131-175)

  /** `(address_byte << 1) | rw_type`: the address in bits 7..1, R/W in bit 0. */
  function AddressFrame(address: byte, read: bool): (r: bv32)
    ensures r & 1 == (if read then 1 else 0)
    ensures r >> 1 == address as bv32
  {
    ((address as bv32) << 1) | (if read then 1 else 0)
  }

  /** Index of the first byte, among `n` whose acknowledges are sampled from
      input index `k` on, that is not acknowledged; `n` when all are. */
  function FirstNack(bus: Bus, k: nat, n: nat): (r: nat)
    ensures r <= n
    decreases n
  {
    if n == 0 || !AckAt(bus, k) then 0 else 1 + FirstNack(bus, k + 1, n - 1)
  }

  /** Every acknowledge before the first NACK is an acknowledge, and the
      first NACK, when there is one among the `n`, is a NACK. */
  lemma {:induction false} FirstNackIsFirst(bus: Bus, k: nat, n: nat)
    ensures var r := FirstNack(bus, k, n);
            (forall i :: k <= i < k + r ==> AckAt(bus, i)) && (r < n ==> !AckAt(bus, k + r))
    decreases n
  {
    if n > 0 && AckAt(bus, k) {
      FirstNackIsFirst(bus, k + 1, n - 1);
    }
  }

  /** Scanning the acknowledges in order: one more acknowledge moves the
      first NACK at least one further on. */
  lemma FirstNackPast(bus: Bus, k: nat, n: nat, j: nat)
    requires k <= j < k + n && FirstNack(bus, k, n) >= j - k && AckAt(bus, j)
    ensures FirstNack(bus, k, n) > j - k
  {
    FirstNackIsFirst(bus, k, n);
  }

  /** A NACK reached by the scan is the first one. */
  lemma FirstNackAt(bus: Bus, k: nat, n: nat, j: nat)
    requires k <= j < k + n && FirstNack(bus, k, n) >= j - k && !AckAt(bus, j)
    ensures FirstNack(bus, k, n) == j - k
  {
    FirstNackIsFirst(bus, k, n);
  }

  /** The programs of `_writeI2CByte` for every byte of `data`, in order. */
  function BytesSteps(data: seq<byte>): seq<Step>
    decreases |data|
  {
    if data == [] then [] else BytesSteps(data[..|data| - 1]) + WriteByteSteps(data[|data| - 1] as bv32)
  }

  /** `write(address, data, hold)` when the device answers from input index
      `k` on: the program it runs and the value it returns. Start, address
      frame with R/W = 0; on a NACK return False at once (no stop); then
      each data byte until the first NACK (return False, no stop); after all
      bytes a repeated start when holding the device, else a stop. */
  function WriteProgram(bus: Bus, k: nat, address: byte, data: seq<byte>, hold: bool): (seq<Step>, bool) {
    var head := StartSteps() + WriteByteSteps(AddressFrame(address, false));
    if !AckAt(bus, k) then (head, false)
    else
      var m := FirstNack(bus, k + 1, |data|);
      if m < |data| then (head + BytesSteps(data[..m + 1]), false)
      else (head + BytesSteps(data) + (if hold then RepStartSteps() else StopSteps()), true)
  }

  lemma TakeAll<T>(s: seq<T>)
    ensures s[..|s|] == s
  {
  }

  /** `write` when the address is not acknowledged: start and address
      frame, then return False. */
  lemma WriteAddressNack(bus: Bus, s0: PortState, k: nat, address: byte, data: seq<byte>, hold: bool)
    requires Wired(bus, s0) && !AckAt(bus, k)
    ensures var (steps, ok) := WriteProgram(bus, k, address, data, hold);
            !ok && Run(bus, s0, steps) == Run(bus, Run(bus, s0, StartSteps()), WriteByteSteps(AddressFrame(address, false)))
  {
    RunAppend(bus, s0, StartSteps(), WriteByteSteps(AddressFrame(address, false)));
  }

  /** `write` when a data byte is not acknowledged, the first such being
      byte `m` of the data acknowledged from input index `k1` on: it returns
      False right after that byte. */
  lemma WriteDataNack(bus: Bus, s0: PortState, k: nat, k1: nat, address: byte, data: seq<byte>, hold: bool)
    requires Wired(bus, s0) && AckAt(bus, k) && k1 == k + 1 && FirstNack(bus, k1, |data|) < |data|
    ensures var (steps, ok) := WriteProgram(bus, k, address, data, hold);
            var s1 := Run(bus, Run(bus, s0, StartSteps()), WriteByteSteps(AddressFrame(address, false)));
            !ok && Run(bus, s0, steps) == Run(bus, s1, BytesSteps(data[..FirstNack(bus, k1, |data|) + 1]))
  {
    assert FirstNack(bus, k1, |data|) == FirstNack(bus, k + 1, |data|);
    RunParts(bus, s0, StartSteps(), WriteByteSteps(AddressFrame(address, false)), BytesSteps(data[..FirstNack(bus, k1, |data|) + 1]), []);
  }

  /** `write` when every data byte is acknowledged: it returns True after a
      repeated start (holding the device) or a stop. */
  lemma WriteAllAcked(bus: Bus, s0: PortState, k: nat, k1: nat, address: byte, data: seq<byte>, hold: bool)
    requires Wired(bus, s0) && AckAt(bus, k) && k1 == k + 1 && FirstNack(bus, k1, |data|) == |data|
    ensures var (steps, ok) := WriteProgram(bus, k, address, data, hold);
            var s1 := Run(bus, Run(bus, s0, StartSteps()), WriteByteSteps(AddressFrame(address, false)));
            var s2 := Run(bus, s1, BytesSteps(data));
            ok && Run(bus, s0, steps) == Run(bus, s2, if hold then RepStartSteps() else StopSteps())
  {
    assert FirstNack(bus, k1, |data|) == FirstNack(bus, k + 1, |data|);
    RunParts(bus, s0, StartSteps(), WriteByteSteps(AddressFrame(address, false)), BytesSteps(data), if hold then RepStartSteps() else StopSteps());
  }

  /** One more data byte after the first `i`. */
  lemma BytesStepsNext(bus: Bus, s: PortState, data: seq<byte>, i: nat)
    requires Wired(bus, s) && i < |data|
    ensures Run(bus, s, BytesSteps(data[..i + 1])) == Run(bus, Run(bus, s, BytesSteps(data[..i])), WriteByteSteps(data[i] as bv32))
  {
    assert data[..i + 1][..i] == data[..i];
    RunAppend(bus, s, BytesSteps(data[..i]), WriteByteSteps(data[i] as bv32));
  }

  /** How many data bytes `write` puts on the bus. */
  function DataSent(bus: Bus, k: nat, n: nat): (r: nat)
    ensures r <= n
  {
    if !AckAt(bus, k) then 0
    else if FirstNack(bus, k + 1, n) < n then FirstNack(bus, k + 1, n) + 1
    else n
  }

  lemma {:induction false} BytesStepsShape(data: seq<byte>, x: bool, y: bool)
    ensures Samples(BytesSteps(data)) == |data|
    ensures data != [] ==> LastLevel(BytesSteps(data), SDA, x) && !LastLevel(BytesSteps(data), SCL, y)
    ensures |Presented(BytesSteps(data), x)| == 9 * |data|
    decreases |data|
  {
    if data != [] {
      var init := data[..|data| - 1];
      var last := data[|data| - 1] as bv32;
      BytesStepsShape(init, x, y);
      WriteByteShape(last, LastLevel(BytesSteps(init), SDA, x), LastLevel(BytesSteps(init), SCL, y));
      SamplesAppend(BytesSteps(init), WriteByteSteps(last));
      LastLevelAppend(BytesSteps(init), WriteByteSteps(last), SDA, x);
      LastLevelAppend(BytesSteps(init), WriteByteSteps(last), SCL, y);
      PresentedAppend(BytesSteps(init), WriteByteSteps(last), x);
    }
  }

  /** `write` returns True exactly when the address and every data byte are
      acknowledged; with no data it returns the address acknowledge. */
  lemma WriteResult(bus: Bus, k: nat, address: byte, data: seq<byte>, hold: bool)
    ensures WriteProgram(bus, k, address, data, hold).1 <==> (forall i :: k <= i <= k + |data| ==> AckAt(bus, i))
    ensures data == [] ==> WriteProgram(bus, k, address, data, hold).1 == AckAt(bus, k)
  {
    var m := FirstNack(bus, k + 1, |data|);
    FirstNackIsFirst(bus, k + 1, |data|);
    if AckAt(bus, k) && m < |data| {
      assert !AckAt(bus, k + 1 + m);
    }
  }

  /** `write` puts on the bus the start, the address frame and the data
      bytes up to and including the first one not acknowledged; no byte after
      it. It ends there when it fails, and with a repeated start or a stop
      when it succeeds. */
  lemma WriteSendsPrefix(bus: Bus, k: nat, address: byte, data: seq<byte>, hold: bool)
    ensures var (steps, ok) := WriteProgram(bus, k, address, data, hold);
            var sent := DataSent(bus, k, |data|);
            steps == StartSteps() + WriteByteSteps(AddressFrame(address, false)) + BytesSteps(data[..sent])
                     + (if !ok then [] else if hold then RepStartSteps() else StopSteps()) &&
            (ok ==> sent == |data|)
  {
    if AckAt(bus, k) && FirstNack(bus, k + 1, |data|) == |data| {
      assert data[..|data|] == data;
    }
  }

  /** One acknowledge check per byte sent: the address and `DataSent` data
      bytes. */
  lemma WriteSamples(bus: Bus, k: nat, address: byte, data: seq<byte>, hold: bool)
    ensures Samples(WriteProgram(bus, k, address, data, hold).0) == 1 + DataSent(bus, k, |data|)
  {
    var (steps, ok) := WriteProgram(bus, k, address, data, hold);
    var sent := DataSent(bus, k, |data|);
    var addr := WriteByteSteps(AddressFrame(address, false));
    var bytes := BytesSteps(data[..sent]);
    var tail := if !ok then [] else if hold then RepStartSteps() else StopSteps();
    WriteSendsPrefix(bus, k, address, data, hold);
    WriteByteShape(AddressFrame(address, false), false, false);
    BytesStepsShape(data[..sent], false, false);
    SamplesAppend(StartSteps(), addr);
    SamplesAppend(StartSteps() + addr, bytes);
    SamplesAppend(StartSteps() + addr + bytes, tail);
  }

  /** After the address frame and any data bytes, SCL is low and SDA
      released: the state the last acknowledge check leaves. */
  lemma FramesLevels(address: byte, read: bool, data: seq<byte>, x: bool, y: bool)
    ensures var steps := StartSteps() + WriteByteSteps(AddressFrame(address, read)) + BytesSteps(data);
            LastLevel(steps, SDA, x) && !LastLevel(steps, SCL, y)
  {
    var addr := WriteByteSteps(AddressFrame(address, read));
    var head := StartSteps() + addr;
    WriteByteShape(AddressFrame(address, read), LastLevel(StartSteps(), SDA, x), LastLevel(StartSteps(), SCL, y));
    LastLevelAppend(StartSteps(), addr, SDA, x);
    LastLevelAppend(StartSteps(), addr, SCL, y);
    BytesStepsShape(data, LastLevel(head, SDA, x), LastLevel(head, SCL, y));
    LastLevelAppend(head, BytesSteps(data), SDA, x);
    LastLevelAppend(head, BytesSteps(data), SCL, y);
  }

  /** What `write` leaves on the lines: after a failure SCL low and SDA
      released, with no stop condition; after a success both lines high (a
      stop, the bus idle), or both low when holding the device. */
  lemma WriteEndLevels(bus: Bus, k: nat, address: byte, data: seq<byte>, hold: bool, x: bool, y: bool)
    ensures var (steps, ok) := WriteProgram(bus, k, address, data, hold);
            (!ok ==> LastLevel(steps, SDA, x) && !LastLevel(steps, SCL, y)) &&
            (ok ==> LastLevel(steps, SDA, x) == !hold && LastLevel(steps, SCL, y) == !hold)
  {
    var (steps, ok) := WriteProgram(bus, k, address, data, hold);
    var body := StartSteps() + WriteByteSteps(AddressFrame(address, false)) + BytesSteps(data[..DataSent(bus, k, |data|)]);
    var tail := if !ok then [] else if hold then RepStartSteps() else StopSteps();
    WriteSendsPrefix(bus, k, address, data, hold);
    FramesLevels(address, false, data[..DataSent(bus, k, |data|)], x, y);
    LastLevelAppend(body, tail, SDA, x);
    LastLevelAppend(body, tail, SCL, y);
  }

  /** What `read` returns: False (0) when the address is not acknowledged,
      otherwise the last byte read, which is unassigned when no byte is read. */
  datatype ReadReply = AddressNack | LastByte(value: byte) | Unassigned

  /** The programs of `_readI2CByte` for `n` bytes. */
  function ReadBytesSteps(n: nat): seq<Step> {
    Repeat(ReadByteSteps(), n)
  }

  /** `read(address, n, hold)` when the device answers from input index `k`
      on: start, address frame with R/W = 1; on a NACK return False at once
      (no stop); else `n` times `_readI2CByte` (each takes eight samples),
      then a repeated start or a stop; return the last byte read. */
  function ReadProgram(bus: Bus, k: nat, address: byte, n: nat, hold: bool): (seq<Step>, ReadReply) {
    var head := StartSteps() + WriteByteSteps(AddressFrame(address, true));
    if !AckAt(bus, k) then (head, AddressNack)
    else
      (head + ReadBytesSteps(n) + (if hold then RepStartSteps() else StopSteps()),
       if n == 0 then Unassigned else LastByte(ReadBytes(bus, k + 1, n)[n - 1]))
  }

  /** As written, `n` reads clock SCL once per byte, always with SDA low:
      every byte, the last included, is acknowledged; each takes 8 samples. */
  lemma {:induction false} ReadBytesShape(n: nat, x: bool)
    ensures Presented(ReadBytesSteps(n), x) == seq(n, _ => false)
    ensures Samples(ReadBytesSteps(n)) == 8 * n
    ensures n > 0 ==> LastLevel(ReadBytesSteps(n), SDA, x)
  {
    if n > 0 {
      var init := ReadBytesSteps(n - 1);
      ReadBytesShape(n - 1, x);
      ReadByteShape(LastLevel(init, SDA, x), false);
      PresentedAppend(init, ReadByteSteps(), x);
      SamplesAppend(init, ReadByteSteps());
      LastLevelAppend(init, ReadByteSteps(), SDA, x);
      assert seq(n, _ => false) == seq(n - 1, _ => false) + [false];
    }
  }

  /** The bytes `read` collects in its list, `n` bytes of eight samples each
      from input index `k` on. */
  function ReadBytes(bus: Bus, k: nat, n: nat): (r: seq<byte>)
    ensures |r| == n
  {
    if n == 0 then [] else ReadBytes(bus, k, n - 1) + [ShiftIn(bus, k + 8 * (n - 1), 8)]
  }

  /** One more byte read after the first `i`. */
  lemma ReadStepsNext(bus: Bus, s: PortState, i: nat)
    requires Wired(bus, s)
    ensures Run(bus, s, ReadBytesSteps(i + 1)) == Run(bus, Run(bus, s, ReadBytesSteps(i)), ReadByteSteps())
  {
    assert ReadBytesSteps(i + 1) == ReadBytesSteps(i) + ReadByteSteps();
    RunAppend(bus, s, ReadBytesSteps(i), ReadByteSteps());
  }

  /** One more byte in the list, its samples starting at input index `j`. */
  lemma ReadBytesNext(bus: Bus, k: nat, i: nat, j: nat)
    requires j == k + 8 * i
    ensures ReadBytes(bus, k, i + 1) == ReadBytes(bus, k, i) + [ShiftIn(bus, j, 8)]
  {
  }

  /** `read` when the address is not acknowledged: start and address frame,
      then return False. */
  lemma ReadAddressNack(bus: Bus, s0: PortState, k: nat, address: byte, n: nat, hold: bool)
    requires Wired(bus, s0) && !AckAt(bus, k)
    ensures var (steps, r) := ReadProgram(bus, k, address, n, hold);
            r == AddressNack && Run(bus, s0, steps) == Run(bus, Run(bus, s0, StartSteps()), WriteByteSteps(AddressFrame(address, true)))
  {
    RunAppend(bus, s0, StartSteps(), WriteByteSteps(AddressFrame(address, true)));
  }

  /** `read` when the address is acknowledged: the `n` byte reads, then a
      repeated start or a stop; the reply is the last byte of the list. */
  lemma ReadAcked(bus: Bus, s0: PortState, k: nat, k1: nat, address: byte, n: nat, hold: bool)
    requires Wired(bus, s0) && AckAt(bus, k) && k1 == k + 1
    ensures var (steps, r) := ReadProgram(bus, k, address, n, hold);
            var s1 := Run(bus, Run(bus, s0, StartSteps()), WriteByteSteps(AddressFrame(address, true)));
            var s2 := Run(bus, s1, ReadBytesSteps(n));
            Run(bus, s0, steps) == Run(bus, s2, if hold then RepStartSteps() else StopSteps()) &&
            r == if n == 0 then Unassigned else LastByte(ReadBytes(bus, k1, n)[n - 1])
  {
    RunParts(bus, s0, StartSteps(), WriteByteSteps(AddressFrame(address, true)), ReadBytesSteps(n), if hold then RepStartSteps() else StopSteps());
    assert ReadBytes(bus, k1, n) == ReadBytes(bus, k + 1, n);
  }

  /** The last byte of the list is the last eight samples shifted in. */
  lemma ReadBytesLast(bus: Bus, k: nat, n: nat)
    requires n > 0
    ensures ReadBytes(bus, k, n)[n - 1] == ShiftIn(bus, k + 8 * (n - 1), 8)
  {
  }

  /** `read` as written: it answers False on an address NACK; otherwise it
      replies with one byte, the last, the eight samples taken after all the
      earlier bytes shifted in (see `LastByteBits` for their order); with no
      byte to read, the reply is unassigned. */
  lemma ReadReplyIsLastByte(bus: Bus, k: nat, address: byte, n: nat, hold: bool)
    ensures var reply := ReadProgram(bus, k, address, n, hold).1;
            (reply == AddressNack <==> !AckAt(bus, k)) &&
            (AckAt(bus, k) && n == 0 ==> reply == Unassigned) &&
            (AckAt(bus, k) && n > 0 ==> reply == LastByte(ShiftIn(bus, k + 1 + 8 * (n - 1), 8)))
  {
    assert ReadProgram(bus, k, address, n, hold).1 ==
      if !AckAt(bus, k) then AddressNack else if n == 0 then Unassigned else LastByte(ReadBytes(bus, k + 1, n)[n - 1]);
    if AckAt(bus, k) && n > 0 {
      ReadBytesLast(bus, k + 1, n);
    }
  }

  /** The unsigned integer `read` hands back: False, that is 0, on an
      address NACK, else the last byte read. */
  function ReturnedValue(reply: ReadReply): (v: nat)
    requires !reply.Unassigned?
    ensures v < 256
    ensures reply.LastByte? ==> v == reply.value as nat
  {
    match reply
    case AddressNack => 0
    case LastByte(b) => b as nat
  }

  /** `read` returns 0 exactly when the address is not acknowledged or the
      last byte read is 0x00: its caller cannot tell a missing device from
      a device that answered 0x00. */
  lemma ReadReturnsZero(bus: Bus, k: nat, address: byte, n: nat, hold: bool)
    requires !AckAt(bus, k) || n > 0
    ensures var v := ReturnedValue(ReadProgram(bus, k, address, n, hold).1);
            v == 0 <==> !AckAt(bus, k) || (n > 0 && ShiftIn(bus, k + 1 + 8 * (n - 1), 8) == 0)
  {
    ReadReplyIsLastByte(bus, k, address, n, hold);
  }

  /** The byte shifted in depends on the eight samples alone. */
  lemma ShiftInFromSamples(bus: Bus, other: Bus, j: nat)
    requires forall i :: j <= i < j + 8 ==> SampledBit(bus, i) == SampledBit(other, i)
    ensures ShiftIn(bus, j, 8) == ShiftIn(other, j, 8)
  {
    LastByteBits(bus, j);
    LastByteBits(other, j);
    forall m | 0 <= m < 8
      ensures Answered(bus, j, 8)[m] == Answered(other, j, 8)[m]
    {
      AnsweredAt(bus, j, 8, m);
      AnsweredAt(other, j, 8, m);
    }
    BitsInjective(ShiftIn(bus, j, 8), ShiftIn(other, j, 8));
  }

  /** Eight samples shifted in, first sample most significant. */
  lemma LastByteBits(bus: Bus, j: nat)
    ensures Bits(ShiftIn(bus, j, 8)) == Answered(bus, j, 8)
  {
    ShiftInBits(bus, j, 8);
    assert seq(0, _ => false) == [];
  }

  /** After the address frame, `read` consumes eight samples per byte. */
  lemma ReadSamples(bus: Bus, k: nat, address: byte, n: nat, hold: bool)
    requires AckAt(bus, k)
    ensures Samples(ReadProgram(bus, k, address, n, hold).0) == 1 + 8 * n
  {
    var head := StartSteps() + WriteByteSteps(AddressFrame(address, true));
    var tail := if hold then RepStartSteps() else StopSteps();
    ReadBytesShape(n, false);
    WriteByteShape(AddressFrame(address, true), false, false);
    SamplesAppend(StartSteps(), WriteByteSteps(AddressFrame(address, true)));
    SamplesAppend(head, ReadBytesSteps(n));
    SamplesAppend(head + ReadBytesSteps(n), tail);
    assert Samples(tail) == 0;
  }
}
