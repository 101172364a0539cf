/** The parallel port that both engines drive: a map from register number to
    the byte latched in it, an append-only trace of what happened on the
    port, and the bytes the port reports when the I2C engine samples its data
    line (the level a device on the bus may be pulling low). The port's own
    driver library is not part of this model. */
module ParallelPort {

  type byte = bv8

  /** Position of a line inside its register byte, 0 to 7. */
  type BitIndex = bv3

  /** A pin descriptor: the register holding the line, the bit inside it,
      whether the hardware inverts the line, and whether it can drive output. */
  datatype Pin = Pin(register: nat, bitIndex: BitIndex, inverted: bool, outputAllowed: bool)

  /** What the port saw: a byte written to a register, or a byte read back
      from a register while sampling a line. */
  datatype Event = Written(register: nat, value: byte) | Sampled(register: nat, value: byte)

  /** Everything observable about a port at one moment. */
  datatype PortState = PortState(regs: map<nat, byte>, trace: seq<Event>, sensed: nat)

  /** Bit `i` of `b` is set. */
  predicate Bit(b: byte, i: BitIndex) {
    (b >> i) & 1 == 1
  }

  /** `(1 << i) & b` shifted back down by `i`: the value of one bit, 0 or 1. */
  function IsolatedBit(b: byte, i: BitIndex): (r: byte)
    ensures r <= 1
    ensures r == 1 <==> Bit(b, i)
  {
    (((1 as byte) << i) & b) >> i
  }

  /** The byte `b` with bit `i` set when `v` holds and cleared otherwise,
      computed with the masks `1 << i` and `(1 << i) ^ 0xFF`. */
  function SetBit(b: byte, i: BitIndex, v: bool): (r: byte)
    ensures Bit(r, i) == v
  {
    var mask: byte := 1 << i;
    if v then mask | b else (mask ^ 0xFF) & b
  }

  /** Setting or clearing bit `i` leaves every other bit as it was. */
  lemma SetBitOther(b: byte, i: BitIndex, v: bool, j: BitIndex)
    requires j != i
    ensures Bit(SetBit(b, i, v), j) == Bit(b, j)
  {
  }

  /** `(1 << i) ^ b`: the byte `b` with bit `i` flipped. */
  function Toggle(b: byte, i: BitIndex): (r: byte)
    ensures Bit(r, i) == !Bit(b, i)
  {
    ((1 as byte) << i) ^ b
  }

  /** Flipping bit `i` leaves every other bit as it was. */
  lemma ToggleOther(b: byte, i: BitIndex, j: BitIndex)
    requires j != i
    ensures Bit(Toggle(b, i), j) == Bit(b, j)
  {
  }

  /** The logical level of `pin` when its register holds `b`. */
  predicate Level(b: byte, pin: Pin) {
    Bit(b, pin.bitIndex) != pin.inverted
  }

  /** The bits of `b`, most significant first: the order I2C puts them on
      the wire. */
  function Bits(b: byte): (r: seq<bool>)
    ensures |r| == 8
  {
    [Bit(b, 7), Bit(b, 6), Bit(b, 5), Bit(b, 4), Bit(b, 3), Bit(b, 2), Bit(b, 1), Bit(b, 0)]
  }

  /** A byte is determined by its bits. */
  lemma BitsInjective(a: byte, b: byte)
    requires Bits(a) == Bits(b)
    ensures a == b
  {
    assert Bit(a, 7) == Bits(a)[0] && Bit(b, 7) == Bits(b)[0];
    BitsDetermineByte(a, b);
  }

  /** Shifting a bit in from the right drops the most significant bit and
      appends the new one at the end. */
  lemma ShiftInBit(acc: byte, bit: bool)
    ensures Bits((acc << 1) | (if bit then 1 else 0)) == Bits(acc)[1..] + [bit]
  {
    var x := (acc << 1) | (if bit then 1 else 0);
    assert Bit(x, 0) == bit;
  }

  /** Writing the same level twice leaves the byte as the first write left it. */
  lemma SetBitIdempotent(b: byte, i: BitIndex, v: bool)
    ensures SetBit(SetBit(b, i, v), i, v) == SetBit(b, i, v)
  {
  }

  /** A byte is determined by its eight bits. */
  lemma BitsDetermineByte(a: byte, b: byte)
    requires forall j: BitIndex :: Bit(a, j) == Bit(b, j)
    ensures a == b
  {
    assert Bit(a, 0) == Bit(b, 0) && Bit(a, 1) == Bit(b, 1) && Bit(a, 2) == Bit(b, 2) && Bit(a, 3) == Bit(b, 3);
    assert Bit(a, 4) == Bit(b, 4) && Bit(a, 5) == Bit(b, 5) && Bit(a, 6) == Bit(b, 6) && Bit(a, 7) == Bit(b, 7);
  }

  /** The registers after the writes among `events` are applied, in order,
      to `regs`; samples change no register. */
  function Replayed(regs: map<nat, byte>, events: seq<Event>): map<nat, byte>
    decreases |events|
  {
    if events == [] then regs
    else
      var before := Replayed(regs, events[..|events| - 1]);
      match events[|events| - 1]
      case Written(register, b) => before[register := b]
      case Sampled(_, _) => before
  }

  /** Replaying two runs of events one after the other is replaying both. */
  lemma {:induction false} ReplayedAppend(regs: map<nat, byte>, a: seq<Event>, b: seq<Event>)
    ensures Replayed(regs, a + b) == Replayed(Replayed(regs, a), b)
    decreases |b|
  {
    if b != [] {
      var init := b[..|b| - 1];
      assert (a + b)[..|a + b| - 1] == a + init;
      ReplayedAppend(regs, a, init);
    } else {
      assert a + b == a;
    }
  }

  /** The port. Reading a register for a read-modify-write returns the byte
      latched there; sampling a line returns the next byte of `input`. */
  class Port {
    var regs: map<nat, byte>
    var trace: seq<Event>
    var sensed: nat
    const input: nat -> byte

    constructor (regs: map<nat, byte>, input: nat -> byte)
      ensures this.regs == regs && trace == [] && sensed == 0 && this.input == input
    {
      this.regs := regs;
      trace := [];
      sensed := 0;
      this.input := input;
    }

    ghost function State(): PortState
      reads this
    {
      PortState(regs, trace, sensed)
    }

    /** Read the byte latched in `register`. */
    method Read(register: nat) returns (b: byte)
      requires register in regs
      ensures b == regs[register]
    {
      b := regs[register];
    }

    /** Write `b` to `register`; the trace records the write. */
    method Write(register: nat, b: byte)
      modifies this
      ensures regs == old(regs)[register := b]
      ensures trace == old(trace) + [Written(register, b)]
      ensures sensed == old(sensed)
    {
      regs := regs[register := b];
      trace := trace + [Written(register, b)];
    }

    /** Sample the lines of `register`: the port reports the next input byte. */
    method Sense(register: nat) returns (b: byte)
      modifies this
      ensures b == input(old(sensed))
      ensures regs == old(regs) && sensed == old(sensed) + 1
      ensures trace == old(trace) + [Sampled(register, b)]
    {
      b := input(sensed);
      sensed := sensed + 1;
      trace := trace + [Sampled(register, b)];
    }

    /** The port driver's own pin write: drive `pin` to the logical `value`
        by a read-modify-write of its register. */
    method WritePin(pin: Pin, value: bool)
      requires pin.register in regs
      modifies this
      ensures regs == old(regs)[pin.register := SetBit(old(regs)[pin.register], pin.bitIndex, value != pin.inverted)]
      ensures trace == old(trace) + [Written(pin.register, regs[pin.register])]
      ensures sensed == old(sensed)
      ensures Level(regs[pin.register], pin) == value
    {
      var current := Read(pin.register);
      Write(pin.register, SetBit(current, pin.bitIndex, value != pin.inverted));
    }
  }
}
