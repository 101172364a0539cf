/** The `I2C` class of bitbang_i2c.py: a bit-banged I2C master that drives
    SDA and SCL by read-modify-writes of parallel port registers. Every
    method is proved to do to the port exactly what the matching program of
    `I2cBus` does, so the lemmas about those programs are lemmas about the
    class. */
module BitbangI2c {
  import opened ParallelPort
  import opened I2cBus

  class I2C {
    const port: Port
    const sda: Pin
    const scl: Pin

    /** The lines of this master, and what the port answers when SDA is sampled. */
    ghost const wiring: Bus

    /** `__init__`: keep the port and the two pin descriptors. */
    constructor (port: Port, sda: Pin, scl: Pin)
      ensures this.port == port && this.sda == sda && this.scl == scl
      ensures wiring == Bus(sda, scl, port.input)
      ensures sda.register in port.regs && scl.register in port.regs ==> Valid()
    {
      this.port := port;
      this.sda := sda;
      this.scl := scl;
      wiring := Bus(sda, scl, port.input);
    }

    /** Both pins' registers are on the port. */
    ghost predicate Valid()
      reads port
    {
      wiring == Bus(sda, scl, port.input) && Wired(wiring, port.State())
    }

    /** `_setPin`: invert the level for an inverted pin, read the register,
        set or clear the pin's bit with `1 << bitindex` or its complement,
        write the byte back. */
    method SetPin(register: nat, bitIndex: BitIndex, isInvert: bool, value: bool)
      requires register in port.regs
      modifies port
      ensures port.regs == old(port.regs)[register := SetBit(old(port.regs)[register], bitIndex, value != isInvert)]
      ensures port.trace == old(port.trace) + [Written(register, port.regs[register])]
      ensures port.sensed == old(port.sensed)
    {
      var level := value;
      if isInvert {
        level := !level;
      }
      var currentByte := port.Read(register);
      var byteResult := SetBit(currentByte, bitIndex, level);
      port.Write(register, byteResult);
    }

    /** `_setSDA`. */
    method SetSda(value: bool)
      requires Valid()
      modifies port
      ensures Valid() && port.sensed == old(port.sensed)
      ensures port.State() == Exec(wiring, old(port.State()), Drive(SDA, value))
    {
      SetPin(sda.register, sda.bitIndex, sda.inverted, value);
    }

    /** `_setSCL`. */
    method SetScl(value: bool)
      requires Valid()
      modifies port
      ensures Valid() && port.sensed == old(port.sensed)
      ensures port.State() == Exec(wiring, old(port.State()), Drive(SCL, value))
    {
      SetPin(scl.register, scl.bitIndex, scl.inverted, value);
    }

    /** `_getSDA`: read the port and isolate SDA's bit, shifted down to 0 or
        1 and returned as a `bint`. No inversion is applied, even for an
        inverted pin. */
    method GetSda() returns (r: bool)
      requires Valid()
      modifies port
      ensures Valid() && port.sensed == old(port.sensed) + 1
      ensures r == SampledBit(wiring, old(port.sensed))
      ensures port.State() == Exec(wiring, old(port.State()), SampleSda)
    {
      var currentByte := port.Sense(sda.register);
      var isolatedBit: byte := ((1 as byte) << sda.bitIndex) & currentByte;
      r := isolatedBit >> sda.bitIndex != 0;
    }

    /** `_startCond`. */
    method StartCond()
      requires Valid()
      modifies port
      ensures Valid() && port.sensed == old(port.sensed)
      ensures port.State() == Run(wiring, old(port.State()), StartSteps())
    {
      ghost var s0 := port.State();
      SetSda(false);
      SetScl(false);
      RunTwo(wiring, s0, Drive(SDA, false), Drive(SCL, false));
    }

    /** `_repStartCond`: SCL high, then a start condition. */
    method RepStartCond()
      requires Valid()
      modifies port
      ensures Valid() && port.sensed == old(port.sensed)
      ensures port.State() == Run(wiring, old(port.State()), RepStartSteps())
    {
      ghost var s0 := port.State();
      SetScl(true);
      StartCond();
      RunThree(wiring, s0, Drive(SCL, true), Drive(SDA, false), Drive(SCL, false));
      RunTwo(wiring, Exec(wiring, s0, Drive(SCL, true)), Drive(SDA, false), Drive(SCL, false));
    }

    /** `_endCond`. */
    method EndCond()
      requires Valid()
      modifies port
      ensures Valid() && port.sensed == old(port.sensed)
      ensures port.State() == Run(wiring, old(port.State()), StopSteps())
    {
      ghost var s0 := port.State();
      SetSda(false);
      SetScl(true);
      SetSda(true);
      RunThree(wiring, s0, Drive(SDA, false), Drive(SCL, true), Drive(SDA, true));
    }

    /** `_checkAck`: clock SCL high, sample SDA, SCL low, release SDA; an
        acknowledge is SDA read as 0. */
    method CheckAck() returns (ack: bool)
      requires Valid()
      modifies port
      ensures Valid() && port.sensed == old(port.sensed) + 1
      ensures ack == AckAt(wiring, old(port.sensed))
      ensures port.State() == Run(wiring, old(port.State()), CheckAckSteps())
    {
      ghost var s0 := port.State();
      SetScl(true);
      var isNak := GetSda();
      SetScl(false);
      SetSda(true);
      RunFour(wiring, s0, Drive(SCL, true), SampleSda, Drive(SCL, false), Drive(SDA, true));
      ack := !isNak;
    }

    /** `_assertAck(value)`: SDA to `not value`, one SCL pulse, release SDA. */
    method AssertAck(value: bool)
      requires Valid()
      modifies port
      ensures Valid() && port.sensed == old(port.sensed)
      ensures port.State() == Run(wiring, old(port.State()), AssertAckSteps(value))
    {
      ghost var s0 := port.State();
      SetSda(!value);
      SetScl(true);
      SetScl(false);
      SetSda(true);
      RunFour(wiring, s0, Drive(SDA, !value), Drive(SCL, true), Drive(SCL, false), Drive(SDA, true));
    }

    /** `_writeI2CByte`: the byte arrives as a `bint` (0 or 1); SDA low; for
        bit indices 7 down to 0, SDA to `((1 << i) | byte) >> i`, then SCL
        high and low; then the acknowledge check. */
    method WriteI2CByte(i2cByte: bv32) returns (ack: bool)
      requires Valid()
      modifies port
      ensures Valid() && port.sensed == old(port.sensed) + 1
      ensures ack == AckAt(wiring, old(port.sensed))
      ensures port.State() == Run(wiring, old(port.State()), WriteByteSteps(i2cByte))
    {
      ghost var s0 := port.State();
      var asBint: bv32 := if i2cByte != 0 then 1 else 0;
      SetSda(false);
      ghost var s1 := port.State();
      for i := 8 downto 0
        invariant Valid() && port.sensed == s0.sensed
        invariant port.State() == Run(wiring, s1, ShiftOut(asBint, i))
      {
        var nextBit := NextBit(asBint, i as BitIndex);
        ShiftOutNext(wiring, s1, asBint, i);
        SetSda(nextBit != 0);
        SetScl(true);
        SetScl(false);
      }
      ack := CheckAck();
      WriteByteRun(wiring, s0, i2cByte, asBint);
    }

    /** `_readI2CByte` as written: SDA low, eight samples of SDA shifted into
        the accumulator with no clock pulse, then an acknowledge. */
    method ReadI2CByte() returns (currentByte: byte)
      requires Valid()
      modifies port
      ensures Valid() && port.sensed == old(port.sensed) + 8
      ensures currentByte == ShiftIn(wiring, old(port.sensed), 8)
      ensures port.State() == Run(wiring, old(port.State()), ReadByteSteps())
    {
      ghost var s0 := port.State();
      currentByte := 0;
      SetSda(false);
      ghost var s1 := port.State();
      for j := 0 to 8
        invariant Valid() && port.sensed == s0.sensed + j
        invariant currentByte == ShiftIn(wiring, s0.sensed, j)
        invariant port.State() == Run(wiring, s1, Sampling(j))
      {
        SampleNext(wiring, s1, j);
        ghost var idx := port.sensed;
        var nextBit := GetSda();
        ShiftInNext(wiring, s0.sensed, j, idx, currentByte, nextBit);
        currentByte := (currentByte << 1) | (if nextBit then 1 else 0);
      }
      AssertAck(true);
      ReadByteRun(wiring, s0);
    }

    /** `_writeAddressFrame`: the address shifted left with R/W in bit 0. */
    method WriteAddressFrame(address: byte, read: bool) returns (ack: bool)
      requires Valid()
      modifies port
      ensures Valid() && port.sensed == old(port.sensed) + 1
      ensures ack == AckAt(wiring, old(port.sensed))
      ensures port.State() == Run(wiring, old(port.State()), WriteByteSteps(AddressFrame(address, read)))
    {
      ack := WriteI2CByte(AddressFrame(address, read));
    }

    /** The data loop of `write`: `_writeI2CByte` for each byte in turn,
        returning False at the first one not acknowledged; True when all are. */
    method WriteDataBytes(data: seq<byte>) returns (status: bool)
      requires Valid()
      modifies port
      ensures Valid()
      ensures var m := FirstNack(wiring, old(port.sensed), |data|);
              status == (m == |data|) &&
              (status ==> port.State() == Run(wiring, old(port.State()), BytesSteps(data))) &&
              (!status ==> port.State() == Run(wiring, old(port.State()), BytesSteps(data[..m + 1])))
    {
      ghost var s1 := port.State();
      ghost var k := port.sensed;
      assert data[..0] == [];
      for i := 0 to |data|
        invariant Valid() && port.sensed == k + i
        invariant FirstNack(wiring, k, |data|) >= i
        invariant port.State() == Run(wiring, s1, BytesSteps(data[..i]))
      {
        BytesStepsNext(wiring, s1, data, i);
        ghost var j := port.sensed;
        status := WriteI2CByte(data[i] as bv32);
        if !status {
          FirstNackAt(wiring, k, |data|, j);
          assert data[..i + 1] == data[..FirstNack(wiring, k, |data|) + 1];
          return false;
        }
        FirstNackPast(wiring, k, |data|, j);
      }
      TakeAll(data);
      return true;
    }

    /** `write`: start, address frame; stop at the first NACK and return
        False; after every byte a repeated start when holding the device,
        otherwise a stop; return True. */
    method Write(address: byte, data: seq<byte>, hold: bool := false) returns (status: bool)
      requires Valid()
      modifies port
      ensures Valid()
      ensures var (steps, ok) := WriteProgram(wiring, old(port.sensed), address, data, hold);
              port.State() == Run(wiring, old(port.State()), steps) && status == ok
    {
      ghost var s0 := port.State();
      ghost var k := port.sensed;
      StartCond();
      status := WriteAddressFrame(address, false);
      ghost var s1 := port.State();
      if !status {
        WriteAddressNack(wiring, s0, k, address, data, hold);
        return false;
      }
      ghost var k1 := port.sensed;
      status := WriteDataBytes(data);
      if !status {
        WriteDataNack(wiring, s0, k, k1, address, data, hold);
        return false;
      }
      WriteAllAcked(wiring, s0, k, k1, address, data, hold);
      if hold {
        RepStartCond();
      } else {
        EndCond();
      }
      return true;
    }

    /** The byte loop of `read`: `numBytes` calls of `_readI2CByte`, each
        byte appended to a list; the last byte read, unassigned when there
        is none. */
    method ReadBytesLoop(numBytes: nat) returns (dataRead: ReadReply)
      requires Valid()
      modifies port
      ensures Valid() && port.sensed == old(port.sensed) + 8 * numBytes
      ensures port.State() == Run(wiring, old(port.State()), ReadBytesSteps(numBytes))
      ensures dataRead == if numBytes == 0 then Unassigned else LastByte(ReadBytes(wiring, old(port.sensed), numBytes)[numBytes - 1])
    {
      ghost var s1 := port.State();
      ghost var k := port.sensed;
      var byteList: seq<byte> := [];
      dataRead := Unassigned;
      for i := 0 to numBytes
        invariant Valid() && port.sensed == k + 8 * i
        invariant port.State() == Run(wiring, s1, ReadBytesSteps(i))
        invariant byteList == ReadBytes(wiring, k, i)
        invariant dataRead == if i == 0 then Unassigned else LastByte(byteList[i - 1])
      {
        ghost var j := port.sensed;
        ReadStepsNext(wiring, s1, i);
        ReadBytesNext(wiring, k, i, j);
        var b := ReadI2CByte();
        dataRead := LastByte(b);
        byteList := byteList + [b];
      }
    }

    /** `read` as written: start, address frame with R/W = 1; return False
        on a NACK; otherwise `numBytes` times `_readI2CByte` (whose status is
        taken as always true), appending each byte to a list; then a
        repeated start or a stop; return the last byte read. */
    method Read(address: byte, numBytes: nat := 1, hold: bool := false) returns (reply: ReadReply)
      requires Valid()
      modifies port
      ensures Valid()
      ensures var (steps, r) := ReadProgram(wiring, old(port.sensed), address, numBytes, hold);
              port.State() == Run(wiring, old(port.State()), steps) && reply == r
    {
      ghost var s0 := port.State();
      ghost var k := port.sensed;
      StartCond();
      var status := WriteAddressFrame(address, true);
      ghost var s1 := port.State();
      if !status {
        ReadAddressNack(wiring, s0, k, address, numBytes, hold);
        return AddressNack;
      }
      ghost var k1 := port.sensed;
      var dataRead := ReadBytesLoop(numBytes);
      ReadAcked(wiring, s0, k, k1, address, numBytes, hold);
      if hold {
        RepStartCond();
      } else {
        EndCond();
      }
      return dataRead;
    }
  }
}
