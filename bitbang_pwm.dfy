/** The owner side of the PWM engine, `PWM` in bitbang_pwm.py: it holds the
    port, the pin, the duty cycle and the cycle time, checks the pin and the
    duty cycle when they are set, and starts and stops a `PWMCycle` worker. */
module BitbangPwm {
  import opened ParallelPort
  import opened PwmCycle

  class PWM {
    const port: Port
    var pin: Pin
    var dutyCycle: real
    var cycleTime: real
    var pwmThread: PWMCycle?

    /** A PWM with no worker yet. The constructor stores the duty cycle it
        is given without checking it. */
    constructor (port: Port, pin: Pin, dutyCycle: real := 0.0, cycleTime: real := 0.02)
      ensures this.port == port && this.pin == pin
      ensures this.dutyCycle == dutyCycle && this.cycleTime == cycleTime
      ensures pwmThread == null
    {
      this.port := port;
      this.pin := pin;
      this.dutyCycle := dutyCycle;
      this.cycleTime := cycleTime;
      pwmThread := null;
    }

    /** The `pin` property: the stored pin, nothing changed. */
    method GetPin() returns (p: Pin)
      ensures p == pin
    {
      p := pin;
    }

    /** The `pin` setter: a pin that cannot drive output is refused with an
        exception and the old pin kept. */
    method SetPin(p: Pin) returns (s: Status)
      modifies this
      ensures s == Done <==> p.outputAllowed
      ensures s != Done ==> s == Raised(PinError("PWM output is not available on this pin; please use a pin capable of output"))
      ensures pin == (if p.outputAllowed then p else old(pin))
      ensures dutyCycle == old(dutyCycle) && cycleTime == old(cycleTime) && pwmThread == old(pwmThread)
    {
      if p.outputAllowed {
        pin := p;
        s := Done;
      } else {
        s := Raised(PinError("PWM output is not available on this pin; please use a pin capable of output"));
      }
    }

    /** The `duty_cycle` property: the stored duty cycle, nothing changed. */
    method GetDutyCycle() returns (d: real)
      ensures d == dutyCycle
    {
      d := dutyCycle;
    }

    /** The `duty_cycle` setter: a duty cycle outside [0, 1] is refused with
        a ValueError and the old one kept. */
    method SetDutyCycle(d: real) returns (s: Status)
      modifies this
      ensures s == Done <==> 0.0 <= d <= 1.0
      ensures s != Done ==> s == Raised(ValueError("Duty cycle must be between 0 and 1"))
      ensures dutyCycle == (if 0.0 <= d <= 1.0 then d else old(dutyCycle))
      ensures pin == old(pin) && cycleTime == old(cycleTime) && pwmThread == old(pwmThread)
    {
      if 0.0 <= d && 1.0 >= d {
        dutyCycle := d;
        s := Done;
      } else {
        s := Raised(ValueError("Duty cycle must be between 0 and 1"));
      }
    }

    /** `startCycle`: drive the pin low through the port, then make a new
        worker with the pin, duty cycle and cycle time, its flags clear. A
        worker started earlier is dropped without being stopped. */
    method StartCycle()
      requires pin.register in port.regs
      modifies this, port
      ensures pin == old(pin) && dutyCycle == old(dutyCycle) && cycleTime == old(cycleTime)
      ensures port.regs == old(port.regs)[pin.register := SetBit(old(port.regs)[pin.register], pin.bitIndex, pin.inverted)]
      ensures port.trace == old(port.trace) + [Written(pin.register, port.regs[pin.register])]
      ensures port.sensed == old(port.sensed)
      ensures !Level(port.regs[pin.register], pin)
      ensures pwmThread != null && fresh(pwmThread)
      ensures pwmThread.port == port && pwmThread.pin == pin
      ensures pwmThread.dutyCycle == dutyCycle && pwmThread.cycleTime == cycleTime
      ensures pwmThread.State() == Flags(false, false)
    {
      port.WritePin(pin, false);
      pwmThread := new PWMCycle(port, pin, dutyCycle, cycleTime);
    }

    /** `startCycle` with the worker of bitbang_pwm.py, whose constructor
        starts its thread on `runCycle` at once (here, the steps of `schedule`
        arrive as that thread runs): the pin is driven low, and the thread
        then dies with an AttributeError on `pwm_gpioport` before any other
        write, leaving the pin low. */
    method StartCycleAsWritten(schedule: seq<seq<Command>>) returns (s: Status)
      requires pin.register in port.regs
      modifies this, port
      ensures s == Raised(AttributeError("pwm_gpioport"))
      ensures pin == old(pin) && dutyCycle == old(dutyCycle) && cycleTime == old(cycleTime)
      ensures port.regs == old(port.regs)[pin.register := SetBit(old(port.regs)[pin.register], pin.bitIndex, pin.inverted)]
      ensures port.trace == old(port.trace) + [Written(pin.register, port.regs[pin.register])]
      ensures !Level(port.regs[pin.register], pin)
      ensures pwmThread != null && fresh(pwmThread) && pwmThread.State() == Flags(false, false)
    {
      port.WritePin(pin, false);
      pwmThread := new PWMCycle(port, pin, dutyCycle, cycleTime);
      s := pwmThread.RunCycleAsInBitbangPwm(schedule);
    }

    /** `endCycle`: set the worker's end flag. With no worker started the
        call fails with an AttributeError (`None` has no `stopCycle`). */
    method EndCycle() returns (s: Status)
      modifies pwmThread
      ensures s == Done <==> pwmThread != null
      ensures s != Done ==> s == Raised(AttributeError("stopCycle"))
      ensures pwmThread != null ==> pwmThread.State() == Apply(old(pwmThread.State()), Stop)
    {
      if pwmThread == null {
        s := Raised(AttributeError("stopCycle"));
      } else {
        pwmThread.StopCycle();
        s := Done;
      }
    }
  }

  /** Started from a PWM whose pin `startCycle` has just driven low, the
      worker of gpioport_pwm.py drives the pin high for the on time of each
      turn and low for the off time, never touching the register's other
      bits; the snapshot it writes back at the end of every turn has the
      pin low. */
  lemma StartedCycleShape(pin: Pin, dutyCycle: real, cycleTime: real, regs: map<nat, byte>)
    requires pin.register in regs
    ensures var low := SetBit(regs[pin.register], pin.bitIndex, pin.inverted);
            var c := Setup(pin, dutyCycle, cycleTime, low);
            !Level(low, pin) && Level(c.toggled, pin) && !Level(c.snapshot, pin) &&
            forall j: BitIndex :: j != pin.bitIndex ==> Bit(c.toggled, j) == Bit(regs[pin.register], j)
  {
    var low := SetBit(regs[pin.register], pin.bitIndex, pin.inverted);
    OnPhaseHigh(pin, dutyCycle, cycleTime, low);
    OtherBitsKept(pin, dutyCycle, cycleTime, regs[pin.register]);
  }

  lemma OtherBitsKept(pin: Pin, dutyCycle: real, cycleTime: real, b: byte)
    ensures var c := Setup(pin, dutyCycle, cycleTime, SetBit(b, pin.bitIndex, pin.inverted));
            forall j: BitIndex :: j != pin.bitIndex ==> Bit(c.toggled, j) == Bit(b, j)
  {
    var low := SetBit(b, pin.bitIndex, pin.inverted);
    forall j: BitIndex | j != pin.bitIndex
      ensures Bit(Toggle(low, pin.bitIndex), j) == Bit(b, j)
    {
      SetBitOther(b, pin.bitIndex, pin.inverted, j);
      ToggleOther(low, pin.bitIndex, j);
    }
  }
}
