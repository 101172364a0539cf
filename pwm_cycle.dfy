/** The worker of the PWM engine, `PWMCycle` (gpioport_pwm.py; bitbang_pwm.py
    holds a copy that differs in one attribute name). It holds an end flag
    and a pause flag that its owner sets and clears, and its `runCycle`
    snapshots the register of its pin, then until the end flag is set writes
    the register with the pin's bit flipped, waits the on time, writes the
    snapshot back and waits the off time, skipping both writes while the pause
    flag is set.

    The worker's thread, its busy waits and its prints are not modelled. The
    owner's flag commands reach the worker between turns of the loop: before
    turn `t` the commands `schedule[t]` arrive. The loop reads the flags only
    at the top of each turn, so every interleaving of the owner's
    `stopCycle`, `pauseCycle` and `unpauseCycle` calls with the worker is one
    of these schedules; the length of the schedule bounds the number of
    turns the model runs. No other writer touches the port while the loop
    runs: a second worker, an I2C master on the same register or the
    `writePin` of a later `startCycle` would have its byte overwritten by
    the worker's next write, and is not modelled. */
module PwmCycle {
  import opened ParallelPort

  // ---------------------------------------------------------------------
  // Flags (gpioport_pwm.py:65-78)

  /** The worker's two `threading.Event` flags. */
  datatype Flags = Flags(ended: bool, paused: bool)

  /** What the owner can tell a worker: `stopCycle`, `pauseCycle`,
      `unpauseCycle`. */
  datatype Command = Stop | Pause | Unpause

  /** The flags after one command: stop sets the end flag, pause sets the
      pause flag and unpause clears it. */
  function Apply(f: Flags, c: Command): Flags {
    match c
    case Stop => f.(ended := true)
    case Pause => f.(paused := true)
    case Unpause => f.(paused := false)
  }

  /** The flags after the commands `cs`, in order. */
  function ApplyAll(f: Flags, cs: seq<Command>): Flags
    decreases |cs|
  {
    if cs == [] then f else Apply(ApplyAll(f, cs[..|cs| - 1]), cs[|cs| - 1])
  }

  /** Nothing clears the end flag: it is set after a run of commands exactly
      when it was set before or one of them is a stop. */
  lemma {:induction false} EndIsSticky(f: Flags, cs: seq<Command>)
    ensures ApplyAll(f, cs).ended <==> f.ended || Stop in cs
    decreases |cs|
  {
    if cs != [] {
      var init := cs[..|cs| - 1];
      EndIsSticky(f, init);
      assert cs == init + [cs[|cs| - 1]];
    }
  }

  /** Some pause among `cs` is followed by no unpause. */
  predicate PauseStands(cs: seq<Command>) {
    exists i :: 0 <= i < |cs| && cs[i] == Pause && Unpause !in cs[i + 1..]
  }

  lemma PauseStandsAfterPause(init: seq<Command>)
    ensures PauseStands(init + [Pause])
  {
    var cs := init + [Pause];
    assert cs[|init|] == Pause && cs[|init| + 1..] == [];
  }

  lemma PauseFallsAfterUnpause(init: seq<Command>)
    ensures !PauseStands(init + [Unpause])
  {
    var cs := init + [Unpause];
    forall i | 0 <= i < |cs| && cs[i] == Pause
      ensures Unpause in cs[i + 1..]
    {
      assert cs[i + 1..][|init| - (i + 1)] == Unpause;
    }
  }

  lemma PauseStandsAfterStop(init: seq<Command>)
    ensures PauseStands(init + [Stop]) <==> PauseStands(init)
  {
    var cs := init + [Stop];
    if PauseStands(init) {
      var i :| 0 <= i < |init| && init[i] == Pause && Unpause !in init[i + 1..];
      assert cs[i + 1..] == init[i + 1..] + [Stop];
      assert cs[i] == Pause && Unpause !in cs[i + 1..];
    }
    if PauseStands(cs) {
      var i :| 0 <= i < |cs| && cs[i] == Pause && Unpause !in cs[i + 1..];
      assert i < |init| && cs[i + 1..] == init[i + 1..] + [Stop];
      assert init[i] == Pause && Unpause !in init[i + 1..];
    }
  }

  /** The pause flag is set after a run of commands exactly when the last
      pause or unpause among them is a pause, or there is none and it was set
      before. */
  lemma {:induction false} PausedIsLastWord(f: Flags, cs: seq<Command>)
    ensures ApplyAll(f, cs).paused <==> PauseStands(cs) || (f.paused && Unpause !in cs)
    decreases |cs|
  {
    if cs != [] {
      var n := |cs| - 1;
      var init := cs[..n];
      PausedIsLastWord(f, init);
      assert cs == init + [cs[n]];
      match cs[n]
      case Pause => PauseStandsAfterPause(init);
      case Unpause => PauseFallsAfterUnpause(init);
      case Stop => PauseStandsAfterStop(init);
    }
  }

  // ---------------------------------------------------------------------
  // The cycle (gpioport_pwm.py:36-63)

  /** What `runCycle` computes before its loop: the register and bit of the
      pin, the on and off times, the snapshot of the register, and the byte
      with the pin's bit flipped (`(1 << bitindex) ^ portregisterbyte`). */
  datatype Cycle = Cycle(register: nat, bitIndex: BitIndex, onTime: real, offTime: real, snapshot: byte, toggled: byte)

  /** The setup of `runCycle` when the pin's register holds `current`. */
  function Setup(pin: Pin, dutyCycle: real, cycleTime: real, current: byte): Cycle {
    var onTime := cycleTime * dutyCycle;
    Cycle(pin.register, pin.bitIndex, onTime, cycleTime - onTime, current, Toggle(current, pin.bitIndex))
  }

  /** The two bytes the loop writes differ in the pin's bit and nowhere
      else; the snapshot is what the register held. */
  lemma SetupToggles(pin: Pin, dutyCycle: real, cycleTime: real, current: byte)
    ensures var c := Setup(pin, dutyCycle, cycleTime, current);
            c.register == pin.register && c.snapshot == current &&
            Bit(c.toggled, pin.bitIndex) == !Bit(c.snapshot, pin.bitIndex) &&
            forall j: BitIndex :: j != pin.bitIndex ==> Bit(c.toggled, j) == Bit(c.snapshot, j)
  {
    var c := Setup(pin, dutyCycle, cycleTime, current);
    forall j: BitIndex | j != pin.bitIndex
      ensures Bit(c.toggled, j) == Bit(c.snapshot, j)
    {
      ToggleOther(current, pin.bitIndex, j);
    }
  }

  /** The on and off times split the cycle time; with a duty cycle between 0
      and 1 and a non-negative cycle time, neither is negative and neither
      exceeds the cycle time. */
  lemma SetupTimes(pin: Pin, dutyCycle: real, cycleTime: real, current: byte)
    ensures var c := Setup(pin, dutyCycle, cycleTime, current);
            c.onTime + c.offTime == cycleTime &&
            (0.0 <= dutyCycle <= 1.0 && 0.0 <= cycleTime ==>
               0.0 <= c.onTime <= cycleTime && 0.0 <= c.offTime <= cycleTime)
  {
    if 0.0 <= dutyCycle <= 1.0 && 0.0 <= cycleTime {
      assert cycleTime * dutyCycle <= cycleTime * 1.0;
    }
  }

  /** When the pin is low as the cycle starts (as `startCycle` leaves it),
      the first write of each turn drives it high and the second low again:
      the on time is the time the pin is high. */
  lemma OnPhaseHigh(pin: Pin, dutyCycle: real, cycleTime: real, current: byte)
    requires !Level(current, pin)
    ensures var c := Setup(pin, dutyCycle, cycleTime, current);
            Level(c.toggled, pin) && !Level(c.snapshot, pin)
  {
  }

  /** One turn of the loop that finds the pause flag clear: the toggled byte,
      then the snapshot. */
  function Turn(c: Cycle): seq<Event> {
    [Written(c.register, c.toggled), Written(c.register, c.snapshot)]
  }

  /** As written, every unpaused turn writes both bytes whatever the times:
      at duty cycle 0 the on time is 0 and the turn still drives the pin
      high, and at duty cycle 1 the off time is 0 and the turn still drives
      it low. */
  lemma AsWrittenEdgeDuties(pin: Pin, cycleTime: real, current: byte)
    requires !Level(current, pin)
    ensures var c := Setup(pin, 0.0, cycleTime, current);
            c.onTime == 0.0 && Turn(c)[0].Written? && Level(Turn(c)[0].value, pin)
    ensures var c := Setup(pin, 1.0, cycleTime, current);
            c.offTime == 0.0 && Turn(c)[1].Written? && !Level(Turn(c)[1].value, pin)
  {
    OnPhaseHigh(pin, 0.0, cycleTime, current);
    OnPhaseHigh(pin, 1.0, cycleTime, current);
  }

  /** A turn that leaves out the write opening a phase of zero length: the
      flipped byte only when the on time is positive, the snapshot only when
      the off time is. */
  function ShapedTurn(c: Cycle): seq<Event> {
    (if c.onTime > 0.0 then [Written(c.register, c.toggled)] else []) +
    (if c.offTime > 0.0 then [Written(c.register, c.snapshot)] else [])
  }

  /** From a low pin, a shaped turn never drives the pin high at duty cycle
      0 and never drives it low at duty cycle 1; strictly between them, with
      a positive cycle time, it is the turn as written. */
  lemma ShapedTurnEdgeDuties(pin: Pin, dutyCycle: real, cycleTime: real, current: byte)
    requires !Level(current, pin)
    ensures var r := ShapedTurn(Setup(pin, 0.0, cycleTime, current));
            forall i :: 0 <= i < |r| ==> r[i].Written? && !Level(r[i].value, pin)
    ensures var r := ShapedTurn(Setup(pin, 1.0, cycleTime, current));
            forall i :: 0 <= i < |r| ==> r[i].Written? && Level(r[i].value, pin)
    ensures 0.0 < dutyCycle < 1.0 && cycleTime > 0.0 ==>
              var c := Setup(pin, dutyCycle, cycleTime, current);
              ShapedTurn(c) == Turn(c)
  {
    OnPhaseHigh(pin, 0.0, cycleTime, current);
    OnPhaseHigh(pin, 1.0, cycleTime, current);
    if 0.0 < dutyCycle < 1.0 && cycleTime > 0.0 {
      var c := Setup(pin, dutyCycle, cycleTime, current);
      var rest := 1.0 - dutyCycle;
      PositiveProduct(cycleTime, dutyCycle);
      PositiveProduct(cycleTime, rest);
      assert c.offTime == cycleTime * rest;
    }
  }

  lemma PositiveProduct(a: real, b: real)
    requires a > 0.0 && b > 0.0
    ensures a * b > 0.0
  {
  }

  /** The writes of a turn taken with flags `g`: none once the end flag is
      set or while paused, a whole turn otherwise. */
  function TurnEvents(c: Cycle, g: Flags): (r: seq<Event>)
    ensures r == [] || r == Turn(c)
    ensures r != [] <==> !g.ended && !g.paused
  {
    if g.ended || g.paused then [] else Turn(c)
  }

  /** The writes of the loop started with flags `f` under `schedule`: it
      leaves at the first turn that finds the end flag set; a turn that finds
      the pause flag set writes nothing. */
  function CycleTrace(c: Cycle, f: Flags, schedule: seq<seq<Command>>): seq<Event>
    decreases |schedule|
  {
    if schedule == [] then []
    else
      var g := ApplyAll(f, schedule[0]);
      if g.ended then []
      else TurnEvents(c, g) + CycleTrace(c, g, schedule[1..])
  }

  /** The flags when the loop leaves, or when the schedule runs out. */
  function FlagsAfter(f: Flags, schedule: seq<seq<Command>>): Flags
    decreases |schedule|
  {
    if schedule == [] then f
    else
      var g := ApplyAll(f, schedule[0]);
      if g.ended then g else FlagsAfter(g, schedule[1..])
  }


  /** The loop ends, in the schedule given, exactly when the worker was
      already stopped or a stop arrives. */
  lemma {:induction false} LoopEnds(f: Flags, schedule: seq<seq<Command>>)
    ensures FlagsAfter(f, schedule).ended <==> f.ended || exists t :: 0 <= t < |schedule| && Stop in schedule[t]
    decreases |schedule|
  {
    if schedule != [] {
      var g := ApplyAll(f, schedule[0]);
      EndIsSticky(f, schedule[0]);
      if !g.ended {
        LoopEnds(g, schedule[1..]);
        if exists t :: 0 <= t < |schedule| && Stop in schedule[t] {
          var t :| 0 <= t < |schedule| && Stop in schedule[t];
          assert t > 0 && Stop in schedule[1..][t - 1];
        }
        if exists t :: 0 <= t < |schedule| - 1 && Stop in schedule[1..][t] {
          var t :| 0 <= t < |schedule| - 1 && Stop in schedule[1..][t];
          assert Stop in schedule[t + 1];
        }
      }
    }
  }

  /** No write follows a stop: when a stop arrives before turn `t`, the loop
      writes what it wrote in the turns before `t` and nothing else. */
  lemma {:induction false} StopEndsWrites(c: Cycle, f: Flags, schedule: seq<seq<Command>>, t: nat)
    requires t < |schedule| && Stop in schedule[t]
    ensures CycleTrace(c, f, schedule) == CycleTrace(c, f, schedule[..t])
    decreases t
  {
    var g := ApplyAll(f, schedule[0]);
    EndIsSticky(f, schedule[0]);
    if t > 0 && !g.ended {
      assert schedule[..t][1..] == schedule[1..][..t - 1];
      StopEndsWrites(c, g, schedule[1..], t - 1);
    }
  }

  /** The loop writes only the pin's register, alternately the toggled byte
      and the snapshot, and stops after a whole turn. */
  lemma {:induction false} CycleTraceAlternates(c: Cycle, f: Flags, schedule: seq<seq<Command>>)
    ensures var tr := CycleTrace(c, f, schedule);
            |tr| % 2 == 0 &&
            forall i :: 0 <= i < |tr| ==> tr[i] == Written(c.register, if i % 2 == 0 then c.toggled else c.snapshot)
    decreases |schedule|
  {
    if schedule != [] {
      var g := ApplyAll(f, schedule[0]);
      if !g.ended {
        var head := if g.paused then [] else Turn(c);
        var rest := CycleTrace(c, g, schedule[1..]);
        CycleTraceAlternates(c, g, schedule[1..]);
        assert CycleTrace(c, f, schedule) == head + rest;
        forall i | |head| <= i < |head| + |rest|
          ensures (head + rest)[i] == Written(c.register, if i % 2 == 0 then c.toggled else c.snapshot)
        {
          assert (head + rest)[i] == rest[i - |head|];
          assert (i - |head|) % 2 == i % 2;
        }
      }
    }
  }

  /** A turn leaves the snapshot in the pin's register. */
  lemma TurnReplayed(c: Cycle, regs: map<nat, byte>)
    ensures Replayed(regs, Turn(c)) == regs[c.register := c.snapshot]
  {
    var first := Turn(c)[..1];
    assert first[..0] == [] && first == [Written(c.register, c.toggled)];
    assert Replayed(regs, first) == regs[c.register := c.toggled];
  }

  /** The loop leaves the register as it found it: the snapshot it took. */
  lemma {:induction false} CycleRestores(c: Cycle, f: Flags, schedule: seq<seq<Command>>, regs: map<nat, byte>)
    requires c.register in regs && regs[c.register] == c.snapshot
    ensures Replayed(regs, CycleTrace(c, f, schedule)) == regs
    decreases |schedule|
  {
    if schedule != [] {
      var g := ApplyAll(f, schedule[0]);
      if !g.ended {
        var head := if g.paused then [] else Turn(c);
        var rest := CycleTrace(c, g, schedule[1..]);
        ReplayedAppend(regs, head, rest);
        assert CycleTrace(c, f, schedule) == head + rest;
        if !g.paused {
          TurnReplayed(c, regs);
          assert regs[c.register := c.snapshot] == regs;
        }
        CycleRestores(c, g, schedule[1..], regs);
      }
    }
  }

  // ---------------------------------------------------------------------
  // Results of the owner's calls

  /** The exceptions the engine raises. */
  datatype Error =
    | AttributeError(name: string)  // an attribute that was never assigned
    | ValueError(message: string)   // a value out of range
    | PinError(message: string)     // a plain `Exception` about the pin

  datatype Status = Done | Raised(error: Error)

  // ---------------------------------------------------------------------
  // The worker

  /** The attributes a worker of bitbang_pwm.py has once constructed: the
      ones its class declares, all of which its constructor assigns.
      (gpioport_pwm.py also declares a `pwm_gpioport`, which its `runCycle`
      never reads through `self`.) */
  function WorkerAttributes(): set<string> {
    {"gpioport", "gpiopin", "dutycycle", "cycletime", "_end_cycle", "_pause_cycle", "_pwm_thread"}
  }

  class PWMCycle {
    const port: Port
    const pin: Pin
    const dutyCycle: real
    const cycleTime: real
    var endCycle: bool
    var pauseCycle: bool

    /** The names `self.<name>` finds on this worker. */
    const attributes: set<string>

    /** A new worker, both flags clear. (Its thread is not modelled: whoever
        stands for the thread calls `RunCycle`.) */
    constructor (port: Port, pin: Pin, dutyCycle: real, cycleTime: real)
      ensures this.port == port && this.pin == pin
      ensures this.dutyCycle == dutyCycle && this.cycleTime == cycleTime
      ensures State() == Flags(false, false)
      ensures attributes == WorkerAttributes()
    {
      this.port := port;
      this.pin := pin;
      this.dutyCycle := dutyCycle;
      this.cycleTime := cycleTime;
      endCycle := false;
      pauseCycle := false;
      attributes := WorkerAttributes();
    }

    /** `self.<name>`: found when the worker has the attribute, otherwise an
        AttributeError naming it. */
    function Lookup(name: string): (s: Status)
      ensures s == Done <==> name in attributes
      ensures s != Done ==> s == Raised(AttributeError(name))
    {
      if name in attributes then Done else Raised(AttributeError(name))
    }

    function State(): Flags
      reads this
    {
      Flags(endCycle, pauseCycle)
    }

    method StopCycle()
      modifies this
      ensures State() == Apply(old(State()), Stop)
    {
      endCycle := true;
    }

    method PauseCycle()
      modifies this
      ensures State() == Apply(old(State()), Pause)
    {
      pauseCycle := true;
    }

    method UnpauseCycle()
      modifies this
      ensures State() == Apply(old(State()), Unpause)
    {
      pauseCycle := false;
    }

    method IsStopped() returns (r: bool)
      ensures r == State().ended
    {
      r := endCycle;
    }

    method IsPaused() returns (r: bool)
      ensures r == State().paused
    {
      r := pauseCycle;
    }

    /** The part of `runCycle` before its loop: read the pin's register and
        flip the pin's bit in a copy. */
    method Begin() returns (c: Cycle)
      requires pin.register in port.regs
      ensures c == Setup(pin, dutyCycle, cycleTime, port.regs[pin.register])
    {
      var portRegister := pin.register;
      var bitIndex := pin.bitIndex;
      var onTime := cycleTime * dutyCycle;
      var offTime := cycleTime - onTime;
      var portRegisterByte := port.Read(portRegister);
      var bitMask: byte := 1 << bitIndex;
      var byteResult := bitMask ^ portRegisterByte;
      c := Cycle(portRegister, bitIndex, onTime, offTime, portRegisterByte, byteResult);
    }

    /** The two writes of a turn: the toggled byte, then the snapshot. (The
        busy waits between them are not modelled.) */
    method WriteTurn(c: Cycle)
      modifies port
      ensures port.trace == old(port.trace) + Turn(c)
      ensures port.regs == old(port.regs)[c.register := c.snapshot]
      ensures port.sensed == old(port.sensed)
    {
      port.Write(c.register, c.toggled);
      port.Write(c.register, c.snapshot);
    }

    /** One turn of the loop of `runCycle`: the owner's commands `cmds`
        arrive, then the worker reads its flags; it leaves when the end flag
        is set, writes nothing while paused, and otherwise writes a turn. */
    method LoopTurn(c: Cycle, cmds: seq<Command>) returns (ended: bool)
      requires c.register in port.regs && port.regs[c.register] == c.snapshot
      modifies this, port
      ensures State() == ApplyAll(old(State()), cmds)
      ensures ended == State().ended
      ensures port.trace == old(port.trace) + TurnEvents(c, State())
      ensures port.regs == old(port.regs)
      ensures port.sensed == old(port.sensed)
    {
      var f := ApplyAll(State(), cmds);
      endCycle, pauseCycle := f.ended, f.paused;
      ended := endCycle;
      if !endCycle && !pauseCycle {
        WriteTurn(c);
      }
    }

    /** The loop of `runCycle` under `schedule`. */
    method CycleLoop(c: Cycle, schedule: seq<seq<Command>>)
      requires c.register in port.regs && port.regs[c.register] == c.snapshot
      modifies this, port
      ensures port.trace == old(port.trace) + CycleTrace(c, old(State()), schedule)
      ensures port.regs == old(port.regs)
      ensures port.sensed == old(port.sensed)
      ensures State() == FlagsAfter(old(State()), schedule)
    {
      ghost var f0 := State();
      ghost var done: seq<Event> := [];
      var rest := schedule;
      while rest != []
        invariant port.trace == old(port.trace) + done
        invariant port.regs == old(port.regs)
        invariant port.sensed == old(port.sensed)
        invariant CycleTrace(c, f0, schedule) == done + CycleTrace(c, State(), rest)
        invariant FlagsAfter(f0, schedule) == FlagsAfter(State(), rest)
        decreases |rest|
      {
        var ended := LoopTurn(c, rest[0]);
        if ended {
          assert done + [] == done;
          return;
        }
        done := done + TurnEvents(c, State());
        rest := rest[1..];
      }
      assert done + [] == done;
    }

    /** `runCycle` of gpioport_pwm.py: the setup, then the loop. When the loop
        is done the pin's register holds again what it held at the start. */
    method RunCycle(schedule: seq<seq<Command>>) returns (c: Cycle)
      requires pin.register in port.regs
      modifies this, port
      ensures c == Setup(pin, dutyCycle, cycleTime, old(port.regs)[pin.register])
      ensures port.trace == old(port.trace) + CycleTrace(c, old(State()), schedule)
      ensures port.regs == old(port.regs)
      ensures port.sensed == old(port.sensed)
      ensures State() == FlagsAfter(old(State()), schedule)
    {
      c := Begin();
      CycleLoop(c, schedule);
    }

    /** `runCycle` of bitbang_pwm.py: the same setup and loop, but it reads
        and writes the register through `self.pwm_gpioport`. The lookup comes
        before the first port call; when it fails the thread dies with the
        AttributeError, having written nothing. */
    method RunCycleAsInBitbangPwm(schedule: seq<seq<Command>>) returns (s: Status)
      requires pin.register in port.regs
      modifies this, port
      ensures s == Lookup("pwm_gpioport")
      ensures s != Done ==> port.State() == old(port.State()) && State() == old(State())
      ensures s == Done ==>
                var c := Setup(pin, dutyCycle, cycleTime, old(port.regs)[pin.register]);
                port.trace == old(port.trace) + CycleTrace(c, old(State()), schedule) &&
                port.regs == old(port.regs) && port.sensed == old(port.sensed) &&
                State() == FlagsAfter(old(State()), schedule)
    {
      var portRegister := pin.register;
      var bitIndex := pin.bitIndex;
      var onTime := cycleTime * dutyCycle;
      var offTime := cycleTime - onTime;
      s := Lookup("pwm_gpioport");
      if s != Done {
        return;
      }
      var c := Begin();
      CycleLoop(c, schedule);
    }
  }
}
