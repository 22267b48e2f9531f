/** The oven controller as the object it is in src/core/StateMachine.cpp: every
    C++ field is a field here, every command and update a method that changes
    them statement by statement. Each method is proved to take the object from
    `old(Snapshot())` to the machine the pure function of the same name in
    ControlSpec computes, so every property proved in ControlProperties holds
    of the object too. The seven relays are one `relays` field holding their
    seven levels; sensor reads and the clock become method parameters. */
module Control {
  import opened Wrappers
  import opened Events
  import ControlSpec

  class StateMachine {
    var p: Params
    var st: State
    var mode: OperatingMode
    var fault: bool
    var doorOpen: bool
    var lastAir: Option<real>
    var lastPart: Option<real>
    var timerRunning: bool
    var cureEnds: int
    var partDetected: bool
    var baseline: Option<real>
    var autoTarget: real
    var autoPartAtTemp: bool
    var autoCureComplete: bool
    var relays: ControlSpec.Relays

    /** The object's fields as a model machine. */
    function Snapshot(): ControlSpec.Machine
      reads this
    {
      ControlSpec.Machine(p, st, mode, ControlSpec.Inputs(fault, doorOpen),
        ControlSpec.Readings(lastAir, lastPart), ControlSpec.Timer(timerRunning, cureEnds),
        ControlSpec.Detector(partDetected, baseline),
        ControlSpec.AutoState(autoTarget, autoPartAtTemp, autoCureComplete), relays)
    }

    /** Default field values, then `enter(Idle)`; `initial` is the relays'
        levels before construction. */
    constructor (params: Params, initial: ControlSpec.Relays)
      ensures Snapshot() == ControlSpec.Initial(params, initial)
    {
      p := params;
      st := Idle;
      mode := Manual;
      fault := false;
      doorOpen := false;
      lastAir := None;
      lastPart := None;
      timerRunning := false;
      cureEnds := 0;
      partDetected := false;
      baseline := None;
      autoTarget := ControlSpec.InitialAutoTarget;
      autoPartAtTemp := false;
      autoCureComplete := false;
      relays := initial;
      new;
      Enter(Idle);
    }

    /** `enter(s)`: each branch of the C++ switch, with its `st_ = s`, is one method below. */
    method Enter(s: State)
      modifies this
      ensures Snapshot() == ControlSpec.Enter(old(Snapshot()), s)
    {
      match s
      case Idle => IdleEntry();
      case Warming => WarmingEntry();
      case Ready => ReadyEntry();
      case Curing => CuringEntry();
      case Shutdown => ShutdownEntry();
      case Fault => FaultEntry();
      case AutoCureComplete => CompleteEntry();
    }

    method IdleEntry()
      modifies this
      ensures Snapshot() == ControlSpec.Enter(old(Snapshot()), Idle)
    {
      st := Idle;
      timerRunning := false;
      partDetected := false;
      relays := relays.(green := false, red := false, amber := false, buzzer := false, contactor := false);
      if mode == Auto {
        autoPartAtTemp := false;
        autoCureComplete := false;
      }
    }

    method WarmingEntry()
      modifies this
      ensures Snapshot() == ControlSpec.Enter(old(Snapshot()), Warming)
    {
      st := Warming;
      relays := relays.(fan := true, fan2 := true, contactor := true, amber := true,
                        green := false, red := false, buzzer := false);
    }

    method ReadyEntry()
      modifies this
      ensures Snapshot() == ControlSpec.Enter(old(Snapshot()), Ready)
    {
      st := Ready;
      relays := relays.(contactor := true, fan := true, fan2 := true,
                        amber := true, green := false, red := false, buzzer := false);
      partDetected := false;
      baseline := lastPart;
    }

    method CuringEntry()
      modifies this
      ensures Snapshot() == ControlSpec.Enter(old(Snapshot()), Curing)
    {
      st := Curing;
      relays := relays.(contactor := true, fan2 := true, fan := true,
                        amber := true, green := true, red := false, buzzer := false);
    }

    method ShutdownEntry()
      modifies this
      ensures Snapshot() == ControlSpec.Enter(old(Snapshot()), Shutdown)
    {
      st := Shutdown;
      relays := relays.(contactor := false, fan2 := false, fan := false,
                        amber := true, green := true, red := true, buzzer := true);
      timerRunning := false;
    }

    method FaultEntry()
      modifies this
      ensures Snapshot() == ControlSpec.Enter(old(Snapshot()), Fault)
    {
      st := Fault;
      relays := relays.(contactor := false, fan2 := true, fan := true,
                        red := true, amber := false, green := false, buzzer := true);
      timerRunning := false;
    }

    method CompleteEntry()
      modifies this
      ensures Snapshot() == ControlSpec.Enter(old(Snapshot()), AutoCureComplete)
    {
      st := AutoCureComplete;
      relays := relays.(contactor := false, fan2 := true, fan := true,
                        green := true, red := false, amber := false, buzzer := true);
      timerRunning := false;
      autoCureComplete := true;
    }

    // -------------------------------------------------------------------------
    // Manual mode commands

    method Start()
      modifies this
      ensures Snapshot() == ControlSpec.Start(old(Snapshot()))
    {
      if st == Idle {
        Enter(Warming);
      }
    }

    method Stop()
      modifies this
      ensures Snapshot() == ControlSpec.Stop(old(Snapshot()))
    {
      Enter(Shutdown);
    }

    method ClearFault()
      modifies this
      ensures Snapshot() == ControlSpec.ClearFault(old(Snapshot()))
    {
      if st == Fault && !fault {
        Enter(Idle);
      }
    }

    /** `command_enterIdle` … `command_enterFault`, with the target state as a parameter. */
    method ManualEnter(s: State)
      modifies this
      ensures Snapshot() == ControlSpec.ManualEnter(old(Snapshot()), s)
      ensures !IsAutoMode()
    {
      mode := Manual;
      Enter(s);
    }

    method EnterIdle()
      modifies this
      ensures Snapshot() == ControlSpec.ManualEnter(old(Snapshot()), Idle)
    {
      ManualEnter(Idle);
    }

    method EnterWarming()
      modifies this
      ensures Snapshot() == ControlSpec.ManualEnter(old(Snapshot()), Warming)
    {
      ManualEnter(Warming);
    }

    method EnterReady()
      modifies this
      ensures Snapshot() == ControlSpec.ManualEnter(old(Snapshot()), Ready)
    {
      ManualEnter(Ready);
    }

    method EnterCuring()
      modifies this
      ensures Snapshot() == ControlSpec.ManualEnter(old(Snapshot()), Curing)
    {
      ManualEnter(Curing);
    }

    method EnterShutdown()
      modifies this
      ensures Snapshot() == ControlSpec.ManualEnter(old(Snapshot()), Shutdown)
    {
      ManualEnter(Shutdown);
    }

    method EnterFault()
      modifies this
      ensures Snapshot() == ControlSpec.ManualEnter(old(Snapshot()), Fault)
    {
      ManualEnter(Fault);
    }

    // -------------------------------------------------------------------------
    // Auto mode commands

    method StartAutoMode(targetTemp: real)
      modifies this
      ensures Snapshot() == ControlSpec.StartAutoMode(old(Snapshot()), targetTemp)
      ensures IsAutoMode()
    {
      mode := Auto;
      autoTarget := targetTemp;
      autoPartAtTemp := false;
      autoCureComplete := false;
      partDetected := false;
      p := p.(airTarget := targetTemp, partTarget := targetTemp);
      ghost var m0 := old(Snapshot());
      assert Snapshot() == m0.(mode := Auto, auto := ControlSpec.AutoState(targetTemp, false, false),
                               det := m0.det.(latched := false),
                               p := m0.p.(airTarget := targetTemp, partTarget := targetTemp));
      Enter(Warming);
    }

    method CancelAutoMode()
      modifies this
      ensures Snapshot() == ControlSpec.CancelAutoMode(old(Snapshot()))
      ensures !IsAutoMode()
    {
      mode := Manual;
      autoPartAtTemp := false;
      autoCureComplete := false;
      Enter(Idle);
    }

    method AcknowledgeAutoCureComplete()
      modifies this
      ensures Snapshot() == ControlSpec.AcknowledgeAutoCureComplete(old(Snapshot()))
    {
      if st == AutoCureComplete {
        autoCureComplete := false;
        Enter(Idle);
      }
    }

    // -------------------------------------------------------------------------
    // Inputs

    method SetFault(f: bool)
      modifies this
      ensures Snapshot() == ControlSpec.SetFault(old(Snapshot()), f)
    {
      fault := f;
    }

    method SetDoorOpen(open: bool)
      modifies this
      ensures Snapshot() == ControlSpec.SetDoorOpen(old(Snapshot()), open)
    {
      doorOpen := open;
    }

    // -------------------------------------------------------------------------
    // Status

    /** `part_c()`: the IR reading once a part is detected, NaN before. */
    function PartC(): (r: Option<real>)
      reads this
      ensures r.Some? <==> partDetected && lastPart.Some?
    {
      ControlSpec.PartC(Snapshot())
    }

    /** `seconds_left()`, with the clock reading as a parameter. */
    function SecondsLeft(now: int): (r: int)
      reads this
      ensures r >= 0 && (r == 0 <==> !timerRunning || cureEnds <= now)
    {
      ControlSpec.SecondsLeft(Snapshot(), now)
    }

    /** `is_auto_mode()`. */
    function IsAutoMode(): bool
      reads this
    {
      ControlSpec.IsAutoMode(Snapshot())
    }

    // -------------------------------------------------------------------------
    // Tick

    /** `tick(now)`; `air` and `part` are what the two sensors read. */
    method Tick(air: Option<real>, part: Option<real>, now: int)
      modifies this
      ensures Snapshot() == ControlSpec.Tick(old(Snapshot()), ControlSpec.Sample(air, part, now))
    {
      lastAir := air;
      lastPart := part;
      if air.None? || part.None? || fault {
        Enter(Fault);
        return;
      }
      UpdatePartDetection();
      if mode == Auto {
        match st
        case Idle => UpdateIdle();
        case Warming => UpdateAutoWarming();
        case Ready => UpdateAutoReady();
        case Curing => UpdateAutoCuring(now);
        case Shutdown => UpdateShutdown();
        case Fault =>
        case AutoCureComplete => UpdateAutoCureComplete();
      } else {
        match st
        case Idle => UpdateIdle();
        case Warming => UpdateWarming();
        case Ready => UpdateReady();
        case Curing => UpdateCuring(now);
        case Shutdown => UpdateShutdown();
        case Fault =>
        case AutoCureComplete =>
      }
    }

    method UpdateIdle()
      modifies this
      ensures Snapshot() == ControlSpec.UpdateIdle(old(Snapshot()))
    {
      if ControlSpec.Above(lastAir, ControlSpec.IdleFanAirC) {
        relays := relays.(fan := true, fan2 := true);
      } else {
        relays := relays.(fan := false, fan2 := false);
      }
      relays := relays.(contactor := false);
    }

    method UpdateWarming()
      modifies this
      ensures Snapshot() == ControlSpec.UpdateWarming(old(Snapshot()))
    {
      if ControlSpec.Below(lastAir, p.airTarget - p.airHysteresis) {
        relays := relays.(fan2 := true);
      }
      if ControlSpec.Above(lastAir, p.airTarget + p.airHysteresis) {
        relays := relays.(fan2 := false);
      }
      if ControlSpec.AtLeast(lastAir, p.airTarget) {
        Enter(Ready);
      }
    }

    method UpdateReady()
      modifies this
      ensures Snapshot() == ControlSpec.UpdateReady(old(Snapshot()))
    {
      if partDetected {
        Enter(Curing);
      }
    }

    method UpdateCuring(now: int)
      modifies this
      ensures Snapshot() == ControlSpec.UpdateCuring(old(Snapshot()), now)
    {
      var pc := PartC();
      var partHot := ControlSpec.AtLeast(pc, p.partTarget);
      if partHot {
        timerRunning := true;
        cureEnds := now + p.dwellSeconds;
      }
      if timerRunning && now >= cureEnds {
        Enter(Idle);
      }
    }

    method UpdateShutdown()
      modifies this
      ensures Snapshot() == ControlSpec.UpdateShutdown(old(Snapshot()))
    {
      relays := relays.(fan2 := false, fan := false);
    }

    method UpdateAutoWarming()
      modifies this
      ensures Snapshot() == ControlSpec.UpdateAutoWarming(old(Snapshot()))
    {
      if ControlSpec.AtLeast(lastAir, p.airTarget) {
        Enter(Ready);
      }
    }

    method UpdateAutoReady()
      modifies this
      ensures Snapshot() == ControlSpec.UpdateAutoReady(old(Snapshot()))
    {
      if partDetected {
        Enter(Curing);
        timerRunning := false;
        autoPartAtTemp := false;
      }
    }

    method UpdateAutoCuring(now: int)
      modifies this
      ensures Snapshot() == ControlSpec.UpdateAutoCuring(old(Snapshot()), now)
    {
      var partInRange := ControlSpec.InTolerance(lastPart, p.partTarget, p.autoTolerance);
      if partInRange {
        if !timerRunning {
          timerRunning := true;
          cureEnds := now + p.autoCureDurationSeconds;
          autoPartAtTemp := true;
        }
        if now >= cureEnds {
          timerRunning := false;
          Enter(AutoCureComplete);
        }
      } else {
        if timerRunning {
          timerRunning := false;
          autoPartAtTemp := false;
        }
      }
    }

    method UpdateAutoCureComplete()
      modifies this
      ensures Snapshot() == ControlSpec.UpdateAutoCureComplete(old(Snapshot()))
    {
      relays := relays.(fan := true, fan2 := true);
    }

    /** `update_part_detection()`. */
    method UpdatePartDetection()
      modifies this
      ensures Snapshot() == ControlSpec.DetectPart(old(Snapshot()))
    {
      if st != Ready || partDetected {
        return;
      }
      if baseline.None? {
        baseline := lastPart;
      }
      baseline := if baseline.Some? && lastPart.Some?
                  then Some(ControlSpec.Blend(baseline.value, lastPart.value))
                  else None;
      var wallHotEnough := ControlSpec.AtLeast(baseline, p.partMinValid);
      var bigDrop := baseline.Some? && lastPart.Some? && baseline.value - lastPart.value >= p.irDropDelta;
      if wallHotEnough && bigDrop {
        partDetected := true;
      }
    }
  }
}
