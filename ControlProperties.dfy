/** What the oven controller promises, proved about the pure model in ControlSpec. */
module ControlProperties {
  import opened Wrappers
  import opened Events
  import opened ControlSpec

  predicate ValidSample(s: Sample) { s.air.Some? && s.part.Some? }

  predicate AllValid(rs: seq<Sample>) {
    forall i :: 0 <= i < |rs| ==> ValidSample(rs[i])
  }

  // ---------------------------------------------------------------------------
  // Construction and status

  /** A fresh machine is Idle and Manual, the timer is stopped, nothing is
      detected, both readings and the baseline are NaN, and the five non-fan
      outputs are off. */
  lemma FreshMachine(p: Params, initial: Relays)
    ensures var m := Initial(p, initial);
      && m.st == Idle && m.mode == Manual && m.inputs == Inputs(false, false)
      && m.readings == Readings(None, None) && !m.timer.running
      && m.det == Detector(false, None)
      && m.auto == AutoState(200.0, false, false)
      && m.p == p && BaselineAlpha == 0.02
      && m.relays == initial.(contactor := false, green := false, red := false, amber := false, buzzer := false)
      && Inv(m)
  {
  }

  /** What no state entry, update or tick changes: the parameters, the mode,
      the fault and door inputs and the automatic-mode target. */
  predicate SameSetup(a: Machine, b: Machine) {
    a.p == b.p && a.mode == b.mode && a.inputs == b.inputs && a.auto.target == b.auto.target
  }

  /** `SameSetup` and the same cached readings. */
  predicate SameSetupAndReadings(r: Machine, m: Machine) {
    SameSetup(r, m) && r.readings == m.readings
  }

  lemma EnterFrame(m: Machine, s: State)
    ensures SameSetupAndReadings(Enter(m, s), m)
  {
  }

  lemma DispatchFrame(m: Machine, now: int)
    ensures SameSetupAndReadings(Dispatch(m, now), m)
  {
    if m.mode == Auto {
      match m.st
      case Idle =>
      case Warming =>
      case Ready =>
      case Curing =>
      case Shutdown =>
      case Fault =>
      case AutoCureComplete =>
    } else {
      match m.st
      case Idle =>
      case Warming =>
      case Ready =>
      case Curing =>
      case Shutdown =>
      case Fault =>
      case AutoCureComplete =>
    }
  }

  /** A tick never changes the parameters, the mode, the fault and door inputs
      or the automatic-mode target, and `air_c()`/`ir_c()` then report exactly
      the readings it stored. */
  lemma TickKeepsConfiguration(m: Machine, s: Sample)
    ensures var r := Tick(m, s);
      r.readings == Readings(s.air, s.part) && SameSetup(r, m)
  {
    var m1 := m.(readings := Readings(s.air, s.part));
    if s.air.None? || s.part.None? || m.inputs.fault {
      EnterFrame(m1, Fault);
    } else {
      DispatchFrame(DetectPart(m1), s.now);
    }
  }

  /** `setFault` only stores the flag; the next tick then forces Fault. */
  lemma SetFaultTakesEffectOnTick(m: Machine, s: Sample)
    ensures SetFault(m, true).inputs.fault
    ensures SetFault(m, true) == m.(inputs := Inputs(true, m.inputs.doorOpen))
    ensures Tick(SetFault(m, true), s).st == Fault
    ensures ClearFault(SetFault(m, true)) == SetFault(m, true)
  {
  }

  /** The door input is stored and read by nothing: a tick from a machine that
      differs only in the door input gives a machine that differs only in it. */
  lemma DoorNeverMatters(m: Machine, s: Sample, open: bool)
    ensures Tick(SetDoorOpen(m, open), s) == SetDoorOpen(Tick(m, s), open)
  {
    var m1 := m.(readings := Readings(s.air, s.part));
    if !(s.air.None? || s.part.None? || m.inputs.fault) {
      DetectorIgnoresDoor(m1, open);
      DispatchIgnoresDoor(DetectPart(m1), s.now, open);
    }
  }

  lemma DetectorIgnoresDoor(m: Machine, open: bool)
    ensures DetectPart(SetDoorOpen(m, open)) == SetDoorOpen(DetectPart(m), open)
  {
  }

  lemma DispatchIgnoresDoor(m: Machine, now: int, open: bool)
    ensures Dispatch(SetDoorOpen(m, open), now) == SetDoorOpen(Dispatch(m, now), open)
  {
    if m.mode == Auto {
      match m.st
      case Idle =>
      case Warming =>
      case Ready =>
      case Curing =>
      case Shutdown =>
      case Fault =>
      case AutoCureComplete =>
    } else {
      match m.st
      case Idle =>
      case Warming =>
      case Ready =>
      case Curing =>
      case Shutdown =>
      case Fault =>
      case AutoCureComplete =>
    }
  }

  // ---------------------------------------------------------------------------
  // Fault handling

  /** A NaN reading or the fault flag makes the tick enter Fault and nothing
      else: no detection and no state update, in either mode. */
  lemma FaultPreemptsTick(m: Machine, s: Sample)
    requires s.air.None? || s.part.None? || m.inputs.fault
    ensures Tick(m, s) == Enter(m.(readings := Readings(s.air, s.part)), Fault)
    ensures var r := Tick(m, s);
      && r.st == Fault && !r.timer.running
      && r.relays == Relays(false, true, true, false, true, false, true)
      && r.det == m.det && r.auto == m.auto && r.mode == m.mode
      && r.timer.ends == m.timer.ends
  {
  }

  /** Ticks in Fault change nothing but the stored readings, whatever they read. */
  lemma {:induction false} FaultIsSticky(m: Machine, rs: seq<Sample>)
    requires Inv(m) && m.st == Fault
    ensures Ticks(m, rs) == if rs == [] then m
                            else m.(readings := Readings(rs[|rs| - 1].air, rs[|rs| - 1].part))
  {
    if rs != [] {
      FaultIsSticky(m, rs[..|rs| - 1]);
    }
  }

  /** `command_clearFault` leaves Fault, only to Idle, and only with the fault flag down. */
  lemma ClearFaultOnlyWhenFlagDown(m: Machine)
    ensures ClearFault(m).st == Idle <==> (m.st == Fault && !m.inputs.fault) || (m.st == Idle)
    ensures !(m.st == Fault && !m.inputs.fault) ==> ClearFault(m) == m
    ensures m.st == Fault && !m.inputs.fault ==> ClearFault(m) == Enter(m, Idle)
  {
  }

  /** Ticks never leave Fault; only an operator action does, and clear-fault
      does so only with the flag down. */
  lemma LeavingFault(m: Machine, e: Input)
    requires m.st == Fault && Apply(m, e).st != Fault
    ensures || (e.ClearFaultPressed? && !m.inputs.fault)
            || e.StopPressed? || e.ManualOverride? || e.AutoStarted? || e.AutoCancelled?
  {
  }

  // ---------------------------------------------------------------------------
  // Commands

  /** `command_stop` enters Shutdown from any state: heat and fans off, every
      light and the buzzer on, timer stopped; nothing else changes. */
  lemma StopFromAnyState(m: Machine)
    ensures var r := Stop(m);
      && r.st == Shutdown && !r.timer.running
      && r.relays == Relays(contactor := false, fan := false, fan2 := false,
                            green := true, red := true, amber := true, buzzer := true)
      && r == m.(st := Shutdown, timer := m.timer.(running := false), relays := r.relays)
  {
  }

  /** `command_start` acts only from Idle, going to Warming. */
  lemma StartOnlyFromIdle(m: Machine)
    ensures m.st == Idle ==> Start(m).st == Warming && Start(m).relays.contactor
    ensures m.st != Idle ==> Start(m) == m
  {
  }

  /** Entering Fault: contactor off, both fans on, red and buzzer on, amber and
      green off, timer stopped, the detector and the auto flags untouched. */
  lemma FaultEntryPattern(m: Machine)
    ensures var r := Enter(m, Fault);
      && r.st == Fault && !r.timer.running && r.det == m.det && r.auto == m.auto
      && !r.relays.contactor && r.relays.fan && r.relays.fan2
      && r.relays.red && r.relays.buzzer && !r.relays.amber && !r.relays.green
  {
  }

  /** Every manual override forces Manual mode and enters the requested state. */
  lemma ManualOverrideForcesManual(m: Machine, s: State)
    ensures ManualEnter(m, s).mode == Manual && ManualEnter(m, s).st == s
    ensures ManualEnter(m, s).relays == EntryRelays(s, m.relays)
  {
  }

  /** Starting automatic mode sets Auto, both targets, clears the auto flags and
      the detector latch, and enters Warming. */
  lemma StartAutoModeEffect(m: Machine, t: real)
    ensures var r := StartAutoMode(m, t);
      && r.mode == Auto && r.st == Warming
      && r.p == m.p.(airTarget := t, partTarget := t)
      && r.auto == AutoState(t, false, false) && !r.det.latched
      && r.timer == m.timer
  {
  }

  /** Cancelling automatic mode always returns to Idle in Manual mode with the
      auto flags cleared, from any state. */
  lemma CancelAutoModeEffect(m: Machine)
    ensures var r := CancelAutoMode(m);
      && r.st == Idle && r.mode == Manual && !r.auto.partAtTemp && !r.auto.cureComplete
      && !r.det.latched && !r.timer.running
  {
  }

  /** The acknowledgement acts only in AutoCureComplete, going to Idle with the
      completion flag cleared. */
  lemma AcknowledgeOnlyFromComplete(m: Machine)
    ensures m.st == AutoCureComplete ==>
      AcknowledgeAutoCureComplete(m).st == Idle && !AcknowledgeAutoCureComplete(m).auto.cureComplete
    ensures m.st != AutoCureComplete ==> AcknowledgeAutoCureComplete(m) == m
  {
  }

  /** A manual override to Idle from AutoCureComplete sets Manual mode before
      entering Idle, so Idle's reset of the auto flags is skipped: the
      completion flag stays up and the at-temperature flag keeps its value. */
  lemma ManualIdleKeepsCompletionFlag(m: Machine)
    requires Inv(m) && m.st == AutoCureComplete
    ensures ManualEnter(m, Idle).st == Idle && ManualEnter(m, Idle).auto.cureComplete
    ensures ManualEnter(m, Idle).auto == m.auto
  {
  }

  // ---------------------------------------------------------------------------
  // Part-presence detector

  /** Outside Ready, or once latched, the detector leaves everything alone. */
  lemma DetectorInert(m: Machine)
    requires m.st != Ready || m.det.latched
    ensures DetectPart(m) == m
  {
  }

  /** In Ready before latching, with a valid raw reading: the baseline is seeded
      with the reading when NaN, then becomes 0.98·baseline + 0.02·raw, and the
      detector latches exactly when that baseline is at least the minimum valid
      wall temperature and lies at least the drop threshold above the reading.
      Nothing else changes. */
  lemma DetectorStep(m: Machine, raw: real)
    requires m.st == Ready && !m.det.latched && m.readings.part == Some(raw)
    ensures var b0 := if m.det.baseline.None? then raw else m.det.baseline.value;
      var b := 0.98 * b0 + 0.02 * raw;
      && DetectPart(m) == m.(det := DetectPart(m).det)
      && DetectPart(m).det.baseline == Some(b)
      && (DetectPart(m).det.latched <==> b >= m.p.partMinValid && b - raw >= m.p.irDropDelta)
  {
  }

  /** A blended baseline lies between the old baseline and the new reading. */
  lemma BlendBetween(b: real, raw: real)
    ensures b <= raw ==> b <= Blend(b, raw) <= raw
    ensures raw <= b ==> raw <= Blend(b, raw) <= b
  {
  }

  /** While the wall reads colder than the minimum valid temperature, no drop of
      any size latches detection: over any run of valid ticks in Ready from a
      cold or unset baseline, the machine stays in Ready, unlatched, with a cold
      baseline. */
  lemma {:induction false} ColdWallNeverLatches(m: Machine, rs: seq<Sample>)
    requires m.st == Ready && !m.det.latched && !m.inputs.fault
    requires m.det.baseline.None? || m.det.baseline.value < m.p.partMinValid
    requires AllValid(rs)
    requires forall i :: 0 <= i < |rs| ==> rs[i].part.value < m.p.partMinValid
    ensures var r := Ticks(m, rs);
      && r.st == Ready && !r.det.latched && !r.inputs.fault && r.p == m.p && r.mode == m.mode
      && (r.det.baseline.None? || r.det.baseline.value < m.p.partMinValid)
  {
    if rs != [] {
      var n := |rs| - 1;
      ColdWallNeverLatches(m, rs[..n]);
      var prev := Ticks(m, rs[..n]);
      var raw := rs[n].part.value;
      var m1 := prev.(readings := Readings(rs[n].air, rs[n].part));
      var b0 := if m1.det.baseline.None? then raw else m1.det.baseline.value;
      assert b0 < m.p.partMinValid;
      assert Blend(b0, raw) < m.p.partMinValid;
      assert DetectPart(m1).det == Detector(false, Some(Blend(b0, raw)));
    }
  }

  /** With the default thresholds, a hot-wall baseline of 130 and a single
      reading of 80 latch detection on that tick. */
  lemma HotWallDropLatches(m: Machine)
    requires m.st == Ready && !m.det.latched && m.det.baseline == Some(130.0) && m.readings.part == Some(80.0)
    requires m.p.partMinValid == 120.0 && m.p.irDropDelta == 40.0
    ensures DetectPart(m).det == Detector(true, Some(129.0))
  {
  }

  /** The latch is cleared only by entering Idle or Ready, or by starting
      automatic mode; ticks and every other command keep it. */
  lemma LatchClearedOnlyOnReentry(m: Machine, e: Input)
    requires m.det.latched && !Apply(m, e).det.latched
    ensures e.AutoStarted? || Apply(m, e).st == Idle || Apply(m, e).st == Ready
  {
  }

  /** The tick on which Warming reaches its target enters Ready without running
      the detector: the latch is clear and the baseline is this tick's reading. */
  lemma WarmingToReadyReseeds(m: Machine, s: Sample)
    requires m.st == Warming && !m.inputs.fault && ValidSample(s)
    requires s.air.value >= m.p.airTarget
    ensures var r := Tick(m, s);
      r.st == Ready && r.det == Detector(false, s.part)
  {
  }

  /** Both fans follow "air hotter than 80 °C" on every Idle tick, in either
      mode, and the heat stays off; the machine stays Idle. */
  lemma IdleFans(m: Machine, s: Sample)
    requires m.st == Idle && !m.inputs.fault && ValidSample(s)
    ensures var r := Tick(m, s);
      && r.st == Idle && !r.relays.contactor
      && r.relays.fan == (s.air.value > IdleFanAirC)
      && r.relays.fan2 == (s.air.value > IdleFanAirC)
  {
  }

  /** Ready with the latch set enters Curing on the next valid tick, in
      either mode, with the heat and both fans on. */
  lemma ReadyLatchedEntersCuring(m: Machine, s: Sample)
    requires m.st == Ready && m.det.latched && !m.inputs.fault && ValidSample(s)
    ensures var r := Tick(m, s);
      && r.st == Curing && r.mode == m.mode
      && r.relays.contactor && r.relays.fan && r.relays.fan2
  {
  }

  /** In automatic mode that move also stops the dwell timer and lowers the
      at-temperature flag, which is where automatic curing starts from. */
  lemma AutoReadyStartsCuringUntimed(m: Machine, s: Sample)
    requires m.st == Ready && m.mode == Auto && m.det.latched && !m.inputs.fault && ValidSample(s)
    ensures var r := Tick(m, s);
      && r.st == Curing && !r.timer.running && !r.auto.partAtTemp
      && r.auto.target == m.auto.target && r.auto.cureComplete == m.auto.cureComplete
  {
  }

  /** The tick on which the detector latches already moves Ready to Curing:
      detection runs before the state update within the same tick. */
  lemma LatchingTickEntersCuring(m: Machine, s: Sample)
    requires m.st == Ready && !m.det.latched && !m.inputs.fault && ValidSample(s)
    requires var raw := s.part.value;
      var b0 := if m.det.baseline.None? then raw else m.det.baseline.value;
      Drop(m.p, Blend(b0, raw), raw)
    ensures Tick(m, s).st == Curing && Tick(m, s).det.latched
    ensures m.mode == Auto ==> !Tick(m, s).timer.running && !Tick(m, s).auto.partAtTemp
  {
  }

  // ---------------------------------------------------------------------------
  // Manual mode

  /** Manual Warming below the target: fan2 turns on under target − hysteresis,
      off over target + hysteresis, and keeps its level in between. */
  lemma ManualWarmingHysteresis(m: Machine, s: Sample)
    requires m.st == Warming && m.mode == Manual && !m.inputs.fault && ValidSample(s)
    requires s.air.value < m.p.airTarget
    ensures var r := Tick(m, s);
      var t, h, a := m.p.airTarget, m.p.airHysteresis, s.air.value;
      && r.st == Warming
      && r.relays == m.relays.(fan2 := if a > t + h then false else if a < t - h then true else m.relays.fan2)
  {
  }

  /** With a non-negative hysteresis, the "fan2 off above target + hysteresis"
      branch is overridden on the same tick: the air is then above target, so
      Ready is entered and both fans are switched on. */
  lemma WarmingOffBranchOverridden(m: Machine, s: Sample)
    requires m.st == Warming && m.mode == Manual && !m.inputs.fault && ValidSample(s)
    requires m.p.airHysteresis >= 0.0 && s.air.value > m.p.airTarget + m.p.airHysteresis
    ensures Tick(m, s).st == Ready && Tick(m, s).relays.fan2
  {
  }

  /** Manual Curing: a part at target pushes the deadline to now + dwell on
      every tick; with a positive dwell it therefore never expires on such a tick. */
  lemma ManualCuringRefreshesDeadline(m: Machine, s: Sample)
    requires m.st == Curing && m.mode == Manual && !m.inputs.fault && ValidSample(s)
    requires m.det.latched && s.part.value >= m.p.partTarget && m.p.dwellSeconds > 0
    ensures var r := Tick(m, s);
      r.st == Curing && r.timer == Timer(true, s.now + m.p.dwellSeconds)
  {
  }

  /** Manual Curing ends, in Idle, exactly on a tick at or after the deadline
      with the timer running; with a positive dwell that tick always has the
      part below target (or undetected). */
  lemma ManualCureExpiry(m: Machine, s: Sample)
    requires m.st == Curing && m.mode == Manual && !m.inputs.fault && ValidSample(s)
    requires m.p.dwellSeconds > 0
    ensures var hot := m.det.latched && s.part.value >= m.p.partTarget;
      Tick(m, s).st == Idle <==> !hot && m.timer.running && s.now >= m.timer.ends
  {
  }

  // ---------------------------------------------------------------------------
  // Automatic mode

  /** One automatic Curing tick: in tolerance with the timer stopped starts it
      for the full duration and raises the at-temperature flag; in tolerance at
      or past the deadline completes; out of tolerance cancels the timer and
      the flag, keeping no progress. Mode, parameters and inputs stay. */
  lemma AutoCuringStep(m: Machine, s: Sample)
    requires m.st == Curing && m.mode == Auto && !m.inputs.fault && ValidSample(s)
    ensures var r := Tick(m, s);
      var inBand := InTolerance(s.part, m.p.partTarget, m.p.autoTolerance);
      var ends := if m.timer.running then m.timer.ends else s.now + m.p.autoCureDurationSeconds;
      && r.mode == Auto && r.p == m.p && r.inputs == m.inputs
      && (inBand && s.now < ends ==>
            r.st == Curing && r.timer == Timer(true, ends)
            && (!m.timer.running ==> r.auto.partAtTemp))
      && (inBand && s.now >= ends ==>
            r.st == AutoCureComplete && r.auto.cureComplete && !r.timer.running)
      && (!inBand ==>
            r.st == Curing && !r.timer.running && (m.timer.running ==> !r.auto.partAtTemp))
  {
  }

  /** Automatic completion is absorbing under ticks: AutoCureComplete with a
      valid reading stays AutoCureComplete, with mode, parameters and inputs kept. */
  lemma AutoCompleteStays(m: Machine, s: Sample)
    requires m.st == AutoCureComplete && m.mode == Auto && !m.inputs.fault && ValidSample(s)
    ensures var r := Tick(m, s);
      && r.st == AutoCureComplete && r.mode == Auto && r.p == m.p && r.inputs == m.inputs
      && r.relays.fan && r.relays.fan2
  {
  }

  /** Cancel, don't pause: a tick out of tolerance followed by a tick back in
      tolerance restarts the full cure duration from the second tick. */
  lemma AutoCancelRestartsFullDuration(m: Machine, out: Sample, back: Sample)
    requires m.st == Curing && m.mode == Auto && !m.inputs.fault && ValidSample(out) && ValidSample(back)
    requires !InTolerance(out.part, m.p.partTarget, m.p.autoTolerance)
    requires InTolerance(back.part, m.p.partTarget, m.p.autoTolerance)
    requires m.p.autoCureDurationSeconds > 0
    ensures var r := Tick(Tick(m, out), back);
      r.st == Curing && r.timer == Timer(true, back.now + m.p.autoCureDurationSeconds)
  {
    AutoCuringStep(m, out);
    AutoCuringStep(Tick(m, out), back);
  }

  predicate InBandFrom(p: Params, rs: seq<Sample>, lo: nat, hi: nat)
    requires lo <= hi <= |rs|
  {
    forall i :: lo <= i < hi ==> InTolerance(rs[i].part, p.partTarget, p.autoTolerance)
  }

  /** In-band runs of a prefix are in-band runs of the whole sequence. */
  lemma InBandOfPrefix(p: Params, rs: seq<Sample>, n: nat, lo: nat, hi: nat)
    requires lo <= hi <= n <= |rs| && InBandFrom(p, rs[..n], lo, hi)
    ensures InBandFrom(p, rs, lo, hi)
  {
    forall i | lo <= i < hi
      ensures InTolerance(rs[i].part, p.partTarget, p.autoTolerance)
    {
      assert rs[..n][i] == rs[i];
    }
  }

  /** Automatic curing completes only after the part has stayed within
      tolerance on every tick from some tick j up to the completing tick k,
      with at least the full cure duration between them; while the timer runs,
      its deadline is the full duration after such a tick j. */
  lemma {:induction false} AutoCureNeedsFullDuration(m: Machine, rs: seq<Sample>) returns (j: nat, k: nat)
    requires m.st == Curing && m.mode == Auto && !m.timer.running && !m.inputs.fault
    requires AllValid(rs)
    ensures var r := Ticks(m, rs);
      var d := m.p.autoCureDurationSeconds;
      && r.mode == Auto && r.p == m.p && r.inputs == m.inputs
      && (r.st == Curing || r.st == AutoCureComplete)
      && (r.st == Curing && r.timer.running ==>
            j < |rs| && r.timer.ends == rs[j].now + d && InBandFrom(m.p, rs, j, |rs|))
      && (r.st == AutoCureComplete ==>
            j <= k < |rs| && rs[k].now >= rs[j].now + d && InBandFrom(m.p, rs, j, k + 1))
  {
    if rs == [] {
      j, k := 0, 0;
    } else {
      var n := |rs| - 1;
      var pre := rs[..n];
      assert AllValid(pre) by {
        forall i | 0 <= i < n ensures ValidSample(pre[i]) { assert pre[i] == rs[i]; }
      }
      j, k := AutoCureNeedsFullDuration(m, pre);
      var prev := Ticks(m, pre);
      var s := rs[n];
      assert ValidSample(s);
      assert Ticks(m, rs) == Tick(prev, s);
      var inBand := InTolerance(s.part, m.p.partTarget, m.p.autoTolerance);
      if prev.st == Curing {
        AutoCuringStep(prev, s);
        if inBand {
          if prev.timer.running {
            InBandOfPrefix(m.p, rs, n, j, n);
            assert rs[j] == pre[j];
          } else {
            j := n;
          }
          assert InBandFrom(m.p, rs, j, n + 1);
        }
        k := n;
      } else {
        AutoCompleteStays(prev, s);
        InBandOfPrefix(m.p, rs, n, j, k + 1);
        assert rs[j] == pre[j] && rs[k] == pre[k];
      }
    }
  }

  /** The dwell countdown never increases as time passes. */
  lemma SecondsLeftMonotone(m: Machine, t1: int, t2: int)
    requires t1 <= t2
    ensures SecondsLeft(m, t2) <= SecondsLeft(m, t1)
  {
  }

  // ---------------------------------------------------------------------------
  // The invariant

  lemma TickKeepsInv(m: Machine, s: Sample)
    requires Inv(m)
    ensures Inv(Tick(m, s))
  {
    var m1 := m.(readings := Readings(s.air, s.part));
    if !(s.air.None? || s.part.None? || m.inputs.fault) {
      var m2 := DetectPart(m1);
      assert Inv(m2);
      if m.mode == Auto {
        match m.st
        case Idle =>
        case Warming =>
        case Ready =>
        case Curing =>
        case Shutdown =>
        case Fault =>
        case AutoCureComplete =>
      } else {
        match m.st
        case Idle =>
        case Warming =>
        case Ready =>
        case Curing =>
        case Shutdown =>
        case Fault =>
        case AutoCureComplete =>
      }
    }
  }

  /** Every operator command, input and tick keeps the invariant. */
  lemma ApplyKeepsInv(m: Machine, e: Input)
    requires Inv(m) && IsCommand(e)
    ensures Inv(Apply(m, e))
  {
    if e.Reading? {
      TickKeepsInv(m, e.sample);
    }
  }

  /** The invariant holds after every sequence of commands, inputs and ticks. */
  lemma {:induction false} RunKeepsInv(m: Machine, es: seq<Input>)
    requires Inv(m)
    requires forall i :: 0 <= i < |es| ==> IsCommand(es[i])
    ensures Inv(Run(m, es))
    decreases |es|
  {
    if es != [] {
      ApplyKeepsInv(m, es[0]);
      RunKeepsInv(Apply(m, es[0]), es[1..]);
    }
  }

  /** Heat is on only while Warming, Ready or Curing. */
  lemma HeatOnlyWhileHeating(m: Machine)
    requires Inv(m) && m.relays.contactor
    ensures m.st == Warming || m.st == Ready || m.st == Curing
  {
  }
}
