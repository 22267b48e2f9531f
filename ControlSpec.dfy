/** Pure model of the oven control state machine (src/core/StateMachine.cpp and
    src/core/StateMachine.h). A `Machine` value is a snapshot of every field of
    the C++ object; each operation is a function from the snapshot before the
    call to the snapshot after it. The class in Control.dfy is proved to follow
    these functions, and the lemmas below state what the controller promises. */
module ControlSpec {
  import opened Wrappers
  import opened Events

  /** Weight of a new sample in the part-baseline filter; the source never changes it. */
  const BaselineAlpha: real := 0.02

  /** Idle keeps both fans on while the air is hotter than this. */
  const IdleFanAirC: real := 80.0

  /** The initial automatic-mode target of a fresh machine. */
  const InitialAutoTarget: real := 200.0

  /** The seven relay outputs. */
  datatype Relays = Relays(
    contactor: bool, fan: bool, fan2: bool,
    green: bool, red: bool, amber: bool, buzzer: bool)

  /** The two operator/safety inputs the machine stores. */
  datatype Inputs = Inputs(fault: bool, doorOpen: bool)

  /** The readings cached by the last tick; `None` where the source holds NaN. */
  datatype Readings = Readings(air: Option<real>, part: Option<real>)

  /** The dwell timer: whether it runs and its deadline in whole seconds. */
  datatype Timer = Timer(running: bool, ends: int)

  /** The part-presence detector: its latch and its filtered baseline. */
  datatype Detector = Detector(latched: bool, baseline: Option<real>)

  /** The automatic-mode bookkeeping: target, part-at-temperature flag and
      completion flag. */
  datatype AutoState = AutoState(target: real, partAtTemp: bool, cureComplete: bool)

  /** Every field of the C++ state machine, grouped by what uses it. */
  datatype Machine = Machine(
    p: Params,
    st: State,
    mode: OperatingMode,
    inputs: Inputs,
    readings: Readings,
    timer: Timer,
    det: Detector,
    auto: AutoState,
    relays: Relays)

  /** One control tick's inputs: the two cached readings and the time. */
  datatype Sample = Sample(air: Option<real>, part: Option<real>, now: int)

  // ---------------------------------------------------------------------------
  // Comparisons as IEEE-754 performs them: every comparison with NaN is false.

  predicate Below(x: Option<real>, y: real) { x.Some? && x.value < y }
  predicate Above(x: Option<real>, y: real) { x.Some? && x.value > y }
  predicate AtLeast(x: Option<real>, y: real) { x.Some? && x.value >= y }

  function Abs(x: real): real { if x < 0.0 then -x else x }

  /** `|x - target| <= tol`, false for a NaN reading. */
  predicate InTolerance(x: Option<real>, target: real, tol: real) {
    x.Some? && Abs(x.value - target) <= tol
  }

  // ---------------------------------------------------------------------------
  // State entry

  /** The relay pattern that entering `s` writes. Entering Idle does not touch
      the two fans, so they keep their previous levels `prev`. */
  function EntryRelays(s: State, prev: Relays): Relays {
    match s
    case Idle => prev.(contactor := false, green := false, red := false, amber := false, buzzer := false)
    case Warming => Relays(contactor := true, fan := true, fan2 := true, green := false, red := false, amber := true, buzzer := false)
    case Ready => Relays(contactor := true, fan := true, fan2 := true, green := false, red := false, amber := true, buzzer := false)
    case Curing => Relays(contactor := true, fan := true, fan2 := true, green := true, red := false, amber := true, buzzer := false)
    case Shutdown => Relays(contactor := false, fan := false, fan2 := false, green := true, red := true, amber := true, buzzer := true)
    case Fault => Relays(contactor := false, fan := true, fan2 := true, green := false, red := true, amber := false, buzzer := true)
    case AutoCureComplete => Relays(contactor := false, fan := true, fan2 := true, green := true, red := false, amber := false, buzzer := true)
  }

  /** Entering Idle, Shutdown, Fault or AutoCureComplete stops the dwell timer;
      entering Warming, Ready or Curing leaves it as it was. */
  predicate StopsTimer(s: State) {
    s == Idle || s == Shutdown || s == Fault || s == AutoCureComplete
  }

  /** `enter(s)`: switch state, write the state's relays and reset its
      bookkeeping. Idle and Ready clear the detector latch, Ready reseeds the
      baseline from the last part reading, Idle clears the auto flags only in
      Auto mode, and AutoCureComplete raises the completion flag. */
  function Enter(m: Machine, s: State): Machine {
    m.(st := s,
       relays := EntryRelays(s, m.relays),
       timer := if StopsTimer(s) then m.timer.(running := false) else m.timer,
       det := if s == Ready then Detector(false, m.readings.part)
              else if s == Idle then m.det.(latched := false)
              else m.det,
       auto := if s == AutoCureComplete then m.auto.(cureComplete := true)
               else if s == Idle && m.mode == Auto then m.auto.(partAtTemp := false, cureComplete := false)
               else m.auto)
  }

  /** The machine the constructor builds: default field values, then `enter(Idle)`.
      `initial` is the relays' levels before construction. */
  function Initial(p: Params, initial: Relays): Machine {
    Enter(Machine(p, Idle, Manual, Inputs(false, false), Readings(None, None),
                  Timer(false, 0), Detector(false, None),
                  AutoState(InitialAutoTarget, false, false), initial), Idle)
  }

  // ---------------------------------------------------------------------------
  // Operator commands and inputs

  function Start(m: Machine): Machine {
    if m.st == Idle then Enter(m, Warming) else m
  }

  function Stop(m: Machine): Machine {
    Enter(m, Shutdown)
  }

  function ClearFault(m: Machine): Machine {
    if m.st == Fault && !m.inputs.fault then Enter(m, Idle) else m
  }

  /** `command_enterIdle` … `command_enterFault`: force Manual mode, then enter `s`. */
  function ManualEnter(m: Machine, s: State): Machine {
    Enter(m.(mode := Manual), s)
  }

  function StartAutoMode(m: Machine, target: real): Machine {
    Enter(m.(mode := Auto, auto := AutoState(target, false, false),
             det := m.det.(latched := false),
             p := m.p.(airTarget := target, partTarget := target)), Warming)
  }

  function CancelAutoMode(m: Machine): Machine {
    Enter(m.(mode := Manual, auto := m.auto.(partAtTemp := false, cureComplete := false)), Idle)
  }

  function AcknowledgeAutoCureComplete(m: Machine): Machine {
    if m.st == AutoCureComplete then Enter(m.(auto := m.auto.(cureComplete := false)), Idle) else m
  }

  function SetFault(m: Machine, f: bool): Machine { m.(inputs := m.inputs.(fault := f)) }

  function SetDoorOpen(m: Machine, open: bool): Machine { m.(inputs := m.inputs.(doorOpen := open)) }

  // ---------------------------------------------------------------------------
  // Status getters

  /** The logical part temperature: the IR reading once a part is detected, NaN before. */
  function PartC(m: Machine): (r: Option<real>)
    ensures r.Some? <==> m.det.latched && m.readings.part.Some?
    ensures r.Some? ==> r == m.readings.part
  {
    if m.det.latched then m.readings.part else None
  }

  function IsAutoMode(m: Machine): bool { m.mode == Auto }

  /** Whole seconds left on the dwell timer; 0 when it is stopped or expired. */
  function SecondsLeft(m: Machine, now: int): (r: int)
    ensures r >= 0
    ensures !m.timer.running ==> r == 0
    ensures m.timer.running && now < m.timer.ends ==> r == m.timer.ends - now
    ensures r == 0 <==> !m.timer.running || m.timer.ends <= now
  {
    if !m.timer.running then 0
    else if m.timer.ends - now > 0 then m.timer.ends - now
    else 0
  }

  // ---------------------------------------------------------------------------
  // Part-presence detector

  /** One step of the exponentially weighted baseline. */
  function Blend(baseline: real, raw: real): real {
    (1.0 - BaselineAlpha) * baseline + BaselineAlpha * raw
  }

  /** The latch condition: a hot enough wall and a big enough drop below it. */
  predicate Drop(p: Params, baseline: real, raw: real) {
    baseline >= p.partMinValid && baseline - raw >= p.irDropDelta
  }

  /** One detector step on an unlatched detector: seed a NaN baseline with the
      raw reading, blend, and latch on a big drop. NaN arithmetic yields a NaN
      baseline and no latch. */
  function DetectStep(d: Detector, raw: Option<real>, p: Params): Detector {
    var seeded := if d.baseline.None? then raw else d.baseline;
    if seeded.Some? && raw.Some? then
      var nb := Blend(seeded.value, raw.value);
      Detector(Drop(p, nb, raw.value), Some(nb))
    else Detector(false, None)
  }

  /** `update_part_detection`: only in Ready before latching. */
  function DetectPart(m: Machine): Machine {
    if m.st != Ready || m.det.latched then m
    else m.(det := DetectStep(m.det, m.readings.part, m.p))
  }

  // ---------------------------------------------------------------------------
  // Per-state updates

  function UpdateIdle(m: Machine): Machine {
    var hot := Above(m.readings.air, IdleFanAirC);
    m.(relays := m.relays.(fan := hot, fan2 := hot, contactor := false))
  }

  /** The fan2 level the Warming hysteresis control leaves. */
  function WarmingFan2(air: Option<real>, p: Params, fan2: bool): bool {
    var on := if Below(air, p.airTarget - p.airHysteresis) then true else fan2;
    if Above(air, p.airTarget + p.airHysteresis) then false else on
  }

  function UpdateWarming(m: Machine): Machine {
    var m1 := m.(relays := m.relays.(fan2 := WarmingFan2(m.readings.air, m.p, m.relays.fan2)));
    if AtLeast(m1.readings.air, m.p.airTarget) then Enter(m1, Ready) else m1
  }

  function UpdateReady(m: Machine): Machine {
    if m.det.latched then Enter(m, Curing) else m
  }

  function UpdateCuring(m: Machine, now: int): Machine {
    var m1 := if AtLeast(PartC(m), m.p.partTarget)
              then m.(timer := Timer(true, now + m.p.dwellSeconds))
              else m;
    if m1.timer.running && now >= m1.timer.ends then Enter(m1, Idle) else m1
  }

  function UpdateShutdown(m: Machine): Machine {
    m.(relays := m.relays.(fan2 := false, fan := false))
  }

  function UpdateAutoWarming(m: Machine): Machine {
    if AtLeast(m.readings.air, m.p.airTarget) then Enter(m, Ready) else m
  }

  function UpdateAutoReady(m: Machine): Machine {
    if m.det.latched then
      var m1 := Enter(m, Curing);
      m1.(timer := m1.timer.(running := false), auto := m1.auto.(partAtTemp := false))
    else m
  }

  function UpdateAutoCuring(m: Machine, now: int): Machine {
    if InTolerance(m.readings.part, m.p.partTarget, m.p.autoTolerance) then
      var m1 := if !m.timer.running
                then m.(timer := Timer(true, now + m.p.autoCureDurationSeconds),
                        auto := m.auto.(partAtTemp := true))
                else m;
      if now >= m1.timer.ends
      then Enter(m1.(timer := m1.timer.(running := false)), AutoCureComplete)
      else m1
    else if m.timer.running
    then m.(timer := m.timer.(running := false), auto := m.auto.(partAtTemp := false))
    else m
  }

  function UpdateAutoCureComplete(m: Machine): Machine {
    m.(relays := m.relays.(fan := true, fan2 := true))
  }

  /** The mode-specific dispatch at the end of `tick`. */
  function Dispatch(m: Machine, now: int): Machine {
    if m.mode == Auto then DispatchAuto(m, now) else DispatchManual(m, now)
  }

  function DispatchAuto(m: Machine, now: int): Machine {
    match m.st
    case Idle => UpdateIdle(m)
    case Warming => UpdateAutoWarming(m)
    case Ready => UpdateAutoReady(m)
    case Curing => UpdateAutoCuring(m, now)
    case Shutdown => UpdateShutdown(m)
    case Fault => m
    case AutoCureComplete => UpdateAutoCureComplete(m)
  }

  /** Manual mode has no handler for AutoCureComplete. */
  function DispatchManual(m: Machine, now: int): Machine {
    match m.st
    case Idle => UpdateIdle(m)
    case Warming => UpdateWarming(m)
    case Ready => UpdateReady(m)
    case Curing => UpdateCuring(m, now)
    case Shutdown => UpdateShutdown(m)
    case Fault => m
    case AutoCureComplete => m
  }

  /** `tick(now)`: store the readings; a NaN reading or the fault flag forces
      Fault and ends the tick; otherwise run the detector, then dispatch. */
  function Tick(m: Machine, s: Sample): Machine {
    var m1 := m.(readings := Readings(s.air, s.part));
    if s.air.None? || s.part.None? || m.inputs.fault then Enter(m1, Fault)
    else Dispatch(DetectPart(m1), s.now)
  }

  /** A sequence of ticks, the last sample applied last. */
  function Ticks(m: Machine, rs: seq<Sample>): Machine
    decreases |rs|
  {
    if rs == [] then m else Tick(Ticks(m, rs[..|rs| - 1]), rs[|rs| - 1])
  }

  // ---------------------------------------------------------------------------
  // Everything that can happen to the machine

  datatype Input =
    | Reading(sample: Sample)
    | StartPressed
    | StopPressed
    | ClearFaultPressed
    | ManualOverride(target: State)
    | AutoStarted(targetTemp: real)
    | AutoCancelled
    | CompletionAcknowledged
    | FaultInput(fault: bool)
    | DoorInput(open: bool)

  /** There is no manual command that enters AutoCureComplete. */
  predicate IsCommand(e: Input) {
    !(e.ManualOverride? && e.target == AutoCureComplete)
  }

  function Apply(m: Machine, e: Input): Machine {
    match e
    case Reading(s) => Tick(m, s)
    case StartPressed => Start(m)
    case StopPressed => Stop(m)
    case ClearFaultPressed => ClearFault(m)
    case ManualOverride(s) => ManualEnter(m, s)
    case AutoStarted(t) => StartAutoMode(m, t)
    case AutoCancelled => CancelAutoMode(m)
    case CompletionAcknowledged => AcknowledgeAutoCureComplete(m)
    case FaultInput(f) => SetFault(m, f)
    case DoorInput(o) => SetDoorOpen(m, o)
  }

  function Run(m: Machine, es: seq<Input>): Machine
    decreases |es|
  {
    if es == [] then m else Run(Apply(m, es[0]), es[1..])
  }

  // ---------------------------------------------------------------------------
  // Invariant

  /** The outputs each state holds while it is active. Idle only fixes the five
      non-fan outputs; Warming lets the hysteresis control move fan2. */
  predicate OutputsMatch(s: State, r: Relays) {
    match s
    case Idle => r == EntryRelays(Idle, r)
    case Warming => r.(fan2 := true) == EntryRelays(Warming, r)
    case _ => r == EntryRelays(s, r)
  }

  /** What holds of every reachable machine: AutoCureComplete only in Auto mode
      and with its completion flag up, the dwell timer runs only in Warming,
      Ready or Curing, and the relays show the current state's pattern. */
  predicate Inv(m: Machine) {
    && (m.st == AutoCureComplete ==> m.mode == Auto && m.auto.cureComplete)
    && (m.timer.running ==> m.st == Warming || m.st == Ready || m.st == Curing)
    && OutputsMatch(m.st, m.relays)
  }
}
