# Curing-oven controller core, modelled in Dafny

This project models the core of a curing-oven controller. It has three parts:

- **The control state machine** (src/core/StateMachine.cpp/.h, src/core/Events.h).
  It has seven states: Idle, Warming, Ready, Curing, Shutdown, Fault and
  AutoCureComplete. It runs in a manual and an automatic mode and drives seven
  relays: contactor, fan, fan2, green, red, amber and buzzer.
  - Each control tick stores the air and IR (part) readings. A missing
    reading or the fault input forces Fault.
  - Otherwise the tick runs the part-presence detector and then the current
    state's update.
  - The detector is a filtered baseline of the IR wall temperature, and it
    latches when the reading drops sharply below a hot baseline.
- **The THKA multi-channel temperature controller driver**
  (src/hw/impl/ThkaRs485Temp.cpp/.h), which reads and writes single registers
  over Modbus RTU.
  - A read tries function 0x04 (Read Input Registers) first and falls back to
    0x03 (Read Holding Registers). A setpoint write uses 0x06 (Write Single
    Register). These are sections 6.4, 6.3 and 6.6 of the Modbus Application
    Protocol Specification V1.1b3.
  - Setpoint registers 0 to 5 always report success.
  - The batch read falls back, per channel, to the last valid value.
- **The session log buffer** (src/data/DataLogger.h). A session clears the
  buffer and records a setpoint. Points are appended only while logging is on.

Files:

- `Wrappers.dfy`: an `Option` type. `None` stands for the source's NaN. An
  IEEE comparison with NaN is false, and so is every comparison the model
  makes with `None`.
- `Events.dfy`: states, operating modes, parameters and their defaults.
- `ControlSpec.dfy`: the machine as a value (`Machine`, grouping every field of
  the C++ object). Each operation is a pure function:
  - `enter`, each command and each `update_*`;
  - part detection, `tick`, and runs of ticks and operator inputs.
- `ControlProperties.dfy`: what the controller promises, proved about those
  functions. This includes the reachability invariant `Inv` and multi-tick
  properties of detection and automatic curing.
- `Control.dfy`: the C++ object as a Dafny class with the same fields and one
  method per C++ member function.
  - Every method is proved to change the object exactly as a pure function
    does, so every lemma of `ControlProperties` holds of the object. Commands
    and updates follow the function of the same name. `UpdatePartDetection`
    follows `DetectPart`. The entry methods `IdleEntry` … `CompleteEntry`
    follow `Enter(m, s)` for their state.
  - The sensors and the clock are method parameters.
- `Thka.dfy`: module `ThkaModel` holds the driver's behaviour as functions of
  an abstract bus, plus its lemmas. Module `ThkaDriver` holds the driver class.
  - The class has a request history `sent` and the `last_valid` array.
  - Its loops are proved against the functions.
  - The bus is an oracle. The answer to a request depends on the request and on
    its position in the driver's history, so it can fail, succeed or return any
    value at any time.
- `DataLogger.dfy`: the log buffer as a class with an invariant about sessions.
  The clock and the formatted local time are parameters.

The C++ headers and the implementation disagree in places. The model follows
the implementation:

- `State` in Events.h lacks `AutoCureComplete`.
- `Params` lacks the two automatic-mode fields.
- No `OperatingMode` declaration is present.

These are added as the implementation uses them. The two automatic-mode
parameters have no default in the sources, so `DefaultParams` takes them as
arguments.

The design describes the automatic-mode flags as reset whenever the machine
returns to Idle. The implementation resets them on entering Idle only while the
mode is Auto (StateMachine.cpp:26-29). A manual override sets Manual mode
before it enters the state (StateMachine.cpp:123). So `command_enterIdle()`
from AutoCureComplete leaves `auto_cure_complete()` true and
`auto_part_at_temp()` unchanged in Idle. The model follows the implementation,
and `ManualIdleKeepsCompletionFlag` states the consequence. The mode becomes Auto
again only through `command_startAutoMode`, which clears both flags, so the
controller's later behaviour is unaffected; only the two getters report the
stale values.

## Model

| member | source | states |
|---|---|---|
| Events.DefaultParams | src/core/Events.h:6-21 | The default tuning: air 200 ± 3, part 190 ± 3, dwell 1200 s, drop 40, minimum wall 120; the automatic-mode fields as given |
| ControlSpec.PartC | src/core/StateMachine.h:43-45 | The logical part temperature is defined exactly when a part is detected and the IR reading is valid, and is then the IR reading |
| ControlSpec.SecondsLeft | src/core/StateMachine.cpp:161-166 | Never negative; 0 with the timer stopped; otherwise the time to the deadline; 0 exactly when stopped or expired |
| ControlProperties.FreshMachine | src/core/StateMachine.cpp:4-11 | A new machine is Idle and Manual: timer stopped, nothing detected, readings and baseline NaN, auto target 200, the five non-fan outputs off, and it satisfies the invariant |
| ControlProperties.EnterFrame | src/core/StateMachine.cpp:13-108 | Entering a state never changes the parameters, mode, inputs, auto target or cached readings |
| ControlProperties.DispatchFrame | src/core/StateMachine.cpp:176-200 | No state update, in either mode, changes the parameters, mode, inputs, auto target or cached readings |
| ControlProperties.TickKeepsConfiguration | src/core/StateMachine.cpp:168-201 | A tick stores exactly this tick's two readings, which `air_c`/`ir_c` then return, and changes no parameter, mode, input or auto target |
| ControlProperties.SetFaultTakesEffectOnTick | src/core/StateMachine.h:34 | Setting the fault flag only stores it; the next tick is in Fault, and clear-fault then does nothing |
| ControlProperties.DoorNeverMatters | src/core/StateMachine.h:35 | The door input is read by nothing: ticking commutes with changing it |
| ControlProperties.DetectorIgnoresDoor | src/core/StateMachine.cpp:315-330 | Part detection commutes with changing the door input |
| ControlProperties.DispatchIgnoresDoor | src/core/StateMachine.cpp:176-200 | Every state update commutes with changing the door input |
| ControlProperties.FaultPreemptsTick | src/core/StateMachine.cpp:172-175 | With a NaN reading or the fault flag, the tick is exactly entering Fault after storing the readings: no detection, no update, the timer stopped, the Fault relay pattern on |
| ControlProperties.FaultIsSticky | src/core/StateMachine.cpp:180-199 | Any number of ticks in Fault change nothing but the stored readings |
| ControlProperties.ClearFaultOnlyWhenFlagDown | src/core/StateMachine.cpp:119-121 | Clear-fault enters Idle exactly from Fault with the flag down, and otherwise changes nothing |
| ControlProperties.LeavingFault | src/core/StateMachine.cpp:110-159 | No tick leaves Fault; only clear-fault (flag down), stop, a manual override or an automatic-mode command does |
| ControlProperties.StopFromAnyState | src/core/StateMachine.cpp:115-117 | Stop enters Shutdown from anywhere: heat and fans off, all lights and buzzer on, timer stopped, nothing else changed |
| ControlProperties.StartOnlyFromIdle | src/core/StateMachine.cpp:111-113 | Start from Idle enters Warming with the contactor on; from any other state it does nothing |
| ControlProperties.FaultEntryPattern | src/core/StateMachine.cpp:79-90 | Entering Fault: contactor off, both fans on, red and buzzer on, green and amber off, timer stopped, detector and auto flags kept |
| ControlProperties.ManualOverrideForcesManual | src/core/StateMachine.cpp:123-128 | Every override sets Manual mode, enters the requested state and writes that state's relays |
| ControlProperties.StartAutoModeEffect | src/core/StateMachine.cpp:131-144 | Starting automatic mode sets Auto, both targets, clears the auto flags and the latch, and enters Warming with the timer untouched |
| ControlProperties.CancelAutoModeEffect | src/core/StateMachine.cpp:146-151 | Cancelling returns to Idle in Manual from any state with the auto flags, the latch and the timer cleared |
| ControlProperties.AcknowledgeOnlyFromComplete | src/core/StateMachine.cpp:153-159 | Acknowledging goes from AutoCureComplete to Idle with the completion flag cleared, and does nothing elsewhere |
| ControlProperties.ManualIdleKeepsCompletionFlag | src/core/StateMachine.cpp:123 | A manual Idle override from AutoCureComplete reaches Idle with the completion flag still set and every automatic-mode flag unchanged |
| ControlProperties.DetectorInert | src/core/StateMachine.cpp:316 | Outside Ready, or once latched, detection changes nothing |
| ControlProperties.DetectorStep | src/core/StateMachine.cpp:315-330 | In Ready before latching: the NaN baseline is seeded with the reading, the baseline becomes 0.98·b + 0.02·raw, and the latch is set iff that baseline is at least the minimum wall temperature and at least the drop threshold above the reading |
| ControlProperties.BlendBetween | src/core/StateMachine.cpp:320-321 | The filtered baseline lies between the old baseline and the reading |
| ControlProperties.ColdWallNeverLatches | src/core/StateMachine.cpp:323-329 | Over any run of valid ticks with readings below the minimum wall temperature, Ready never latches and the baseline stays cold |
| ControlProperties.HotWallDropLatches | src/core/StateMachine.cpp:320-329 | With the default thresholds, a baseline of 130 and a reading of 80 latch detection, leaving a baseline of 129 |
| ControlProperties.LatchClearedOnlyOnReentry | src/core/StateMachine.cpp:323-329 | Once set, the latch is cleared only by entering Idle or Ready or by starting automatic mode |
| ControlProperties.IdleFans | src/core/StateMachine.cpp:204-216 | Every valid Idle tick without fault stays Idle, sets both fans to "air above 80 °C" and keeps the heat off |
| ControlProperties.ReadyLatchedEntersCuring | src/core/StateMachine.cpp:227-232 | Ready with a detected part enters Curing on the next valid tick in either mode, heat and both fans on |
| ControlProperties.AutoReadyStartsCuringUntimed | src/core/StateMachine.cpp:265-275 | In Auto, that move also stops the dwell timer and clears the at-temperature flag, keeping the target and completion flag |
| ControlProperties.LatchingTickEntersCuring | src/core/StateMachine.cpp:176-177 | Detection runs before the state update, so the tick on which Ready latches already enters Curing (in Auto with the timer stopped) |
| ControlProperties.WarmingToReadyReseeds | src/core/StateMachine.cpp:218-225 | The tick on which Warming reaches its target enters Ready with the latch clear and the baseline set to that tick's reading |
| ControlProperties.ManualWarmingHysteresis | src/core/StateMachine.cpp:218-225 | Below target, fan2 turns on under target − hysteresis, off over target + hysteresis, and keeps its level in between; the state stays Warming |
| ControlProperties.WarmingOffBranchOverridden | src/core/StateMachine.cpp:218-225 | With non-negative hysteresis, the fan2-off branch is always overridden on the same tick by entering Ready, which turns fan2 on |
| ControlProperties.ManualCuringRefreshesDeadline | src/core/StateMachine.cpp:234-248 | A detected part at target pushes the deadline to now + dwell and stays in Curing |
| ControlProperties.ManualCureExpiry | src/core/StateMachine.cpp:234-248 | Manual Curing ends in Idle iff the part is not hot, the timer runs and the deadline has passed |
| ControlProperties.AutoCuringStep | src/core/StateMachine.cpp:277-304 | In tolerance, a stopped timer starts for the full duration and raises the at-temperature flag; in tolerance past the deadline it completes; out of tolerance the timer and flag are cancelled |
| ControlProperties.AutoCompleteStays | src/core/StateMachine.cpp:306-313 | AutoCureComplete is kept by ticks with both fans on |
| ControlProperties.AutoCancelRestartsFullDuration | src/core/StateMachine.cpp:277-304 | A tick out of tolerance then one back in restarts the full cure duration from the second tick (cancel, not pause) |
| ControlProperties.AutoCureNeedsFullDuration | src/core/StateMachine.cpp:277-304 | Over any run of ticks from automatic Curing, completion happens only after the part stayed in tolerance on every tick from some j to the completing k, with the full duration between them; a running deadline is the full duration after such a j |
| ControlProperties.SecondsLeftMonotone | src/core/StateMachine.cpp:161-166 | The countdown never increases as time passes |
| ControlProperties.TickKeepsInv | src/core/StateMachine.cpp:168-201 | Every tick keeps the invariant: relays match the state, AutoCureComplete only in Auto with the completion flag, the timer stopped in Idle, Shutdown, Fault and AutoCureComplete |
| ControlProperties.ApplyKeepsInv | src/core/StateMachine.cpp:110-159 | Every operator command and input keeps the invariant |
| ControlProperties.RunKeepsInv | src/core/StateMachine.cpp:110-201 | Any sequence of commands, inputs and ticks keeps the invariant |
| ControlProperties.HeatOnlyWhileHeating | src/core/StateMachine.cpp:13-108 | In a reachable machine the contactor is on only in Warming, Ready or Curing |
| Control.StateMachine.constructor | src/core/StateMachine.cpp:4-11 | The new object is the model's initial machine |
| Control.StateMachine.Enter | src/core/StateMachine.cpp:13-108 | Moves the object exactly as the model's `Enter` |
| Control.StateMachine.IdleEntry | src/core/StateMachine.cpp:16-32 | Entering Idle, as the model's `Enter(m, Idle)` |
| Control.StateMachine.WarmingEntry | src/core/StateMachine.cpp:33-42 | Entering Warming, as the model's `Enter(m, Warming)` |
| Control.StateMachine.ReadyEntry | src/core/StateMachine.cpp:43-55 | Entering Ready, as the model's `Enter(m, Ready)` |
| Control.StateMachine.CuringEntry | src/core/StateMachine.cpp:56-66 | Entering Curing, as the model's `Enter(m, Curing)` |
| Control.StateMachine.ShutdownEntry | src/core/StateMachine.cpp:67-78 | Entering Shutdown, as the model's `Enter(m, Shutdown)` |
| Control.StateMachine.FaultEntry | src/core/StateMachine.cpp:79-90 | Entering Fault, as the model's `Enter(m, Fault)` |
| Control.StateMachine.CompleteEntry | src/core/StateMachine.cpp:91-106 | Entering AutoCureComplete, as the model's `Enter(m, AutoCureComplete)` |
| Control.StateMachine.Start | src/core/StateMachine.cpp:111-113 | As the model's `Start` |
| Control.StateMachine.Stop | src/core/StateMachine.cpp:115-117 | As the model's `Stop` |
| Control.StateMachine.ClearFault | src/core/StateMachine.cpp:119-121 | As the model's `ClearFault` |
| Control.StateMachine.ManualEnter | src/core/StateMachine.cpp:123-128 | As the model's `ManualEnter`; afterwards `IsAutoMode()` is false |
| Control.StateMachine.EnterIdle | src/core/StateMachine.cpp:123 | As `ManualEnter(m, Idle)` |
| Control.StateMachine.EnterWarming | src/core/StateMachine.cpp:124 | As `ManualEnter(m, Warming)` |
| Control.StateMachine.EnterReady | src/core/StateMachine.cpp:125 | As `ManualEnter(m, Ready)` |
| Control.StateMachine.EnterCuring | src/core/StateMachine.cpp:126 | As `ManualEnter(m, Curing)` |
| Control.StateMachine.EnterShutdown | src/core/StateMachine.cpp:127 | As `ManualEnter(m, Shutdown)` |
| Control.StateMachine.EnterFault | src/core/StateMachine.cpp:128 | As `ManualEnter(m, Fault)` |
| Control.StateMachine.StartAutoMode | src/core/StateMachine.cpp:131-144 | As the model's `StartAutoMode`; afterwards `IsAutoMode()` holds |
| Control.StateMachine.CancelAutoMode | src/core/StateMachine.cpp:146-151 | As the model's `CancelAutoMode`; afterwards `IsAutoMode()` is false |
| Control.StateMachine.AcknowledgeAutoCureComplete | src/core/StateMachine.cpp:153-159 | As the model's `AcknowledgeAutoCureComplete` |
| Control.StateMachine.SetFault | src/core/StateMachine.h:34 | Only the fault input changes |
| Control.StateMachine.SetDoorOpen | src/core/StateMachine.h:35 | Only the door input changes |
| Control.StateMachine.PartC | src/core/StateMachine.h:43-45 | Defined exactly when detected with a valid IR reading; agrees with the model's `PartC` |
| Control.StateMachine.SecondsLeft | src/core/StateMachine.cpp:161-166 | Never negative, 0 exactly when stopped or expired; agrees with the model |
| Control.StateMachine.Tick | src/core/StateMachine.cpp:168-201 | Moves the object exactly as the model's `Tick` on this tick's readings and time |
| Control.StateMachine.UpdateIdle | src/core/StateMachine.cpp:204-216 | As the model's `UpdateIdle` |
| Control.StateMachine.UpdateWarming | src/core/StateMachine.cpp:218-225 | As the model's `UpdateWarming` |
| Control.StateMachine.UpdateReady | src/core/StateMachine.cpp:227-232 | As the model's `UpdateReady` |
| Control.StateMachine.UpdateCuring | src/core/StateMachine.cpp:234-248 | As the model's `UpdateCuring` |
| Control.StateMachine.UpdateShutdown | src/core/StateMachine.cpp:250-253 | As the model's `UpdateShutdown` |
| Control.StateMachine.UpdateAutoWarming | src/core/StateMachine.cpp:256-263 | As the model's `UpdateAutoWarming` |
| Control.StateMachine.UpdateAutoReady | src/core/StateMachine.cpp:265-275 | As the model's `UpdateAutoReady` |
| Control.StateMachine.UpdateAutoCuring | src/core/StateMachine.cpp:277-304 | As the model's `UpdateAutoCuring` |
| Control.StateMachine.UpdateAutoCureComplete | src/core/StateMachine.cpp:306-313 | As the model's `UpdateAutoCureComplete` |
| Control.StateMachine.UpdatePartDetection | src/core/StateMachine.cpp:315-330 | As the model's `DetectPart` |
| ThkaModel.DefaultConfig | src/hw/impl/ThkaRs485Temp.h:16-24 | The default configuration: /dev/ttyUSB0, 9600 baud, 8N1, slave 1, no channels |
| ThkaModel.ReadRegister | src/hw/impl/ThkaRs485Temp.cpp:40-48 | An input-register read always goes first; a holding-register read follows iff it fails; NaN iff both fail; a successful input read gives its raw × scale; when it fails and the holding read succeeds, the holding raw × scale |
| ThkaModel.TruncTowardZero | src/hw/impl/ThkaRs485Temp.cpp:51 | The integer nearest zero within one of the value, on the value's side of zero |
| ThkaModel.RawRegister | src/hw/impl/ThkaRs485Temp.cpp:51 | The register value sent is the truncated quotient modulo 65536, and exactly that quotient when it fits in 16 bits |
| ThkaModel.WriteRegister | src/hw/impl/ThkaRs485Temp.cpp:50-54 | Exactly one Write Single Register of the truncated raw value; the result is the bus's answer to it |
| ThkaModel.Lookup | src/hw/impl/ThkaRs485Temp.cpp:77-80 | Finds the first channel with the id, and finds none iff no channel has it |
| ThkaModel.Prior | src/hw/impl/ThkaRs485Temp.cpp:130-131 | The remembered values are kept when their count matches the channel count, and are otherwise all NaN |
| ThkaModel.BatchStep | src/hw/impl/ThkaRs485Temp.cpp:137-145 | An iteration appends exactly one output value and keeps the earlier ones |
| ThkaModel.BatchRead | src/hw/impl/ThkaRs485Temp.cpp:136-146 | After k iterations there are k outputs and one remembered value per channel |
| ThkaModel.ReadAll | src/hw/impl/ThkaRs485Temp.cpp:124-149 | One output and one remembered value per configured channel |
| ThkaModel.SetpointQuirk | src/hw/impl/ThkaRs485Temp.cpp:99-108 | Setpoint registers 0 to 5 always report success; others report the bus answer (the `>= 0` half of the guard is always true) |
| ThkaModel.ReadChannelCases | src/hw/impl/ThkaRs485Temp.cpp:74-82 | An unknown channel is NaN with no bus access; a known one is the register read of its first match |
| ThkaModel.ReadFirstIsChannelZero | src/hw/impl/ThkaRs485Temp.cpp:68-72 | With no channels NaN and no bus access; otherwise the register read of the first channel |
| ThkaModel.WriteSetpointCases | src/hw/impl/ThkaRs485Temp.cpp:84-122 | An unknown channel gives false with no write; a known one sends exactly one write of the truncated value to its setpoint register and reports it with the quirk applied |
| ThkaModel.BatchMemory | src/hw/impl/ThkaRs485Temp.cpp:139-143 | Positions not yet reached keep their remembered value; passed positions remember exactly what was returned there |
| ThkaModel.BatchOutPrefix | src/hw/impl/ThkaRs485Temp.cpp:136-146 | Later iterations never change earlier outputs |
| ThkaModel.BatchSentPrefix | src/hw/impl/ThkaRs485Temp.cpp:136-146 | Later iterations only append requests |
| ThkaModel.BatchSubstitution | src/hw/impl/ThkaRs485Temp.cpp:137-145 | Output i is channel i's reading when that succeeds, else the value remembered for channel i |
| ThkaModel.BatchOnlyReads | src/hw/impl/ThkaRs485Temp.cpp:136-146 | The batch sends between one and two read requests per channel and never a write |
| ThkaModel.ReadAllSpec | src/hw/impl/ThkaRs485Temp.cpp:124-149 | One value per channel in order, each the reading or the remembered fallback; after a size change a failed read gives NaN; afterwards exactly the output is remembered |
| ThkaDriver.ThkaRs485Temp.constructor | src/hw/impl/ThkaRs485Temp.cpp:61-62 | The driver keeps the configuration, has sent nothing and remembers no values |
| ThkaDriver.ThkaRs485Temp.ReadReg | src/hw/impl/ThkaRs485Temp.cpp:40-48 | Returns and sends exactly what `ReadRegister` describes |
| ThkaDriver.ThkaRs485Temp.WriteReg | src/hw/impl/ThkaRs485Temp.cpp:50-54 | Returns and sends exactly what `WriteRegister` describes |
| ThkaDriver.ThkaRs485Temp.FindChannel | src/hw/impl/ThkaRs485Temp.cpp:77-80 | The search loop returns `Lookup`'s answer |
| ThkaDriver.ThkaRs485Temp.ReadChannelCelsius | src/hw/impl/ThkaRs485Temp.cpp:74-82 | Returns and sends exactly what `ReadChannel` describes |
| ThkaDriver.ThkaRs485Temp.ReadCelsius | src/hw/impl/ThkaRs485Temp.cpp:68-72 | Returns and sends exactly what `ReadFirst` describes |
| ThkaDriver.ThkaRs485Temp.WriteSetpointCelsius | src/hw/impl/ThkaRs485Temp.cpp:84-122 | Returns and sends exactly what `WriteSetpoint` describes |
| ThkaDriver.ThkaRs485Temp.ResizeLastValid | src/hw/impl/ThkaRs485Temp.cpp:127-131 | The remembered values become `Prior` of the old ones, and nothing is sent |
| ThkaDriver.ThkaRs485Temp.ReadSlot | src/hw/impl/ThkaRs485Temp.cpp:137-145 | One loop iteration moves the output, the remembered values and the requests by exactly one `BatchStep` |
| ThkaDriver.ThkaRs485Temp.ReadChannelsInto | src/hw/impl/ThkaRs485Temp.cpp:133-148 | The loop produces the output, remembered values and requests of `BatchRead` over all channels |
| ThkaDriver.ThkaRs485Temp.ReadAllChannelsCelsius | src/hw/impl/ThkaRs485Temp.cpp:124-149 | Returns, remembers and sends exactly what `ReadAll` describes |
| Logger.DataLogger.constructor | src/data/DataLogger.h:24 | A new logger is not logging, with an empty buffer, setpoint 0 and no file name |
| Logger.DataLogger.StartSession | src/data/DataLogger.h:26-38 | Empties the buffer, records the setpoint and start time, turns logging on (so `IsLogging()` holds), and names the file `cure_log_` followed by the time stamp |
| Logger.DataLogger.StopSession | src/data/DataLogger.h:40-42 | Only clears the logging flag, so `IsLogging()` is false; the buffer is kept |
| Logger.DataLogger.LogPoint | src/data/DataLogger.h:44-59 | While logging, appends exactly one point with the given channels, state and time and the session setpoint, keeping earlier points; otherwise changes nothing |
| Logger.DataLogger.SaveToCsv | src/data/DataLogger.h:61-90 | Succeeds iff the buffer is non-empty and the file opens; an empty buffer fails first |
| Logger.DataLogger.GetData | src/data/DataLogger.h:92 | Every returned point carries the current session setpoint |
| Logger.DataLogger.GetSessionFilename | src/data/DataLogger.h:93 | The name is empty before any session and otherwise starts with `cure_log_` |

## Left out

- Qt user interface, the poller thread, the cross-thread temperature adapter, GPIO wrappers, the bootstrap in `main.cpp`, the register-scanning harness and the plotting script are not part of this model.
- Concurrency: the driver's mutex and every thread are left out. Each driver call is modelled as one atomic step.
- Delays (`sleep_for`) and console logging in the driver are left out. They change no result.
- Opening the serial port, connecting, timeouts and slave setup are left out. Construction of the driver never touches the bus.
- Floating point: temperatures are exact reals. Rounding is not modelled, in the baseline filter or in `value / scale` with a scale such as 0.1, where it can shift the truncated raw value by one. NaN is `None`. Parameters are assumed not to be NaN.
- RawRegister: the C++ conversion of an out-of-range quotient to `uint16_t`, and the division by a zero scale, are undefined behaviour. The model sends the quotient modulo 65536, and 0 for a zero scale.
- The remembered values: in the source, `last_valid` is a function-static vector shared by every driver object. The model gives each object its own array.
- Logger.DataLogger.SaveToCsv: the CSV contents, the fixed two-decimal formatting, the elapsed-time column and the directory are not modelled. Whether the file opens is a parameter.
- The local-time stamp of the session file name, and the steady clock, are parameters. Time is whole seconds for the state machine and an unbounded integer for the logger, with no overflow.
- The state machine's sensors are not modelled: a tick takes the clock's `now` and the two sensor readings as parameters.
- The relay levels before construction are not in the sources, because the GPIO wrapper is not part of this model. The constructor takes them as a parameter. Entering Idle at construction leaves both fans as they were.
- The seven separate relay objects are one `relays` field holding their seven levels.
- `auto_cure_start_` is declared but never read or written by any modelled code, so it has no field here.
- The getters `state()`, `mode()`, `air_c()`, `ir_c()`, `part_detected()`, `auto_target_temp()`, `auto_part_at_temp()` and `auto_cure_complete()` return a field directly, and have no member of their own. The model reads the field.
- `is_auto_mode()` and `isLogging()` are `IsAutoMode` and `IsLogging`, which only read the mode or the logging flag. What they report is stated by the commands that change the flag: `StartAutoMode`, `CancelAutoMode` and `ManualEnter` for the mode, and `StartSession` and `StopSession` for logging.
