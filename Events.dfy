/** The controller's states, operating modes and tuning parameters
    (src/core/Events.h, extended with what src/core/StateMachine.cpp uses). */
module Events {

  /** The seven control states. The header declares only the first six;
      `AutoCureComplete` is used by the state machine's implementation. */
  datatype State = Idle | Warming | Ready | Curing | Shutdown | Fault | AutoCureComplete

  /** Manual or automatic operation. The declaration is not in the sources;
      the two values are the ones the state machine uses. */
  datatype OperatingMode = Manual | Auto

  /** Tuning parameters. The last two fields are read by the automatic-mode
      curing logic but are missing from the header, so they carry no default. */
  datatype Params = Params(
    airTarget: real,
    airHysteresis: real,
    partTarget: real,
    partHysteresis: real,
    dwellSeconds: int,
    irDropDelta: real,
    partMinValid: real,
    autoTolerance: real,
    autoCureDurationSeconds: int)

  /** The header's default parameters; the two automatic-mode fields have
      no default and are supplied by the caller. */
  function DefaultParams(autoTolerance: real, autoCureDurationSeconds: int): (p: Params)
    ensures p.airTarget == 200.0 && p.airHysteresis == 3.0
    ensures p.partTarget == 190.0 && p.partHysteresis == 3.0
    ensures p.dwellSeconds == 1200
    ensures p.irDropDelta == 40.0 && p.partMinValid == 120.0
    ensures p.autoTolerance == autoTolerance && p.autoCureDurationSeconds == autoCureDurationSeconds
  {
    Params(200.0, 3.0, 190.0, 3.0, 20 * 60, 40.0, 120.0, autoTolerance, autoCureDurationSeconds)
  }
}
