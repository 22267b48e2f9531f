/** The in-memory cure-session log (src/data/DataLogger.h): a buffer of
    samples that a session clears and fills while logging is on. Clock
    readings and the formatted local time of the file name are parameters. */
module Logger {
  import opened Wrappers

  /** One logged sample: a steady-clock time, the five recorded channels
      (channel 4 is never recorded; NaN is `None`), the session setpoint and a
      state name. */
  datatype DataPoint = DataPoint(
    timestamp: int,
    ch1Temp: Option<real>, ch2Temp: Option<real>, ch3Temp: Option<real>,
    ch5Temp: Option<real>, ch6Temp: Option<real>,
    setpoint: real, state: string)

  /** The file name's prefix; the rest is the local start time as `%Y%m%d_%H%M%S`. */
  const FilePrefix: string := "cure_log_"

  class DataLogger {
    var data: seq<DataPoint>
    var sessionSetpoint: real
    var sessionStart: int
    var loggingActive: bool
    var sessionFilename: string

    /** Every buffered point carries the current session's setpoint, and once
        a session has been started the file name has the log prefix. */
    predicate Valid()
      reads this
    {
      && (forall i :: 0 <= i < |data| ==> data[i].setpoint == sessionSetpoint)
      && (sessionFilename == "" || FilePrefix <= sessionFilename)
    }

    /** A new logger: not logging, empty buffer, setpoint 0, empty file name. */
    constructor ()
      ensures Valid()
      ensures !loggingActive && data == [] && sessionSetpoint == 0.0 && sessionFilename == ""
    {
      data := [];
      sessionSetpoint := 0.0;
      sessionStart := 0;
      loggingActive := false;
      sessionFilename := "";
    }

    /** `startSession(setpoint)` at steady time `now` and local time `stamp`. */
    method StartSession(setpoint: real, now: int, stamp: string)
      modifies this
      ensures Valid()
      ensures data == [] && sessionSetpoint == setpoint && sessionStart == now && loggingActive
      ensures sessionFilename == FilePrefix + stamp
      ensures IsLogging()
    {
      data := [];
      sessionSetpoint := setpoint;
      sessionStart := now;
      loggingActive := true;
      sessionFilename := FilePrefix + stamp;
    }

    /** `stopSession()`: only the logging flag changes. */
    method StopSession()
      modifies this
      ensures !loggingActive && !IsLogging()
      ensures data == old(data) && sessionSetpoint == old(sessionSetpoint)
      ensures sessionStart == old(sessionStart) && sessionFilename == old(sessionFilename)
      ensures old(Valid()) ==> Valid()
    {
      loggingActive := false;
    }

    /** `logPoint(...)` at steady time `now`. */
    method LogPoint(ch1: Option<real>, ch2: Option<real>, ch3: Option<real>,
                    ch5: Option<real>, ch6: Option<real>, state: string, now: int)
      modifies this
      ensures old(loggingActive) ==> |data| == |old(data)| + 1 && data[..|old(data)|] == old(data)
      ensures old(loggingActive) ==> var p := data[|data| - 1];
        && p.timestamp == now && p.state == state && p.setpoint == old(sessionSetpoint)
        && p.ch1Temp == ch1 && p.ch2Temp == ch2 && p.ch3Temp == ch3 && p.ch5Temp == ch5 && p.ch6Temp == ch6
      ensures !old(loggingActive) ==> data == old(data)
      ensures loggingActive == old(loggingActive) && sessionSetpoint == old(sessionSetpoint)
      ensures sessionStart == old(sessionStart) && sessionFilename == old(sessionFilename)
      ensures old(Valid()) ==> Valid()
    {
      if !loggingActive {
        return;
      }
      var point := DataPoint(now, ch1, ch2, ch3, ch5, ch6, sessionSetpoint, state);
      data := data + [point];
    }

    /** `saveToCSV()`, where `fileOpens` is whether the file could be opened: an
        empty buffer fails before any file is touched. */
    method SaveToCsv(fileOpens: bool) returns (ok: bool)
      ensures ok <==> data != [] && fileOpens
    {
      if data == [] {
        return false;
      }
      if !fileOpens {
        return false;
      }
      return true;
    }

    function GetData(): (d: seq<DataPoint>)
      reads this
      ensures Valid() ==> forall i :: 0 <= i < |d| ==> d[i].setpoint == sessionSetpoint
    {
      data
    }

    function GetSessionFilename(): (f: string)
      reads this
      ensures Valid() ==> f == "" || FilePrefix <= f
    {
      sessionFilename
    }

    /** `isLogging()`. */
    function IsLogging(): bool
      reads this
    {
      loggingActive
    }
  }
}
