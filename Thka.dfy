/** The THKA multi-channel temperature controller driver
    (src/hw/impl/ThkaRs485Temp.h and .cpp), on an abstract Modbus RTU bus.

    The three library calls are the Modbus functions 0x04 Read Input
    Registers, 0x03 Read Holding Registers and 0x06 Write Single Register
    (sections 6.4, 6.3 and 6.6 of the Modbus Application Protocol
    Specification V1.1b3), each for one register. The bus is an oracle: the
    answer to a request depends on the request and on its position in the
    driver's whole request history, so it may fail, succeed or return any
    value at any time. */
module ThkaModel {
  import opened Wrappers

  /** A 16-bit unsigned register address or register value. */
  newtype u16 = x: int | 0 <= x < 0x1_0000

  /** One configured controller channel. */
  datatype ThkaChannel = ThkaChannel(id: int, regMeas: u16, regSv: u16, scale: real)

  /** The serial settings and the ordered channel list. */
  datatype ThkaConfig = ThkaConfig(
    device: string, baud: int, parity: char, databits: int, stopbits: int,
    slaveId: int, channels: seq<ThkaChannel>)

  /** The default configuration: /dev/ttyUSB0 at 9600 baud, 8N1, slave 1, no channels. */
  function DefaultConfig(): (c: ThkaConfig)
    ensures c.device == "/dev/ttyUSB0" && c.baud == 9600
    ensures c.parity == 'N' && c.databits == 8 && c.stopbits == 1
    ensures c.slaveId == 1 && c.channels == []
  {
    ThkaConfig("/dev/ttyUSB0", 9600, 'N', 8, 1, 1, [])
  }

  /** One single-register Modbus request. */
  datatype Request =
    | ReadInputRegisters(reg: u16)
    | ReadHoldingRegisters(reg: u16)
    | WriteSingleRegister(reg: u16, raw: u16)

  predicate IsRead(q: Request) { q.ReadInputRegisters? || q.ReadHoldingRegisters? }

  /** The bus. `read(n, q)` answers the n-th request `q` of the driver with the
      register value, or `None` where the library's return code is not 1;
      `write(n, q)` is whether the library returned 1. */
  datatype Bus = Bus(read: (nat, Request) -> Option<u16>, write: (nat, Request) -> bool)

  /** A driver operation's result and the requests it put on the bus. */
  datatype Exchange<T> = Exchange(result: T, sent: seq<Request>)

  // ---------------------------------------------------------------------------
  // Impl::read_reg and Impl::write_reg

  /** A raw register value in engineering units. */
  function Scaled(raw: u16, scale: real): real { raw as real * scale }

  /** `read_reg(reg, scale)` as the n-th request onwards: input register first,
      holding register only if that fails; NaN if both fail, else raw × scale. */
  function ReadRegister(bus: Bus, n: nat, reg: u16, scale: real): (x: Exchange<Option<real>>)
    ensures 1 <= |x.sent| <= 2 && x.sent[0] == ReadInputRegisters(reg)
    ensures |x.sent| == 1 <==> bus.read(n, ReadInputRegisters(reg)).Some?
    ensures |x.sent| == 2 ==> x.sent[1] == ReadHoldingRegisters(reg)
    ensures x.result.None? <==>
      bus.read(n, ReadInputRegisters(reg)).None? && bus.read(n + 1, ReadHoldingRegisters(reg)).None?
    ensures var a := bus.read(n, ReadInputRegisters(reg));
      a.Some? ==> x.result == Some(Scaled(a.value, scale))
    ensures var a, h := bus.read(n, ReadInputRegisters(reg)), bus.read(n + 1, ReadHoldingRegisters(reg));
      a.None? && h.Some? ==> x.result == Some(Scaled(h.value, scale))
  {
    var input := ReadInputRegisters(reg);
    var holding := ReadHoldingRegisters(reg);
    match bus.read(n, input)
    case Some(v) => Exchange(Some(Scaled(v, scale)), [input])
    case None =>
      match bus.read(n + 1, holding)
      case Some(v) => Exchange(Some(Scaled(v, scale)), [input, holding])
      case None => Exchange(None, [input, holding])
  }

  /** A C++ floating-to-integer conversion: truncation toward zero. */
  function TruncTowardZero(x: real): (t: int)
    ensures x >= 0.0 ==> 0 <= t && t as real <= x < t as real + 1.0
    ensures x < 0.0 ==> t <= 0 && t as real - 1.0 < x <= t as real
  {
    if x >= 0.0 then x.Floor else -((-x).Floor)
  }

  /** `static_cast<uint16_t>(value / scale)`. Out of range (and for scale 0)
      the C++ conversion is undefined; the model wraps modulo 65536 and sends 0
      for scale 0. */
  function RawRegister(value: real, scale: real): (raw: u16)
    ensures scale != 0.0 ==> raw as int == TruncTowardZero(value / scale) % 0x1_0000
    ensures scale != 0.0 && 0 <= TruncTowardZero(value / scale) < 0x1_0000 ==>
      raw as int == TruncTowardZero(value / scale)
  {
    if scale == 0.0 then 0 else (TruncTowardZero(value / scale) % 0x1_0000) as u16
  }

  /** `write_reg(reg, value, scale)`: one Write Single Register request, true
      iff the library returns 1. */
  function WriteRegister(bus: Bus, n: nat, reg: u16, value: real, scale: real): (x: Exchange<bool>)
    ensures x.sent == [WriteSingleRegister(reg, RawRegister(value, scale))]
    ensures x.result == bus.write(n, x.sent[0])
  {
    var q := WriteSingleRegister(reg, RawRegister(value, scale));
    Exchange(bus.write(n, q), [q])
  }

  // ---------------------------------------------------------------------------
  // Channel lookup and the public operations

  /** The first configured channel with the given id. */
  function Lookup(chans: seq<ThkaChannel>, id: int): (r: Option<nat>)
    ensures r.Some? ==> r.value < |chans| && chans[r.value].id == id
    ensures r.Some? ==> forall j :: 0 <= j < r.value ==> chans[j].id != id
    ensures r.None? <==> forall j :: 0 <= j < |chans| ==> chans[j].id != id
    decreases |chans|
  {
    if chans == [] then None
    else if chans[0].id == id then Some(0)
    else
      match Lookup(chans[1..], id)
      case None => None
      case Some(i) => Some(i + 1)
  }

  /** `read_channel_celsius(ch)`. */
  function ReadChannel(bus: Bus, n: nat, chans: seq<ThkaChannel>, id: int): Exchange<Option<real>> {
    match Lookup(chans, id)
    case None => Exchange(None, [])
    case Some(i) => ReadRegister(bus, n, chans[i].regMeas, chans[i].scale)
  }

  /** `read_celsius()`: the first configured channel, NaN without channels. */
  function ReadFirst(bus: Bus, n: nat, chans: seq<ThkaChannel>): Exchange<Option<real>> {
    if chans == [] then Exchange(None, []) else ReadChannel(bus, n, chans, chans[0].id)
  }

  /** The setpoint quirk as written: registers 0 to 5 always report success. */
  function SetpointOutcome(regSv: u16, busOk: bool): bool {
    if regSv >= 0 && regSv <= 5 then true else busOk
  }

  /** `write_setpoint_celsius(ch, value)`. */
  function WriteSetpoint(bus: Bus, n: nat, chans: seq<ThkaChannel>, id: int, value: real): Exchange<bool> {
    match Lookup(chans, id)
    case None => Exchange(false, [])
    case Some(i) =>
      var w := WriteRegister(bus, n, chans[i].regSv, value, chans[i].scale);
      Exchange(SetpointOutcome(chans[i].regSv, w.result), w.sent)
  }

  // ---------------------------------------------------------------------------
  // read_all_channels_celsius

  /** The remembered values after the size check: kept when they match the
      channel count, otherwise reset to all-NaN. */
  function Prior(last: seq<Option<real>>, count: nat): (r: seq<Option<real>>)
    ensures |r| == count
    ensures |last| == count ==> r == last
    ensures |last| != count ==> forall i :: 0 <= i < count ==> r[i].None?
  {
    if |last| == count then last else seq(count, _ => None)
  }

  /** The batch's output, the remembered values and the requests so far. */
  datatype Batch = Batch(out: seq<Option<real>>, last: seq<Option<real>>, sent: seq<Request>)

  /** One iteration of the batch loop, on channel `i`: its register reading
      when that succeeds, which is then remembered; otherwise the value
      remembered for it. */
  function BatchStep(bus: Bus, n: nat, chans: seq<ThkaChannel>, b: Batch, i: nat): (c: Batch)
    requires i < |chans| && i < |b.last|
    ensures |c.out| == |b.out| + 1 && c.out[..|b.out|] == b.out && |c.last| == |b.last|
  {
    var r := ReadRegister(bus, n + |b.sent|, chans[i].regMeas, chans[i].scale);
    if r.result.None? then Batch(b.out + [b.last[i]], b.last, b.sent + r.sent)
    else Batch(b.out + [r.result], b.last[i := r.result], b.sent + r.sent)
  }

  /** The first `k` iterations of the batch loop from remembered values `last0`. */
  function BatchRead(bus: Bus, n: nat, chans: seq<ThkaChannel>, last0: seq<Option<real>>, k: nat): (b: Batch)
    requires k <= |chans| == |last0|
    ensures |b.out| == k && |b.last| == |chans|
    decreases k
  {
    if k == 0 then Batch([], last0, [])
    else BatchStep(bus, n, chans, BatchRead(bus, n, chans, last0, k - 1), k - 1)
  }

  /** The whole batch read, starting from the remembered values `last`. */
  function ReadAll(bus: Bus, n: nat, chans: seq<ThkaChannel>, last: seq<Option<real>>): (b: Batch)
    ensures |b.out| == |chans| && |b.last| == |chans|
  {
    BatchRead(bus, n, chans, Prior(last, |chans|), |chans|)
  }

  /** The register read of channel `i` inside the batch, at its place in the request stream. */
  function BatchReading(bus: Bus, n: nat, chans: seq<ThkaChannel>, last0: seq<Option<real>>, i: nat): Exchange<Option<real>>
    requires i < |chans| == |last0|
  {
    var before := BatchRead(bus, n, chans, last0, i);
    ReadRegister(bus, n + |before.sent|, chans[i].regMeas, chans[i].scale)
  }

  // ---------------------------------------------------------------------------
  // Properties

  /** The quirk guard `reg_sv >= 0` always holds for an unsigned register, so
      the outcome is success for registers 0 to 5 and the bus answer otherwise. */
  lemma SetpointQuirk(regSv: u16, busOk: bool)
    ensures SetpointOutcome(regSv, busOk) == (regSv <= 5 || busOk)
    ensures regSv <= 5 ==> SetpointOutcome(regSv, busOk)
    ensures regSv > 5 ==> SetpointOutcome(regSv, busOk) == busOk
  {
  }

  /** An unknown channel gives NaN with no bus access; a known one reads its
      first configured channel's measurement register. */
  lemma ReadChannelCases(bus: Bus, n: nat, chans: seq<ThkaChannel>, id: int)
    ensures var x := ReadChannel(bus, n, chans, id);
      && ((forall j :: 0 <= j < |chans| ==> chans[j].id != id) ==> x == Exchange(None, []))
      && (forall i :: 0 <= i < |chans| && chans[i].id == id && (forall j :: 0 <= j < i ==> chans[j].id != id) ==>
            x == ReadRegister(bus, n, chans[i].regMeas, chans[i].scale))
  {
  }

  /** `read_celsius()` is NaN for no channels, otherwise the reading of the
      first configured channel (the lookup of its own id finds it). */
  lemma ReadFirstIsChannelZero(bus: Bus, n: nat, chans: seq<ThkaChannel>)
    ensures chans == [] ==> ReadFirst(bus, n, chans) == Exchange(None, [])
    ensures chans != [] ==> ReadFirst(bus, n, chans) == ReadRegister(bus, n, chans[0].regMeas, chans[0].scale)
  {
  }

  /** An unknown channel: false and no write. A known one: exactly one write of
      the truncated raw value to its setpoint register, with the quirk applied
      to the bus answer. */
  lemma WriteSetpointCases(bus: Bus, n: nat, chans: seq<ThkaChannel>, id: int, value: real)
    ensures var x := WriteSetpoint(bus, n, chans, id, value);
      && ((forall j :: 0 <= j < |chans| ==> chans[j].id != id) ==> x == Exchange(false, []))
      && (forall i :: 0 <= i < |chans| && chans[i].id == id && (forall j :: 0 <= j < i ==> chans[j].id != id) ==>
            var c := chans[i];
            var q := WriteSingleRegister(c.regSv, RawRegister(value, c.scale));
            x.sent == [q] && x.result == (c.regSv <= 5 || bus.write(n, q)))
  {
  }

  /** Positions the loop has not reached keep their remembered value; positions
      it has passed remember exactly what it returned there. */
  lemma {:induction false} BatchMemory(bus: Bus, n: nat, chans: seq<ThkaChannel>, last0: seq<Option<real>>, k: nat)
    requires k <= |chans| == |last0|
    ensures forall j :: k <= j < |chans| ==> BatchRead(bus, n, chans, last0, k).last[j] == last0[j]
    ensures forall j :: 0 <= j < k ==>
      BatchRead(bus, n, chans, last0, k).last[j] == BatchRead(bus, n, chans, last0, k).out[j]
    decreases k
  {
    if k > 0 {
      BatchMemory(bus, n, chans, last0, k - 1);
      var b1 := BatchRead(bus, n, chans, last0, k - 1);
      var b := BatchRead(bus, n, chans, last0, k);
      forall j | 0 <= j < k
        ensures b.last[j] == b.out[j]
      {
        if j < k - 1 {
          assert b.out[j] == b1.out[j];
        }
      }
    }
  }

  /** Later iterations never change earlier outputs. */
  lemma {:induction false} BatchOutPrefix(bus: Bus, n: nat, chans: seq<ThkaChannel>, last0: seq<Option<real>>, i: nat, k: nat)
    requires i <= k <= |chans| == |last0|
    ensures BatchRead(bus, n, chans, last0, k).out[..i] == BatchRead(bus, n, chans, last0, i).out
    decreases k
  {
    if i < k {
      BatchOutPrefix(bus, n, chans, last0, i, k - 1);
      var b := BatchRead(bus, n, chans, last0, k);
      var b1 := BatchRead(bus, n, chans, last0, k - 1);
      assert b.out[..i] == b1.out[..i];
    }
  }

  /** Later iterations only append requests. */
  lemma {:induction false} BatchSentPrefix(bus: Bus, n: nat, chans: seq<ThkaChannel>, last0: seq<Option<real>>, i: nat, k: nat)
    requires i <= k <= |chans| == |last0|
    ensures var b, c := BatchRead(bus, n, chans, last0, k), BatchRead(bus, n, chans, last0, i);
      |c.sent| <= |b.sent| && b.sent[..|c.sent|] == c.sent
    decreases k
  {
    if i < k {
      BatchSentPrefix(bus, n, chans, last0, i, k - 1);
      var b := BatchRead(bus, n, chans, last0, k);
      var b1 := BatchRead(bus, n, chans, last0, k - 1);
      var c := BatchRead(bus, n, chans, last0, i);
      assert b.sent[..|c.sent|] == b1.sent[..|c.sent|];
    }
  }

  /** Batch-read substitution: the i-th output is the i-th channel's register
      reading when that succeeds, and otherwise the value remembered for it. */
  lemma BatchSubstitution(bus: Bus, n: nat, chans: seq<ThkaChannel>, last0: seq<Option<real>>, i: nat)
    requires i < |chans| == |last0|
    ensures var r := BatchReading(bus, n, chans, last0, i);
      BatchRead(bus, n, chans, last0, |chans|).out[i] == if r.result.Some? then r.result else last0[i]
  {
    BatchOutPrefix(bus, n, chans, last0, i + 1, |chans|);
    BatchMemory(bus, n, chans, last0, i);
    var b := BatchRead(bus, n, chans, last0, i + 1);
    assert BatchRead(bus, n, chans, last0, |chans|).out[..i + 1][i] == b.out[i];
  }

  /** The batch only reads: between one and two read requests per channel and
      never a write. */
  lemma {:induction false} BatchOnlyReads(bus: Bus, n: nat, chans: seq<ThkaChannel>, last0: seq<Option<real>>, k: nat)
    requires k <= |chans| == |last0|
    ensures var b := BatchRead(bus, n, chans, last0, k);
      k <= |b.sent| <= 2 * k && forall q :: q in b.sent ==> IsRead(q)
    decreases k
  {
    if k > 0 {
      BatchOnlyReads(bus, n, chans, last0, k - 1);
    }
  }

  /** One value per configured channel, in configuration order; each is the
      channel's reading if it succeeds, else the remembered value, which after
      a size change is NaN; afterwards the driver remembers exactly the output. */
  lemma ReadAllSpec(bus: Bus, n: nat, chans: seq<ThkaChannel>, last: seq<Option<real>>)
    ensures var b := ReadAll(bus, n, chans, last);
      var prior := Prior(last, |chans|);
      && |b.out| == |chans| && b.last == b.out
      && (forall i :: 0 <= i < |chans| ==>
            var r := BatchReading(bus, n, chans, prior, i);
            b.out[i] == if r.result.Some? then r.result else prior[i])
      && (|last| != |chans| ==> forall i :: 0 <= i < |chans| ==>
            BatchReading(bus, n, chans, prior, i).result.None? ==> b.out[i].None?)
  {
    var prior := Prior(last, |chans|);
    var b := BatchRead(bus, n, chans, prior, |chans|);
    assert ReadAll(bus, n, chans, last) == b;
    BatchMemory(bus, n, chans, prior, |chans|);
    assert forall j :: 0 <= j < |chans| ==> b.last[j] == b.out[j];
    assert b.last == b.out;
    forall i | 0 <= i < |chans|
      ensures var r := BatchReading(bus, n, chans, prior, i);
        ReadAll(bus, n, chans, last).out[i] == if r.result.Some? then r.result else prior[i]
    {
      BatchSubstitution(bus, n, chans, prior, i);
    }
  }
}

/** The driver object: its configuration, the requests it has sent, and the
    remembered last valid value per channel. */
module ThkaDriver {
  import opened Wrappers
  import opened ThkaModel

  class ThkaRs485Temp {
    const cfg: ThkaConfig
    /** Every request this driver has put on the bus, oldest first. */
    var sent: seq<Request>
    /** `last_valid` of `read_all_channels_celsius`. */
    var lastValid: array<Option<real>>

    /** The configuration is copied; opening the port is not modelled. */
    constructor (c: ThkaConfig)
      ensures cfg == c && sent == [] && lastValid.Length == 0
    {
      cfg := c;
      sent := [];
      lastValid := new Option<real>[0];
    }

    /** `Impl::read_reg`. */
    method ReadReg(bus: Bus, reg: u16, scale: real) returns (val: Option<real>)
      modifies this
      ensures var x := ReadRegister(bus, |old(sent)|, reg, scale);
        val == x.result && sent == old(sent) + x.sent
      ensures lastValid == old(lastValid)
    {
      var n := |sent|;
      var rc := bus.read(n, ReadInputRegisters(reg));
      sent := sent + [ReadInputRegisters(reg)];
      if rc.None? {
        rc := bus.read(n + 1, ReadHoldingRegisters(reg));
        sent := sent + [ReadHoldingRegisters(reg)];
      }
      if rc.None? {
        return None;
      }
      return Some(Scaled(rc.value, scale));
    }

    /** `Impl::write_reg`. */
    method WriteReg(bus: Bus, reg: u16, value: real, scale: real) returns (ok: bool)
      modifies this
      ensures var x := WriteRegister(bus, |old(sent)|, reg, value, scale);
        ok == x.result && sent == old(sent) + x.sent
      ensures lastValid == old(lastValid)
    {
      var raw := RawRegister(value, scale);
      ok := bus.write(|sent|, WriteSingleRegister(reg, raw));
      sent := sent + [WriteSingleRegister(reg, raw)];
    }

    /** The channel search loop shared by the public operations. */
    method FindChannel(id: int) returns (r: Option<nat>)
      ensures r == Lookup(cfg.channels, id)
    {
      var i := 0;
      while i < |cfg.channels|
        invariant 0 <= i <= |cfg.channels|
        invariant forall j :: 0 <= j < i ==> cfg.channels[j].id != id
      {
        if cfg.channels[i].id == id {
          return Some(i);
        }
        i := i + 1;
      }
      return None;
    }

    /** `read_channel_celsius(ch)`. */
    method ReadChannelCelsius(bus: Bus, ch: int) returns (val: Option<real>)
      modifies this
      ensures var x := ReadChannel(bus, |old(sent)|, cfg.channels, ch);
        val == x.result && sent == old(sent) + x.sent
      ensures lastValid == old(lastValid)
    {
      var found := FindChannel(ch);
      if found.None? {
        return None;
      }
      var c := cfg.channels[found.value];
      val := ReadReg(bus, c.regMeas, c.scale);
    }

    /** `read_celsius()`. */
    method ReadCelsius(bus: Bus) returns (val: Option<real>)
      modifies this
      ensures var x := ReadFirst(bus, |old(sent)|, cfg.channels);
        val == x.result && sent == old(sent) + x.sent
      ensures lastValid == old(lastValid)
    {
      if |cfg.channels| == 0 {
        return None;
      }
      val := ReadChannelCelsius(bus, cfg.channels[0].id);
    }

    /** `write_setpoint_celsius(ch, value)`. */
    method WriteSetpointCelsius(bus: Bus, ch: int, value: real) returns (ok: bool)
      modifies this
      ensures var x := WriteSetpoint(bus, |old(sent)|, cfg.channels, ch, value);
        ok == x.result && sent == old(sent) + x.sent
      ensures lastValid == old(lastValid)
    {
      var found := FindChannel(ch);
      if found.None? {
        return false;
      }
      var c := cfg.channels[found.value];
      var busResult := WriteReg(bus, c.regSv, value, c.scale);
      if c.regSv >= 0 && c.regSv <= 5 {
        return true;
      }
      return busResult;
    }

    /** The size check of `read_all_channels_celsius`: the remembered values
        are replaced by all-NaN when their count differs from the channel count. */
    method ResizeLastValid()
      modifies this
      ensures lastValid[..] == Prior(old(lastValid[..]), |cfg.channels|)
      ensures lastValid == old(lastValid) || fresh(lastValid)
      ensures sent == old(sent)
    {
      if lastValid.Length != |cfg.channels| {
        lastValid := new Option<real>[|cfg.channels|](_ => None);
      }
    }

    /** One iteration of the batch loop, from the batch state `b` reached so far
        (`sent` is `s0` followed by `b`'s requests). */
    method ReadSlot(bus: Bus, i: nat, ghost s0: seq<Request>, ghost b: Batch) returns (val: Option<real>)
      requires i < |cfg.channels| == lastValid.Length == |b.last|
      requires sent == s0 + b.sent && lastValid[..] == b.last
      modifies this, lastValid
      ensures lastValid == old(lastValid)
      ensures var c := BatchStep(bus, |s0|, cfg.channels, b, i);
        sent == s0 + c.sent && lastValid[..] == c.last && c.out == b.out + [val]
    {
      var c := cfg.channels[i];
      val := ReadReg(bus, c.regMeas, c.scale);
      if val.None? {
        val := lastValid[i];
      } else {
        lastValid[i] := val;
      }
    }

    /** The batch loop of `read_all_channels_celsius`, over an array already
        sized to the channel list. */
    method ReadChannelsInto(bus: Bus) returns (out: seq<Option<real>>)
      requires lastValid.Length == |cfg.channels|
      modifies this, lastValid
      ensures lastValid == old(lastValid)
      ensures var b := BatchRead(bus, |old(sent)|, cfg.channels, old(lastValid[..]), |cfg.channels|);
        out == b.out && lastValid[..] == b.last && sent == old(sent) + b.sent
    {
      ghost var s0, last0 := sent, lastValid[..];
      var chans := cfg.channels;
      ghost var b := Batch([], last0, []);
      out := [];
      var i := 0;
      while i < |chans|
        invariant i <= |chans| && lastValid == old(lastValid)
        invariant b == BatchRead(bus, |s0|, chans, last0, i)
        invariant out == b.out && lastValid[..] == b.last && sent == s0 + b.sent
      {
        var val := ReadSlot(bus, i, s0, b);
        out := out + [val];
        b := BatchStep(bus, |s0|, chans, b, i);
        i := i + 1;
      }
    }

    /** `read_all_channels_celsius()`. */
    method ReadAllChannelsCelsius(bus: Bus) returns (out: seq<Option<real>>)
      modifies this, lastValid
      ensures var b := ReadAll(bus, |old(sent)|, cfg.channels, old(lastValid[..]));
        out == b.out && lastValid[..] == b.last && sent == old(sent) + b.sent
    {
      ResizeLastValid();
      out := ReadChannelsInto(bus);
    }
  }
}
