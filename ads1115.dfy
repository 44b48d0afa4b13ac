/** ADS1115 16-bit analog-to-digital converter: validation and encoding of
    the configuration word, and the signed decoding of a conversion. */
module Ads1115 {
  import opened CTypes
  import opened Bus

  const DEFAULT_ADDRESS: bv16 := 0x48
  /** Index of `FULL_SCALES` the constructor selects: +-2.048 V. */
  const DEFAULT_FS_MODE: byte := 2
  const POINTER_CONVERSION: byte := 0x00
  const POINTER_CONFIG: byte := 0x01
  /** Low byte of the configuration word: 128 samples per second, comparator
      disabled. */
  const CONFIG_LOW: byte := 0x83

  /** High byte of the configuration word for analog input `ai` and
      full-scale mode `fs`: `16 * ai + 2 * fs + 0xC0` stored into a `__u8`,
      so arithmetic wraps modulo 2^8. */
  function ConfigHigh(ai: byte, fs: byte): byte {
    0x10 * ai + 0x02 * fs + 0xC0
  }

  /** For an accepted input the high byte does not wrap and stays at most
      0xF8; its bits 5..4 give the input back, bits 3..1 the full-scale
      mode, bits 7..6 are set (start a conversion, single-ended input) and
      bit 0 is clear (continuous conversion). */
  lemma ConfigHighDecodes(ai: byte, fs: byte)
    requires ai < 4 && fs < 5
    ensures var b := ConfigHigh(ai, fs);
            b as int == 0xC0 + 16 * ai as int + 2 * fs as int && b <= 0xF8 &&
            (b >> 4) & 3 == ai && (b >> 1) & 7 == fs &&
            b & 0xC0 == 0xC0 && b & 1 == 0
  {
  }

  /** Different accepted inputs give different high bytes. */
  lemma ConfigHighInjective(ai: byte, fs: byte, ai': byte, fs': byte)
    requires ai < 4 && fs < 5 && ai' < 4 && fs' < 5
    requires ConfigHigh(ai, fs) == ConfigHigh(ai', fs')
    ensures ai == ai' && fs == fs'
  {
    ConfigHighDecodes(ai, fs);
    ConfigHighDecodes(ai', fs');
  }

  /** The error `set_config` raises for input `ai` and mode `fs`, if any:
      the input is checked first, then the mode. */
  function ConfigError(ai: byte, fs: byte): (e: Option<BusError>)
    ensures e == None <==> ai < 4 && fs < 5
    ensures ai >= 4 ==> e == Some(InvalidAnalogInput)
    ensures ai < 4 && fs >= 5 ==> e == Some(InvalidFullScaleMode)
  {
    if ai >= 4 then Some(InvalidAnalogInput)
    else if fs >= 5 then Some(InvalidFullScaleMode)
    else None
  }

  datatype Option<T> = None | Some(value: T)

  /** The calls an accepted `set_config` issues: addressing (when needed),
      the pointer to the config register with the configuration word, then
      the pointer back to the conversion register. */
  function ConfigScript(a: seq<Event>, ai: byte, fs: byte): seq<Event> {
    a + ([ConfigWrite(ai, fs)] + [Write([POINTER_CONVERSION])])
  }

  /** The 3-byte transfer of the configuration word. */
  function ConfigWrite(ai: byte, fs: byte): Event {
    Write([POINTER_CONFIG, ConfigHigh(ai, fs), CONFIG_LOW])
  }

  /** The calls `read_voltage` issues: addressing (when needed) and one
      2-byte read of the conversion register. */
  function VoltageScript(a: seq<Event>): seq<Event> {
    a + [Read(2)]
  }

  /** The conversion result for the two bytes read, most significant first:
      a two's-complement 16-bit sample. */
  function Sample(b0: byte, b1: byte): (v: int)
    ensures -0x8000 <= v < 0x8000
    ensures b0 < 0x80 ==> v == b0 as int * 0x100 + b1 as int
    ensures b0 >= 0x80 ==> v == b0 as int * 0x100 + b1 as int - 0x1_0000
  {
    ToS16(BigEndian16(b0, b1))
  }

  class ADS1115 {
    const bus: I2CBus
    const deviceAddress: bv16
    /** `_buffer`, the three bytes every transfer goes through. */
    const buffer: array<byte>
    /** The full-scale mode last accepted; `_conversion_factor` is
        `FULL_SCALES[fsMode] / 32768`. */
    var fsMode: byte

    ghost predicate Valid()
      reads this
    {
      buffer.Length == 3
    }

    /** Stores the bus and the address; no bus traffic. The C++ constructor
        goes on with `set_config(0)`, which `Attach` does. */
    constructor (bus: I2CBus, deviceAddress: bv16)
      ensures Valid() && fresh(buffer)
      ensures this.bus == bus && this.deviceAddress == deviceAddress
    {
      this.bus := bus;
      this.deviceAddress := deviceAddress;
      buffer := new byte[3];
      fsMode := DEFAULT_FS_MODE;
    }

    /** `set_config(ai, fs)`. A rejected input raises before anything
        changes. An accepted one sets the full-scale mode, then sends the
        configuration. */
    method SetConfig(ai: byte, fs: byte) returns (r: Outcome)
      requires Valid()
      modifies this, buffer, bus
      ensures r.Pass? ==> bus.AddressScript(deviceAddress) == []
      ensures ConfigError(ai, fs).Some? ==>
                r == Fail(ConfigError(ai, fs).value) &&
                buffer[..] == old(buffer[..]) && fsMode == old(fsMode) && unchanged(bus)
      ensures ConfigError(ai, fs).None? ==> fsMode == fs
      ensures ConfigError(ai, fs).None? ==>
                bus.trace == bus.Run(old(bus.trace), ConfigScript(old(bus.AddressScript(deviceAddress)), ai, fs))
      ensures ConfigError(ai, fs).None? ==>
                (r.Pass? <==> bus.Completes(old(bus.trace), ConfigScript(old(bus.AddressScript(deviceAddress)), ai, fs)))
      ensures ConfigError(ai, fs).None? && r.Fail? ==> r.error == AddressFailed || TransferError(r.error)
      ensures ConfigError(ai, fs).None? ==>
                buffer[..] == [if bus.Completes(old(bus.trace), old(bus.AddressScript(deviceAddress)) + [ConfigWrite(ai, fs)])
                               then POINTER_CONVERSION else POINTER_CONFIG,
                               ConfigHigh(ai, fs), CONFIG_LOW]
    {
      if ai >= 4 {
        return Fail(InvalidAnalogInput);
      }
      if fs >= 5 {
        return Fail(InvalidFullScaleMode);
      }
      fsMode := fs;
      r := SendConfig(ai, fs);
    }

    /** The traffic of an accepted `set_config`: fills the buffer with the
        configuration before any traffic, then addresses the device, sends
        the 3-byte configuration and, once that has gone through,
        overwrites the first byte with 0 and sends it alone. The first call
        that fails ends it. */
    method SendConfig(ai: byte, fs: byte) returns (r: Outcome)
      requires Valid()
      modifies buffer, bus
      ensures r.Pass? ==> bus.AddressScript(deviceAddress) == []
      ensures bus.trace == bus.Run(old(bus.trace), ConfigScript(old(bus.AddressScript(deviceAddress)), ai, fs))
      ensures r.Pass? <==> bus.Completes(old(bus.trace), ConfigScript(old(bus.AddressScript(deviceAddress)), ai, fs))
      ensures r.Fail? ==> r.error == AddressFailed || TransferError(r.error)
      ensures buffer[..] == [if bus.Completes(old(bus.trace), old(bus.AddressScript(deviceAddress)) + [ConfigWrite(ai, fs)])
                             then POINTER_CONVERSION else POINTER_CONFIG,
                             ConfigHigh(ai, fs), CONFIG_LOW]
    {
      buffer[0], buffer[1], buffer[2] := POINTER_CONFIG, ConfigHigh(ai, fs), CONFIG_LOW;
      ghost var t0 := bus.trace;
      ghost var a := bus.AddressScript(deviceAddress);
      ghost var w1 := [ConfigWrite(ai, fs)];
      ghost var w2 := [Write([POINTER_CONVERSION])];
      r := bus.SetDeviceAddress(deviceAddress);
      bus.Advance(t0, bus.trace, a, w1 + w2, r.Pass?);
      if r.Fail? {
        bus.Advance(t0, bus.trace, a, w1, false);
        return;
      }
      ghost var t1 := bus.trace;
      assert buffer[..] == [POINTER_CONFIG, ConfigHigh(ai, fs), CONFIG_LOW];
      r := bus.WriteToDevice(buffer[..]);
      bus.Advance(t1, bus.trace, w1, w2, r.Pass?);
      bus.Advance(t0, t1, a, w1, true);
      if r.Fail? {
        return;
      }
      buffer[0] := POINTER_CONVERSION;
      assert buffer[..1] == [POINTER_CONVERSION];
      r := bus.WriteToDevice(buffer[..1]);
    }

    /** `read_voltage`, up to the floating-point scaling: addresses the
        device, reads two bytes into the buffer and returns the signed
        sample they encode. */
    method ReadVoltage() returns (r: Result<int>)
      requires Valid()
      modifies buffer, bus
      ensures r.Ok? ==> bus.AddressScript(deviceAddress) == []
      ensures bus.trace == bus.Run(old(bus.trace), VoltageScript(old(bus.AddressScript(deviceAddress))))
      ensures r.Ok? <==> bus.Completes(old(bus.trace), VoltageScript(old(bus.AddressScript(deviceAddress))))
      ensures r.Err? ==> r.error == AddressFailed || TransferError(r.error)
      ensures r.Ok? ==>
                var d := DataAt(bus.kernel, |old(bus.trace)| + |old(bus.AddressScript(deviceAddress))|, 2);
                buffer[..] == [d[0], d[1], old(buffer[2])] && r.value == Sample(d[0], d[1])
    {
      ghost var t0 := bus.trace;
      ghost var a := bus.AddressScript(deviceAddress);
      var s := bus.SetDeviceAddress(deviceAddress);
      bus.Advance(t0, bus.trace, a, [Read(2)], s.Pass?);
      if s.Fail? {
        return Err(s.error);
      }
      var d := bus.ReadFromDevice(2);
      if d.Err? {
        return Err(d.error);
      }
      buffer[0] := d.value[0];
      buffer[1] := d.value[1];
      r := Ok(Sample(buffer[0], buffer[1]));
    }

    /** The C++ constructor: stores the bus and the address, then runs
        `set_config(0)` with the default full-scale mode 2. */
    static method Attach(bus: I2CBus, deviceAddress: bv16) returns (r: Result<ADS1115>)
      modifies bus
      ensures r.Ok? ==> bus.AddressScript(deviceAddress) == []
      ensures var s := ConfigScript(old(bus.AddressScript(deviceAddress)), 0, DEFAULT_FS_MODE);
              bus.trace == bus.Run(old(bus.trace), s) &&
              (r.Ok? <==> bus.Completes(old(bus.trace), s))
      ensures r.Ok? ==> fresh(r.value) && r.value.Valid() && r.value.bus == bus &&
                        r.value.deviceAddress == deviceAddress && r.value.fsMode == DEFAULT_FS_MODE
    {
      var dev := new ADS1115(bus, deviceAddress);
      var s := dev.SetConfig(0, DEFAULT_FS_MODE);
      if s.Fail? {
        return Err(s.error);
      }
      r := Ok(dev);
    }
  }
}
