/** PCA9685 16-channel PWM controller: the 5-byte PWM frame, the MODE1 bit
    edits and the prescaler sequence. */
module Pca9685 {
  import opened CTypes
  import opened Bus

  const DEFAULT_ADDRESS: bv16 := 0x40
  const FREQUENCY_OSCILLATOR: nat := 25_000_000
  const PRESCALE: byte := 0xFE
  const LED0_ON_L: byte := 0x06
  const MODE1: byte := 0x00
  const MODE1_SLEEP: byte := 0x10
  const MODE1_RESTART: byte := 0x80
  const MODE1_AI: byte := 0x20

  /** MODE1 for going to sleep: RESTART (bit 7) cleared, SLEEP (bit 4) set,
      every other bit as it was. */
  function SleepMode(oldMode: byte): (m: byte)
    ensures m & MODE1_RESTART == 0
    ensures m & MODE1_SLEEP == MODE1_SLEEP
    ensures m & 0x6F == oldMode & 0x6F
  {
    (oldMode & !MODE1_RESTART) | MODE1_SLEEP
  }

  /** MODE1 for waking up: SLEEP cleared, every other bit as it was. */
  function WakeMode(mode: byte): (m: byte)
    ensures m & MODE1_SLEEP == 0
    ensures m & 0xEF == mode & 0xEF
  {
    mode & !MODE1_SLEEP
  }

  /** MODE1 for restarting with auto-increment: RESTART and AI set, every
      other bit as it was. */
  function RestartMode(oldMode: byte): (m: byte)
    ensures m & MODE1_RESTART == MODE1_RESTART && m & MODE1_AI == MODE1_AI
    ensures m & 0x5F == oldMode & 0x5F
  {
    oldMode | MODE1_RESTART | MODE1_AI
  }

  /** The prescale register value for an estimate `v`: clamped into
      [3, 255], then truncated toward zero as the cast to `__u8` does. */
  function ClampPrescale(v: real): (p: byte)
    ensures 3 <= p
    ensures 3.0 <= v < 256.0 ==> p as int == v.Floor
    ensures v < 3.0 ==> p == 3
    ensures v >= 256.0 ==> p == 255
  {
    if v < 3.0 then 3 else if v > 255.0 then 255 else ByteOf(v.Floor)
  }

  /** The single transfer `set_PWM(num, on, off)` sends: the channel's
      LEDn_ON_L register, then the on and off ticks, low byte first. */
  function PwmFrame(num: byte, on: bv16, off: bv16): (f: seq<byte>)
    ensures |f| == 5
  {
    [LED0_ON_L + 4 * num, Low(on), High(on), Low(off), High(off)]
  }

  /** The frame addresses register 6 + 4 * num modulo 2^8, which for the
      sixteen channels is LED0_ON_L (0x06) up to LED15_ON_L (0x42); the on
      and off ticks are recovered from their two bytes. */
  lemma PwmFrameDecodes(num: byte, on: bv16, off: bv16)
    ensures var f := PwmFrame(num, on, off);
            f[0] as int == (6 + 4 * num as int) % 0x100 &&
            (num < 16 ==> 0x06 <= f[0] <= 0x42 && f[0] as int == 6 + 4 * num as int) &&
            BigEndian16(f[2], f[1]) == on && BigEndian16(f[4], f[3]) == off
  {
    SplitWord(on);
    SplitWord(off);
  }

  /** The frames `turn_off` sends from channel `i` on, in increasing
      channel order: every channel's on and off ticks set to zero. */
  function OffFrames(i: byte): (s: seq<Event>)
    requires i <= 16
    ensures |s| == 16 - i as int
    decreases 16 - i as int
  {
    if i == 16 then [] else [Write(PwmFrame(i, 0, 0))] + OffFrames(i + 1)
  }

  /** The frames from channel `i` on are channel `i`'s frame followed by
      the frames from channel `i + 1` on. */
  lemma OffFramesSplit(pending: seq<Event>, i: byte)
    requires i < 16
    ensures pending + OffFrames(i) == (pending + [Write(PwmFrame(i, 0, 0))]) + OffFrames(i + 1)
    ensures [] + OffFrames(i + 1) == OffFrames(i + 1)
  {
  }

  /** Frame `j` of those from channel `i` on is channel `i + j`'s, so
      `turn_off` zeroes every channel from `i` to 15 exactly once. */
  lemma {:induction false} OffFramesChannel(i: byte, j: byte)
    requires i as int + j as int < 16
    ensures OffFrames(i)[j as int] == Write(PwmFrame(i + j, 0, 0))
    decreases j
  {
    if j > 0 {
      OffFramesChannel(i + 1, j - 1);
      assert (i + 1) + (j - 1) == i + j;
    }
  }

  class PCA9685 {
    const bus: I2CBus
    const deviceAddress: bv16
    const oscillatorFrequency: nat

    /** Stores the bus and the address; no bus traffic. */
    constructor (bus: I2CBus, deviceAddress: bv16, oscillatorFrequency: nat)
      ensures this.bus == bus && this.deviceAddress == deviceAddress
      ensures this.oscillatorFrequency == oscillatorFrequency
    {
      this.bus := bus;
      this.deviceAddress := deviceAddress;
      this.oscillatorFrequency := oscillatorFrequency;
    }

    /** Register read: the register number as one transfer, then one byte. */
    method Read8(reg: byte) returns (r: Result<byte>)
      modifies bus`trace
      ensures bus.trace == bus.Run(old(bus.trace), [Write([reg])] + [Read(1)])
      ensures r.Ok? <==> bus.Completes(old(bus.trace), [Write([reg])] + [Read(1)])
      ensures r.Ok? ==> r.value == ByteAt(bus.kernel, |old(bus.trace)| + 1)
    {
      ghost var t0 := bus.trace;
      var w := bus.WriteToDevice([reg]);
      bus.Advance(t0, bus.trace, [Write([reg])], [Read(1)], w.Pass?);
      if w.Fail? {
        return Err(w.error);
      }
      var b := bus.ReadFromDevice(1);
      if b.Err? {
        return Err(b.error);
      }
      r := Ok(b.value[0]);
    }

    /** Register write: register number and value as one 2-byte transfer. */
    method Write8(reg: byte, value: byte) returns (r: Outcome)
      modifies bus`trace
      ensures bus.trace == bus.Run(old(bus.trace), [Write([reg, value])])
      ensures r.Pass? <==> bus.Completes(old(bus.trace), [Write([reg, value])])
    {
      r := bus.WriteToDevice([reg, value]);
    }

    /** The calls `set_PWM(num, on, off)` issues: addressing (when needed)
        and the frame. */
    function PwmScript(a: seq<Event>, num: byte, on: bv16, off: bv16): seq<Event> {
      a + [Write(PwmFrame(num, on, off))]
    }

    method SetPwm(num: byte, on: bv16, off: bv16) returns (r: Outcome)
      modifies bus
      ensures bus.trace == bus.Run(old(bus.trace), PwmScript(old(bus.AddressScript(deviceAddress)), num, on, off))
      ensures r.Pass? <==> bus.Completes(old(bus.trace), PwmScript(old(bus.AddressScript(deviceAddress)), num, on, off))
      ensures r.Pass? ==> bus.AddressScript(deviceAddress) == []
    {
      ghost var t0 := bus.trace;
      ghost var a := bus.AddressScript(deviceAddress);
      r := bus.SetDeviceAddress(deviceAddress);
      bus.Advance(t0, bus.trace, a, [Write(PwmFrame(num, on, off))], r.Pass?);
      if r.Fail? {
        return;
      }
      var buffer := new byte[5] [LED0_ON_L + 4 * num, Low(on), High(on), Low(off), High(off)];
      assert buffer[..] == PwmFrame(num, on, off);
      r := bus.WriteToDevice(buffer[..]);
    }

    /** The calls `set_PWM_freq` issues: addressing (when needed), a read of
        MODE1, then MODE1 <- sleep, PRESCALE <- p, MODE1 <- old mode, and
        MODE1 <- old mode with RESTART and AI; the old mode is the byte read
        by call number `k + |a| + 1`. */
    function FreqScript(a: seq<Event>, k: nat, p: byte): seq<Event> {
      var oldMode := ByteAt(bus.kernel, k + |a| + 1);
      a + (([Write([MODE1])] + [Read(1)]) + FreqWrites(oldMode, p))
    }

    /** The four register writes of `set_PWM_freq` once the old mode is known. */
    function FreqWrites(oldMode: byte, p: byte): seq<Event> {
      [Write([MODE1, SleepMode(oldMode)])] + ([Write([PRESCALE, p])] +
      ([Write([MODE1, oldMode])] + [Write([MODE1, RestartMode(oldMode)])]))
    }

    /** `preScaleVal` stands for the floating-point estimate
        oscillator / (freq * 4096) + 0.5 - 1. */
    method SetPwmFreq(preScaleVal: real) returns (r: Outcome)
      modifies bus
      ensures r.Pass? ==> bus.AddressScript(deviceAddress) == []
      ensures bus.trace == bus.Run(old(bus.trace), FreqScript(old(bus.AddressScript(deviceAddress)), |old(bus.trace)|, ClampPrescale(preScaleVal)))
      ensures r.Pass? <==> bus.Completes(old(bus.trace), FreqScript(old(bus.AddressScript(deviceAddress)), |old(bus.trace)|, ClampPrescale(preScaleVal)))
    {
      ghost var t0 := bus.trace;
      ghost var a := bus.AddressScript(deviceAddress);
      var preScale := ClampPrescale(preScaleVal);
      ghost var rest := ([Write([MODE1])] + [Read(1)]) + FreqWrites(ByteAt(bus.kernel, |t0| + |a| + 1), preScale);
      assert FreqScript(a, |t0|, preScale) == a + rest;
      r := bus.SetDeviceAddress(deviceAddress);
      bus.Advance(t0, bus.trace, a, rest, r.Pass?);
      if r.Fail? {
        return;
      }
      assert rest == ([Write([MODE1])] + [Read(1)]) + FreqWrites(ByteAt(bus.kernel, |bus.trace| + 1), preScale);
      r := ReadAndWriteModes(preScale);
    }

    /** `set_PWM_freq` once the device is addressed: reads MODE1, then
        issues the four writes built from the byte read. */
    method ReadAndWriteModes(preScale: byte) returns (r: Outcome)
      modifies bus`trace
      ensures bus.trace == bus.Run(old(bus.trace), ([Write([MODE1])] + [Read(1)]) + FreqWrites(ByteAt(bus.kernel, |old(bus.trace)| + 1), preScale))
      ensures r.Pass? <==> bus.Completes(old(bus.trace), ([Write([MODE1])] + [Read(1)]) + FreqWrites(ByteAt(bus.kernel, |old(bus.trace)| + 1), preScale))
    {
      ghost var t0 := bus.trace;
      ghost var writes := FreqWrites(ByteAt(bus.kernel, |t0| + 1), preScale);
      var m := Read8(MODE1);
      bus.Advance(t0, bus.trace, [Write([MODE1])] + [Read(1)], writes, m.Ok?);
      if m.Err? {
        return Fail(m.error);
      }
      r := WriteModes(m.value, preScale);
    }

    /** The four writes of `set_PWM_freq`, stopping at the first failure. */
    method WriteModes(oldMode: byte, preScale: byte) returns (r: Outcome)
      modifies bus`trace
      ensures bus.trace == bus.Run(old(bus.trace), FreqWrites(oldMode, preScale))
      ensures r.Pass? <==> bus.Completes(old(bus.trace), FreqWrites(oldMode, preScale))
    {
      ghost var w2 := [Write([PRESCALE, preScale])];
      ghost var w3 := [Write([MODE1, oldMode])];
      ghost var w4 := [Write([MODE1, RestartMode(oldMode)])];
      ghost var t0 := bus.trace;
      r := Write8(MODE1, SleepMode(oldMode));
      bus.Advance(t0, bus.trace, [Write([MODE1, SleepMode(oldMode)])], w2 + (w3 + w4), r.Pass?);
      if r.Fail? {
        return;
      }
      ghost var t1 := bus.trace;
      r := Write8(PRESCALE, preScale);
      bus.Advance(t1, bus.trace, w2, w3 + w4, r.Pass?);
      if r.Fail? {
        return;
      }
      ghost var t2 := bus.trace;
      r := Write8(MODE1, oldMode);
      bus.Advance(t2, bus.trace, w3, w4, r.Pass?);
      if r.Fail? {
        return;
      }
      r := Write8(MODE1, RestartMode(oldMode));
    }

    /** The calls `wake_up` issues (it does not address the device): a read
        of MODE1, then MODE1 <- that byte with SLEEP cleared. */
    function WakeScript(k: nat): seq<Event> {
      ([Write([MODE1])] + [Read(1)]) + [Write([MODE1, WakeMode(ByteAt(bus.kernel, k + 1))])]
    }

    method WakeUp() returns (r: Outcome)
      modifies bus`trace
      ensures bus.trace == bus.Run(old(bus.trace), WakeScript(|old(bus.trace)|))
      ensures r.Pass? <==> bus.Completes(old(bus.trace), WakeScript(|old(bus.trace)|))
    {
      ghost var t0 := bus.trace;
      var m := Read8(MODE1);
      ghost var last := [Write([MODE1, WakeMode(ByteAt(bus.kernel, |t0| + 1))])];
      bus.Advance(t0, bus.trace, [Write([MODE1])] + [Read(1)], last, m.Ok?);
      if m.Err? {
        return Fail(m.error);
      }
      r := Write8(MODE1, WakeMode(m.value));
    }

    /** One pass of the `turn_off` loop: `set_PWM(i, 0, 0)` issued on top
        of `tb` with addressing script `pending`; after a success nothing
        is left to address. */
    lemma OffStep(tb: seq<Event>, tAfter: seq<Event>, pending: seq<Event>, i: byte, ok: bool)
      requires i < 16
      requires tAfter == bus.Run(tb, PwmScript(pending, i, 0, 0))
      requires ok <==> bus.Completes(tb, PwmScript(pending, i, 0, 0))
      ensures ok ==> bus.Run(tb, pending + OffFrames(i)) == bus.Run(tAfter, [] + OffFrames(i + 1))
      ensures ok ==> (bus.Completes(tb, pending + OffFrames(i)) <==> bus.Completes(tAfter, [] + OffFrames(i + 1)))
      ensures !ok ==> bus.Run(tb, pending + OffFrames(i)) == tAfter && !bus.Completes(tb, pending + OffFrames(i))
    {
      OffFramesSplit(pending, i);
      bus.Advance(tb, tAfter, PwmScript(pending, i, 0, 0), OffFrames(i + 1), ok);
    }

    /** `set_PWM(i, 0, 0)` for i = 0 .. 15 in increasing order; only the
        first may address the device. */
    method TurnOff() returns (r: Outcome)
      modifies bus
      ensures r.Pass? ==> bus.AddressScript(deviceAddress) == []
      ensures bus.trace == bus.Run(old(bus.trace), old(bus.AddressScript(deviceAddress)) + OffFrames(0))
      ensures r.Pass? <==> bus.Completes(old(bus.trace), old(bus.AddressScript(deviceAddress)) + OffFrames(0))
    {
      ghost var t0 := bus.trace;
      ghost var a := bus.AddressScript(deviceAddress);
      ghost var pending := a;
      var i: byte := 0;
      r := Pass;
      while i < 16
        invariant i <= 16 && r.Pass?
        invariant pending == bus.AddressScript(deviceAddress) && (i > 0 ==> pending == [])
        invariant bus.Run(t0, a + OffFrames(0)) == bus.Run(bus.trace, pending + OffFrames(i))
        invariant bus.Completes(t0, a + OffFrames(0)) <==> bus.Completes(bus.trace, pending + OffFrames(i))
        decreases 16 - i as int
      {
        ghost var tb := bus.trace;
        r := SetPwm(i, 0, 0);
        OffStep(tb, bus.trace, pending, i, r.Pass?);
        if r.Fail? {
          return;
        }
        i := i + 1;
        pending := [];
      }
      bus.RunNothing(bus.trace);
    }

    /** The destructor: turns every channel off, as `turn_off` does. */
    method Destroy() returns (r: Outcome)
      modifies bus
      ensures r.Pass? ==> bus.AddressScript(deviceAddress) == []
      ensures bus.trace == bus.Run(old(bus.trace), old(bus.AddressScript(deviceAddress)) + OffFrames(0))
      ensures r.Pass? <==> bus.Completes(old(bus.trace), old(bus.AddressScript(deviceAddress)) + OffFrames(0))
    {
      r := TurnOff();
    }
  }
}
