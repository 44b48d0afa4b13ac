/** The BME280 driver: register reads and writes over the shared bus, the
    calibration readout, the sampling configuration, the start-up sequence
    and the temperature reading. */
module Bme280 {
  import opened CTypes
  import opened Bus
  import opened Bme280Calibration

  const DEFAULT_ADDRESS: bv16 := 0x77
  const REGISTER_SOFTRESET: byte := 0xE0
  const REGISTER_CONTROLHUMID: byte := 0xF2
  const REGISTER_STATUS: byte := 0xF3
  const REGISTER_CONTROL: byte := 0xF4
  const REGISTER_CONFIG: byte := 0xF5
  const REGISTER_TEMPDATA: byte := 0xFA
  const SOFT_RESET_CODE: byte := 0xB6
  const MODE_SLEEP: byte := 0x00

  /** A register read: the register number as a 1-byte transfer, then an
      `n`-byte read. */
  function ReadScript(reg: byte, n: nat): (s: seq<Event>)
    ensures |s| == 2 && s[0] == Write([reg]) && s[1] == Read(n)
  {
    [Write([reg]), Read(n)]
  }

  /** Call `j` of the coefficient readout counted from its i-th read:
      call `j % 2` of register read `i + j / 2`. */
  function CoefficientCall(i: nat, j: nat): Event
    requires i + j / 2 < CALIBRATION_READS
  {
    var n := i + j / 2;
    if j % 2 == 0 then Write([CalibrationRegister(n)]) else Read(CalibrationWidth(n))
  }

  /** The calls of `read_coefficients` from its i-th read on: for each
      register of the table, in order, its number and then a read of its
      width. */
  function CoefficientScript(i: nat): (s: seq<Event>)
    requires i <= CALIBRATION_READS
    ensures |s| == 2 * (CALIBRATION_READS - i)
  {
    seq(2 * (CALIBRATION_READS - i), j requires 0 <= j < 2 * (CALIBRATION_READS - i) => CoefficientCall(i, j))
  }

  /** Counting from read `i` or from read `i + 1` names the same calls. */
  lemma CoefficientCallShift(i: nat, j: nat)
    requires j >= 2 && i + j / 2 < CALIBRATION_READS
    ensures CoefficientCall(i, j) == CoefficientCall(i + 1, j - 2)
  {
    assert i + j / 2 == (i + 1) + (j - 2) / 2 && j % 2 == (j - 2) % 2;
  }

  /** The script from read `i` on is read `i` followed by the script from
      read `i + 1` on. */
  lemma CoefficientScriptStep(i: nat)
    requires i < CALIBRATION_READS
    ensures CoefficientScript(i) ==
            ReadScript(CalibrationRegister(i), CalibrationWidth(i)) + CoefficientScript(i + 1)
  {
    var s := CoefficientScript(i);
    var head := ReadScript(CalibrationRegister(i), CalibrationWidth(i));
    var rest := CoefficientScript(i + 1);
    forall j | 2 <= j < |s|
      ensures s[j] == rest[j - 2]
    {
      CoefficientCallShift(i, j);
      assert s[j] == CoefficientCall(i, j) && rest[j - 2] == CoefficientCall(i + 1, j - 2);
    }
    assert s == head + rest;
  }

  /** The calls the coefficient readout issues from its i-th read on,
      started at call number `k`, one register read at a time: a read that
      fails ends it. */
  function ReadoutCalls(kernel: Kernel, k: nat, i: nat): seq<Event>
    requires i <= CALIBRATION_READS
    decreases CALIBRATION_READS - i, k
  {
    if i == CALIBRATION_READS then []
    else
      var s := ReadScript(CalibrationRegister(i), CalibrationWidth(i));
      if AllSucceed(kernel, k, s) then s + ReadoutCalls(kernel, k + 2, i + 1)
      else Issued(kernel, k, s)
  }

  /** The trace the readout leaves when run from its i-th read on top of
      trace `t`. */
  function ReadoutFrom(kernel: Kernel, t: seq<Event>, i: nat): seq<Event>
    requires i <= CALIBRATION_READS
  {
    t + ReadoutCalls(kernel, |t|, i)
  }

  /** Every read of the readout from its i-th on, started at call number
      `k`, succeeds. */
  predicate ReadoutCompletes(kernel: Kernel, k: nat, i: nat)
    requires i <= CALIBRATION_READS
    decreases CALIBRATION_READS - i, k
  {
    i == CALIBRATION_READS ||
    (AllSucceed(kernel, k, ReadScript(CalibrationRegister(i), CalibrationWidth(i))) &&
     ReadoutCompletes(kernel, k + 2, i + 1))
  }

  /** Read by read, the readout issues exactly what its script issues. */
  lemma {:induction false} ReadoutIsScript(kernel: Kernel, k: nat, i: nat)
    requires i <= CALIBRATION_READS
    ensures ReadoutCalls(kernel, k, i) == Issued(kernel, k, CoefficientScript(i))
    ensures ReadoutCompletes(kernel, k, i) == AllSucceed(kernel, k, CoefficientScript(i))
    decreases CALIBRATION_READS - i
  {
    if i < CALIBRATION_READS {
      var s := ReadScript(CalibrationRegister(i), CalibrationWidth(i));
      var rest := CoefficientScript(i + 1);
      CoefficientScriptStep(i);
      AllSucceedAppend(kernel, k, s, rest);
      IssuedAppend(kernel, k, s, rest);
      ReadoutIsScript(kernel, k + 2, i + 1);
    }
  }

  /** The sampling configuration, CONTROL written last: CONTROL <- sleep,
      CONTROLHUMID <- 3 (humidity oversampling x4), CONFIG <- 109,
      CONTROL <- 110. */
  const SAMPLING_SCRIPT: seq<Event> := [
    Write([REGISTER_CONTROL, MODE_SLEEP]), Write([REGISTER_CONTROLHUMID, 3]),
    Write([REGISTER_CONFIG, 109]), Write([REGISTER_CONTROL, 110])]

  /** The bytes read `i` of the coefficient readout delivers when the
      readout starts at call number `k`: its data transfer is call
      `k + 2 * i + 1`. */
  function ReadAt(kernel: Kernel, k: nat, i: nat): (d: seq<byte>)
    requires i < CALIBRATION_READS
    ensures |d| == CalibrationWidth(i)
  {
    DataAt(kernel, k + 2 * i + 1, CalibrationWidth(i))
  }

  /** The bytes of all twenty reads of a readout started at call `k`. */
  function CoefficientData(kernel: Kernel, k: nat): (raw: seq<seq<byte>>)
    ensures RawShaped(raw)
  {
    seq(CALIBRATION_READS, i requires 0 <= i < CALIBRATION_READS => ReadAt(kernel, k, i))
  }

  /** The record after the stores of the first `i` reads of a readout
      started at call `k`, made on top of `c`. */
  function StoredAt(kernel: Kernel, k: nat, c: Calibration, i: nat): Calibration
    requires i <= CALIBRATION_READS
    decreases i, k
  {
    if i == 0 then c
    else StoreEntry(StoredAt(kernel, k, c, i - 1), i - 1, ReadAt(kernel, k, i - 1),
                    if i >= 2 then ReadAt(kernel, k, i - 2)[0] else 0)
  }

  /** After the twenty stores the record is the decoding of the bytes
      read, whatever it held before. */
  lemma StoredAtAll(kernel: Kernel, k: nat, c: Calibration)
    ensures StoredAt(kernel, k, c, CALIBRATION_READS) == DecodeCalibration(CoefficientData(kernel, k))
  {
    StoredAtIsStoredUpTo(kernel, k, c, CALIBRATION_READS);
    StoredAll(c, CoefficientData(kernel, k));
  }

  lemma {:induction false} StoredAtIsStoredUpTo(kernel: Kernel, k: nat, c: Calibration, i: nat)
    requires i <= CALIBRATION_READS
    ensures StoredAt(kernel, k, c, i) == StoredUpTo(c, CoefficientData(kernel, k), i)
  {
    if i > 0 {
      StoredAtIsStoredUpTo(kernel, k, c, i - 1);
    }
  }

  /** The status polls issued from call number `k` on with at most `fuel`
      polls left: each poll is a read of the status register, and polling
      goes on while bit 0 of the byte read is set. */
  function PollScript(kernel: Kernel, k: nat, fuel: nat): (s: seq<Event>)
    ensures fuel == 0 ==> s == []
    ensures |s| % 2 == 0 && |s| <= 2 * fuel
    decreases fuel
  {
    if fuel == 0 then []
    else ReadScript(REGISTER_STATUS, 1) +
         (if ByteAt(kernel, k + 1) & 1 != 0 then PollScript(kernel, k + 2, fuel - 1) else [])
  }

  /** Polling from call number `k` on sees the status bit clear within
      `fuel` polls. */
  predicate PollsReady(kernel: Kernel, k: nat, fuel: nat)
    decreases fuel
  {
    fuel > 0 && (ByteAt(kernel, k + 1) & 1 == 0 || PollsReady(kernel, k + 2, fuel - 1))
  }

  /** Once polling sees the status bit clear within `fuel` polls, a larger
      bound issues the same polls: the bound only matters for a sensor that
      never gets ready. */
  lemma {:induction false} PollScriptSettles(kernel: Kernel, k: nat, fuel: nat, more: nat)
    requires PollsReady(kernel, k, fuel) && fuel <= more
    ensures PollScript(kernel, k, more) == PollScript(kernel, k, fuel)
    decreases fuel
  {
    if ByteAt(kernel, k + 1) & 1 != 0 {
      PollScriptSettles(kernel, k + 2, fuel - 1, more - 1);
    }
  }

  /** The calls `set_config` means to make before the readout, started
      at call number `k` with addressing calls `a`: addressing, the soft
      reset and the status polls. */
  function PreludeScript(kernel: Kernel, a: seq<Event>, k: nat, maxPolls: nat): seq<Event> {
    a + ([Write([REGISTER_SOFTRESET, SOFT_RESET_CODE])] + PollScript(kernel, k + |a| + 1, maxPolls))
  }

  /** The polls of `set_config` started at call `k` with addressing calls
      `a` see the status bit clear. */
  predicate ConfigReady(kernel: Kernel, a: seq<Event>, k: nat, maxPolls: nat) {
    PollsReady(kernel, k + |a| + 1, maxPolls)
  }

  /** The trace the coefficient readout and the sampling configuration
      leave, run on top of trace `t`: the readout, then, once it has
      completed, the four sampling writes. */
  function SetupTrace(kernel: Kernel, t: seq<Event>): seq<Event> {
    var t2 := ReadoutFrom(kernel, t, 0);
    if !ReadoutCompletes(kernel, |t|, 0) then t2
    else t2 + Issued(kernel, |t2|, SAMPLING_SCRIPT)
  }

  /** Every call of the readout and of the sampling configuration, run on
      top of trace `t`, succeeds. */
  predicate SetupCompletes(kernel: Kernel, t: seq<Event>) {
    ReadoutCompletes(kernel, |t|, 0) &&
    AllSucceed(kernel, |t| + 2 * CALIBRATION_READS, SAMPLING_SCRIPT)
  }

  /** The trace `set_config` leaves on top of trace `t`: the prelude, and
      once it has completed with the status bit clear, the readout and the
      sampling configuration. */
  function ConfigTrace(kernel: Kernel, t: seq<Event>, a: seq<Event>, maxPolls: nat): seq<Event> {
    var pre := PreludeScript(kernel, a, |t|, maxPolls);
    var t1 := t + Issued(kernel, |t|, pre);
    if AllSucceed(kernel, |t|, pre) && ConfigReady(kernel, a, |t|, maxPolls) then SetupTrace(kernel, t1)
    else t1
  }

  /** Every call of `set_config` on top of trace `t` succeeds and the
      polls see the status bit clear. */
  predicate ConfigCompletes(kernel: Kernel, t: seq<Event>, a: seq<Event>, maxPolls: nat) {
    var pre := PreludeScript(kernel, a, |t|, maxPolls);
    AllSucceed(kernel, |t|, pre) && ConfigReady(kernel, a, |t|, maxPolls) &&
    SetupCompletes(kernel, t + pre)
  }

  /** The call number at which the coefficient readout of `set_config`
      starts. */
  function CoefficientStart(kernel: Kernel, a: seq<Event>, k: nat, maxPolls: nat): nat {
    k + |PreludeScript(kernel, a, k, maxPolls)|
  }

  /** The readout and the sampling configuration together issue exactly
      the calls of one script: the twenty register reads of the table, then
      the four sampling writes. */
  lemma SetupTraceIsScript(kernel: Kernel, t: seq<Event>)
    ensures SetupTrace(kernel, t) == t + Issued(kernel, |t|, CoefficientScript(0) + SAMPLING_SCRIPT)
  {
    var k, c := |t|, CoefficientScript(0);
    ReadoutIsScript(kernel, k, 0);
    IssuedAppend(kernel, k, c, SAMPLING_SCRIPT);
    if AllSucceed(kernel, k, c) {
      AppendAssociates(t, c, Issued(kernel, k + |c|, SAMPLING_SCRIPT));
    }
  }

  /** They complete exactly when every call of that script succeeds. */
  lemma SetupCompletesIsScript(kernel: Kernel, t: seq<Event>)
    ensures SetupCompletes(kernel, t) <==> AllSucceed(kernel, |t|, CoefficientScript(0) + SAMPLING_SCRIPT)
  {
    var k, c := |t|, CoefficientScript(0);
    ReadoutIsScript(kernel, k, 0);
    AllSucceedAppend(kernel, k, c, SAMPLING_SCRIPT);
    assert k + |c| == k + 2 * CALIBRATION_READS;
  }

  class BME280 {
    const bus: I2CBus
    const deviceAddress: bv16
    /** `_bme280_calib`. */
    var calib: Calibration

    /** Stores the bus and the address; no bus traffic. The C++ constructor
        goes on with `set_config`, which `Attach` does. */
    constructor (bus: I2CBus, deviceAddress: bv16)
      ensures this.bus == bus && this.deviceAddress == deviceAddress
    {
      this.bus := bus;
      this.deviceAddress := deviceAddress;
      calib := Calibration(0, 0, 0, 0, 0, 0, 0, 0, 0, 0, 0, 0, 0, 0, 0, 0, 0, 0);
    }

    /** Register number, then `n` bytes. */
    method ReadBytes(reg: byte, n: nat) returns (r: Result<seq<byte>>)
      modifies bus`trace
      ensures bus.trace == bus.Run(old(bus.trace), ReadScript(reg, n))
      ensures r.Ok? <==> bus.Completes(old(bus.trace), ReadScript(reg, n))
      ensures r.Ok? ==> r.value == DataAt(bus.kernel, |old(bus.trace)| + 1, n)
      ensures r.Err? ==> TransferError(r.error)
    {
      ghost var t0 := bus.trace;
      var w := bus.WriteToDevice([reg]);
      bus.Advance(t0, bus.trace, [Write([reg])], [Read(n)], w.Pass?);
      if w.Fail? {
        return Err(w.error);
      }
      ghost var t1 := bus.trace;
      r := bus.ReadFromDevice(n);
      bus.Advance(t1, bus.trace, [Read(n)], [], r.Ok?);
      assert [Write([reg])] + [Read(n)] == ReadScript(reg, n);
    }

    /** `read8`: one byte from `reg`. */
    method Read8(reg: byte) returns (r: Result<byte>)
      modifies bus`trace
      ensures bus.trace == bus.Run(old(bus.trace), ReadScript(reg, 1))
      ensures r.Ok? <==> bus.Completes(old(bus.trace), ReadScript(reg, 1))
      ensures r.Ok? ==> r.value == ByteAt(bus.kernel, |old(bus.trace)| + 1)
      ensures r.Err? ==> TransferError(r.error)
    {
      var d := ReadBytes(reg, 1);
      if d.Err? {
        return Err(d.error);
      }
      r := Ok(d.value[0]);
    }

    /** `read16`: two bytes from `reg`, the first the high one. */
    method Read16(reg: byte) returns (r: Result<bv16>)
      modifies bus`trace
      ensures bus.trace == bus.Run(old(bus.trace), ReadScript(reg, 2))
      ensures r.Ok? <==> bus.Completes(old(bus.trace), ReadScript(reg, 2))
      ensures r.Ok? ==> var d := DataAt(bus.kernel, |old(bus.trace)| + 1, 2);
                        r.value == BigEndian16(d[0], d[1]) &&
                        r.value as int == d[0] as int * 0x100 + d[1] as int
      ensures r.Err? ==> TransferError(r.error)
    {
      var d := ReadBytes(reg, 2);
      if d.Err? {
        return Err(d.error);
      }
      r := Ok(BigEndian16(d.value[0], d.value[1]));
    }

    /** `read24`: three bytes from `reg`, most significant first; the value
        is below 2^24. */
    method Read24(reg: byte) returns (r: Result<bv32>)
      modifies bus`trace
      ensures bus.trace == bus.Run(old(bus.trace), ReadScript(reg, 3))
      ensures r.Ok? <==> bus.Completes(old(bus.trace), ReadScript(reg, 3))
      ensures r.Ok? ==> var d := DataAt(bus.kernel, |old(bus.trace)| + 1, 3);
                        r.value == BigEndian24(d[0], d[1], d[2]) &&
                        r.value as int == d[0] as int * 0x1_0000 + d[1] as int * 0x100 + d[2] as int &&
                        r.value as int < 0x100_0000
      ensures r.Err? ==> TransferError(r.error)
    {
      var d := ReadBytes(reg, 3);
      if d.Err? {
        return Err(d.error);
      }
      r := Ok(BigEndian24(d.value[0], d.value[1], d.value[2]));
    }

    /** `read16_LE`: `read16` with its two bytes exchanged, so the first
        byte read is the low one. */
    method Read16LE(reg: byte) returns (r: Result<bv16>)
      modifies bus`trace
      ensures bus.trace == bus.Run(old(bus.trace), ReadScript(reg, 2))
      ensures r.Ok? <==> bus.Completes(old(bus.trace), ReadScript(reg, 2))
      ensures r.Ok? ==> var d := DataAt(bus.kernel, |old(bus.trace)| + 1, 2);
                        r.value as int == U16LE(d)
      ensures r.Err? ==> TransferError(r.error)
    {
      var t := Read16(reg);
      if t.Err? {
        return Err(t.error);
      }
      ghost var d := DataAt(bus.kernel, |old(bus.trace)| + 1, 2);
      SwapOfBigEndian(d[0], d[1]);
      r := Ok(Swap16(t.value));
    }

    /** `readS16_LE`: the two's-complement reading of `read16_LE`. */
    method ReadS16LE(reg: byte) returns (r: Result<int>)
      modifies bus`trace
      ensures bus.trace == bus.Run(old(bus.trace), ReadScript(reg, 2))
      ensures r.Ok? <==> bus.Completes(old(bus.trace), ReadScript(reg, 2))
      ensures r.Ok? ==> var d := DataAt(bus.kernel, |old(bus.trace)| + 1, 2);
                        r.value == S16LE(d)
      ensures r.Err? ==> TransferError(r.error)
    {
      var t := Read16LE(reg);
      if t.Err? {
        return Err(t.error);
      }
      ghost var d := DataAt(bus.kernel, |old(bus.trace)| + 1, 2);
      SwapOfBigEndian(d[0], d[1]);
      r := Ok(ToS16(t.value));
    }

    /** `write8`: register number and value as one 2-byte transfer. */
    method Write8(reg: byte, value: byte) returns (r: Outcome)
      modifies bus`trace
      ensures bus.trace == bus.Run(old(bus.trace), [Write([reg, value])])
      ensures r.Pass? <==> bus.Completes(old(bus.trace), [Write([reg, value])])
      ensures r.Fail? ==> TransferError(r.error)
    {
      r := bus.WriteToDevice([reg, value]);
    }

    /** One read of the coefficient readout, the i-th of a readout started
        on top of `t0`: its script run on top of `tb` left `tAfter`, with
        success `ok`. */
    lemma ReadoutStep(t0: seq<Event>, tb: seq<Event>, tAfter: seq<Event>, i: nat, ok: bool)
      requires i < CALIBRATION_READS && |tb| == |t0| + 2 * i
      requires ReadoutFrom(bus.kernel, t0, 0) == ReadoutFrom(bus.kernel, tb, i)
      requires ReadoutCompletes(bus.kernel, |t0|, 0) == ReadoutCompletes(bus.kernel, |tb|, i)
      requires tAfter == bus.Run(tb, ReadScript(CalibrationRegister(i), CalibrationWidth(i)))
      requires ok <==> bus.Completes(tb, ReadScript(CalibrationRegister(i), CalibrationWidth(i)))
      ensures ok ==> |tAfter| == |t0| + 2 * (i + 1) &&
                     ReadoutFrom(bus.kernel, t0, 0) == ReadoutFrom(bus.kernel, tAfter, i + 1) &&
                     ReadoutCompletes(bus.kernel, |t0|, 0) == ReadoutCompletes(bus.kernel, |tAfter|, i + 1)
      ensures !ok ==> tAfter == ReadoutFrom(bus.kernel, t0, 0) && !ReadoutCompletes(bus.kernel, |t0|, 0)
    {
      if ok {
        ReadoutStepTrace(tb, tAfter, i);
        ReadoutStepCompletes(tb, tAfter, i);
      }
    }

    lemma ReadoutStepTrace(tb: seq<Event>, tAfter: seq<Event>, i: nat)
      requires i < CALIBRATION_READS
      requires tAfter == bus.Run(tb, ReadScript(CalibrationRegister(i), CalibrationWidth(i)))
      requires bus.Completes(tb, ReadScript(CalibrationRegister(i), CalibrationWidth(i)))
      ensures ReadoutFrom(bus.kernel, tb, i) == ReadoutFrom(bus.kernel, tAfter, i + 1)
    {
    }

    lemma ReadoutStepCompletes(tb: seq<Event>, tAfter: seq<Event>, i: nat)
      requires i < CALIBRATION_READS
      requires tAfter == bus.Run(tb, ReadScript(CalibrationRegister(i), CalibrationWidth(i)))
      requires bus.Completes(tb, ReadScript(CalibrationRegister(i), CalibrationWidth(i)))
      ensures |tAfter| == |tb| + 2
      ensures ReadoutCompletes(bus.kernel, |tb|, i) <==> ReadoutCompletes(bus.kernel, |tAfter|, i + 1)
    {
    }

    /** The store that follows the i-th read: with the bytes that read
        delivered, it extends the record stored so far by one entry. */
    lemma StoreStep(k: nat, c0: Calibration, i: nat, d: seq<byte>, previous: byte, c: Calibration)
      requires i < CALIBRATION_READS
      requires d == DataAt(bus.kernel, k + 2 * i + 1, CalibrationWidth(i))
      requires previous == if i >= 1 then ReadAt(bus.kernel, k, i - 1)[0] else 0
      requires c == StoredAt(bus.kernel, k, c0, i)
      ensures |d| == CalibrationWidth(i) && d[0] == ReadAt(bus.kernel, k, i)[0]
      ensures StoreEntry(c, i, d, previous) == StoredAt(bus.kernel, k, c0, i + 1)
    {
    }

    /** Where a readout started on top of trace `t0` with record `c0`
        stands after its first `i` reads: trace `t` and record `c`, and
        `previous` the first byte of the last read. */
    ghost predicate ReadoutProgress(t0: seq<Event>, c0: Calibration, i: nat, t: seq<Event>, c: Calibration, previous: byte) {
      i <= CALIBRATION_READS && |t| == |t0| + 2 * i &&
      ReadoutFrom(bus.kernel, t0, 0) == ReadoutFrom(bus.kernel, t, i) &&
      ReadoutCompletes(bus.kernel, |t0|, 0) == ReadoutCompletes(bus.kernel, |t|, i) &&
      previous == (if i >= 1 then ReadAt(bus.kernel, |t0|, i - 1)[0] else 0) &&
      c == StoredAt(bus.kernel, |t0|, c0, i)
    }

    /** The i-th read of the register table and the store that follows it.
        On success it returns the first byte read; on failure the readout
        ends there. */
    method ReadEntry(ghost t0: seq<Event>, ghost c0: Calibration, i: nat, previous: byte) returns (r: Result<byte>)
      requires i < CALIBRATION_READS && ReadoutProgress(t0, c0, i, bus.trace, calib, previous)
      modifies this, bus`trace
      ensures r.Ok? ==> ReadoutProgress(t0, c0, i + 1, bus.trace, calib, r.value)
      ensures r.Err? ==> bus.trace == ReadoutFrom(bus.kernel, t0, 0) && !ReadoutCompletes(bus.kernel, |t0|, 0)
      ensures r.Err? ==> TransferError(r.error)
    {
      ghost var tb := bus.trace;
      var d := ReadBytes(CalibrationRegister(i), CalibrationWidth(i));
      ReadoutStep(t0, tb, bus.trace, i, d.Ok?);
      if d.Err? {
        return Err(d.error);
      }
      StoreStep(|t0|, c0, i, d.value, previous, calib);
      calib := StoreEntry(calib, i, d.value, previous);
      r := Ok(d.value[0]);
    }

    /** `read_coefficients`: the twenty reads of the register table, in
        order, each field stored as soon as its bytes are in; the first
        read that fails ends it. On success the record is the decoding of
        the bytes delivered, whatever it held before. */
    method ReadCoefficients() returns (r: Outcome)
      modifies this, bus`trace
      ensures bus.trace == ReadoutFrom(bus.kernel, old(bus.trace), 0)
      ensures r.Pass? <==> ReadoutCompletes(bus.kernel, |old(bus.trace)|, 0)
      ensures r.Pass? ==> calib == DecodeCalibration(CoefficientData(bus.kernel, |old(bus.trace)|))
      ensures r.Pass? ==> |bus.trace| == |old(bus.trace)| + 2 * CALIBRATION_READS
      ensures r.Fail? ==> TransferError(r.error)
    {
      ghost var t0 := bus.trace;
      ghost var c0 := calib;
      var previous: byte := 0;
      var i := 0;
      while i < CALIBRATION_READS
        invariant ReadoutProgress(t0, c0, i, bus.trace, calib, previous)
      {
        var b := ReadEntry(t0, c0, i, previous);
        if b.Err? {
          return Fail(b.error);
        }
        previous := b.value;
        i := i + 1;
      }
      StoredAtAll(bus.kernel, |t0|, c0);
      r := Pass;
    }

    /** `is_reading_calibration`: bit 0 (im_update) of the status register. */
    method IsReadingCalibration() returns (r: Result<bool>)
      modifies bus`trace
      ensures bus.trace == bus.Run(old(bus.trace), ReadScript(REGISTER_STATUS, 1))
      ensures r.Ok? <==> bus.Completes(old(bus.trace), ReadScript(REGISTER_STATUS, 1))
      ensures r.Ok? ==> (r.value <==> ByteAt(bus.kernel, |old(bus.trace)| + 1) & 1 != 0)
      ensures r.Err? ==> TransferError(r.error)
    {
      var out := Read8(REGISTER_STATUS);
      if out.Err? {
        return Err(out.error);
      }
      r := Ok(out.value & 1 != 0);
    }

    /** `set_sampling`: the four register writes of `SAMPLING_SCRIPT`. */
    method SetSampling() returns (r: Outcome)
      modifies bus`trace
      ensures bus.trace == bus.Run(old(bus.trace), SAMPLING_SCRIPT)
      ensures r.Pass? <==> bus.Completes(old(bus.trace), SAMPLING_SCRIPT)
      ensures r.Fail? ==> TransferError(r.error)
    {
      ghost var t0 := bus.trace;
      ghost var w1 := [Write([REGISTER_CONTROL, MODE_SLEEP])];
      ghost var w2 := [Write([REGISTER_CONTROLHUMID, 3])];
      ghost var w3 := [Write([REGISTER_CONFIG, 109])];
      ghost var w4 := [Write([REGISTER_CONTROL, 110])];
      assert SAMPLING_SCRIPT == w1 + (w2 + (w3 + (w4 + [])));
      r := Write8(REGISTER_CONTROL, MODE_SLEEP);
      bus.Advance(t0, bus.trace, w1, w2 + (w3 + (w4 + [])), r.Pass?);
      if r.Fail? {
        return;
      }
      ghost var t1 := bus.trace;
      r := Write8(REGISTER_CONTROLHUMID, 3);
      bus.Advance(t1, bus.trace, w2, w3 + (w4 + []), r.Pass?);
      if r.Fail? {
        return;
      }
      ghost var t2 := bus.trace;
      r := Write8(REGISTER_CONFIG, 109);
      bus.Advance(t2, bus.trace, w3, w4 + [], r.Pass?);
      if r.Fail? {
        return;
      }
      ghost var t3 := bus.trace;
      r := Write8(REGISTER_CONTROL, 110);
      bus.Advance(t3, bus.trace, w4, [], r.Pass?);
      bus.RunNothing(bus.trace);
    }

    /** One status poll, the first of `fuel` polls issued on top of
        `tb`: its read left `tAfter`, with success `ok`. */
    lemma PollStep(tb: seq<Event>, tAfter: seq<Event>, fuel: nat, ok: bool)
      requires fuel > 0
      requires tAfter == bus.Run(tb, ReadScript(REGISTER_STATUS, 1))
      requires ok <==> bus.Completes(tb, ReadScript(REGISTER_STATUS, 1))
      ensures ok && ByteAt(bus.kernel, |tb| + 1) & 1 != 0 ==>
                bus.Run(tb, PollScript(bus.kernel, |tb|, fuel)) == bus.Run(tAfter, PollScript(bus.kernel, |tAfter|, fuel - 1)) &&
                bus.Completes(tb, PollScript(bus.kernel, |tb|, fuel)) == bus.Completes(tAfter, PollScript(bus.kernel, |tAfter|, fuel - 1)) &&
                PollsReady(bus.kernel, |tb|, fuel) == PollsReady(bus.kernel, |tAfter|, fuel - 1)
      ensures ok && ByteAt(bus.kernel, |tb| + 1) & 1 == 0 ==>
                bus.Run(tb, PollScript(bus.kernel, |tb|, fuel)) == tAfter &&
                bus.Completes(tb, PollScript(bus.kernel, |tb|, fuel)) && PollsReady(bus.kernel, |tb|, fuel)
      ensures !ok ==> bus.Run(tb, PollScript(bus.kernel, |tb|, fuel)) == tAfter &&
                      !bus.Completes(tb, PollScript(bus.kernel, |tb|, fuel))
    {
      var s := ReadScript(REGISTER_STATUS, 1);
      if ByteAt(bus.kernel, |tb| + 1) & 1 != 0 {
        bus.Advance(tb, tAfter, s, PollScript(bus.kernel, |tb| + 2, fuel - 1), ok);
      } else {
        bus.Advance(tb, tAfter, s, [], ok);
        assert s + [] == s;
        bus.RunNothing(tAfter);
      }
    }

    /** The `while (is_reading_calibration())` loop of `set_config`, with
        at most `maxPolls` polls: it passes once a poll sees the status
        bit clear, and fails with `CalibrationTimeout` when the polls run
        out first. */
    method AwaitCalibration(maxPolls: nat) returns (r: Outcome)
      modifies bus`trace
      ensures bus.trace == bus.Run(old(bus.trace), PollScript(bus.kernel, |old(bus.trace)|, maxPolls))
      ensures r.Pass? <==>
                bus.Completes(old(bus.trace), PollScript(bus.kernel, |old(bus.trace)|, maxPolls)) &&
                PollsReady(bus.kernel, |old(bus.trace)|, maxPolls)
      ensures r == Fail(CalibrationTimeout) <==>
                bus.Completes(old(bus.trace), PollScript(bus.kernel, |old(bus.trace)|, maxPolls)) &&
                !PollsReady(bus.kernel, |old(bus.trace)|, maxPolls)
    {
      ghost var t0 := bus.trace;
      var fuel := maxPolls;
      while fuel > 0
        invariant bus.Run(t0, PollScript(bus.kernel, |t0|, maxPolls)) == bus.Run(bus.trace, PollScript(bus.kernel, |bus.trace|, fuel))
        invariant bus.Completes(t0, PollScript(bus.kernel, |t0|, maxPolls)) == bus.Completes(bus.trace, PollScript(bus.kernel, |bus.trace|, fuel))
        invariant PollsReady(bus.kernel, |t0|, maxPolls) == PollsReady(bus.kernel, |bus.trace|, fuel)
      {
        ghost var tb := bus.trace;
        var busy := IsReadingCalibration();
        PollStep(tb, bus.trace, fuel, busy.Ok?);
        if busy.Err? {
          return Fail(busy.error);
        }
        if !busy.value {
          return Pass;
        }
        fuel := fuel - 1;
      }
      bus.RunNothing(bus.trace);
      r := Fail(CalibrationTimeout);
    }

    /** The first half of `set_config`: addressing, the soft reset and
        the status polls. It passes when every call succeeds and a poll
        sees the status bit clear. */
    method ResetAndAwait(maxPolls: nat) returns (r: Outcome)
      modifies bus
      ensures r.Pass? ==> bus.AddressScript(deviceAddress) == []
      ensures bus.trace == bus.Run(old(bus.trace), PreludeScript(bus.kernel, old(bus.AddressScript(deviceAddress)), |old(bus.trace)|, maxPolls))
      ensures r.Pass? <==>
                bus.Completes(old(bus.trace), PreludeScript(bus.kernel, old(bus.AddressScript(deviceAddress)), |old(bus.trace)|, maxPolls)) &&
                ConfigReady(bus.kernel, old(bus.AddressScript(deviceAddress)), |old(bus.trace)|, maxPolls)
      ensures r == Fail(CalibrationTimeout) <==>
                bus.Completes(old(bus.trace), PreludeScript(bus.kernel, old(bus.AddressScript(deviceAddress)), |old(bus.trace)|, maxPolls)) &&
                !ConfigReady(bus.kernel, old(bus.AddressScript(deviceAddress)), |old(bus.trace)|, maxPolls)
    {
      ghost var t0 := bus.trace;
      ghost var a := bus.AddressScript(deviceAddress);
      ghost var polls := PollScript(bus.kernel, |t0| + |a| + 1, maxPolls);
      ghost var reset := [Write([REGISTER_SOFTRESET, SOFT_RESET_CODE])];
      assert PreludeScript(bus.kernel, a, |t0|, maxPolls) == a + (reset + polls);
      r := bus.SetDeviceAddress(deviceAddress);
      bus.Advance(t0, bus.trace, a, reset + polls, r.Pass?);
      if r.Fail? {
        return;
      }
      ghost var t1 := bus.trace;
      r := Write8(REGISTER_SOFTRESET, SOFT_RESET_CODE);
      bus.Advance(t1, bus.trace, reset, polls, r.Pass?);
      if r.Fail? {
        return;
      }
      assert |bus.trace| == |t0| + |a| + 1;
      r := AwaitCalibration(maxPolls);
    }

    /** The second half of `set_config`: the coefficient readout, then,
        once it has completed, the sampling configuration. */
    method ReadAndSample() returns (r: Outcome)
      modifies this, bus`trace
      ensures bus.trace == SetupTrace(bus.kernel, old(bus.trace))
      ensures r.Pass? <==> SetupCompletes(bus.kernel, old(bus.trace))
      ensures r.Fail? ==> TransferError(r.error)
      ensures r.Pass? ==> calib == DecodeCalibration(CoefficientData(bus.kernel, |old(bus.trace)|))
    {
      ghost var t3 := bus.trace;
      r := ReadCoefficients();
      if r.Fail? {
        return;
      }
      r := SetSampling();
    }

    /** `set_config`: addressing, the soft reset, the status polls, then,
        once the device reports its calibration data copied, the
        coefficient readout and the sampling configuration; the first call
        that fails ends it. The source polls for as long as the device
        reports copying; here at most `maxPolls` polls are made. */
    method SetConfig(maxPolls: nat) returns (r: Outcome)
      modifies this, bus
      ensures bus.trace == ConfigTrace(bus.kernel, old(bus.trace), old(bus.AddressScript(deviceAddress)), maxPolls)
      ensures r.Pass? <==> ConfigCompletes(bus.kernel, old(bus.trace), old(bus.AddressScript(deviceAddress)), maxPolls)
      ensures r == Fail(CalibrationTimeout) <==>
                bus.Completes(old(bus.trace), PreludeScript(bus.kernel, old(bus.AddressScript(deviceAddress)), |old(bus.trace)|, maxPolls)) &&
                !ConfigReady(bus.kernel, old(bus.AddressScript(deviceAddress)), |old(bus.trace)|, maxPolls)
      ensures r.Pass? ==>
                calib == DecodeCalibration(CoefficientData(bus.kernel, CoefficientStart(bus.kernel, old(bus.AddressScript(deviceAddress)), |old(bus.trace)|, maxPolls)))
      ensures r.Pass? ==> bus.AddressScript(deviceAddress) == []
    {
      ghost var t0 := bus.trace;
      ghost var a := bus.AddressScript(deviceAddress);
      r := ResetAndAwait(maxPolls);
      if r.Fail? {
        return;
      }
      ghost var t3 := bus.trace;
      assert t3 == t0 + PreludeScript(bus.kernel, a, |t0|, maxPolls);
      assert CoefficientStart(bus.kernel, a, |t0|, maxPolls) == |t3|;
      r := ReadAndSample();
    }

    /** `read_temperature`: the 24-bit temperature register, compensated
        with the stored calibration; the device is not addressed. */
    method ReadTemperature() returns (r: Result<TempReading>)
      modifies bus`trace
      ensures bus.trace == bus.Run(old(bus.trace), ReadScript(REGISTER_TEMPDATA, 3))
      ensures r.Ok? <==> bus.Completes(old(bus.trace), ReadScript(REGISTER_TEMPDATA, 3))
      ensures r.Ok? ==> var d := DataAt(bus.kernel, |old(bus.trace)| + 1, 3);
                        r.value == CompensateTemperature(BigEndian24(d[0], d[1], d[2]) as int, calib)
      ensures r.Err? ==> TransferError(r.error)
    {
      var adc := Read24(REGISTER_TEMPDATA);
      if adc.Err? {
        return Err(adc.error);
      }
      r := Ok(CompensateTemperature(adc.value as int, calib));
    }

    /** The C++ constructor: stores the bus and the address, then runs
        `set_config`; a failure there is a failed construction. */
    static method Attach(bus: I2CBus, deviceAddress: bv16, maxPolls: nat) returns (r: Result<BME280>)
      modifies bus
      ensures r.Ok? ==> bus.AddressScript(deviceAddress) == []
      ensures bus.trace == ConfigTrace(bus.kernel, old(bus.trace), old(bus.AddressScript(deviceAddress)), maxPolls)
      ensures r.Ok? <==> ConfigCompletes(bus.kernel, old(bus.trace), old(bus.AddressScript(deviceAddress)), maxPolls)
      ensures r.Ok? ==> fresh(r.value) && r.value.bus == bus && r.value.deviceAddress == deviceAddress
      ensures r.Ok? ==>
                r.value.calib == DecodeCalibration(CoefficientData(bus.kernel, CoefficientStart(bus.kernel, old(bus.AddressScript(deviceAddress)), |old(bus.trace)|, maxPolls)))
    {
      var dev := new BME280(bus, deviceAddress);
      var s := dev.SetConfig(maxPolls);
      if s.Fail? {
        return Err(s.error);
      }
      r := Ok(dev);
    }
  }
}
