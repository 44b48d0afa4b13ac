/** BME280 calibration data and the integer temperature compensation
    formula of the Bosch BME280 datasheet (section 4.2.3, "Compensation
    formulas"), as the driver computes it: with C's truncating `/` where the
    datasheet shifts right. */
module Bme280Calibration {
  import opened CTypes

  /** `(__s8)b` widened to 16 bits, as C's integer promotion does. */
  function SignExtend(b: byte): (w: bv16)
    ensures b < 0x80 ==> w as int == b as int
    ensures b >= 0x80 ==> w as int == b as int + 0xFF00
  {
    if b < 0x80 then b as bv16 else (b as bv16) | 0xFF00
  }

  /** A byte is its high nibble times 16 plus its low nibble. */
  lemma NibbleSplit(x: byte)
    ensures x as int == (x >> 4) as int * 16 + (x & 0xF) as int
    ensures (x >> 4) as int < 16 && (x & 0xF) as int < 16
    ensures x < 0x80 <==> (x >> 4) < 8
  {
    assert ((x >> 4) as bv16) * 16 + ((x & 0xF) as bv16) == x as bv16;
    assert (((x >> 4) as bv16) * 16 + ((x & 0xF) as bv16)) as int ==
           (x >> 4) as int * 16 + (x & 0xF) as int;
  }

  /** The high nibble of a byte is the byte divided by 16. */
  lemma HighNibble(x: byte)
    ensures (x >> 4) as int % 16 == x as int / 16
  {
    NibbleSplit(x);
    var q := (x >> 4) as int;
    assert x as int == q * 16 + (x & 0xF) as int;
    assert x as int / 16 == q;
  }

  /** The packed word laid out as a high and a low byte. */
  lemma PackedBytes(hi: byte, lo: byte)
    ensures (SignExtend(hi) << 4) | ((lo & 0xF) as bv16) ==
            BigEndian16(if hi < 0x80 then hi >> 4 else (hi >> 4) | 0xF0,
                        ((hi & 0xF) << 4) | (lo & 0xF))
  {
  }

  /** Or-ing a nibble into a zero low nibble adds it. */
  lemma NibbleOr(h: byte, l: byte)
    requires h < 16
    ensures ((h << 4) | (l & 0xF)) as int == h as int * 16 + (l & 0xF) as int
  {
    assert (l & 0xF) < 16;
    assert (h << 4) | (l & 0xF) == (h * 16) + (l & 0xF);
    assert ((h as bv16 * 16) + ((l & 0xF) as bv16)) as int == h as int * 16 + (l & 0xF) as int;
  }

  lemma SetHighNibble(h: byte)
    requires h < 16
    ensures (h | 0xF0) as int == h as int + 0xF0
  {
    assert h | 0xF0 == h + 0xF0;
  }

  /** `((__s8)hi << 4) | (lo & 0xF)` truncated to `__s16`: the two
      nibble-packed humidity fields. */
  function Packed(hi: byte, lo: byte): bv16 {
    (SignExtend(hi) << 4) | ((lo & 0xF) as bv16)
  }

  /** The or acts as an addition: the shifted signed byte has a zero low
      nibble. */
  lemma PackedValue(hi: byte, lo: byte)
    ensures ToS16(Packed(hi, lo)) == 16 * ToS8(hi) + lo as int % 16
  {
    NibbleSplit(hi);
    NibbleSplit(lo);
    PackedBytes(hi, lo);
    NibbleOr(hi & 0xF, lo);
    SetHighNibble(hi >> 4);
    var q := (hi >> 4) as int;
    var n := (lo & 0xF) as int;
    var h: byte := if hi < 0x80 then hi >> 4 else (hi >> 4) | 0xF0;
    var l: byte := ((hi & 0xF) << 4) | (lo & 0xF);
    assert l as int == (hi & 0xF) as int * 16 + n;
    assert h as int == if hi < 0x80 then q else q + 0xF0;
    var w := Packed(hi, lo);
    assert w as int == h as int * 0x100 + l as int;
    assert lo as int % 16 == n;
    if hi < 0x80 {
      assert w as int == 16 * hi as int + n;
    } else {
      assert w as int == 16 * hi as int + 0xF000 + n;
    }
  }

  /** `dig_H4`: the signed register 0xE4 times 16 plus the low nibble of
      register 0xE5. */
  function DigH4(e4: byte, e5: byte): (r: int)
    ensures r == 16 * ToS8(e4) + e5 as int % 16
    ensures -2048 <= r < 2048
  {
    PackedValue(e4, e5);
    ToS16(Packed(e4, e5))
  }

  /** `dig_H5`: the signed register 0xE6 times 16 plus the high nibble of
      register 0xE5. */
  function DigH5(e6: byte, e5: byte): (r: int)
    ensures r == 16 * ToS8(e6) + e5 as int / 16
    ensures -2048 <= r < 2048
  {
    PackedValue(e6, e5 >> 4);
    HighNibble(e5);
    ToS16(Packed(e6, e5 >> 4))
  }

  /** `bme280_calib_data`. */
  datatype Calibration = Calibration(
    digT1: int, digT2: int, digT3: int,
    digP1: int, digP2: int, digP3: int, digP4: int, digP5: int,
    digP6: int, digP7: int, digP8: int, digP9: int,
    digH1: int, digH2: int, digH3: int, digH4: int, digH5: int, digH6: int)

  predicate IsU16(x: int) { 0 <= x < 0x1_0000 }
  predicate IsS16(x: int) { -0x8000 <= x < 0x8000 }
  predicate IsU8(x: int) { 0 <= x < 0x100 }
  predicate IsS8(x: int) { -0x80 <= x < 0x80 }

  /** Every field lies in the range of its C type; the two packed fields in
      the 12-bit signed range. */
  predicate WellTyped(c: Calibration) {
    IsU16(c.digT1) && IsS16(c.digT2) && IsS16(c.digT3) &&
    IsU16(c.digP1) && IsS16(c.digP2) && IsS16(c.digP3) && IsS16(c.digP4) &&
    IsS16(c.digP5) && IsS16(c.digP6) && IsS16(c.digP7) && IsS16(c.digP8) &&
    IsS16(c.digP9) &&
    IsU8(c.digH1) && IsS16(c.digH2) && IsU8(c.digH3) &&
    -2048 <= c.digH4 < 2048 && -2048 <= c.digH5 < 2048 && IsS8(c.digH6)
  }

  /** How many register reads `read_coefficients` makes. */
  const CALIBRATION_READS: nat := 20

  /** The register of the i-th read of `read_coefficients`: T1..T3 and
      P1..P9 from 0x88 up in steps of 2, then H1 (0xA1), H2 (0xE1), H3
      (0xE3), H4 from 0xE4 and 0xE5, H5 from 0xE6 and 0xE5, and H6 (0xE7). */
  function CalibrationRegister(i: nat): byte
    requires i < CALIBRATION_READS
  {
    match i
    case 0 => 0x88 case 1 => 0x8A case 2 => 0x8C
    case 3 => 0x8E case 4 => 0x90 case 5 => 0x92 case 6 => 0x94
    case 7 => 0x96 case 8 => 0x98 case 9 => 0x9A case 10 => 0x9C
    case 11 => 0x9E
    case 12 => 0xA1 case 13 => 0xE1 case 14 => 0xE3
    case 15 => 0xE4 case 16 => 0xE5 case 17 => 0xE6 case 18 => 0xE5
    case _ => 0xE7
  }

  /** How many bytes the i-th read takes: a 16-bit word for T1..T3, P1..P9
      and H2, one byte otherwise. */
  function CalibrationWidth(i: nat): nat {
    if i < 12 || i == 13 then 2 else 1
  }

  /** `raw[i]` holds the bytes delivered by the i-th read. */
  predicate RawShaped(raw: seq<seq<byte>>) {
    |raw| == CALIBRATION_READS &&
    forall i :: 0 <= i < |raw| ==> |raw[i]| == CalibrationWidth(i)
  }

  /** `read16_LE` of a 2-byte read: the first byte is the low one. */
  function U16LE(d: seq<byte>): (v: int)
    requires |d| == 2
    ensures IsU16(v)
  {
    d[0] as int + 0x100 * d[1] as int
  }

  /** `readS16_LE` of a 2-byte read: the two's-complement reading of
      `read16_LE`, so the one value in the signed range congruent to it. */
  function S16LE(d: seq<byte>): (v: int)
    requires |d| == 2
    ensures IsS16(v)
    ensures v == U16LE(d) || v == U16LE(d) - 0x1_0000
  {
    var u := U16LE(d);
    if u < 0x8000 then u else u - 0x1_0000
  }

  /** The signed reading is congruent to the unsigned one modulo 2^16, and
      the two agree exactly when the sign bit is clear. */
  lemma S16LEIsTwosComplement(d: seq<byte>)
    requires |d| == 2
    ensures S16LE(d) % 0x1_0000 == U16LE(d)
    ensures S16LE(d) == U16LE(d) <==> d[1] < 0x80
  {
  }

  /** The calibration record `read_coefficients` assembles from the bytes
      its reads delivered. */
  function DecodeCalibration(raw: seq<seq<byte>>): (c: Calibration)
    requires RawShaped(raw)
    ensures WellTyped(c)
    ensures c.digT1 == raw[0][0] as int + 0x100 * raw[0][1] as int
    ensures c.digH1 == raw[12][0] as int && c.digH3 == raw[14][0] as int
    ensures c.digH4 == 16 * ToS8(raw[15][0]) + raw[16][0] as int % 16
    ensures c.digH5 == 16 * ToS8(raw[17][0]) + raw[18][0] as int / 16
    ensures c.digH6 == ToS8(raw[19][0])
  {
    Calibration(
      U16LE(raw[0]), S16LE(raw[1]), S16LE(raw[2]),
      U16LE(raw[3]), S16LE(raw[4]), S16LE(raw[5]), S16LE(raw[6]),
      S16LE(raw[7]), S16LE(raw[8]), S16LE(raw[9]), S16LE(raw[10]),
      S16LE(raw[11]),
      raw[12][0] as int, S16LE(raw[13]), raw[14][0] as int,
      DigH4(raw[15][0], raw[16][0]), DigH5(raw[17][0], raw[18][0]),
      ToS8(raw[19][0]))
  }

  /** The store `read_coefficients` makes once the i-th read has delivered
      `d`: one field, decoded as that read's accessor decodes it. Entries 15
      and 17 are only kept (in `previous`) and combined with the next read
      into H4 and H5. */
  function StoreEntry(c: Calibration, i: nat, d: seq<byte>, previous: byte): Calibration
    requires i < CALIBRATION_READS && |d| == CalibrationWidth(i)
  {
    match i
    case 0 => c.(digT1 := U16LE(d))
    case 1 => c.(digT2 := S16LE(d))
    case 2 => c.(digT3 := S16LE(d))
    case 3 => c.(digP1 := U16LE(d))
    case 4 => c.(digP2 := S16LE(d))
    case 5 => c.(digP3 := S16LE(d))
    case 6 => c.(digP4 := S16LE(d))
    case 7 => c.(digP5 := S16LE(d))
    case 8 => c.(digP6 := S16LE(d))
    case 9 => c.(digP7 := S16LE(d))
    case 10 => c.(digP8 := S16LE(d))
    case 11 => c.(digP9 := S16LE(d))
    case 12 => c.(digH1 := d[0] as int)
    case 13 => c.(digH2 := S16LE(d))
    case 14 => c.(digH3 := d[0] as int)
    case 15 => c
    case 16 => c.(digH4 := DigH4(previous, d[0]))
    case 17 => c
    case 18 => c.(digH5 := DigH5(previous, d[0]))
    case _ => c.(digH6 := ToS8(d[0]))
  }

  /** The record after the stores of the first `i` reads, made on top of
      `c`. */
  function StoredUpTo(c: Calibration, raw: seq<seq<byte>>, i: nat): Calibration
    requires RawShaped(raw) && i <= CALIBRATION_READS
  {
    if i == 0 then c
    else StoreEntry(StoredUpTo(c, raw, i - 1), i - 1, raw[i - 1], if i >= 2 then raw[i - 2][0] else 0)
  }

  /** Once all twenty stores are made, every field has been written, so the
      record is the decoding of the bytes read, whatever it held before. */
  lemma StoredAll(c: Calibration, raw: seq<seq<byte>>)
    requires RawShaped(raw)
    ensures StoredUpTo(c, raw, CALIBRATION_READS) == DecodeCalibration(raw)
  {
    var c1 := c.(digT1 := U16LE(raw[0]));
    assert StoredUpTo(c, raw, 1) == c1;
    var c2 := c1.(digT2 := S16LE(raw[1]));
    assert StoredUpTo(c, raw, 2) == c2;
    var c3 := c2.(digT3 := S16LE(raw[2]));
    assert StoredUpTo(c, raw, 3) == c3;
    var c4 := c3.(digP1 := U16LE(raw[3]));
    assert StoredUpTo(c, raw, 4) == c4;
    var c5 := c4.(digP2 := S16LE(raw[4]));
    assert StoredUpTo(c, raw, 5) == c5;
    var c6 := c5.(digP3 := S16LE(raw[5]));
    assert StoredUpTo(c, raw, 6) == c6;
    var c7 := c6.(digP4 := S16LE(raw[6]));
    assert StoredUpTo(c, raw, 7) == c7;
    var c8 := c7.(digP5 := S16LE(raw[7]));
    assert StoredUpTo(c, raw, 8) == c8;
    var c9 := c8.(digP6 := S16LE(raw[8]));
    assert StoredUpTo(c, raw, 9) == c9;
    var c10 := c9.(digP7 := S16LE(raw[9]));
    assert StoredUpTo(c, raw, 10) == c10;
    var c11 := c10.(digP8 := S16LE(raw[10]));
    assert StoredUpTo(c, raw, 11) == c11;
    var c12 := c11.(digP9 := S16LE(raw[11]));
    assert StoredUpTo(c, raw, 12) == c12;
    var c13 := c12.(digH1 := raw[12][0] as int);
    assert StoredUpTo(c, raw, 13) == c13;
    var c14 := c13.(digH2 := S16LE(raw[13]));
    assert StoredUpTo(c, raw, 14) == c14;
    var c15 := c14.(digH3 := raw[14][0] as int);
    assert StoredUpTo(c, raw, 15) == c15;
    var c16 := c15;
    assert StoredUpTo(c, raw, 16) == c16;
    var c17 := c16.(digH4 := DigH4(raw[15][0], raw[16][0]));
    assert StoredUpTo(c, raw, 17) == c17;
    var c18 := c17;
    assert StoredUpTo(c, raw, 18) == c18;
    var c19 := c18.(digH5 := DigH5(raw[17][0], raw[18][0]));
    assert StoredUpTo(c, raw, 19) == c19;
    var c20 := c19.(digH6 := ToS8(raw[19][0]));
    assert StoredUpTo(c, raw, 20) == c20;
  }

  /** What `read_temperature` reports: the sensor's "measurement disabled"
      code, or the temperature in hundredths of a degree Celsius. */
  datatype TempReading = Disabled | Hundredths(value: int)

  /** The raw code the sensor reports when temperature measurement is
      skipped. */
  const TEMP_DISABLED: int := 0x80_0000

  /** `var1` for the 20-bit sample `adc`. */
  function Var1(adc: nat, c: Calibration): int {
    CDiv((adc / 8 - c.digT1 * 2) * c.digT2, 2048)
  }

  /** `var2` for the 20-bit sample `adc`. */
  function Var2(adc: nat, c: Calibration): int {
    var d := adc / 16 - c.digT1;
    CDiv(CDiv(d * d, 4096) * c.digT3, 16384)
  }

  /** `t_fine`, the fine temperature the datasheet passes on to the
      pressure and humidity formulas. */
  function TFine(adc: nat, c: Calibration): int {
    Var1(adc, c) + Var2(adc, c)
  }

  /** The temperature in hundredths of a degree for a 24-bit register value
      `raw`: the disabled code is reported as such; otherwise the sample is
      `raw >> 4` and the result `(t_fine * 5 + 128) / 256`. */
  function CompensateTemperature(raw: nat, c: Calibration): (t: TempReading)
    ensures t == Disabled <==> raw == TEMP_DISABLED
  {
    if raw == TEMP_DISABLED then Disabled
    else Hundredths(CDiv(TFine(raw / 16, c) * 5 + 128, 256))
  }

  /** `t_fine` by the datasheet's reference formula, which shifts right and
      therefore rounds toward minus infinity. */
  function DatasheetTFine(adc: nat, c: Calibration): int {
    var d := adc / 16 - c.digT1;
    FloorDiv((adc / 8 - c.digT1 * 2) * c.digT2, 2048) +
    FloorDiv(FloorDiv(d * d, 4096) * c.digT3, 16384)
  }

  function DatasheetTemperature(adc: nat, c: Calibration): int {
    FloorDiv(DatasheetTFine(adc, c) * 5 + 128, 256)
  }

  /** Every intermediate value of `read_temperature` for sample `adc` fits
      an `__s32`. */
  predicate FitsS32(adc: nat, c: Calibration) {
    var a := adc / 8 - c.digT1 * 2;
    var d := adc / 16 - c.digT1;
    InS32(adc) && InS32(a) && InS32(a * c.digT2) && InS32(Var1(adc, c)) &&
    InS32(d) && InS32(d * d) && InS32(CDiv(d * d, 4096)) &&
    InS32(CDiv(d * d, 4096) * c.digT3) && InS32(Var2(adc, c)) &&
    InS32(TFine(adc, c)) && InS32(TFine(adc, c) * 5 + 128)
  }

  lemma MulBound(x: int, y: int, mx: int, my: int)
    requires 0 <= mx && 0 <= my
    requires -mx <= x <= mx && -my <= y <= my
    ensures -(mx * my) <= x * y <= mx * my
  {
    var ax := if x >= 0 then x else -x;
    var ay := if y >= 0 then y else -y;
    assert x * y == ax * ay || x * y == -(ax * ay);
    NonnegMulBound(ax, ay, mx, my);
  }

  lemma NonnegMulBound(a: int, b: int, ma: int, mb: int)
    requires 0 <= a <= ma && 0 <= b <= mb
    ensures 0 <= a * b <= ma * mb
  {
    MulNonneg(a, b);
    MulNonneg(ma - a, mb);
    MulNonneg(a, mb - b);
    assert ma * mb - a * b == (ma - a) * mb + a * (mb - b);
  }

  lemma MulNonneg(a: int, b: int)
    requires 0 <= a && 0 <= b
    ensures 0 <= a * b
  {
  }

  /** For a well-typed calibration and a 20-bit sample whose `adc/16` lies
      within 16383 of `dig_T1`, no step of the computation overflows a C
      `__s32`. */
  lemma TemperatureFitsS32(adc: nat, c: Calibration)
    requires adc < 0x10_0000 && WellTyped(c)
    requires -16383 <= adc / 16 - c.digT1 <= 16383
    ensures FitsS32(adc, c)
  {
    Var1Fits(adc, c);
    Var2Fits(adc, c);
  }

  lemma Var1Fits(adc: nat, c: Calibration)
    requires adc < 0x10_0000 && WellTyped(c)
    requires -16383 <= adc / 16 - c.digT1 <= 16383
    ensures var a := adc / 8 - c.digT1 * 2;
            -32766 <= a <= 32767 && InS32(a * c.digT2) && -524272 <= Var1(adc, c) <= 524272
  {
    var a := adc / 8 - c.digT1 * 2;
    assert adc / 8 == 2 * (adc / 16) || adc / 8 == 2 * (adc / 16) + 1;
    MulBound(a, c.digT2, 32767, 0x8000);
  }

  lemma Var2Fits(adc: nat, c: Calibration)
    requires WellTyped(c)
    requires -16383 <= adc / 16 - c.digT1 <= 16383
    ensures var d := adc / 16 - c.digT1;
            0 <= d * d <= 16383 * 16383 && 0 <= CDiv(d * d, 4096) <= 65528 &&
            InS32(CDiv(d * d, 4096) * c.digT3) && -131056 <= Var2(adc, c) <= 131056
  {
    var d := adc / 16 - c.digT1;
    MulBound(d, d, 16383, 16383);
    Square(d);
    ScaledSquareFits(d * d, c.digT3);
  }

  lemma ScaledSquareFits(dd: int, t3: int)
    requires 0 <= dd <= 16383 * 16383 && IsS16(t3)
    ensures 0 <= CDiv(dd, 4096) <= 65528
    ensures InS32(CDiv(dd, 4096) * t3)
    ensures -131056 <= CDiv(CDiv(dd, 4096) * t3, 16384) <= 131056
  {
    var e := CDiv(dd, 4096);
    MulBound(e, t3, 65528, 0x8000);
  }

  /** The bound cannot be dropped: a well-typed calibration and a 20-bit
      sample for which `var1 * dig_T2` leaves the `__s32` range. */
  lemma TemperatureCanOverflow()
    ensures var c := Calibration(0, -0x8000, 0, 0, 0, 0, 0, 0, 0, 0, 0, 0, 0, 0, 0, 0, 0, 0);
            WellTyped(c) && !FitsS32(0xF_FFFF, c)
  {
    var c := Calibration(0, -0x8000, 0, 0, 0, 0, 0, 0, 0, 0, 0, 0, 0, 0, 0, 0, 0, 0);
    assert 0xF_FFFF / 8 - c.digT1 * 2 == 131071;
    assert !InS32(131071 * -0x8000);
  }

  lemma Square(x: int)
    ensures x * x >= 0
  {
    if x < 0 {
      assert x * x == (-x) * (-x);
    }
  }

  /** A multiple of `d` strictly between `-d` and `n * d`. */
  lemma SmallMultiple(k: int, d: int, n: nat)
    requires d > 0 && -d < k * d < n * d
    ensures 0 <= k < n
  {
  }

  /** Truncation and flooring agree on a non-negative dividend; on a
      negative one truncation is at most one above. */
  lemma TruncateVersusFloor(a: int, d: int)
    requires d > 0
    ensures 0 <= CDiv(a, d) - FloorDiv(a, d) <= 1
    ensures a >= 0 ==> CDiv(a, d) == FloorDiv(a, d)
  {
    var q := CDiv(a, d);
    var f := FloorDiv(a, d);
    assert (q - f) * d == (a - f * d) - (a - q * d);
    if a >= 0 {
      assert -d < (q - f) * d < d;
      SmallMultiple(q - f, d, 1);
    } else {
      assert 0 <= (q - f) * d < 2 * d;
      SmallMultiple(q - f, d, 2);
    }
  }

  /** The driver's `t_fine` is never below the datasheet's and at most 2
      above it: each of the two correction terms may round up by one. */
  lemma TFineNearDatasheet(adc: nat, c: Calibration)
    ensures 0 <= TFine(adc, c) - DatasheetTFine(adc, c) <= 2
  {
    var d := adc / 16 - c.digT1;
    TruncateVersusFloor((adc / 8 - c.digT1 * 2) * c.digT2, 2048);
    Square(d);
    TruncateVersusFloor(d * d, 4096);
    TruncateVersusFloor(CDiv(d * d, 4096) * c.digT3, 16384);
  }

  /** The driver's `t_fine` is the datasheet's whenever both correction
      terms are non-negative. */
  lemma TFineAgrees(adc: nat, c: Calibration)
    requires (adc / 8 - c.digT1 * 2) * c.digT2 >= 0
    requires c.digT3 >= 0
    ensures TFine(adc, c) == DatasheetTFine(adc, c)
  {
    var d := adc / 16 - c.digT1;
    TruncateVersusFloor((adc / 8 - c.digT1 * 2) * c.digT2, 2048);
    Square(d);
    TruncateVersusFloor(d * d, 4096);
    var e := CDiv(d * d, 4096);
    assert e * c.digT3 >= 0;
    TruncateVersusFloor(e * c.digT3, 16384);
  }

  /** The driver follows the datasheet exactly whenever both correction
      terms and the rounding operand are non-negative. */
  lemma AgreesWithDatasheet(raw: nat, c: Calibration)
    requires raw != TEMP_DISABLED
    requires (raw / 16 / 8 - c.digT1 * 2) * c.digT2 >= 0
    requires c.digT3 >= 0
    requires TFine(raw / 16, c) * 5 + 128 >= 0
    ensures CompensateTemperature(raw, c) == Hundredths(DatasheetTemperature(raw / 16, c))
  {
    var adc := raw / 16;
    TFineAgrees(adc, c);
    TruncateVersusFloor(TFine(adc, c) * 5 + 128, 256);
  }

  /** Shifting a dividend up by less than the divisor moves its floor
      quotient up by 0 or 1. */
  lemma FloorDivStep(y: int, delta: int, d: int)
    requires d > 0 && 0 <= delta < d
    ensures 0 <= FloorDiv(y + delta, d) - FloorDiv(y, d) <= 1
  {
    var q1 := FloorDiv(y + delta, d);
    var q0 := FloorDiv(y, d);
    assert (q1 - q0) * d == delta - (y + delta - q1 * d) + (y - q0 * d);
    SmallMultiple(q1 - q0, d, 2);
  }

  /** For every register value but the disabled code and every
      calibration, the reported temperature is the datasheet's or at most
      two hundredths of a degree above it. */
  lemma TemperatureNearDatasheet(raw: nat, c: Calibration)
    requires raw != TEMP_DISABLED
    ensures 0 <= CompensateTemperature(raw, c).value - DatasheetTemperature(raw / 16, c) <= 2
  {
    var adc := raw / 16;
    var t := TFine(adc, c);
    var f := DatasheetTFine(adc, c);
    TFineNearDatasheet(adc, c);
    TruncateVersusFloor(t * 5 + 128, 256);
    FloorDivStep(f * 5 + 128, (t - f) * 5, 256);
  }

  /** The example calibration of the datasheet: dig_T1 = 27504,
      dig_T2 = 26435, dig_T3 = -1000. */
  const EXAMPLE_CALIBRATION: Calibration :=
    Calibration(27504, 26435, -1000, 0, 0, 0, 0, 0, 0, 0, 0, 0, 0, 0, 0, 0, 0, 0)

  lemma ExampleTerms()
    ensures Var1(519888, EXAMPLE_CALIBRATION) == 128793
    ensures Var2(519888, EXAMPLE_CALIBRATION) == -370
  {
    assert Var1(519888, EXAMPLE_CALIBRATION) == CDiv(263768430, 2048);
    assert CDiv(263768430, 2048) == 128793;
    assert Var2(519888, EXAMPLE_CALIBRATION) == CDiv(CDiv(24890121, 4096) * -1000, 16384);
    assert CDiv(24890121, 4096) == 6076;
    assert CDiv(-6076000, 16384) == -370;
  }

  lemma DatasheetExampleTerms()
    ensures DatasheetTFine(519888, EXAMPLE_CALIBRATION) == 128422
  {
    assert DatasheetTFine(519888, EXAMPLE_CALIBRATION) ==
           FloorDiv(263768430, 2048) + FloorDiv(FloorDiv(24890121, 4096) * -1000, 16384);
    assert FloorDiv(263768430, 2048) == 128793;
    assert FloorDiv(24890121, 4096) == 6076;
    assert FloorDiv(-6076000, 16384) == -371;
  }

  /** With the example calibration, register value 0x7EED00 (sample
      519888) reads 25.08 degrees. Here `var2` is negative and the driver's
      `t_fine` is 128423 where the datasheet's shifts give 128422; the
      rounded temperature is the same. */
  lemma ExampleReading()
    ensures CompensateTemperature(0x7E_ED00, EXAMPLE_CALIBRATION) == Hundredths(2508)
    ensures TFine(519888, EXAMPLE_CALIBRATION) == 128423
    ensures DatasheetTFine(519888, EXAMPLE_CALIBRATION) == 128422
    ensures DatasheetTemperature(519888, EXAMPLE_CALIBRATION) == 2508
  {
    ExampleTerms();
    DatasheetExampleTerms();
    assert 0x7E_ED00 / 16 == 519888;
    assert CDiv(128423 * 5 + 128, 256) == 2508;
    assert FloorDiv(128422 * 5 + 128, 256) == 2508;
  }

  /** The register value 0x7EB820 (sample 519042) with the same
      calibration reads 24.82 degrees. */
  lemma Reading7EB820()
    ensures CompensateTemperature(0x7E_B820, EXAMPLE_CALIBRATION) == Hundredths(2482)
  {
    Var1Of519042();
    Var2Of519042();
    assert 0x7E_B820 / 16 == 519042;
    assert CDiv(127061 * 5 + 128, 256) == 2482;
  }

  /** `var1` for sample 519042 with the example calibration. */
  lemma Var1Of519042()
    ensures Var1(519042, EXAMPLE_CALIBRATION) == 127424
  {
    assert Var1(519042, EXAMPLE_CALIBRATION) == CDiv(260966320, 2048);
  }

  /** `var2` for sample 519042 with the example calibration. */
  lemma Var2Of519042()
    ensures Var2(519042, EXAMPLE_CALIBRATION) == -363
  {
    assert Var2(519042, EXAMPLE_CALIBRATION) == CDiv(CDiv(24364096, 4096) * -1000, 16384);
    assert CDiv(24364096, 4096) == 5948;
  }
}
