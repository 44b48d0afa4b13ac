# Weather station core, modelled in Dafny

The weather station runs on a single-board computer. It reads a BME280
temperature sensor and an ADS1115 analog-to-digital converter, drives a
PCA9685 PWM controller and an SSD1306 OLED display, and appends one line per
sample to `log.txt`. Python scripts read that log backwards: they print recent
lines, cut the last week into daily windows for the weekly weather e-mail, and
pick the subscribers from a sign-up sheet.

This project models the following:

- **The shared I2C bus** (module `Bus`). The bus is the class `I2CBus`, which
  records every system call it issues (`trace`) and caches the device address.
  The operating system is an oracle `kernel`: its i-th answer is the result of
  the i-th system call. A driver operation is specified by its *script*, the
  calls it means to issue, and the calls it actually issues are the script up
  to and including the first one that fails. This mirrors the way each
  C++ helper throws at the first failing `ioctl`, `write` or `read`.
- **The four drivers**, each a class over the bus:
  - `Ads1115`: configuration word validation and encoding, and the signed
    conversion sample.
  - `Pca9685`: PWM frames, MODE1 bit edits, the prescaler sequence and
    turning all channels off.
  - `Bme280`: register access, the calibration readout and its decoding, the
    reset and poll start-up sequence, the sampling configuration, and the
    integer temperature compensation. The compensation is compared with the
    datasheet's reference formula in module `Bme280Calibration`.
  - `Ssd1306`: cursor commands, the clear-screen sweep, glyph output through
    a font, and the set-up sequence.

  Each method's `ensures` fixes the calls it issues, whether it succeeds, and
  what it returns, in terms of the script and the oracle. The lemmas beside
  each method prove what those scripts and encodings mean.
- **The log readers** (module `PrintLogs`): `print_logs` and `logs_to_list`,
  as methods with loops proved against specification functions over the log
  read backwards.
- **The e-mail updater's logic** (module `EmailUpdater`): the address check,
  the subscriber list, `next_weekday`, and the seven daily windows of
  `set_data`.

Module `CTypes` holds the fixed-width integer conversions (`__u8`, `__s8`,
`__s16`, big- and little-endian words) and C's truncating division.

With the datasheet's example calibration, register value 0x7EED00 (sample
519888) reads 25.08 °C (`Bme280Calibration.ExampleReading`). For that sample
the code's `t_fine` is 128423, one above the datasheet's 128422, because C's
division truncates where the datasheet's shift rounds down. Register value
0x7EB820 (sample 519042) reads 24.82 °C (`Bme280Calibration.Reading7EB820`).

## Model

| member | source | states |
|---|---|---|
| CTypes.ByteOf | include/pca9685.cpp:48 | the byte stored for a value in 0..255 holds exactly that value |
| CTypes.ByteOfCast | include/pca9685.cpp:48 | converting a byte to an integer and back gives the same byte |
| CTypes.CDiv | include/bme280.cpp:117-124 | C's `/` on `__s32`: truncation toward zero, so the remainder takes the dividend's sign and is smaller than the divisor |
| CTypes.FloorDiv | include/bme280.cpp:117-124 | the datasheet's arithmetic shift: floor division, remainder in 0..d-1 |
| CTypes.ToS8 | include/bme280.cpp:204-208 | `(__s8)` of a byte: a value in -128..127 that is congruent to the byte modulo 256 |
| CTypes.ToS16 | include/ads1115.cpp:43 | `static_cast<__s16>` of a 16-bit word: a value in -32768..32767 that is congruent to the word modulo 65536 |
| CTypes.BigEndian16 | include/bme280.cpp:162 | `buffer[0] << 8 \| buffer[1]` is 256 * first byte + second byte |
| CTypes.ShiftOrIsSum16 | include/bme280.cpp:162 | for bytes widened to 16 bits, shift-or equals multiply-add, and the sum does not wrap |
| CTypes.BigEndian24 | include/bme280.cpp:171 | the 24-bit big-endian value of three bytes, below 2^24 |
| CTypes.SplitWord | include/bme280.cpp:177 | a word is rebuilt from its high and low bytes, and `(t >> 8) \| (t << 8)` swaps them |
| CTypes.Swap16 | include/bme280.cpp:174-178 | the byte swap of `read16_LE`, as arithmetic on the value |
| CTypes.WordBytes | include/pca9685.cpp:66-69 | the low byte of a word is its value modulo 256, the high byte its value divided by 256 |
| CTypes.SwapOfBigEndian | include/bme280.cpp:174-178 | swapping a big-endian word gives the little-endian word of the same two bytes |
| CTypes.SwapSwap | include/bme280.cpp:174-178 | swapping twice is the identity |
| Bus.Delivered | include/i2c_bus.cpp:52-59 | a read yields exactly the requested number of bytes, starting with the bytes the kernel delivered |
| Bus.DataAt | include/i2c_bus.cpp:52-59 | the bytes a read at a given position of the trace yields |
| Bus.Issued | include/i2c_bus.cpp:27-59 | the calls a script issues: never more than the script, all of it when every call succeeds, at least one call when the script is not empty |
| Bus.IssuedEndsAtFailure | include/i2c_bus.cpp:34-35 | when a script does not complete, the issued calls stop at the first failing call, and every call before it succeeded |
| Bus.AllSucceedAppend | include/i2c_bus.cpp:44-58 | two scripts in sequence complete iff the first completes and the second completes after it |
| Bus.IssuedAppend | include/i2c_bus.cpp:44-58 | the second of two scripts runs only when the first completes |
| Bus.SingleCall | include/i2c_bus.cpp:44-48 | a one-call script completes iff that call succeeds, and the call is always issued |
| Bus.I2CBus.constructor | include/i2c_bus.cpp:17-25 | a bus on an open descriptor starts with an empty trace and no device addressed |
| Bus.I2CBus.Open | include/i2c_bus.cpp:17-25 | opening fails with the open error iff the descriptor is negative; otherwise there is a fresh bus with an empty trace and no device addressed |
| Bus.I2CBus.RunAppend | include/i2c_bus.cpp:44-58 | running two scripts in sequence inside the bus state: the second starts from the trace the first leaves, and only if the first completed |
| Bus.I2CBus.Advance | include/i2c_bus.cpp:44-58 | after one step of a script, the rest continues from the new trace on success and is skipped on failure |
| Bus.I2CBus.SetDeviceAddress | include/i2c_bus.cpp:27-39 | no call when the address is already set; otherwise one ioctl, with the cached address updated even if the ioctl fails and the first-set flag raised only on success; a failure reports the address error; after a success the address needs no further ioctl |
| Bus.I2CBus.WriteToDevice | include/i2c_bus.cpp:42-49 | one write is issued, and it succeeds iff the kernel reports every byte written; a failure reports the byte count and the cached address |
| Bus.I2CBus.ReadFromDevice | include/i2c_bus.cpp:52-59 | one read is issued, and it succeeds iff the kernel reports every byte read; it returns the delivered bytes, and a failure reports the count and the cached address |
| Ads1115.ConfigHigh | include/ads1115.cpp:29 | the high configuration byte `16 * ai + 2 * fs + 0xC0` as stored into a `__u8`, wrapping modulo 256; ConfigHighDecodes and ConfigHighInjective state what it holds |
| Ads1115.ConfigHighDecodes | include/ads1115.cpp:29 | for an accepted input the high configuration byte does not wrap; it holds the input in bits 5..4 and the mode in bits 3..1, sets bits 7..6 and clears bit 0 |
| Ads1115.ConfigHighInjective | include/ads1115.cpp:29 | different accepted inputs give different high configuration bytes |
| Ads1115.ConfigError | include/ads1115.cpp:20-24 | an input is rejected iff the analog input is 4 or more or the mode is 5 or more, and the input is checked first |
| Ads1115.Sample | include/ads1115.cpp:43 | the signed value of the two conversion bytes, in -32768..32767, negative exactly when the first byte's top bit is set |
| Ads1115.ADS1115.constructor | include/ads1115.cpp:11-14 | the driver remembers its bus and address |
| Ads1115.ADS1115.SetConfig | include/ads1115.cpp:18-37 | a rejected input raises before anything changes; an accepted one records the mode and issues the address, the 3-byte configuration write and the 1-byte pointer write, and leaves the buffer at the pointer byte written last; on success the device stays addressed |
| Ads1115.ADS1115.SendConfig | include/ads1115.cpp:28-36 | the calls an accepted configuration issues, and the buffer contents they leave; on success the device stays addressed |
| Ads1115.ADS1115.ReadVoltage | include/ads1115.cpp:39-44 | addresses the device and reads two bytes into the buffer; on success it returns the signed sample they encode; on success the device stays addressed |
| Ads1115.ADS1115.Attach | include/ads1115.cpp:11-16 | construction configures analog input 0 in the default mode, and succeeds iff that configuration completes; on success the device stays addressed |
| Pca9685.SleepMode | include/pca9685.cpp:51 | RESTART is cleared, SLEEP is set, and every other bit of the old mode is kept |
| Pca9685.WakeMode | include/pca9685.cpp:77 | SLEEP is cleared and every other bit is kept |
| Pca9685.RestartMode | include/pca9685.cpp:57 | RESTART and auto-increment are set and every other bit of the old mode is kept |
| Pca9685.ClampPrescale | include/pca9685.cpp:36-48 | the prescale estimate is clamped to the 3..255 range, and a value inside the range is truncated toward zero |
| Pca9685.PwmFrame | include/pca9685.cpp:64-71 | the 5-byte transfer of `set_PWM`: the channel's LEDn_ON_L register, then the on and off counts low byte first; always five bytes |
| Pca9685.PwmFrameDecodes | include/pca9685.cpp:64-71 | the 5-byte frame starts at register 6 + 4 * num (modulo 256), followed by the on and off counts in little-endian order |
| Pca9685.OffFrames | include/pca9685.cpp:81-85 | turning off channels i..15 writes one frame per remaining channel |
| Pca9685.OffFramesSplit | include/pca9685.cpp:83-84 | the remaining frames are the frame of channel i followed by those after it |
| Pca9685.OffFramesChannel | include/pca9685.cpp:83-84 | the j-th frame turns off channel i + j with on and off counts set to zero |
| Pca9685.PCA9685.constructor | include/pca9685.cpp:24-29 | the driver remembers its bus, address and oscillator frequency, and issues no calls |
| Pca9685.PCA9685.Read8 | include/pca9685.cpp:97-102 | writes the register number, then reads one byte and returns it |
| Pca9685.PCA9685.Write8 | include/pca9685.cpp:104-110 | one 2-byte write: the register, then the value |
| Pca9685.PCA9685.SetPwm | include/pca9685.cpp:60-72 | addresses the device, then writes the 5-byte PWM frame; on success the device is still addressed |
| Pca9685.PCA9685.SetPwmFreq | include/pca9685.cpp:31-58 | addresses the device and reads MODE1, then writes the sleep mode, the clamped prescaler, the old mode and finally the restart mode, stopping at the first failure; on success the device stays addressed |
| Pca9685.PCA9685.ReadAndWriteModes | include/pca9685.cpp:50-57 | reads MODE1, then writes the four mode and prescaler values derived from the byte read |
| Pca9685.PCA9685.WriteModes | include/pca9685.cpp:51-57 | the four writes of the frequency change for a given old mode and prescaler |
| Pca9685.PCA9685.WakeUp | include/pca9685.cpp:74-79 | reads MODE1 and writes it back with SLEEP cleared, without addressing the device first |
| Pca9685.PCA9685.OffStep | include/pca9685.cpp:83-84 | one loop step of turning off: the rest of the channels follows on success, and nothing more is issued on failure |
| Pca9685.PCA9685.TurnOff | include/pca9685.cpp:81-85 | addresses the device once, then writes a zero frame for each of the 16 channels in order, stopping at the first failure; on success the device stays addressed |
| Pca9685.PCA9685.Destroy | include/pca9685.cpp:87-90 | the destructor turns every channel off; on success the device stays addressed |
| Bme280Calibration.SignExtend | include/bme280.cpp:204-207 | `(__s8)` widened to 16 bits keeps small bytes and sets the high byte of negative ones |
| Bme280Calibration.Packed | include/bme280.cpp:204-207 | `((__s8)hi << 4) \| (lo & 0xF)` as a 16-bit word; PackedBytes and PackedValue give its value |
| Bme280Calibration.PackedBytes | include/bme280.cpp:204-207 | the shift-or of the sign-extended high byte and the low nibble is their arithmetic combination |
| Bme280Calibration.PackedValue | include/bme280.cpp:204-207 | the packed 12-bit coefficient is 16 * (signed high byte) + low nibble |
| Bme280Calibration.DigH4 | include/bme280.cpp:204-205 | `dig_H4` is 16 * (signed 0xE4) + the low nibble of 0xE5, in -2048..2047 |
| Bme280Calibration.DigH5 | include/bme280.cpp:206-207 | `dig_H5` is 16 * (signed 0xE6) + the high nibble of 0xE5, in -2048..2047 |
| Bme280Calibration.U16LE | include/bme280.cpp:174-178 | a little-endian unsigned coefficient is a 16-bit unsigned value |
| Bme280Calibration.S16LE | include/bme280.cpp:180-183 | a little-endian signed coefficient is a 16-bit signed value, equal to the unsigned one or 65536 below it |
| Bme280Calibration.S16LEIsTwosComplement | include/bme280.cpp:180-183 | the signed coefficient is the two's complement reading of the unsigned one; it is unchanged iff the high byte's top bit is clear |
| Bme280Calibration.DecodeCalibration | include/bme280.cpp:185-208 | decodes the 20 register reads into a calibration whose fields all fit their C types, with `dig_T1`, `dig_H1`, `dig_H3`, `dig_H4`, `dig_H5` and `dig_H6` stated byte by byte |
| Bme280Calibration.CalibrationRegister | include/bme280.cpp:185-208 | the register of each of the 20 reads of `read_coefficients`, in source order: 0x88 to 0x9E in steps of 2, then 0xA1, 0xE1, 0xE3, 0xE4, 0xE5, 0xE6, 0xE5, 0xE7 |
| Bme280Calibration.CalibrationWidth | include/bme280.cpp:185-208 | the width of each read: two bytes for the T, P and H2 words, one byte otherwise |
| Bme280Calibration.StoreEntry | include/bme280.cpp:185-208 | the field each read is assigned to, with its signedness; the H4 and H5 reads combine the byte read before them |
| Bme280Calibration.StoredAll | include/bme280.cpp:185-208 | storing the 20 reads one after the other, as the method does, gives the decoded calibration |
| Bme280Calibration.CompensateTemperature | include/bme280.cpp:112-126 | the reading is "disabled" exactly for register value 0x800000; otherwise it is the temperature in hundredths of a degree |
| Bme280Calibration.TemperatureFitsS32 | include/bme280.cpp:117-124 | for a 20-bit sample within 16383 of `dig_T1`, every intermediate value fits an `__s32` |
| Bme280Calibration.Var1Fits | include/bme280.cpp:117-118 | under that bound, `var1` and its factors fit an `__s32` |
| Bme280Calibration.Var2Fits | include/bme280.cpp:119-120 | under that bound, `var2` and its factors fit an `__s32` |
| Bme280Calibration.ScaledSquareFits | include/bme280.cpp:120 | the scaled square times `dig_T3` stays within `__s32` |
| Bme280Calibration.TemperatureCanOverflow | include/bme280.cpp:118 | without that bound, a well-typed calibration and a 20-bit sample exist for which `var1 * dig_T2` overflows `__s32` |
| Bme280Calibration.TruncateVersusFloor | include/bme280.cpp:118-124 | C division and floor division differ by at most one, and agree on non-negative dividends |
| Bme280Calibration.Var1 | include/bme280.cpp:117-118 | `var1`: `(adc / 8 - 2 * dig_T1) * dig_T2 / 2048`, with C's division truncating toward zero |
| Bme280Calibration.Var2 | include/bme280.cpp:119-120 | `var2`: the square of `adc / 16 - dig_T1`, divided by 4096, times `dig_T3`, divided by 16384, each division truncating toward zero |
| Bme280Calibration.TFine | include/bme280.cpp:122 | `t_fine`, the sum of the two terms; TFineNearDatasheet relates it to the datasheet's |
| Bme280Calibration.TFineNearDatasheet | include/bme280.cpp:117-122 | the code's `t_fine` exceeds the datasheet's reference by 0, 1 or 2 |
| Bme280Calibration.TemperatureNearDatasheet | include/bme280.cpp:112-126 | for every register value except the disabled code and every calibration, the reported temperature equals the datasheet's or is at most 2 hundredths of a degree above it |
| Bme280Calibration.TFineAgrees | include/bme280.cpp:117-122 | when both products are non-negative, the code's `t_fine` equals the datasheet's |
| Bme280Calibration.AgreesWithDatasheet | include/bme280.cpp:112-126 | under the same condition, the reported temperature equals the datasheet's reference temperature |
| Bme280Calibration.ExampleTerms | include/bme280.cpp:117-120 | for the datasheet's example sample and calibration, `var1` is 128793 and `var2` is -370 |
| Bme280Calibration.DatasheetExampleTerms | include/bme280.cpp:117-122 | the datasheet's own formula gives `t_fine` 128422 for that example |
| Bme280Calibration.ExampleReading | include/bme280.cpp:112-126 | register value 0x7EED00 reads 25.08 °C with the example calibration; the code's `t_fine` is 128423, the datasheet's 128422 |
| Bme280Calibration.Reading7EB820 | include/bme280.cpp:112-126 | register value 0x7EB820 reads 24.82 °C with the example calibration |
| Bme280Calibration.Var1Of519042 | include/bme280.cpp:117-118 | `var1` for sample 519042 is 127424 |
| Bme280Calibration.Var2Of519042 | include/bme280.cpp:119-120 | `var2` for sample 519042 is -363 |
| Bme280.ReadScript | include/bme280.cpp:150-172 | a register read writes the register number, then reads n bytes |
| Bme280.CoefficientScript | include/bme280.cpp:185-208 | the calibration readout from entry i on is two calls per remaining entry |
| Bme280.CoefficientScriptStep | include/bme280.cpp:185-208 | the readout from entry i is entry i's register read followed by the readout from i + 1 |
| Bme280.ReadoutIsScript | include/bme280.cpp:185-208 | the calls the readout loop issues, and whether it completes, are those of the whole readout script |
| Bme280.ReadAt | include/bme280.cpp:185-208 | the bytes entry i of the readout receives, of that entry's width |
| Bme280.CoefficientData | include/bme280.cpp:185-208 | the 20 readout results have the shapes the decoder expects |
| Bme280.StoredAtAll | include/bme280.cpp:185-208 | storing every entry read gives the decoded calibration |
| Bme280.StoredAtIsStoredUpTo | include/bme280.cpp:185-208 | storing the first i entries read is the decoder's partial store |
| Bme280.PollScript | include/bme280.cpp:92-96 | the status polls: one register read per poll, at most the allowed number |
| Bme280.PollScriptSettles | include/bme280.cpp:92-96 | once the sensor reads ready within the bound, any larger bound issues the same polls |
| Bme280.SetupTraceIsScript | include/bme280.cpp:98-100 | the calls of the readout and the sampling configuration are those of one script |
| Bme280.SetupCompletesIsScript | include/bme280.cpp:98-100 | the readout and the sampling configuration complete iff that script completes |
| Bme280.BME280.constructor | include/bme280.cpp:78-81 | the driver remembers its bus and address |
| Bme280.BME280.ReadBytes | include/bme280.cpp:150-172 | writes the register number, then reads n bytes and returns them |
| Bme280.BME280.Read8 | include/bme280.cpp:150-155 | reads one register byte |
| Bme280.BME280.Read16 | include/bme280.cpp:157-163 | reads two bytes and returns their big-endian value |
| Bme280.BME280.Read24 | include/bme280.cpp:165-172 | reads three bytes and returns their big-endian value |
| Bme280.BME280.Read16LE | include/bme280.cpp:174-178 | reads two bytes and returns their little-endian value |
| Bme280.BME280.ReadS16LE | include/bme280.cpp:180-183 | reads two bytes and returns their signed little-endian value |
| Bme280.BME280.Write8 | include/bme280.cpp:142-148 | one 2-byte write: the register, then the value |
| Bme280.BME280.ReadoutStep | include/bme280.cpp:185-208 | one step of the readout loop: the rest follows on success, and the readout stops on failure |
| Bme280.BME280.ReadoutStepTrace | include/bme280.cpp:185-208 | after a successful entry read, the rest of the readout continues from the new trace |
| Bme280.BME280.ReadoutStepCompletes | include/bme280.cpp:185-208 | after a successful entry read, the readout completes iff the rest completes |
| Bme280.BME280.StoreStep | include/bme280.cpp:185-208 | storing the bytes of entry i advances the partial calibration by one entry |
| Bme280.BME280.ReadEntry | include/bme280.cpp:185-208 | reads entry i and stores it, keeping the readout invariant; on failure the readout ends there |
| Bme280.BME280.ReadCoefficients | include/bme280.cpp:185-214 | issues the 20 register reads in order, stopping at the first failure; on success the calibration is the decoding of the bytes read |
| Bme280.BME280.IsReadingCalibration | include/bme280.cpp:130-140 | reads the status register; the answer is whether bit 0 is set |
| Bme280.BME280.SetSampling | include/bme280.cpp:216-228 | the four configuration writes: sleep mode, humidity oversampling 3, config 109, control 110 |
| Bme280.BME280.PollStep | include/bme280.cpp:92-96 | one poll: a busy status leads to the next poll, a ready status ends the polling, and a failure stops it |
| Bme280.BME280.AwaitCalibration | include/bme280.cpp:92-96 | polls the status until bit 0 clears; it fails with a timeout iff every allowed poll succeeds and still reads busy |
| Bme280.BME280.ResetAndAwait | include/bme280.cpp:87-96 | addresses the device, writes the soft-reset code, then polls; on success the device stays addressed |
| Bme280.BME280.ReadAndSample | include/bme280.cpp:98-100 | reads the calibration and then configures sampling; on success the calibration is the decoding of the bytes read |
| Bme280.BME280.SetConfig | include/bme280.cpp:85-106 | the whole start-up: address, soft reset, polling, calibration readout and sampling configuration, stopping at the first failure; on success the calibration is the decoding of the readout; on success the device stays addressed |
| Bme280.BME280.ReadTemperature | include/bme280.cpp:108-127 | reads the three temperature bytes without re-addressing the device, and returns the compensation of their big-endian value |
| Bme280.BME280.Attach | include/bme280.cpp:78-83 | construction runs the start-up, and succeeds iff it completes; on success the driver holds the decoding of the coefficients read and the device stays addressed |
| Ssd1306.CursorCommands | include/ssd1306.cpp:29-31 | the three cursor command bytes |
| Ssd1306.CursorDecodes | include/ssd1306.cpp:29-31 | a column below 128 is split into its low and high nibbles and rebuilt from them; the page command is 0xB0 + y |
| Ssd1306.CursorScript | include/ssd1306.cpp:25-32 | setting the cursor sends three framed commands |
| Ssd1306.Zeros | include/ssd1306.cpp:41-42 | the clearing of one page is a run of zero-data writes of the given length |
| Ssd1306.PageScript | include/ssd1306.cpp:38-43 | clearing page p is the cursor to column 0 of page p, then 128 zero-data writes |
| Ssd1306.ClearScript | include/ssd1306.cpp:34-45 | clearing the screen is eight page clears followed by the cursor back to the origin |
| Ssd1306.ClearSlice | include/ssd1306.cpp:38-43 | page p's slice of the clear-screen sweep is that page's script |
| Ssd1306.ClearPages | include/ssd1306.cpp:38-43 | the sweep from page p on is page p's script followed by the sweep from page p + 1 |
| Ssd1306.ClearLayout | include/ssd1306.cpp:38-43 | page p's clear starts with the cursor to column 0 of page p, and each of its 128 columns receives a zero |
| Ssd1306.ClearEndsAtOrigin | include/ssd1306.cpp:44 | the sweep ends by putting the cursor back to column 0 of page 0 |
| Ssd1306.ClearFramed | include/ssd1306.cpp:34-45 | every transfer of the sweep is a 2-byte command or data frame |
| Ssd1306.Printable | include/ssd1306.cpp:73-74 | the drawn character is always printable, and is the given one when that is printable |
| Ssd1306.GlyphFits | include/ssd1306.cpp:76-77 | every glyph the font is indexed with lies inside the font |
| Ssd1306.GlyphAt | include/ssd1306.cpp:73-77 | the font offset the code computes is in bounds and selects the glyph of the character drawn |
| Ssd1306.DataScript | include/ssd1306.cpp:76-77 | one data write per column |
| Ssd1306.DataScriptAt | include/ssd1306.cpp:76-77 | the i-th data write carries the i-th column |
| Ssd1306.Glyph | include/ssd1306.cpp:76-77 | a glyph has the width the font declares |
| Ssd1306.CharScript | include/ssd1306.cpp:69-78 | drawing a character writes one data frame per glyph column |
| Ssd1306.UnprintableIsSpace | include/ssd1306.cpp:73-74 | an unprintable character is drawn as a space |
| Ssd1306.CharFramed | include/ssd1306.cpp:76-77 | every transfer of a character is a data frame |
| Ssd1306.StringScript | include/ssd1306.cpp:61-67 | the data writes of `put_string` after addressing: each character's glyph columns, in string order |
| Ssd1306.StringScriptLength | include/ssd1306.cpp:61-67 | a string writes as many columns as its length times the font width |
| Ssd1306.StringScriptAppend | include/ssd1306.cpp:65-66 | drawing two strings one after the other is drawing their concatenation |
| Ssd1306.StringFramed | include/ssd1306.cpp:61-67 | every transfer of a string is a data frame |
| Ssd1306.SetupScript | include/ssd1306.cpp:131-142 | the six set-up commands, each framed |
| Ssd1306.ConfigScript | include/ssd1306.cpp:125-146 | the configuration is the set-up commands followed by the clear-screen sweep |
| Ssd1306.ConfigFramed | include/ssd1306.cpp:125-146 | every transfer of the configuration is framed |
| Ssd1306.SSD1306.constructor | include/ssd1306.cpp:18-21 | the driver remembers its bus, address and font |
| Ssd1306.SSD1306.Write8 | include/ssd1306.cpp:81-87 | one 2-byte write: the control byte, then the value |
| Ssd1306.SSD1306.SetCursor | include/ssd1306.cpp:25-32 | addresses the device, then sends the three cursor commands |
| Ssd1306.SSD1306.ClearDisplay | include/ssd1306.cpp:34-45 | addresses the device, then issues the whole clear-screen sweep, stopping at the first failure |
| Ssd1306.SSD1306.ClearPage | include/ssd1306.cpp:38-43 | one pass of the outer loop: the cursor to page p, then 128 zeros |
| Ssd1306.SSD1306.ColumnStep | include/ssd1306.cpp:41-42 | one step of the column loop: the rest follows on success and is skipped on failure |
| Ssd1306.SSD1306.ClearColumns | include/ssd1306.cpp:41-42 | the inner loop writes 128 zero columns |
| Ssd1306.SSD1306.WriteCol | include/ssd1306.cpp:47-52 | addresses the device, then writes one data byte; on success the device stays addressed |
| Ssd1306.SSD1306.TurnOffDisplay | include/ssd1306.cpp:54-59 | addresses the device, then sends the display-off command; on success the device stays addressed |
| Ssd1306.SSD1306.PutChar | include/ssd1306.cpp:69-78 | addresses the device, then writes the glyph columns of the character, with an unprintable one drawn as a space |
| Ssd1306.SSD1306.DrawChar | include/ssd1306.cpp:73-77 | writes the glyph columns of the character |
| Ssd1306.SSD1306.DataStep | include/ssd1306.cpp:76-77 | one step of the glyph loop: the rest follows on success and is skipped on failure |
| Ssd1306.SSD1306.DrawColumns | include/ssd1306.cpp:76-77 | writes the given columns in order as data frames |
| Ssd1306.SSD1306.PutString | include/ssd1306.cpp:61-67 | addresses the device once, then draws each character in order, stopping at the first failure; on success the device stays addressed |
| Ssd1306.SSD1306.SetConfig | include/ssd1306.cpp:125-146 | addresses the device, sends the six set-up commands, then clears the screen; on success the device stays addressed |
| Ssd1306.SSD1306.SendSetup | include/ssd1306.cpp:131-142 | sends the six set-up commands in order |
| Ssd1306.SSD1306.Attach | include/ssd1306.cpp:18-23 | construction runs the configuration, and succeeds iff it completes; on success the device stays addressed |
| PrintLogs.Backwards | include/print_logs.py:10-11 | the log read from its last line to its first |
| PrintLogs.BackwardsTwice | include/print_logs.py:10-11 | reading backwards twice gives the file order again |
| PrintLogs.BackwardsAppend | include/print_logs.py:10-11 | lines appended to the log come first when it is read backwards |
| PrintLogs.NewerRun | include/print_logs.py:11-16 | the longest prefix of lines all newer than the reference date; the line after it, if any, is not newer |
| PrintLogs.NewerRunIs | include/print_logs.py:11-16 | any prefix with that property is the newer run |
| PrintLogs.Texts | include/print_logs.py:14 | the printed texts, one per line |
| PrintLogs.PrintLogs | include/print_logs.py:8-16 | prints, newest first, exactly the lines newer than the reference date up to the first one that is not (the `main` of print_logs.py, lines 7-15, is the same loop on log.txt) |
| PrintLogs.ConsideredAll | include/print_logs.py:21-23 | with subsample 1 every line is looked at |
| PrintLogs.Considered | include/print_logs.py:21-23 | the lines the loop looks at: those of the backwards stream at positions that are multiples of the subsample, in order |
| PrintLogs.ConsideredMembers | include/print_logs.py:21-23 | a line is looked at iff its position in the backwards stream is a multiple of the subsample |
| PrintLogs.Kept | include/print_logs.py:24-28 | every collected line is dated in the window [from, to) |
| PrintLogs.BeforeMembers | include/print_logs.py:27-28 | a line is kept iff it is dated before the end of the window |
| PrintLogs.KeptIsWindow | include/print_logs.py:24-28 | the collected lines are the lines before the end of the window, taken from the run of lines not older than its start |
| PrintLogs.Listed | include/print_logs.py:18-28 | the intended result: never `None`, and every listed line lies in the window |
| PrintLogs.ListedAsWritten | include/print_logs.py:18-28 | `logs_to_list` as written: ZeroDivisionError for subsample 0 on a non-empty log, the collected lines when an older line stops the loop, and `None` when the loop runs to the end |
| PrintLogs.ListedAgrees | include/print_logs.py:18-28 | the code as written agrees with the intended result except that it yields `None` iff the loop reaches the end of the log without meeting a line older than the start |
| PrintLogs.NoneForYoungLog | include/print_logs.py:18-28 | a one-line log dated inside the window: as written the result is `None`, as intended it is a list holding that line |
| PrintLogs.ConsideredStep | include/print_logs.py:21-23 | one position of the enumeration is looked at, or skipped, before the rest |
| PrintLogs.KeptCons | include/print_logs.py:25-28 | a line not older than the start is collected iff it is before the end, and collection goes on past it |
| PrintLogs.CollectStep | include/print_logs.py:27-28 | one collecting iteration extends the list by the line when it is before the end of the window |
| PrintLogs.PassStep | include/print_logs.py:25-26 | a line not older than the start does not end the loop |
| PrintLogs.StopStep | include/print_logs.py:25-26 | a line older than the start ends the loop with the list collected so far |
| PrintLogs.SkipStep | include/print_logs.py:22-23 | a position that is not a multiple of the subsample is skipped |
| PrintLogs.LogsToListAsWritten | include/print_logs.py:18-28 | the loop as written: a zero division for subsample 0 on a non-empty log, the list when a line older than the start is met, `None` otherwise |
| PrintLogs.LogsToList | include/print_logs.py:18-28 | the loop as intended: the list of lines in the window, whether or not an older line is met |
| EmailUpdater.Lower | email_updater.py:64-65 | lower-casing keeps the length |
| EmailUpdater.LowerSpec | email_updater.py:64-65 | no upper-case letter remains, other characters are unchanged, and lower-casing twice is lower-casing once |
| EmailUpdater.FirstAt | email_updater.py:40 | the position of the first `@`, or the length when there is none |
| EmailUpdater.FirstAtBefore | email_updater.py:40 | any `@` is at or after the first one |
| EmailUpdater.FirstAtAfter | email_updater.py:40 | a prefix without `@` ends at or before the first one |
| EmailUpdater.IsValidEmail | email_updater.py:38-41 | `is_valid_email` decided by scanning: a non-empty part before the first `@`, and after it no `@` and a dot with text on both sides; ValidEmailIsPattern ties it to the regular expression |
| EmailUpdater.ValidEmailIsPattern | email_updater.py:38-41 | an address is valid iff it is a full match of `[^@]+@[^@]+\.[^@]+`: a non-empty local part, one `@`, and a domain with a dot that has text on both sides and no further `@` |
| EmailUpdater.LatestIsLast | email_updater.py:63 | the option that counts for an address is the one of its last response, and there is none iff the address never responded |
| EmailUpdater.SubscriptionStep | email_updater.py:63-69 | one iteration over the responses, newest first, keeps "accepted" as "latest answer valid and subscribe" and "rejected" as "some answer not" |
| EmailUpdater.EmailSender.constructor | email_updater.py:50-53 | a sender holds the sheet's responses and no valid addresses yet |
| EmailUpdater.EmailSender.SetValidEmails | email_updater.py:60-69 | an address is kept iff its latest response, lower-cased, is a valid address choosing "subscribe"; every kept address is lower-case and valid |
| EmailUpdater.CaseInsensitive | email_updater.py:64-65 | responses that differ only in letter case give the same subscribers |
| EmailUpdater.Weekday | email_updater.py:215 | the weekday is in 0..6 |
| EmailUpdater.WeekdayShift | email_updater.py:215 | k days later the weekday has advanced by k, modulo 7 |
| EmailUpdater.DaysAhead | email_updater.py:214-218 | `days_ahead` of `next_weekday`: the wanted weekday minus today's, plus 7 when that is not positive |
| EmailUpdater.NextWeekday | email_updater.py:214-218 | the result is between 1 and 7 whole days later and falls on the requested weekday |
| EmailUpdater.NextWeekdayIsFirst | email_updater.py:214-218 | no earlier day after the given one falls on that weekday |
| EmailUpdater.Midnight | email_updater.py:92 | the same day, with hours, minutes and seconds cleared and the microseconds kept |
| EmailUpdater.Days | email_updater.py:93 | eight instants one day apart, the last of them the cleared end date |
| EmailUpdater.WindowsTile | email_updater.py:93-98 | the seven windows cover the week without overlap: each instant of it falls in exactly one window |
| EmailUpdater.WindowLinesAre | email_updater.py:98 | the lines of a window are the log lines dated in it, newest first, taken from before the first older line |
| EmailUpdater.DataProcessor.constructor | email_updater.py:90-94 | a processor starts with no days and no data |
| EmailUpdater.DataProcessor.SetData | email_updater.py:91-122 | computes the eight day boundaries and, for each of the seven windows, the log lines dated in it |

## Left out

- I/O: the device node, `ioctl`, `read`, `write` and the log file are not
  executed. The kernel is the `kernel` oracle parameter of the bus, and the
  log is a sequence of already parsed lines.
- Bus.Delivered: a read that reports fewer bytes than requested leaves the
  rest of the C buffer as it was. The model pads the missing bytes with
  zeros, because it only uses such bytes after a successful read.
- The C++ exceptions are modelled as `Fail`/`Err` results that the callers
  pass on, except in the destructor (below). The message strings are left
  out.
- Pca9685.PCA9685.Destroy: returns `Fail` when a write of `turn_off` fails.
  In the source the destructor (include/pca9685.cpp:87-90) is implicitly
  `noexcept`, so that exception calls `std::terminate` and ends the process;
  process termination is not modelled.
- The stdout messages (prescale limits, "reading calibration...", the
  coefficient dump, the set-up progress lines) are output only and are left
  out.
- `usleep` and `sleep_for` are left out, because delays do not change what
  is sent on the bus.
- The destructor of the bus, which closes the descriptor, is left out;
  closing issues no transfer on the bus.
- Ads1115.ADS1115.ReadVoltage: returns the signed sample. The float
  `_conversion_factor` (`FULL_SCALES[fs_mode] / 32768.0`) and the float
  product are left out, because floating point is not modelled. The
  recorded `fsMode` fixes the factor.
- Pca9685.PCA9685.SetPwmFreq: takes the prescale estimate as a real number.
  The float formula `osc / (freq * 4096.0) + 0.5 - 1` and its rounding are
  left out.
- Bme280.BME280.ReadTemperature: returns hundredths of a degree. The final
  float division by 100 is left out.
- Bme280Calibration.CompensateTemperature: the source returns the float -1
  for the disabled code 0x800000 (include/bme280.cpp:112-113), which a
  caller cannot tell apart from a reading of -1.00 degrees. The model
  returns a separate `Disabled` value, so it draws a distinction the
  source does not.
- Bme280Calibration.CompensateTemperature: computes on unbounded integers.
  It matches the `__s32` arithmetic when the sample is within 16383 of
  `dig_T1` (TemperatureFitsS32). Outside that bound the C code can overflow,
  which C leaves undefined (TemperatureCanOverflow gives such an input).
- Bme280.BME280.AwaitCalibration: the C loop polls without a limit. The
  model takes a `maxPolls` bound and adds a `CalibrationTimeout` failure for
  a sensor that never becomes ready. Once the sensor reads ready within the
  bound, a larger bound issues the same polls (PollScriptSettles).
- The driver has no pressure or humidity reading, so the pressure and
  humidity calibration fields are only decoded and stored.
- The SSD1306 `read8`, `read16`, `read24`, `read16_LE` and `readS16_LE` are
  never called by the driver and are left out. They are the same as the
  BME280 helpers, which are modelled.
- The font table `font8x8` comes from fonts.hpp, which is not part of this
  model. The font is a parameter that only has to be large enough for
  every printable glyph.
- Characters of `put_char` and `put_string` are bytes. A signed `char`
  above 127 is negative in C, and both forms draw it as a space.
- The C++ evaluation order of the two `read8` operands of the `|` in
  `dig_H4` and `dig_H5` is unspecified. The model reads the left operand
  first (0xE4 then 0xE5, and 0xE6 then 0xE5).
- `strptime` parsing of the date field and the `ValueError` on an
  unparsable line are left out. Lines carry their parsed date.
- `print`'s line break is left out. PrintLogs returns the texts printed.
- EmailUpdater.Lower: ASCII letters only. Python's Unicode `lower()` is not
  modelled.
- EmailUpdater.EmailSender.SetValidEmails: `valid_emails` is `None` before
  the call and is modelled as the empty set. The responses are a parameter
  in place of the pandas data frame fetched by `set_data_frame` (network),
  and the loop walks them by index where Python zips two reversed columns.
- `average`, `send_emails` (SMTP), `produce_weather_report`,
  `produce_email_message` and `send_the_emails` (plotting, HTML, e-mail)
  are left out, along with the scheduler loop, its `replace(hour=2)` and
  the calls to `datetime.now()`.
- EmailUpdater.DataProcessor.SetData: is built on the corrected reader
  `LogsToList`. As written, a window for which `logs_to_list` returns
  `None` (no line older than the window's start, see Findings) makes
  `set_data` raise `TypeError` at `for log in logs_list`
  (email_updater.py:98, 107); that outcome is not modelled.
- EmailUpdater.DataProcessor.SetData: keeps each window's lines. Splitting
  them into float columns with `nan` for missing outdoor values is left out
  (floating point), as is printing each day.
- Dates are integers, so the `OverflowError` of `datetime` outside years 1
  to 9999 is not modelled.

## Findings

| source | as written | input that shows it | evidently intended | confidence | as-written member | corrected member |
|---|---|---|---|---|---|---|
| include/print_logs.py:21-28 | `logs_to_list` returns the list only from inside the loop, on a line older than `from_date`; when the file runs out first, the function ends and returns `None`, and `set_data` then iterates `None` | a log of one line dated inside the window (`NoneForYoungLog`: dated 10, window [5, 20)) | return `lines_list` after the loop as well | not executed | PrintLogs.LogsToListAsWritten | PrintLogs.LogsToList |
