/** SSD1306 128x64 monochrome OLED controller in page addressing mode: the
    cursor commands, the clear-screen sweep and the text output through an
    8-pixel-high font. */
module Ssd1306 {
  import opened CTypes
  import opened Bus

  const DEFAULT_ADDRESS: bv16 := 0x3C
  /** Control byte of a command transfer. */
  const COMMAND_REG: byte := 0x80
  /** Control byte of a display-data transfer. */
  const DATA_REG: byte := 0x40
  const ON_CMD: byte := 0xAF
  const OFF_CMD: byte := 0xAE
  const NORMAL_DISPLAY_CMD: byte := 0xA6
  const MEMORY_MODE_CMD: byte := 0x20
  const PAGE_ADDRESSING_MODE: byte := 0x02
  const CHARGE_PUMP_CMD: byte := 0x8D
  const CHARGE_PUMP_ON: byte := 0x14
  /** The printable range the font covers; anything else is drawn as a space. */
  const FIRST_CHAR: int := 32
  const LAST_CHAR: int := 127
  /** The code of `' '`. */
  const SPACE: byte := 0x20

  /** `write8(COMMAND_REG, b)`: one 2-byte command transfer. */
  function Command(b: byte): Event {
    Write([COMMAND_REG, b])
  }

  /** `write8(DATA_REG, b)`: one 2-byte transfer of a display column. */
  function Data(b: byte): Event {
    Write([DATA_REG, b])
  }

  /** A 2-byte transfer: a control byte, then the payload. */
  predicate Framed(e: Event) {
    e.Write? && |e.bytes| == 2 && (e.bytes[0] == COMMAND_REG || e.bytes[0] == DATA_REG)
  }

  predicate AllFramed(s: seq<Event>) {
    forall i :: 0 <= i < |s| ==> Framed(s[i])
  }

  /** The three commands `set_cursor(x, y)` sends: the low nibble of the
      column, 0x10 plus its high nibble, and 0xB0 plus the page, each
      truncated to a byte. */
  function CursorCommands(x: byte, y: byte): (c: seq<byte>)
    ensures |c| == 3
  {
    [x & 0x0F, 0x10 + ((x >> 4) & 0x0F), 0xB0 + y]
  }

  /** The first command carries the low nibble and the second the high
      nibble (in 0x10 .. 0x1F, the "set higher column start address"
      command), and together they give the column back; for one of the
      eight pages the third command is "set page start address" 0xB0 ..
      0xB7 naming that page. */
  lemma CursorDecodes(x: byte, y: byte)
    ensures var c := CursorCommands(x, y);
            c[0] < 0x10 && 0x10 <= c[1] <= 0x1F &&
            (c[1] as int - 0x10) * 0x10 + c[0] as int == x as int &&
            (y <= 7 ==> 0xB0 <= c[2] <= 0xB7 && c[2] as int == 0xB0 + y as int)
  {
  }

  function CursorScript(x: byte, y: byte): (s: seq<Event>)
    ensures |s| == 3
  {
    var c := CursorCommands(x, y);
    [Command(c[0]), Command(c[1]), Command(c[2])]
  }

  /** `m` zero data bytes: `m` columns cleared. */
  function Zeros(m: nat): (s: seq<Event>)
    ensures |s| == m
  {
    seq(m, _ => Data(0))
  }

  lemma ZerosStep(m: nat)
    requires m > 0
    ensures Zeros(m) == [Data(0)] + Zeros(m - 1)
  {
  }

  /** The calls of one page of `clear_display`: the cursor to column 0 of
      page `p`, then a zero for each of the 128 columns. */
  function PageScript(p: nat): (s: seq<Event>)
    requires p < 8
    ensures |s| == PAGE_CALLS
  {
    CursorScript(0, ByteOf(p)) + Zeros(128)
  }

  const PAGE_CALLS: nat := 3 + 128
  const CLEAR_CALLS: nat := 8 * PAGE_CALLS + 3

  /** Call number `j` of `clear_display` after addressing. */
  function ClearCall(j: nat): Event
    requires j < CLEAR_CALLS
  {
    if j >= 8 * PAGE_CALLS then CursorScript(0, 0)[j - 8 * PAGE_CALLS]
    else PageScript(j / PAGE_CALLS)[j % PAGE_CALLS]
  }

  /** The calls `clear_display` issues after addressing, in order. */
  function ClearScript(): (s: seq<Event>)
    ensures |s| == CLEAR_CALLS
  {
    seq(CLEAR_CALLS, j requires 0 <= j < CLEAR_CALLS => ClearCall(j))
  }

  /** Calls `PAGE_CALLS * p` up to `PAGE_CALLS * (p + 1)` are page `p`. */
  lemma ClearSlice(p: nat)
    requires p < 8
    ensures ClearScript()[PAGE_CALLS * p..PAGE_CALLS * p + PAGE_CALLS] == PageScript(p)
  {
    var s, k := ClearScript(), PAGE_CALLS * p;
    forall o | 0 <= o < PAGE_CALLS
      ensures s[k + o] == PageScript(p)[o]
    {
      assert (k + o) / PAGE_CALLS == p && (k + o) % PAGE_CALLS == o;
    }
  }

  /** The sweep from page `p` on is page `p`, then the sweep from page
      `p + 1` on. */
  lemma ClearPages(p: nat)
    requires p < 8
    ensures ClearScript()[PAGE_CALLS * p..] == PageScript(p) + ClearScript()[PAGE_CALLS * (p + 1)..]
  {
    var s, k := ClearScript(), PAGE_CALLS * p;
    ClearSlice(p);
    assert PAGE_CALLS * (p + 1) == k + PAGE_CALLS;
    assert s[k..] == s[k..k + PAGE_CALLS] + s[k + PAGE_CALLS..];
  }

  /** Page `p` of the sweep moves the cursor to column 0 of page `p` and
      then clears column `c` with a zero data byte: 8 pages of 128 columns,
      1024 zeros in all. */
  lemma ClearLayout(p: nat, c: nat)
    requires p < 8 && c < 128
    ensures ClearScript()[PAGE_CALLS * p..PAGE_CALLS * p + 3] == CursorScript(0, ByteOf(p))
    ensures ClearScript()[PAGE_CALLS * p + 3 + c] == Data(0)
  {
    ClearPages(p);
    var s, k := ClearScript(), PAGE_CALLS * p;
    assert s[k..k + 3] == s[k..][..3];
    assert s[k + 3 + c] == s[k..][3 + c];
  }

  /** After the eight pages the cursor goes back to (0, 0). */
  lemma ClearEndsAtOrigin()
    ensures ClearScript()[8 * PAGE_CALLS..] == CursorScript(0, 0)
  {
  }

  lemma ClearFramed()
    ensures AllFramed(ClearScript())
  {
  }

  /** The font is a byte table whose first byte is the glyph width; the
      columns of printable character `ch` start at index (ch - 32) * 8 + 2.
      It must hold every column of the last glyph. */
  predicate FontFits(font: seq<byte>) {
    |font| >= 1 && (LAST_CHAR - FIRST_CHAR) * 8 + 2 + font[0] as int <= |font|
  }

  /** `font8x8[0]`, the number of columns of every glyph. */
  function Width(font: seq<byte>): nat
    requires |font| >= 1
  {
    font[0] as int
  }

  /** The character `put_char` draws for `ch`: itself when printable, a
      space otherwise. */
  function Printable(ch: byte): (p: byte)
    ensures FIRST_CHAR <= p as int <= LAST_CHAR
    ensures FIRST_CHAR <= ch as int <= LAST_CHAR ==> p == ch
  {
    if ch as int < FIRST_CHAR || ch as int > LAST_CHAR then SPACE else ch
  }

  /** Index in the font of the first column drawn for `ch`. */
  function GlyphStart(ch: byte): nat {
    (Printable(ch) as int - FIRST_CHAR) * 8 + 2
  }

  /** Every column of every glyph lies inside a font that fits. */
  lemma GlyphFits(font: seq<byte>, ch: byte)
    requires FontFits(font)
    ensures GlyphStart(ch) + Width(font) <= |font|
  {
    var k := Printable(ch) as int - FIRST_CHAR;
    assert 0 <= k <= LAST_CHAR - FIRST_CHAR;
    assert k * 8 <= (LAST_CHAR - FIRST_CHAR) * 8;
  }

  /** The index `put_char` computes for `ch`, with a character outside
      32 .. 127 replaced by a space, is where its glyph starts. */
  lemma GlyphAt(font: seq<byte>, ch: byte, g: int)
    requires FontFits(font)
    requires g == ((if ch as int < 32 || ch as int > 127 then 32 else ch as int) - 32) * 8 + 2
    ensures 0 <= g && g + Width(font) <= |font| && font[g..g + Width(font)] == Glyph(font, ch)
  {
    GlyphFits(font, ch);
  }

  /** A byte counter below a byte bound steps up without wrapping. */
  lemma ByteStep(i: byte, bound: byte)
    requires i < bound
    ensures i as int < bound as int && (i + 1) as int == i as int + 1
  {
  }

  /** A byte counter that is no longer below its bound has reached it. */
  lemma ByteDone(i: byte, bound: byte)
    requires !(i < bound)
    ensures i as int >= bound as int
  {
  }

  /** One data byte per entry of `b`, in order. */
  function DataScript(b: seq<byte>): (s: seq<Event>)
    ensures |s| == |b|
    decreases |b|
  {
    if b == [] then [] else [Data(b[0])] + DataScript(b[1..])
  }

  /** Entry `i` of the data bytes for `b` sends `b[i]`. */
  lemma {:induction false} DataScriptAt(b: seq<byte>, i: nat)
    requires i < |b|
    ensures DataScript(b)[i] == Data(b[i])
    decreases |b|
  {
    if i > 0 {
      DataScriptAt(b[1..], i - 1);
    }
  }

  /** The data byte for `b[n]` comes right before those of the rest. */
  lemma DataScriptStep(b: seq<byte>, n: nat)
    requires n < |b|
    ensures DataScript(b[n..]) == [Data(b[n])] + DataScript(b[n + 1..])
  {
    assert b[n..][1..] == b[n + 1..];
  }

  /** The columns of the glyph `put_char` draws for `ch`. */
  function Glyph(font: seq<byte>, ch: byte): (g: seq<byte>)
    requires FontFits(font)
    ensures |g| == Width(font)
  {
    GlyphFits(font, ch);
    font[GlyphStart(ch)..GlyphStart(ch) + Width(font)]
  }

  /** The data bytes `put_char(ch)` sends after addressing: the columns of
      the glyph of `ch`, left to right. */
  function CharScript(font: seq<byte>, ch: byte): (s: seq<Event>)
    requires FontFits(font)
    ensures |s| == Width(font)
  {
    DataScript(Glyph(font, ch))
  }

  /** A character outside 32 .. 127 is drawn exactly as a space. */
  lemma UnprintableIsSpace(font: seq<byte>, ch: byte)
    requires FontFits(font)
    requires ch as int < FIRST_CHAR || ch as int > LAST_CHAR
    ensures CharScript(font, ch) == CharScript(font, SPACE)
  {
    assert GlyphStart(ch) == GlyphStart(SPACE);
    assert Glyph(font, ch) == Glyph(font, SPACE);
  }

  lemma CharFramed(font: seq<byte>, ch: byte)
    requires FontFits(font)
    ensures AllFramed(CharScript(font, ch))
  {
    var s := CharScript(font, ch);
    forall i | 0 <= i < |s|
      ensures Framed(s[i])
    {
      DataScriptAt(Glyph(font, ch), i);
    }
  }

  /** The data bytes `put_string(s)` sends after addressing: each
      character's glyph, in string order. */
  function StringScript(font: seq<byte>, s: seq<byte>): (r: seq<Event>)
    requires FontFits(font)
    decreases |s|
  {
    if s == [] then [] else CharScript(font, s[0]) + StringScript(font, s[1..])
  }

  /** Every character takes one call per font column. */
  lemma {:induction false} StringScriptLength(font: seq<byte>, s: seq<byte>)
    requires FontFits(font)
    ensures |StringScript(font, s)| == |s| * Width(font)
    decreases |s|
  {
    if s != [] {
      StringScriptLength(font, s[1..]);
      MulStep(|s| - 1, Width(font));
    }
  }

  lemma MulStep(n: nat, w: nat)
    ensures (n + 1) * w == n * w + w
  {
  }

  /** Drawing a string is drawing its parts one after the other. */
  lemma {:induction false} StringScriptAppend(font: seq<byte>, s: seq<byte>, t: seq<byte>)
    requires FontFits(font)
    ensures StringScript(font, s + t) == StringScript(font, s) + StringScript(font, t)
    decreases |s|
  {
    if s == [] {
      assert s + t == t;
    } else {
      assert (s + t)[1..] == s[1..] + t;
      StringScriptAppend(font, s[1..], t);
    }
  }

  /** The glyph of character `n` comes right before those of the rest. */
  lemma StringScriptStep(font: seq<byte>, s: seq<byte>, n: nat)
    requires FontFits(font) && n < |s|
    ensures StringScript(font, s[n..]) == CharScript(font, s[n]) + StringScript(font, s[n + 1..])
  {
    assert s[n..][1..] == s[n + 1..];
  }

  lemma {:induction false} StringFramed(font: seq<byte>, s: seq<byte>)
    requires FontFits(font)
    ensures AllFramed(StringScript(font, s))
    decreases |s|
  {
    if s != [] {
      StringFramed(font, s[1..]);
      CharFramed(font, s[0]);
    }
  }

  /** The six commands of `set_config`: display on, normal (not inverted)
      display, memory addressing mode <- page addressing, charge pump on. */
  function SetupScript(): (s: seq<Event>)
    ensures |s| == 6 && AllFramed(s)
  {
    [Command(ON_CMD), Command(NORMAL_DISPLAY_CMD), Command(MEMORY_MODE_CMD),
     Command(PAGE_ADDRESSING_MODE), Command(CHARGE_PUMP_CMD), Command(CHARGE_PUMP_ON)]
  }

  /** Everything `set_config` issues after addressing: the setup commands,
      then the clear-screen sweep. */
  function ConfigScript(): (s: seq<Event>)
    ensures |s| == 6 + CLEAR_CALLS
    ensures s[..6] == SetupScript() && s[6..] == ClearScript()
  {
    SetupScript() + ClearScript()
  }

  lemma ConfigFramed()
    ensures AllFramed(ConfigScript())
  {
    ClearFramed();
    var s := ConfigScript();
    forall i | 0 <= i < |s|
      ensures Framed(s[i])
    {
      if i >= 6 {
        assert s[i] == ClearScript()[i - 6];
      }
    }
  }

  class SSD1306 {
    const bus: I2CBus
    const deviceAddress: bv16
    /** `font8x8`, the glyph table of fonts.hpp. */
    const font: seq<byte>

    ghost predicate Valid()
      reads this
    {
      FontFits(font)
    }

    /** Stores the bus, the address and the font; no bus traffic. The C++
        constructor goes on with `set_config()`, which `Attach` does. */
    constructor (bus: I2CBus, deviceAddress: bv16, font: seq<byte>)
      requires FontFits(font)
      ensures Valid()
      ensures this.bus == bus && this.deviceAddress == deviceAddress && this.font == font
    {
      this.bus := bus;
      this.deviceAddress := deviceAddress;
      this.font := font;
    }

    /** `write8(reg, b)`: control byte and payload as one transfer. */
    method Write8(reg: byte, b: byte) returns (r: Outcome)
      modifies bus`trace
      ensures bus.trace == bus.Run(old(bus.trace), [Write([reg, b])])
      ensures r.Pass? <==> bus.Completes(old(bus.trace), [Write([reg, b])])
      ensures r.Fail? ==> TransferError(r.error)
    {
      r := bus.WriteToDevice([reg, b]);
    }

    /** `set_cursor(x, y)`: addressing (when needed), then the three cursor
        commands. */
    method SetCursor(x: byte, y: byte) returns (r: Outcome)
      modifies bus
      ensures bus.trace == bus.Run(old(bus.trace), old(bus.AddressScript(deviceAddress)) + CursorScript(x, y))
      ensures r.Pass? <==> bus.Completes(old(bus.trace), old(bus.AddressScript(deviceAddress)) + CursorScript(x, y))
      ensures r.Pass? ==> bus.AddressScript(deviceAddress) == []
    {
      ghost var t0 := bus.trace;
      ghost var a := bus.AddressScript(deviceAddress);
      var c := CursorCommands(x, y);
      ghost var w1, w2, w3 := [Command(c[0])], [Command(c[1])], [Command(c[2])];
      assert CursorScript(x, y) == w1 + (w2 + w3);
      r := bus.SetDeviceAddress(deviceAddress);
      bus.Advance(t0, bus.trace, a, w1 + (w2 + w3), r.Pass?);
      if r.Fail? {
        return;
      }
      ghost var t1 := bus.trace;
      r := Write8(COMMAND_REG, x & 0x0F);
      bus.Advance(t1, bus.trace, w1, w2 + w3, r.Pass?);
      if r.Fail? {
        return;
      }
      ghost var t2 := bus.trace;
      r := Write8(COMMAND_REG, 0x10 + ((x >> 4) & 0x0F));
      bus.Advance(t2, bus.trace, w2, w3, r.Pass?);
      if r.Fail? {
        return;
      }
      r := Write8(COMMAND_REG, 0xB0 + y);
    }

    /** `clear_display`: addressing (when needed), then for each of the 8
        pages the cursor to its column 0 and a zero for each of its 128
        columns, and finally the cursor back to (0, 0). */
    method ClearDisplay() returns (r: Outcome)
      modifies bus
      ensures bus.trace == bus.Run(old(bus.trace), old(bus.AddressScript(deviceAddress)) + ClearScript())
      ensures r.Pass? <==> bus.Completes(old(bus.trace), old(bus.AddressScript(deviceAddress)) + ClearScript())
      ensures r.Pass? ==> bus.AddressScript(deviceAddress) == []
    {
      ghost var t0 := bus.trace;
      ghost var a := bus.AddressScript(deviceAddress);
      ghost var s := ClearScript();
      r := bus.SetDeviceAddress(deviceAddress);
      bus.Advance(t0, bus.trace, a, s, r.Pass?);
      if r.Fail? {
        return;
      }
      assert s[0..] == s;
      var page: byte := 0;
      ghost var p: nat := 0;
      while page <= 7
        invariant p == page as int && p <= 8 && bus.AddressScript(deviceAddress) == []
        invariant bus.Run(t0, a + s) == bus.Run(bus.trace, s[PAGE_CALLS * p..])
        invariant bus.Completes(t0, a + s) <==> bus.Completes(bus.trace, s[PAGE_CALLS * p..])
        decreases 8 - p
      {
        ByteStep(page, 8);
        ghost var tb := bus.trace;
        r := ClearPage(page);
        ClearPages(p);
        bus.Proceed(t0, a + s, tb, bus.trace, s[PAGE_CALLS * p..], PageScript(p), s[PAGE_CALLS * (p + 1)..], r.Pass?);
        if r.Fail? {
          return;
        }
        page := page + 1;
        p := p + 1;
      }
      ByteDone(page, 8);
      ClearEndsAtOrigin();
      r := SetCursor(0, 0);
      assert [] + CursorScript(0, 0) == s[PAGE_CALLS * p..];
    }

    /** One pass of the page loop of `clear_display`: the cursor to column 0
        of page `page`, then the column loop. */
    method ClearPage(page: byte) returns (r: Outcome)
      requires page < 8 && bus.AddressScript(deviceAddress) == []
      modifies bus
      ensures bus.trace == bus.Run(old(bus.trace), PageScript(page as int))
      ensures r.Pass? <==> bus.Completes(old(bus.trace), PageScript(page as int))
      ensures r.Pass? ==> bus.AddressScript(deviceAddress) == []
    {
      ghost var t0 := bus.trace;
      ByteOfCast(page);
      assert [] + CursorScript(0, page) == CursorScript(0, page);
      r := SetCursor(0, page);
      bus.Advance(t0, bus.trace, CursorScript(0, page), Zeros(128), r.Pass?);
      if r.Fail? {
        return;
      }
      r := ClearColumns();
    }

    /** One pass of the column loop: the zero sent on top of `tb`, where
        `n` columns of the page are already cleared. */
    lemma ColumnStep(t0: seq<Event>, tb: seq<Event>, tAfter: seq<Event>, n: nat, ok: bool)
      requires n < 128
      requires bus.Run(t0, Zeros(128)) == bus.Run(tb, Zeros(128 - n))
      requires bus.Completes(t0, Zeros(128)) <==> bus.Completes(tb, Zeros(128 - n))
      requires tAfter == bus.Run(tb, [Data(0)]) && (ok <==> bus.Completes(tb, [Data(0)]))
      ensures ok ==> bus.Run(t0, Zeros(128)) == bus.Run(tAfter, Zeros(128 - (n + 1)))
      ensures ok ==> (bus.Completes(t0, Zeros(128)) <==> bus.Completes(tAfter, Zeros(128 - (n + 1))))
      ensures !ok ==> bus.Run(t0, Zeros(128)) == tAfter && !bus.Completes(t0, Zeros(128))
    {
      ZerosStep(128 - n);
      bus.Advance(tb, tAfter, [Data(0)], Zeros(128 - n - 1), ok);
    }

    /** The column loop of a page: a zero for each of the 128 columns. */
    method ClearColumns() returns (r: Outcome)
      modifies bus`trace
      ensures bus.trace == bus.Run(old(bus.trace), Zeros(128))
      ensures r.Pass? <==> bus.Completes(old(bus.trace), Zeros(128))
    {
      ghost var t0 := bus.trace;
      var col: byte := 0;
      ghost var n: nat := 0;
      while col <= 127
        invariant n == col as int && n <= 128
        invariant bus.Run(t0, Zeros(128)) == bus.Run(bus.trace, Zeros(128 - n))
        invariant bus.Completes(t0, Zeros(128)) <==> bus.Completes(bus.trace, Zeros(128 - n))
        decreases 128 - n
      {
        ByteStep(col, 128);
        ghost var tb := bus.trace;
        r := Write8(DATA_REG, 0x00);
        ColumnStep(t0, tb, bus.trace, n, r.Pass?);
        if r.Fail? {
          return;
        }
        col := col + 1;
        n := n + 1;
      }
      ByteDone(col, 128);
      assert Zeros(128 - n) == [];
      bus.RunNothing(bus.trace);
      r := Pass;
    }

    /** `write_col(b)`: addressing (when needed), then one data byte. */
    method WriteCol(b: byte) returns (r: Outcome)
      modifies bus
      ensures r.Pass? ==> bus.AddressScript(deviceAddress) == []
      ensures bus.trace == bus.Run(old(bus.trace), old(bus.AddressScript(deviceAddress)) + [Data(b)])
      ensures r.Pass? <==> bus.Completes(old(bus.trace), old(bus.AddressScript(deviceAddress)) + [Data(b)])
    {
      ghost var t0 := bus.trace;
      ghost var a := bus.AddressScript(deviceAddress);
      r := bus.SetDeviceAddress(deviceAddress);
      bus.Advance(t0, bus.trace, a, [Data(b)], r.Pass?);
      if r.Fail? {
        return;
      }
      r := Write8(DATA_REG, b);
    }

    /** `turn_off_display`: addressing (when needed), then the display-off
        command. */
    method TurnOffDisplay() returns (r: Outcome)
      modifies bus
      ensures r.Pass? ==> bus.AddressScript(deviceAddress) == []
      ensures bus.trace == bus.Run(old(bus.trace), old(bus.AddressScript(deviceAddress)) + [Command(OFF_CMD)])
      ensures r.Pass? <==> bus.Completes(old(bus.trace), old(bus.AddressScript(deviceAddress)) + [Command(OFF_CMD)])
    {
      ghost var t0 := bus.trace;
      ghost var a := bus.AddressScript(deviceAddress);
      r := bus.SetDeviceAddress(deviceAddress);
      bus.Advance(t0, bus.trace, a, [Command(OFF_CMD)], r.Pass?);
      if r.Fail? {
        return;
      }
      r := Write8(COMMAND_REG, OFF_CMD);
    }

    /** `put_char(ch)`: addressing (when needed), then one data byte per
        column of the glyph of `ch`, or of the space when `ch` is not
        printable. */
    method PutChar(ch: byte) returns (r: Outcome)
      requires Valid()
      modifies bus
      ensures bus.trace == bus.Run(old(bus.trace), old(bus.AddressScript(deviceAddress)) + CharScript(font, ch))
      ensures r.Pass? <==> bus.Completes(old(bus.trace), old(bus.AddressScript(deviceAddress)) + CharScript(font, ch))
      ensures r.Pass? ==> bus.AddressScript(deviceAddress) == []
    {
      ghost var t0 := bus.trace;
      ghost var a := bus.AddressScript(deviceAddress);
      r := bus.SetDeviceAddress(deviceAddress);
      bus.Advance(t0, bus.trace, a, CharScript(font, ch), r.Pass?);
      if r.Fail? {
        return;
      }
      r := DrawChar(ch);
    }

    /** `put_char(ch)` after addressing: a character outside 32 .. 127 is
        replaced by a space, then the columns of its glyph are sent. */
    method DrawChar(ch: byte) returns (r: Outcome)
      requires Valid()
      modifies bus`trace
      ensures bus.trace == bus.Run(old(bus.trace), CharScript(font, ch))
      ensures r.Pass? <==> bus.Completes(old(bus.trace), CharScript(font, ch))
    {
      var c := ch as int;
      if c < 32 || c > 127 {
        c := 32; // ' '
      }
      c := c - 32;
      var g := c * 8 + 2;
      GlyphAt(font, ch, g);
      var cols := font[g..g + font[0] as int];
      assert DataScript(cols) == CharScript(font, ch);
      r := DrawColumns(cols);
    }

    /** One pass of the column loop of `put_char`: column `n` of `cols`
        sent on top of `tb`. */
    lemma DataStep(t0: seq<Event>, tb: seq<Event>, tAfter: seq<Event>, cols: seq<byte>, n: nat, ok: bool)
      requires n < |cols|
      requires bus.Run(t0, DataScript(cols)) == bus.Run(tb, DataScript(cols[n..]))
      requires bus.Completes(t0, DataScript(cols)) <==> bus.Completes(tb, DataScript(cols[n..]))
      requires tAfter == bus.Run(tb, [Data(cols[n])]) && (ok <==> bus.Completes(tb, [Data(cols[n])]))
      ensures ok ==> bus.Run(t0, DataScript(cols)) == bus.Run(tAfter, DataScript(cols[n + 1..]))
      ensures ok ==> (bus.Completes(t0, DataScript(cols)) <==> bus.Completes(tAfter, DataScript(cols[n + 1..])))
      ensures !ok ==> bus.Run(t0, DataScript(cols)) == tAfter && !bus.Completes(t0, DataScript(cols))
    {
      DataScriptStep(cols, n);
      bus.Proceed(t0, DataScript(cols), tb, tAfter, DataScript(cols[n..]), [Data(cols[n])], DataScript(cols[n + 1..]), ok);
    }

    /** The column loop of `put_char`: one data byte per column of the
        glyph, left to right. */
    method DrawColumns(cols: seq<byte>) returns (r: Outcome)
      modifies bus`trace
      ensures bus.trace == bus.Run(old(bus.trace), DataScript(cols))
      ensures r.Pass? <==> bus.Completes(old(bus.trace), DataScript(cols))
    {
      ghost var t0 := bus.trace;
      assert cols[0..] == cols;
      var n := 0;
      while n < |cols|
        invariant n <= |cols|
        invariant bus.Run(t0, DataScript(cols)) == bus.Run(bus.trace, DataScript(cols[n..]))
        invariant bus.Completes(t0, DataScript(cols)) <==> bus.Completes(bus.trace, DataScript(cols[n..]))
      {
        ghost var tb := bus.trace;
        r := Write8(DATA_REG, cols[n]);
        DataStep(t0, tb, bus.trace, cols, n, r.Pass?);
        if r.Fail? {
          return;
        }
        n := n + 1;
      }
      assert DataScript(cols[n..]) == [];
      bus.RunNothing(bus.trace);
      r := Pass;
    }

    /** `put_string(str)`: addressing (when needed), then `put_char` of
        each character in order. */
    method PutString(str: seq<byte>) returns (r: Outcome)
      requires Valid()
      modifies bus
      ensures r.Pass? ==> bus.AddressScript(deviceAddress) == []
      ensures bus.trace == bus.Run(old(bus.trace), old(bus.AddressScript(deviceAddress)) + StringScript(font, str))
      ensures r.Pass? <==> bus.Completes(old(bus.trace), old(bus.AddressScript(deviceAddress)) + StringScript(font, str))
    {
      ghost var t0 := bus.trace;
      ghost var a := bus.AddressScript(deviceAddress);
      r := bus.SetDeviceAddress(deviceAddress);
      bus.Advance(t0, bus.trace, a, StringScript(font, str), r.Pass?);
      if r.Fail? {
        return;
      }
      assert str[0..] == str;
      var n := 0;
      while n < |str|
        invariant n <= |str| && bus.AddressScript(deviceAddress) == []
        invariant bus.Run(t0, a + StringScript(font, str)) == bus.Run(bus.trace, StringScript(font, str[n..]))
        invariant bus.Completes(t0, a + StringScript(font, str)) <==> bus.Completes(bus.trace, StringScript(font, str[n..]))
      {
        ghost var tb := bus.trace;
        assert [] + CharScript(font, str[n]) == CharScript(font, str[n]);
        r := PutChar(str[n]);
        StringScriptStep(font, str, n);
        bus.Proceed(t0, a + StringScript(font, str), tb, bus.trace, StringScript(font, str[n..]),
                    CharScript(font, str[n]), StringScript(font, str[n + 1..]), r.Pass?);
        if r.Fail? {
          return;
        }
        n := n + 1;
      }
      assert str[n..] == [] && StringScript(font, str[n..]) == [];
      bus.RunNothing(bus.trace);
      r := Pass;
    }

    /** `set_config`: addressing (when needed), the six setup commands in
        order, then `clear_display`. */
    method SetConfig() returns (r: Outcome)
      modifies bus
      ensures r.Pass? ==> bus.AddressScript(deviceAddress) == []
      ensures bus.trace == bus.Run(old(bus.trace), old(bus.AddressScript(deviceAddress)) + ConfigScript())
      ensures r.Pass? <==> bus.Completes(old(bus.trace), old(bus.AddressScript(deviceAddress)) + ConfigScript())
    {
      ghost var t0 := bus.trace;
      ghost var a := bus.AddressScript(deviceAddress);
      r := bus.SetDeviceAddress(deviceAddress);
      bus.Advance(t0, bus.trace, a, SetupScript() + ClearScript(), r.Pass?);
      if r.Fail? {
        return;
      }
      ghost var t1 := bus.trace;
      r := SendSetup();
      bus.Advance(t1, bus.trace, SetupScript(), ClearScript(), r.Pass?);
      if r.Fail? {
        return;
      }
      assert bus.AddressScript(deviceAddress) + ClearScript() == ClearScript();
      r := ClearDisplay();
    }

    /** The six commands of `set_config`, one transfer each; the first that
        fails ends it. */
    method SendSetup() returns (r: Outcome)
      modifies bus`trace
      ensures bus.trace == bus.Run(old(bus.trace), SetupScript())
      ensures r.Pass? <==> bus.Completes(old(bus.trace), SetupScript())
    {
      ghost var w1, w2, w3 := [Command(ON_CMD)], [Command(NORMAL_DISPLAY_CMD)], [Command(MEMORY_MODE_CMD)];
      ghost var w4, w5, w6 := [Command(PAGE_ADDRESSING_MODE)], [Command(CHARGE_PUMP_CMD)], [Command(CHARGE_PUMP_ON)];
      assert SetupScript() == w1 + (w2 + (w3 + (w4 + (w5 + w6))));
      ghost var tb := bus.trace;
      r := Write8(COMMAND_REG, ON_CMD);
      bus.Advance(tb, bus.trace, w1, w2 + (w3 + (w4 + (w5 + w6))), r.Pass?);
      if r.Fail? {
        return;
      }
      tb := bus.trace;
      r := Write8(COMMAND_REG, NORMAL_DISPLAY_CMD);
      bus.Advance(tb, bus.trace, w2, w3 + (w4 + (w5 + w6)), r.Pass?);
      if r.Fail? {
        return;
      }
      tb := bus.trace;
      r := Write8(COMMAND_REG, MEMORY_MODE_CMD);
      bus.Advance(tb, bus.trace, w3, w4 + (w5 + w6), r.Pass?);
      if r.Fail? {
        return;
      }
      tb := bus.trace;
      r := Write8(COMMAND_REG, PAGE_ADDRESSING_MODE);
      bus.Advance(tb, bus.trace, w4, w5 + w6, r.Pass?);
      if r.Fail? {
        return;
      }
      tb := bus.trace;
      r := Write8(COMMAND_REG, CHARGE_PUMP_CMD);
      bus.Advance(tb, bus.trace, w5, w6, r.Pass?);
      if r.Fail? {
        return;
      }
      r := Write8(COMMAND_REG, CHARGE_PUMP_ON);
    }

    /** The C++ constructor: stores the bus, the address and the font, then
        runs `set_config()`. */
    static method Attach(bus: I2CBus, deviceAddress: bv16, font: seq<byte>) returns (r: Result<SSD1306>)
      requires FontFits(font)
      modifies bus
      ensures r.Ok? ==> bus.AddressScript(deviceAddress) == []
      ensures bus.trace == bus.Run(old(bus.trace), old(bus.AddressScript(deviceAddress)) + ConfigScript())
      ensures r.Ok? <==> bus.Completes(old(bus.trace), old(bus.AddressScript(deviceAddress)) + ConfigScript())
      ensures r.Ok? ==> fresh(r.value) && r.value.Valid() && r.value.bus == bus &&
                        r.value.deviceAddress == deviceAddress && r.value.font == font
    {
      var dev := new SSD1306(bus, deviceAddress, font);
      var s := dev.SetConfig();
      if s.Fail? {
        return Err(s.error);
      }
      r := Ok(dev);
    }
  }
}
