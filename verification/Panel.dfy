/** The SSD1351 panel as device/wokwi/src/ssd1351.c models it: commands, arguments, and a RAM window
    that is filled through a moving cursor. Everything here is a function of the chip's registers;
    ChipObject.dfy has the same handlers in place on a buffer. */
module Panel {
  import opened Common

  const WIDTH := 128
  const HEIGHT := 128
  const RGBA_BYTES := 65536

  const CMD_DISPLAY_OFF: Byte := 0xAE
  const CMD_DISPLAY_ON: Byte := 0xAF
  const CMD_SET_REMAP: Byte := 0xA0
  const CMD_SET_COLUMN: Byte := 0x15
  const CMD_SET_ROW: Byte := 0x75
  const CMD_WRITE_RAM: Byte := 0x5C

  datatype Window = Window(colStart: nat, colEnd: nat, rowStart: nat, rowEnd: nat)

  datatype Remap = Remap(vertical: bool, mirrorH: bool, flipV: bool, bgr: bool)

  datatype Chip = Chip(
    displayOn: bool,
    remap: Remap,
    cmd: Byte,
    args: seq<Byte>,
    expected: nat,
    received: nat,
    win: Window,
    nextCol: nat,
    nextRow: nat,
    pending: int,          // pending_write_bytes
    pixel: seq<Byte>,      // the bytes of the pixel being received
    rgba: seq<Byte>,
    shown: seq<Byte>)      // what the simulator's framebuffer holds

  /** A chip in one piece: every index the handlers use is in range. */
  ghost predicate Ok(c: Chip) {
    && |c.args| == 3
    && c.expected <= 3
    && (c.expected == 0 || (c.expected == ArgCount(c.cmd) && c.received < c.expected))
    && WindowOk(c.win)
    && c.nextCol < WIDTH && c.nextRow < HEIGHT
    && 0 <= c.pending <= 2 * WIDTH * HEIGHT
    && |c.pixel| <= 1
    && (c.pending + |c.pixel|) % 2 == 0
    && |c.rgba| == RGBA_BYTES
  }

  ghost predicate WindowOk(w: Window) {
    w.colStart <= w.colEnd < WIDTH && w.rowStart <= w.rowEnd < HEIGHT
  }

  function Blank(): (z: seq<Byte>)
    ensures |z| == RGBA_BYTES
    ensures forall i :: 0 <= i < RGBA_BYTES ==> z[i] == 0
  {
    seq(RGBA_BYTES, i => 0)
  }

  /** reset_panel keeps the argument bytes; they are dead until the next command. */
  function ResetKeeping(args: seq<Byte>): (c: Chip)
    requires |args| == 3
    ensures Ok(c)
  {
    Chip(false, Remap(false, false, false, false), 0, args, 0, 0,
         Window(0, WIDTH - 1, 0, HEIGHT - 1), 0, 0, 0, [], Blank(), Blank())
  }

  /** The chip as chip_init leaves it. */
  function Reset(): (c: Chip)
    ensures Ok(c)
  {
    ResetKeeping([0, 0, 0])
  }

  function ArgCount(cmd: Byte): nat {
    if cmd == CMD_SET_COLUMN || cmd == CMD_SET_ROW then 2
    else if cmd == CMD_SET_REMAP then 1
    else if cmd == 0xFD || cmd == 0xB3 || cmd == 0xCA || cmd == 0xA1 || cmd == 0xA2 || cmd == 0xB5
            || cmd == 0xAB || cmd == 0xC7 || cmd == 0xB1 || cmd == 0xB6 || cmd == 0xBE then 1
    else if cmd == 0xB4 || cmd == 0xC1 then 3
    else 0
  }

  function Normalize(start: nat, end: nat, max: nat): (r: (nat, nat))
    ensures r.0 == Min(max, Min(start, end)) && r.1 == Min(max, Max(start, end))
  {
    var s := if start > max then max else start;
    var e := if end > max then max else end;
    if e < s then (e, s) else (s, e)
  }

  function Columns(w: Window): int { w.colEnd - w.colStart + 1 }

  function Rows(w: Window): int { w.rowEnd - w.rowStart + 1 }

  lemma WindowSize(w: Window)
    requires WindowOk(w)
    ensures 2 <= Columns(w) * Rows(w) * 2 <= 2 * WIDTH * HEIGHT
  {
    ProductWithin(Columns(w), Rows(w), WIDTH, HEIGHT);
  }

  lemma ProductWithin(a: int, b: int, m: int, n: int)
    requires 1 <= a <= m && 1 <= b <= n
    ensures 1 <= a * b <= m * n
  {
    assert (a - 1) * b >= 0;
    assert (m - a) * b >= 0;
    assert m * (n - b) >= 0;
  }

  function BeginWriteRam(c: Chip): (r: Chip)
    requires Ok(c)
    ensures Ok(r)
  {
    WindowSize(c.win);
    c.(nextCol := c.win.colStart, nextRow := c.win.rowStart,
       pending := Columns(c.win) * Rows(c.win) * 2, pixel := [])
  }

  function Present(c: Chip): (r: Chip) {
    if c.displayOn then c.(shown := c.rgba) else c
  }

  predicate Bit(b: Byte, weight: int)
    requires weight > 0
  {
    b / weight % 2 == 1
  }

  function Apply(c: Chip): (r: Chip)
    requires Ok(c)
    ensures Ok(r)
  {
    var a, b := c.args[0], c.args[1];
    var r :=
      if c.cmd == CMD_DISPLAY_OFF then c.(displayOn := false, shown := Blank())
      else if c.cmd == CMD_DISPLAY_ON then Present(c.(displayOn := true))
      else if c.cmd == CMD_SET_REMAP then
        c.(remap := Remap(Bit(a, 0x01), Bit(a, 0x02), Bit(a, 0x10), Bit(a, 0x04)))
      else if c.cmd == CMD_SET_COLUMN then
        var (s, e) := Normalize(a, b, WIDTH - 1);
        c.(win := c.win.(colStart := s, colEnd := e))
      else if c.cmd == CMD_SET_ROW then
        var (s, e) := Normalize(a, b, HEIGHT - 1);
        c.(win := c.win.(rowStart := s, rowEnd := e))
      else if c.cmd == CMD_WRITE_RAM then BeginWriteRam(c)
      else c;
    r.(expected := 0, received := 0)
  }

  function CommandByte(c: Chip, value: Byte): (r: Chip)
    requires Ok(c)
    ensures Ok(r)
  {
    var d := c.(cmd := value, expected := ArgCount(value), received := 0);
    if d.expected == 0 then Apply(d) else d
  }

  function DataByte(c: Chip, value: Byte): (r: Chip)
    requires Ok(c)
    ensures Ok(r)
  {
    if c.pending > 0 || c.expected == 0 || c.received >= 3 then c
    else
      var d := c.(args := c.args[c.received := value], received := c.received + 1);
      if d.received == d.expected then Apply(d.(received := 0)) else d
  }

  function Advance(c: Chip): (r: Chip)
    requires Ok(c)
    ensures Ok(r)
  {
    if c.remap.vertical then
      if c.nextRow < c.win.rowEnd then c.(nextRow := c.nextRow + 1)
      else if c.nextCol < c.win.colEnd then c.(nextRow := c.win.rowStart, nextCol := c.nextCol + 1)
      else c.(nextRow := c.win.rowStart)
    else
      if c.nextCol < c.win.colEnd then c.(nextCol := c.nextCol + 1)
      else if c.nextRow < c.win.rowEnd then c.(nextCol := c.win.colStart, nextRow := c.nextRow + 1)
      else c.(nextCol := c.win.colStart)
  }

  /** Where column `col` of the RAM appears on the panel, and row `row`. */
  function PanelX(m: Remap, col: int): int { if m.mirrorH then WIDTH - 1 - col else col }

  function PanelY(m: Remap, row: int): int { if m.flipV then HEIGHT - 1 - row else row }

  function Offset(x: int, y: int): int { (y * WIDTH + x) * 4 }

  function Red(word: int): int { word / 2048 % 32 }

  function Green(word: int): int { word / 32 % 64 }

  function Blue(word: int): int { word % 32 }

  predicate OnPanel(x: int, y: int) {
    0 <= x < WIDTH && 0 <= y < HEIGHT
  }

  /** A 16-bit word as red, green, blue and alpha bytes. `(v << 3) | (v >> 2)` joins bits that do not
      overlap, so it is a sum. */
  function Widen(word: int): (rgba: seq<Byte>)
    requires 0 <= word < 65536
    ensures |rgba| == 4
  {
    Expansion(Red(word), Green(word), Blue(word))
  }

  /** 5, 6 and 5 bits widened to 8 each. */
  function Expansion(red: int, green: int, blue: int): (rgba: seq<Byte>)
    requires 0 <= red < 32 && 0 <= green < 64 && 0 <= blue < 32
    ensures |rgba| == 4
  {
    [red * 8 + red / 4, green * 4 + green / 16, blue * 8 + blue / 4, 0xFF]
  }

  function Painted(rgba: seq<Byte>, x: int, y: int, shade: seq<Byte>): (r: seq<Byte>)
    requires |rgba| == RGBA_BYTES && OnPanel(x, y) && |shade| == 4
    ensures |r| == RGBA_BYTES
  {
    var o := Offset(x, y);
    rgba[o := shade[0]][o + 1 := shade[1]][o + 2 := shade[2]][o + 3 := shade[3]]
  }

  /** One pixel painted where the cursor points, and the cursor moved on. */
  function PaintNext(c: Chip, shade: seq<Byte>): (r: Chip)
    requires Ok(c) && |shade| == 4
    ensures Ok(r)
  {
    Advance(c.(rgba := Painted(c.rgba, PanelX(c.remap, c.nextCol), PanelY(c.remap, c.nextRow), shade)))
  }

  function WritePixel(c: Chip, word: int): (r: Chip)
    requires Ok(c) && 0 <= word < 65536
    ensures Ok(r)
  {
    PaintNext(c, Widen(word))
  }

  function SwapRedBlue(word: int): (r: int)
    requires 0 <= word < 65536
    ensures 0 <= r < 65536
  {
    Blue(word) * 2048 + Green(word) * 32 + Red(word)
  }

  /** The word two RAM bytes make, with red and blue exchanged if the panel is set to BGR. */
  function Word(bgr: bool, hi: Byte, lo: Byte): (w: int)
    ensures 0 <= w < 65536
  {
    var word: int := hi as int * 256 + lo;
    if bgr then SwapRedBlue(word) else word
  }

  /** One round of the loop of handle_ram_bytes. */
  function RamByte(c: Chip, value: Byte): (r: Chip)
    requires Ok(c) && c.pending > 0
    ensures Ok(r) && r.pending == c.pending - 1
  {
    var d := c.(pending := c.pending - 1);
    if c.pixel == [] then d.(pixel := [value])
    else WritePixel(d.(pixel := []), Word(c.remap.bgr, c.pixel[0], value))
  }

  function RamFold(c: Chip, bytes: seq<Byte>): (r: Chip)
    requires Ok(c) && |bytes| <= c.pending
    ensures Ok(r) && r.pending == c.pending - |bytes|
    decreases |bytes|
  {
    if bytes == [] then c else RamFold(RamByte(c, bytes[0]), bytes[1..])
  }

  lemma RamFoldNext(c: Chip, bytes: seq<Byte>, i: nat)
    requires Ok(c) && i < |bytes| <= c.pending
    ensures RamFold(c, bytes[..i + 1]) == RamByte(RamFold(c, bytes[..i]), bytes[i])
  {
    OneLonger(bytes, i);
    RamFoldAppend(c, bytes[..i], bytes[i]);
  }

  lemma {:induction false} RamFoldAppend(c: Chip, bytes: seq<Byte>, b: Byte)
    requires Ok(c) && |bytes| + 1 <= c.pending
    ensures RamFold(c, bytes + [b]) == RamByte(RamFold(c, bytes), b)
    decreases |bytes|
  {
    if bytes == [] {
      assert RamFold(RamByte(c, b), ([b])[1..]) == RamByte(c, b);
    } else {
      assert (bytes + [b])[1..] == bytes[1..] + [b];
      RamFoldAppend(RamByte(c, bytes[0]), bytes[1..], b);
    }
  }

  function PresentIfFull(c: Chip): Chip {
    if c.pending == 0 && c.pixel == [] then Present(c) else c
  }

  function RamBytes(c: Chip, bytes: seq<Byte>): (r: Chip)
    requires Ok(c) && |bytes| <= c.pending
    ensures Ok(r)
  {
    PresentIfFull(RamFold(c, bytes))
  }

  function DataBytes(c: Chip, bytes: seq<Byte>): (r: Chip)
    requires Ok(c)
    ensures Ok(r)
    decreases |bytes|
  {
    if bytes == [] then c else DataBytes(DataByte(c, bytes[0]), bytes[1..])
  }

  function CommandBytes(c: Chip, bytes: seq<Byte>): (r: Chip)
    requires Ok(c)
    ensures Ok(r)
    decreases |bytes|
  {
    if bytes == [] then c else CommandBytes(CommandByte(c, bytes[0]), bytes[1..])
  }

  /** What the SPI peripheral hands over at once, with the level of the D/C pin. */
  datatype Delivery = Delivery(data: bool, bytes: seq<Byte>)

  /** start_next_spi_read never asks for more RAM bytes than are pending. */
  predicate Legal(c: Chip, d: Delivery) {
    d.data && c.pending > 0 ==> |d.bytes| <= c.pending
  }

  /** chip_spi_done */
  function SpiDone(c: Chip, d: Delivery): (r: Chip)
    requires Ok(c) && Legal(c, d)
    ensures Ok(r)
  {
    if d.bytes == [] then c
    else if !d.data then CommandBytes(c, d.bytes)
    else if c.pending > 0 then RamBytes(c, d.bytes)
    else DataBytes(c, d.bytes)
  }

  predicate AllLegal(c: Chip, ds: seq<Delivery>)
    requires Ok(c)
    decreases |ds|
  {
    ds == [] || (Legal(c, ds[0]) && AllLegal(SpiDone(c, ds[0]), ds[1..]))
  }

  function Deliver(c: Chip, ds: seq<Delivery>): (r: Chip)
    requires Ok(c) && AllLegal(c, ds)
    ensures Ok(r)
    decreases |ds|
  {
    if ds == [] then c else Deliver(SpiDone(c, ds[0]), ds[1..])
  }

  // ------------------------------------------------ deliveries do not matter, bytes do

  datatype Sent = Sent(data: bool, value: Byte)

  /** The same byte, delivered alone. */
  function SpiByte(c: Chip, s: Sent): (r: Chip)
    requires Ok(c)
    ensures Ok(r)
  {
    if !s.data then CommandByte(c, s.value)
    else if c.pending > 0 then PresentIfFull(RamByte(c, s.value))
    else DataByte(c, s.value)
  }

  function Bytewise(c: Chip, bytes: seq<Sent>): (r: Chip)
    requires Ok(c)
    ensures Ok(r)
    decreases |bytes|
  {
    if bytes == [] then c else Bytewise(SpiByte(c, bytes[0]), bytes[1..])
  }

  function Tag(data: bool, bytes: seq<Byte>): (t: seq<Sent>)
    ensures |t| == |bytes|
    ensures forall i :: 0 <= i < |t| ==> t[i] == Sent(data, bytes[i])
  {
    seq(|bytes|, i requires 0 <= i < |bytes| => Sent(data, bytes[i]))
  }

  function OnTheWire(ds: seq<Delivery>): seq<Sent> {
    if ds == [] then [] else Tag(ds[0].data, ds[0].bytes) + OnTheWire(ds[1..])
  }

  lemma {:induction false} BytewiseAppend(c: Chip, a: seq<Sent>, b: seq<Sent>)
    requires Ok(c)
    ensures Bytewise(c, a + b) == Bytewise(Bytewise(c, a), b)
    decreases |a|
  {
    if a == [] {
      assert a + b == b;
    } else {
      assert (a + b)[1..] == a[1..] + b;
      BytewiseAppend(SpiByte(c, a[0]), a[1..], b);
    }
  }

  lemma {:induction false} CommandBytewise(c: Chip, bytes: seq<Byte>)
    requires Ok(c)
    ensures CommandBytes(c, bytes) == Bytewise(c, Tag(false, bytes))
    decreases |bytes|
  {
    if bytes != [] {
      assert Tag(false, bytes)[1..] == Tag(false, bytes[1..]);
      CommandBytewise(CommandByte(c, bytes[0]), bytes[1..]);
    }
  }

  lemma {:induction false} DataBytewise(c: Chip, bytes: seq<Byte>)
    requires Ok(c) && c.pending == 0
    ensures DataBytes(c, bytes) == Bytewise(c, Tag(true, bytes))
    decreases |bytes|
  {
    if bytes != [] {
      assert Tag(true, bytes)[1..] == Tag(true, bytes[1..]);
      DataBytewise(DataByte(c, bytes[0]), bytes[1..]);
    }
  }

  lemma {:induction false} RamBytewise(c: Chip, bytes: seq<Byte>)
    requires Ok(c) && 0 < |bytes| <= c.pending
    ensures RamBytes(c, bytes) == Bytewise(c, Tag(true, bytes))
    decreases |bytes|
  {
    var d := RamByte(c, bytes[0]);
    assert Tag(true, bytes)[1..] == Tag(true, bytes[1..]);
    if |bytes| == 1 {
      assert RamFold(d, bytes[1..]) == d;
      assert Bytewise(PresentIfFull(d), Tag(true, bytes[1..])) == PresentIfFull(d);
    } else {
      assert PresentIfFull(d) == d;
      assert RamBytes(c, bytes) == RamBytes(d, bytes[1..]);
      assert Bytewise(c, Tag(true, bytes)) == Bytewise(d, Tag(true, bytes[1..]));
      RamBytewise(d, bytes[1..]);
    }
  }

  lemma DeliveryBytewise(c: Chip, d: Delivery)
    requires Ok(c) && Legal(c, d)
    ensures SpiDone(c, d) == Bytewise(c, Tag(d.data, d.bytes))
  {
    if d.bytes == [] {
    } else if !d.data {
      CommandBytewise(c, d.bytes);
    } else if c.pending > 0 {
      RamBytewise(c, d.bytes);
    } else {
      DataBytewise(c, d.bytes);
    }
  }

  /** However the bytes on the wire are cut into deliveries, the chip ends up in the same state. */
  lemma {:induction false} CutsDoNotMatter(c: Chip, ds: seq<Delivery>)
    requires Ok(c) && AllLegal(c, ds)
    ensures Deliver(c, ds) == Bytewise(c, OnTheWire(ds))
    decreases |ds|
  {
    if ds != [] {
      DeliveryBytewise(c, ds[0]);
      BytewiseAppend(c, Tag(ds[0].data, ds[0].bytes), OnTheWire(ds[1..]));
      CutsDoNotMatter(SpiDone(c, ds[0]), ds[1..]);
    }
  }

  // ------------------------------------------------ the cursor visits the window once

  /** The place of RAM position (col, row) in the order in which the window is filled. */
  function Turn(c: Chip, col: int, row: int): int {
    if c.remap.vertical then (col - c.win.colStart) * Rows(c.win) + (row - c.win.rowStart)
    else (row - c.win.rowStart) * Columns(c.win) + (col - c.win.colStart)
  }

  predicate InWindow(c: Chip, col: int, row: int) {
    c.win.colStart <= col <= c.win.colEnd && c.win.rowStart <= row <= c.win.rowEnd
  }

  lemma TurnInjective(c: Chip, col: int, row: int, col': int, row': int)
    requires InWindow(c, col, row) && InWindow(c, col', row')
    requires Turn(c, col, row) == Turn(c, col', row')
    ensures col == col' && row == row'
  {
    if c.remap.vertical {
      RowMajorInjective(col - c.win.colStart, row - c.win.rowStart,
                        col' - c.win.colStart, row' - c.win.rowStart, Rows(c.win));
    } else {
      RowMajorInjective(row - c.win.rowStart, col - c.win.colStart,
                        row' - c.win.rowStart, col' - c.win.colStart, Columns(c.win));
    }
  }

  lemma TurnBounds(c: Chip, col: int, row: int)
    requires InWindow(c, col, row)
    ensures 0 <= Turn(c, col, row) < Columns(c.win) * Rows(c.win)
  {
    var w, h := Columns(c.win), Rows(c.win);
    RowMajorInside(col - c.win.colStart, row - c.win.rowStart, w, h);
    RowMajorInside(row - c.win.rowStart, col - c.win.colStart, h, w);
  }

  lemma AdvanceDown(c: Chip)
    requires Ok(c) && c.remap.vertical && InWindow(c, c.nextCol, c.nextRow)
    requires Turn(c, c.nextCol, c.nextRow) + 1 < Columns(c.win) * Rows(c.win)
    ensures AtTurn(c, Advance(c), Turn(c, c.nextCol, c.nextRow) + 1)
  {
    var w, h := Columns(c.win), Rows(c.win);
    Distribute(c.nextCol - c.win.colStart, h);
    Distribute(w - 1, h);
  }

  lemma AdvanceAcross(c: Chip)
    requires Ok(c) && !c.remap.vertical && InWindow(c, c.nextCol, c.nextRow)
    requires Turn(c, c.nextCol, c.nextRow) + 1 < Columns(c.win) * Rows(c.win)
    ensures AtTurn(c, Advance(c), Turn(c, c.nextCol, c.nextRow) + 1)
  {
    var w, h := Columns(c.win), Rows(c.win);
    Distribute(c.nextRow - c.win.rowStart, w);
    Distribute(h - 1, w);
  }

  ghost predicate AtTurn(c: Chip, d: Chip, k: int) {
    InWindow(c, d.nextCol, d.nextRow) && Turn(c, d.nextCol, d.nextRow) == k
  }

  /** Until the window is full, each advance moves to the next turn. */
  lemma AdvanceIsNextTurn(c: Chip)
    requires Ok(c) && InWindow(c, c.nextCol, c.nextRow)
    requires Turn(c, c.nextCol, c.nextRow) + 1 < Columns(c.win) * Rows(c.win)
    ensures AtTurn(c, Advance(c), Turn(c, c.nextCol, c.nextRow) + 1)
  {
    if c.remap.vertical {
      AdvanceDown(c);
    } else {
      AdvanceAcross(c);
    }
  }

  lemma LastTurn(c: Chip)
    requires Ok(c)
    ensures Turn(c, c.win.colEnd, c.win.rowEnd) + 1 == Columns(c.win) * Rows(c.win)
  {
    Distribute(Columns(c.win) - 1, Rows(c.win));
    Distribute(Rows(c.win) - 1, Columns(c.win));
  }

  /** From the last turn the cursor goes back to the start of the last column or row it was in. */
  lemma AdvanceWraps(c: Chip)
    requires Ok(c) && InWindow(c, c.nextCol, c.nextRow)
    requires Turn(c, c.nextCol, c.nextRow) + 1 == Columns(c.win) * Rows(c.win)
    ensures var d := Advance(c);
            if c.remap.vertical then (d.nextCol, d.nextRow) == (c.win.colEnd, c.win.rowStart)
            else (d.nextCol, d.nextRow) == (c.win.colStart, c.win.rowEnd)
  {
    LastTurn(c);
    TurnInjective(c, c.nextCol, c.nextRow, c.win.colEnd, c.win.rowEnd);
  }

  /** A display-off command blanks what is shown and keeps the RAM; a display-on command shows the RAM. */
  lemma OffBlanksAndOnShows(c: Chip)
    requires Ok(c)
    ensures var off, on := CommandByte(c, CMD_DISPLAY_OFF), CommandByte(c, CMD_DISPLAY_ON);
            && !off.displayOn && off.shown == Blank() && off.rgba == c.rgba
            && on.displayOn && on.shown == on.rgba == c.rgba
  {
  }

  // ------------------------------------------------ what a full window of bytes paints

  /** The four bytes a pixel must hold for the word (hi, lo): 5/6/5 bits widened to 8 with the top
      bits repeated, red and blue exchanged when the panel is set to BGR. */
  function Shade(bgr: bool, hi: Byte, lo: Byte): (rgba: seq<Byte>)
    ensures |rgba| == 4
  {
    var word: int := hi as int * 256 + lo;
    if bgr then Expansion(Blue(word), Green(word), Red(word)) else Expansion(Red(word), Green(word), Blue(word))
  }

  /** Four bytes light the colour of two RAM bytes: the five, six and five bits of the word stand on top of
      red, green and blue, each byte repeats its own top bits below them, and alpha is full. With BGR set
      red and blue change places. */
  predicate Lights(bgr: bool, rgba: seq<Byte>, hi: Byte, lo: Byte)
    requires |rgba| == 4
  {
    var (first, green, last) := (rgba[if bgr then 2 else 0], rgba[1], rgba[if bgr then 0 else 2]);
    && first / 8 == hi / 8 && green / 4 == hi % 8 * 8 + lo / 32 && last / 8 == lo % 32 && rgba[3] == 255
    && first % 8 == first / 32 && green % 4 == green / 64 && last % 8 == last / 32
  }

  lemma BitsOfWord(hi: Byte, lo: Byte)
    ensures var word := hi as int * 256 + lo as int;
            Red(word) == hi / 8 && Green(word) == hi % 8 * 8 + lo / 32 && Blue(word) == lo % 32
  {
    var top: int, middle: int, low: int := hi / 8, hi % 8, lo / 32;
    RowMajorDivMod(top, middle * 256 + lo, 2048);
    RowMajorDivMod(top * 64 + (middle * 8 + low), lo % 32, 32);
    RowMajorDivMod(top, middle * 8 + low, 64);
  }

  /** The bytes written for two RAM bytes light their colour. */
  lemma ShadeLights(bgr: bool, hi: Byte, lo: Byte)
    ensures Lights(bgr, Shade(bgr, hi, lo), hi, lo)
  {
    BitsOfWord(hi, lo);
  }

  function PixelAt(rgba: seq<Byte>, x: int, y: int): seq<Byte>
    requires |rgba| == RGBA_BYTES && OnPanel(x, y)
  {
    rgba[Offset(x, y)..Offset(x, y) + 4]
  }

  /** Everything but the cursor, the byte count, the pixel in progress and the picture. */
  predicate SameSetup(c: Chip, d: Chip) {
    d == c.(nextCol := d.nextCol, nextRow := d.nextRow, pending := d.pending, pixel := d.pixel, rgba := d.rgba)
  }

  lemma PixelDone(c: Chip, hi: Byte, lo: Byte)
    requires Ok(c) && c.pixel == [] && c.pending >= 2
    ensures var d := RamByte(RamByte(c, hi), lo);
            var px, py := PanelX(c.remap, c.nextCol), PanelY(c.remap, c.nextRow);
            && SameSetup(c, d) && d.pixel == [] && d.pending == c.pending - 2
            && d.nextCol == Advance(c).nextCol && d.nextRow == Advance(c).nextRow
            && d.rgba == Painted(c.rgba, px, py, Shade(c.remap.bgr, hi, lo))
  {
    ShadeIsWhatIsWritten(c.remap.bgr, hi, lo);
    assert RamByte(c, hi).pixel == [hi];
  }

  lemma ShadeIsWhatIsWritten(bgr: bool, hi: Byte, lo: Byte)
    ensures Shade(bgr, hi, lo) == Widen(Word(bgr, hi, lo))
  {
    if bgr {
      SwapExchanges(hi as int * 256 + lo);
    }
  }

  lemma SwapExchanges(word: int)
    requires 0 <= word < 65536
    ensures var s := SwapRedBlue(word);
            Red(s) == Blue(word) && Green(s) == Green(word) && Blue(s) == Red(word)
  {
    var red, green, blue := Red(word), Green(word), Blue(word);
    RowMajorDivMod(blue * 64 + green, red, 32);
    RowMajorDivMod(blue, green, 64);
    RowMajorDivMod(blue, green * 32 + red, 2048);
  }

  lemma PaintedPixels(rgba: seq<Byte>, px: int, py: int, shade: seq<Byte>, x: int, y: int)
    requires |rgba| == RGBA_BYTES && OnPanel(px, py) && |shade| == 4 && OnPanel(x, y)
    ensures PixelAt(Painted(rgba, px, py, shade), x, y)
         == if (x, y) == (px, py) then shade else PixelAt(rgba, x, y)
  {
    StoredFour(rgba, Offset(px, py), shade, Offset(x, y));
  }

  /** Four bytes stored and four read back, both at places of whole pixels. */
  lemma StoredFour(rgba: seq<Byte>, i: int, shade: seq<Byte>, j: int)
    requires 0 <= i <= |rgba| - 4 && 0 <= j <= |rgba| - 4 && i % 4 == 0 && j % 4 == 0 && |shade| == 4
    ensures rgba[i := shade[0]][i + 1 := shade[1]][i + 2 := shade[2]][i + 3 := shade[3]][j..j + 4]
         == if i == j then shade else rgba[j..j + 4]
  {
  }

  /** The panel pixel (x, y) after the first k pixels of `data` have gone to c's window. */
  function Expected(c: Chip, data: seq<Byte>, k: int, x: int, y: int): seq<Byte>
    requires Ok(c) && OnPanel(x, y)
    requires 2 * k <= |data|
  {
    var col, row := PanelX(c.remap, x), PanelY(c.remap, y);
    if InWindow(c, col, row) && 0 <= Turn(c, col, row) < k
    then Shade(c.remap.bgr, data[2 * Turn(c, col, row)], data[2 * Turn(c, col, row) + 1])
    else PixelAt(c.rgba, x, y)
  }

  function Size(c: Chip): int { Columns(c.win) * Rows(c.win) }

  ghost predicate Filled(c: Chip, d: Chip, data: seq<Byte>, k: int)
    requires Ok(c) && |data| == 2 * Size(c)
  {
    && Ok(d) && SameSetup(c, d) && 0 <= k <= Size(c)
    && d.pixel == [] && d.pending == 2 * (Size(c) - k)
    && (k < Size(c) ==> AtTurn(c, d, k))
    && forall x, y :: OnPanel(x, y) ==> PixelAt(d.rgba, x, y) == Expected(c, data, k, x, y)
  }

  /** One more pixel of data changes the expectation for the one panel pixel whose turn it is. */
  lemma ExpectedNext(c: Chip, data: seq<Byte>, k: nat, col: int, row: int, x: int, y: int)
    requires Ok(c) && 2 * k + 2 <= |data| && OnPanel(x, y)
    requires InWindow(c, col, row) && Turn(c, col, row) == k
    ensures Expected(c, data, k + 1, x, y)
         == if (x, y) == (PanelX(c.remap, col), PanelY(c.remap, row))
            then Shade(c.remap.bgr, data[2 * k], data[2 * k + 1])
            else Expected(c, data, k, x, y)
  {
    OnlyThatTurn(c, col, row, PanelX(c.remap, x), PanelY(c.remap, y), k);
  }

  lemma FillOne(c: Chip, d: Chip, data: seq<Byte>, k: int)
    requires Ok(c) && |data| == 2 * Size(c)
    requires Filled(c, d, data, k) && k < Size(c)
    ensures Filled(c, RamByte(RamByte(d, data[2 * k]), data[2 * k + 1]), data, k + 1)
  {
    var e := RamByte(RamByte(d, data[2 * k]), data[2 * k + 1]);
    PixelDone(d, data[2 * k], data[2 * k + 1]);
    if k + 1 < Size(c) {
      NextTurn(c, d, k);
    }
    var px, py := PanelX(c.remap, d.nextCol), PanelY(c.remap, d.nextRow);
    forall x, y | OnPanel(x, y)
      ensures PixelAt(e.rgba, x, y) == Expected(c, data, k + 1, x, y)
    {
      PaintedPixels(d.rgba, px, py, Shade(c.remap.bgr, data[2 * k], data[2 * k + 1]), x, y);
      ExpectedNext(c, data, k, d.nextCol, d.nextRow, x, y);
      assert PixelAt(d.rgba, x, y) == Expected(c, data, k, x, y);
    }
  }

  lemma NextTurn(c: Chip, d: Chip, k: int)
    requires Ok(d) && SameSetup(c, d) && AtTurn(c, d, k) && k + 1 < Size(c)
    ensures AtTurn(c, Advance(d), k + 1)
  {
    AdvanceIsNextTurn(d);
  }

  lemma OnlyThatTurn(c: Chip, col: int, row: int, col': int, row': int, k: int)
    requires InWindow(c, col, row) && Turn(c, col, row) == k
    ensures InWindow(c, col', row') && Turn(c, col', row') == k ==> col == col' && row == row'
  {
    if InWindow(c, col', row') && Turn(c, col', row') == k {
      TurnInjective(c, col, row, col', row');
    }
  }

  lemma {:induction false} FillRest(c: Chip, d: Chip, data: seq<Byte>, k: int)
    requires Ok(c) && |data| == 2 * Size(c)
    requires Filled(c, d, data, k)
    ensures Filled(c, RamFold(d, data[2 * k..]), data, Size(c))
    decreases Size(c) - k
  {
    if k == Size(c) {
      assert data[2 * k..] == [];
    } else {
      FillOne(c, d, data, k);
      var hi, lo := data[2 * k], data[2 * k + 1];
      assert data[2 * k..][1..] == data[2 * k + 1..];
      assert data[2 * k + 1..][1..] == data[2 * (k + 1)..];
      FillRest(c, RamByte(RamByte(d, hi), lo), data, k + 1);
    }
  }

  /** Panel pixel (x, y) once the window is full: the shade of its own two bytes if it lies behind the
      window, else what it was. */
  function Painting(c: Chip, data: seq<Byte>, x: int, y: int): seq<Byte>
    requires Ok(c) && OnPanel(x, y) && |data| == 2 * Size(c)
  {
    var col, row := PanelX(c.remap, x), PanelY(c.remap, y);
    if InWindow(c, col, row) then
      TurnBounds(c, col, row);
      Shade(c.remap.bgr, data[2 * Turn(c, col, row)], data[2 * Turn(c, col, row) + 1])
    else PixelAt(c.rgba, x, y)
  }

  lemma PaintingIsExpected(c: Chip, data: seq<Byte>, x: int, y: int)
    requires Ok(c) && OnPanel(x, y) && |data| == 2 * Size(c)
    ensures Painting(c, data, x, y) == Expected(c, data, Size(c), x, y)
  {
    var col, row := PanelX(c.remap, x), PanelY(c.remap, y);
    if InWindow(c, col, row) {
      TurnBounds(c, col, row);
    }
  }

  lemma WindowIsFilled(c: Chip, data: seq<Byte>)
    requires Ok(c) && |data| == 2 * Size(c)
    ensures Filled(c, RamFold(BeginWriteRam(c), data), data, Size(c))
  {
    var b := BeginWriteRam(c);
    WindowSize(c.win);
    assert Filled(c, b, data, 0);
    assert data[2 * 0..] == data;
    FillRest(c, b, data, 0);
  }

  /** Writing a whole window paints every panel pixel behind it with its own word, once, leaves
      the rest of the panel alone, and counts down to exactly zero. */
  lemma WindowIsPainted(c: Chip, data: seq<Byte>)
    requires Ok(c) && |data| == 2 * Size(c)
    ensures var d := RamFold(BeginWriteRam(c), data);
            && SameSetup(c, d) && d.pending == 0 && d.pixel == []
            && forall x, y :: OnPanel(x, y) ==> PixelAt(d.rgba, x, y) == Painting(c, data, x, y)
  {
    WindowIsFilled(c, data);
    var d := RamFold(BeginWriteRam(c), data);
    forall x, y | OnPanel(x, y)
      ensures PixelAt(d.rgba, x, y) == Painting(c, data, x, y)
    {
      PaintingIsExpected(c, data, x, y);
    }
  }

  lemma UprightTurn(c: Chip, x: int, y: int)
    requires c.win == Window(0, 127, 0, 127) && !c.remap.vertical && OnPanel(x, y)
    ensures Turn(c, x, y) == 128 * y + x && 0 <= 128 * y + x < 16384
  {
  }

  /** A chip that was just reset is dark, and takes a whole frame row by row from the top, upright and in RGB. */
  lemma ResetTakesAFrame(data: seq<Byte>, x: int, y: int)
    requires |data| == 32768 && OnPanel(x, y)
    ensures var b := BeginWriteRam(Reset());
            && !b.displayOn && b.shown == Blank() && b.pending == 32768
            && Lights(false, PixelAt(RamFold(b, data).rgba, x, y), data[2 * (128 * y + x)], data[2 * (128 * y + x) + 1])
  {
    var c := Reset();
    assert Size(c) == 16384;
    UprightTurn(c, x, y);
    WindowIsPainted(c, data);
    ShadeLights(false, data[2 * (128 * y + x)], data[2 * (128 * y + x) + 1]);
  }
}
