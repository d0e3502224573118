/** The firmware's display driver (device/src/display.rs) and what it makes the panel show.

    The driver draws into a framebuffer in place and sends command and data bytes; `wire` is
    everything it has sent since it last pulsed the reset line. */
module Display {
  import opened Common
  import opened Panel

  const FB_LEN := 32768

  datatype Orientation = Orientation(verticalIncrement: bool, mirrorH: bool, flipV: bool, bgr: bool)

  /** The bits are distinct, so `|=` adds. */
  function RemapByte(o: Orientation): Byte {
    0x40 + 0x20
    + (if o.verticalIncrement then 0x01 else 0)
    + (if o.mirrorH then 0x02 else 0)
    + (if o.flipV then 0x10 else 0)
    + (if o.bgr then 0x04 else 0)
  }

  /** Bits 6 and 5 ask for 16-bit colour and the odd/even COM split, bits 7 and 3 stay clear, and the other four
      are the orientation's; so the plain panel gets the byte 0x74 that display.rs names. */
  lemma RemapBits(o: Orientation)
    ensures var b := RemapByte(o);
            && b / 32 == 3 && (Bit(b, 0x10) <==> o.flipV) && !Bit(b, 0x08) && (Bit(b, 0x04) <==> o.bgr)
            && (Bit(b, 0x02) <==> o.mirrorH) && (Bit(b, 0x01) <==> o.verticalIncrement)
    ensures o == Orientation(false, false, true, true) ==> RemapByte(o) == 0x74
  {
  }

  function CmdBytes(command: Byte, args: seq<Byte>): seq<Sent> {
    [Sent(false, command)] + Tag(true, args)
  }

  function CmdList(cmds: seq<(Byte, seq<Byte>)>): seq<Sent> {
    if cmds == [] then [] else CmdBytes(cmds[0].0, cmds[0].1) + CmdList(cmds[1..])
  }

  function PowerUp(): seq<(Byte, seq<Byte>)> {
    [(0xFD, [0x12]), (0xFD, [0xB1]), (CMD_DISPLAY_OFF, []), (0xB3, [0xF1]), (0xCA, [0x7F]),
     (0xA2, [0x00]), (0xA1, [0x00]), (0xB5, [0x00]), (0xAB, [0x01]), (0xB4, [0xA0, 0xB5, 0x55]),
     (0xC1, [0xC8, 0x80, 0xC8]), (0xC7, [0x0F]), (0xB1, [0x32]), (0xB6, [0x01]), (0xBE, [0x05]),
     (0xA6, [])]
  }

  function FullWindow(): seq<(Byte, seq<Byte>)> {
    [(CMD_SET_COLUMN, [0x00, 127]), (CMD_SET_ROW, [0x00, 127])]
  }

  function FlushBytes(fb: seq<Byte>): seq<Sent> {
    CmdList(FullWindow()) + [Sent(false, CMD_WRITE_RAM)] + Tag(true, fb)
  }

  function InitBytes(o: Orientation): seq<Sent> {
    CmdList(PowerUp()) + CmdBytes(CMD_SET_REMAP, [RemapByte(o)])
    + FlushBytes(Zeros()) + CmdBytes(CMD_DISPLAY_ON, [])
  }

  function Zeros(): (z: seq<Byte>)
    ensures |z| == FB_LEN
  {
    seq(FB_LEN, i => 0)
  }

  function FramesBytes(frames: seq<seq<Byte>>): seq<Sent> {
    if frames == [] then [] else FlushBytes(frames[0]) + FramesBytes(frames[1..])
  }

  // ------------------------------------------------ one command, whole

  /** A command with exactly the arguments the chip counts for it. */
  predicate WellFed(cmd: Byte, args: seq<Byte>) {
    |args| == ArgCount(cmd)
  }

  function Load(before: seq<Byte>, args: seq<Byte>): (r: seq<Byte>)
    requires |before| == 3 && |args| <= 3
    ensures |r| == 3
  {
    args + before[|args|..]
  }

  /** The chip with a command and its arguments in place. */
  function Loaded(c: Chip, cmd: Byte, args: seq<Byte>): (r: Chip)
    requires Ok(c) && WellFed(cmd, args)
    ensures Ok(r)
  {
    c.(cmd := cmd, args := Load(c.args, args), expected := 0, received := 0)
  }

  lemma CommandTakesEffect(c: Chip, cmd: Byte, args: seq<Byte>)
    requires Ok(c) && c.pending == 0 && WellFed(cmd, args)
    ensures Bytewise(c, CmdBytes(cmd, args)) == Apply(Loaded(c, cmd, args))
  {
    var bytes := CmdBytes(cmd, args);
    var d := CommandByte(c, cmd);
    assert bytes[1..] == Tag(true, args);
    assert Bytewise(c, bytes) == Bytewise(d, Tag(true, args));
    if args == [] {
      assert Load(c.args, args) == c.args;
    } else {
      Arguments(d, args, 0);
      assert Load(d.args, args) == Load(c.args, args);
    }
  }

  /** The last arguments complete the command. */
  lemma {:induction false} Arguments(d: Chip, args: seq<Byte>, n: nat)
    requires Ok(d) && d.pending == 0 && WellFed(d.cmd, args)
    requires n < |args| && d.expected == |args| && d.received == n && d.args[..n] == args[..n]
    ensures Bytewise(d, Tag(true, args[n..])) == Apply(Loaded(d, d.cmd, args))
    decreases |args| - n
  {
    var e := DataByte(d, args[n]);
    assert Tag(true, args[n..])[1..] == Tag(true, args[n + 1..]);
    if n + 1 == |args| {
      assert d.args[n := args[n]] == Load(d.args, args);
      assert args[n + 1..] == [];
      assert Bytewise(e, Tag(true, args[n + 1..])) == e;
    } else {
      Arguments(e, args, n + 1);
      assert Load(e.args, args) == Load(d.args, args);
    }
  }

  ghost predicate Fits(cmds: seq<(Byte, seq<Byte>)>) {
    forall i :: 0 <= i < |cmds| ==> WellFed(cmds[i].0, cmds[i].1) && cmds[i].0 != CMD_WRITE_RAM
  }

  function Effects(c: Chip, cmds: seq<(Byte, seq<Byte>)>): (r: Chip)
    requires Ok(c) && Fits(cmds)
    ensures Ok(r)
    decreases |cmds|
  {
    if cmds == [] then c else Effects(Apply(Loaded(c, cmds[0].0, cmds[0].1)), cmds[1..])
  }

  lemma {:induction false} CommandsTakeEffect(c: Chip, cmds: seq<(Byte, seq<Byte>)>)
    requires Ok(c) && c.pending == 0 && Fits(cmds)
    ensures Bytewise(c, CmdList(cmds)) == Effects(c, cmds)
    decreases |cmds|
  {
    if cmds != [] {
      CommandTakesEffect(c, cmds[0].0, cmds[0].1);
      BytewiseAppend(c, CmdBytes(cmds[0].0, cmds[0].1), CmdList(cmds[1..]));
      CommandsTakeEffect(Apply(Loaded(c, cmds[0].0, cmds[0].1)), cmds[1..]);
    }
  }

  /** Equal but for the command register and its arguments. */
  ghost predicate SameCore(c: Chip, d: Chip) {
    d == c.(cmd := d.cmd, args := d.args, expected := d.expected, received := d.received)
  }

  /** Commands that do nothing to a chip that is dark already. */
  predicate Harmless(cmd: Byte) {
    cmd != CMD_DISPLAY_ON && cmd != CMD_SET_REMAP && cmd != CMD_SET_COLUMN && cmd != CMD_SET_ROW
    && cmd != CMD_WRITE_RAM
  }

  lemma {:induction false} HarmlessCommands(c: Chip, cmds: seq<(Byte, seq<Byte>)>)
    requires Ok(c) && Fits(cmds) && !c.displayOn && c.shown == Blank()
    requires forall i :: 0 <= i < |cmds| ==> Harmless(cmds[i].0)
    ensures SameCore(c, Effects(c, cmds))
    decreases |cmds|
  {
    if cmds != [] {
      HarmlessCommands(Apply(Loaded(c, cmds[0].0, cmds[0].1)), cmds[1..]);
    }
  }

  /** Every command of the power-up list has the argument count the chip expects. */
  lemma PowerUpFits()
    ensures Fits(PowerUp())
    ensures forall i :: 0 <= i < |PowerUp()| ==> Harmless(PowerUp()[i].0)
  {
  }

  /** What the chip reads out of a remap byte. */
  function Decoded(b: Byte): Remap {
    Remap(Bit(b, 0x01), Bit(b, 0x02), Bit(b, 0x10), Bit(b, 0x04))
  }

  lemma RemapIsDecoded(o: Orientation)
    ensures Decoded(RemapByte(o)) == RemapOf(o)
  {
  }

  // ------------------------------------------------ one flush paints the panel

  /** The framebuffer pixel that appears at panel pixel (x, y). */
  function FbIndex(m: Remap, x: int, y: int): int {
    var col, row := PanelX(m, x), PanelY(m, y);
    if m.vertical then col * HEIGHT + row else row * WIDTH + col
  }

  /** The panel pixel at which framebuffer pixel k appears. */
  function PanelPosition(m: Remap, k: int): (int, int) {
    var col, row := if m.vertical then k / HEIGHT else k % WIDTH, if m.vertical then k % HEIGHT else k / WIDTH;
    (PanelX(m, col), PanelY(m, row))
  }

  /** The two are inverse, so each panel pixel shows exactly one framebuffer pixel and the other
      way round. */
  lemma PanelAndFramebufferMatchUp(m: Remap, x: int, y: int, k: int)
    requires OnPanel(x, y) && 0 <= k < WIDTH * HEIGHT
    ensures 0 <= FbIndex(m, x, y) < WIDTH * HEIGHT
    ensures PanelPosition(m, FbIndex(m, x, y)) == (x, y)
    ensures var (px, py) := PanelPosition(m, k); OnPanel(px, py) && FbIndex(m, px, py) == k
  {
    IndexIsFound(m, x, y);
    PositionIsFound(m, k);
  }

  lemma IndexIsFound(m: Remap, x: int, y: int)
    requires OnPanel(x, y)
    ensures 0 <= FbIndex(m, x, y) < WIDTH * HEIGHT
    ensures PanelPosition(m, FbIndex(m, x, y)) == (x, y)
  {
    var col, row := PanelX(m, x), PanelY(m, y);
    Digits(row, col);
    Digits(col, row);
  }

  lemma PositionIsFound(m: Remap, k: int)
    requires 0 <= k < WIDTH * HEIGHT
    ensures var (px, py) := PanelPosition(m, k); OnPanel(px, py) && FbIndex(m, px, py) == k
  {
    assert k == k / 128 * 128 + k % 128;
  }

  lemma Digits(a: int, b: int)
    requires 0 <= b < 128
    ensures (a * 128 + b) / 128 == a && (a * 128 + b) % 128 == b
  {
  }

  /** The panel shows `fb` in c's orientation. */
  ghost predicate Pictures(picture: seq<Byte>, m: Remap, fb: seq<Byte>)
    requires |fb| == FB_LEN
  {
    && |picture| == RGBA_BYTES
    && forall x, y :: OnPanel(x, y) ==> Showing(picture, m, fb, x, y)
  }

  predicate Showing(picture: seq<Byte>, m: Remap, fb: seq<Byte>, x: int, y: int)
    requires |fb| == FB_LEN && |picture| == RGBA_BYTES && OnPanel(x, y)
  {
    var k := FbIndex(m, x, y);
    PixelAt(picture, x, y) == Shade(m.bgr, fb[2 * k], fb[2 * k + 1])
  }

  ghost predicate Settled(c: Chip) {
    Ok(c) && c.pending == 0 && c.pixel == []
  }

  lemma FullWindowSet(c: Chip)
    requires Settled(c)
    ensures Fits(FullWindow())
    ensures var d := Effects(c, FullWindow());
            && Settled(d) && d.win == Window(0, 127, 0, 127)
            && d.remap == c.remap && d.rgba == c.rgba && d.shown == c.shown && d.displayOn == c.displayOn
  {
    var cmds := FullWindow();
    var rest: seq<(Byte, seq<Byte>)> := cmds[1..];
    assert rest[1..] == [];
  }

  /** The chip as WRITE_RAM finds it during a flush. */
  function ReadyForRam(c: Chip): (r: Chip)
    requires Ok(c) && Fits(FullWindow())
    ensures Ok(r)
  {
    Effects(c, FullWindow()).(cmd := CMD_WRITE_RAM, expected := 0, received := 0)
  }

  lemma FlushSteps(c: Chip, fb: seq<Byte>)
    requires Settled(c) && |fb| == FB_LEN && Fits(FullWindow())
    requires Settled(ReadyForRam(c)) && Size(ReadyForRam(c)) * 2 == FB_LEN
    ensures Bytewise(c, FlushBytes(fb)) == PresentIfFull(RamFold(BeginWriteRam(ReadyForRam(c)), fb))
  {
    var begin := [Sent(false, CMD_WRITE_RAM)];
    CommandsTakeEffect(c, FullWindow());
    BytewiseAppend(c, CmdList(FullWindow()) + begin, Tag(true, fb));
    BytewiseAppend(c, CmdList(FullWindow()), begin);
    var w := Effects(c, FullWindow());
    assert begin[1..] == [];
    assert Bytewise(w, begin) == CommandByte(w, CMD_WRITE_RAM) == BeginWriteRam(ReadyForRam(c));
    RamBytewise(BeginWriteRam(ReadyForRam(c)), fb);
  }

  lemma FullWindowPictures(c: Chip, fb: seq<Byte>, rgba: seq<Byte>)
    requires Ok(c) && c.win == Window(0, 127, 0, 127) && |fb| == FB_LEN && |rgba| == RGBA_BYTES
    requires Size(c) == WIDTH * HEIGHT
    requires forall x, y :: OnPanel(x, y) ==> PixelAt(rgba, x, y) == Painting(c, fb, x, y)
    ensures Pictures(rgba, c.remap, fb)
  {
    forall x, y | OnPanel(x, y)
      ensures Showing(rgba, c.remap, fb, x, y)
    {
      assert PixelAt(rgba, x, y) == Painting(c, fb, x, y);
    }
  }

  /** flush: afterwards the RAM pictures the framebuffer, the count is back to zero, and the
      picture is on the screen if the display is on. */
  lemma FlushPaints(c: Chip, fb: seq<Byte>)
    requires Settled(c) && |fb| == FB_LEN
    ensures var d := Bytewise(c, FlushBytes(fb));
            && Settled(d) && d.remap == c.remap && d.displayOn == c.displayOn
            && Pictures(d.rgba, c.remap, fb)
            && d.shown == if c.displayOn then d.rgba else c.shown
  {
    FullWindowSet(c);
    FlushSteps(c, fb);
    WindowIsPainted(ReadyForRam(c), fb);
    FullWindowPictures(ReadyForRam(c), fb, RamFold(BeginWriteRam(ReadyForRam(c)), fb).rgba);
  }

  // ------------------------------------------------ from reset to any number of frames

  lemma StillDark()
    ensures var d := Bytewise(Reset(), CmdList(PowerUp())); Settled(d) && !d.displayOn
  {
    PowerUpFits();
    CommandsTakeEffect(Reset(), PowerUp());
    HarmlessCommands(Reset(), PowerUp());
  }

  lemma Oriented(c: Chip, b: Byte)
    requires Settled(c)
    ensures var d := Bytewise(c, CmdBytes(CMD_SET_REMAP, [b]));
            Settled(d) && d.displayOn == c.displayOn && d.remap == Decoded(b)
  {
    CommandTakesEffect(c, CMD_SET_REMAP, [b]);
  }

  lemma PoweredUp(o: Orientation)
    ensures var d := Bytewise(Reset(), CmdList(PowerUp()) + CmdBytes(CMD_SET_REMAP, [RemapByte(o)]));
            Settled(d) && !d.displayOn && d.remap == Decoded(RemapByte(o))
  {
    StillDark();
    BytewiseAppend(Reset(), CmdList(PowerUp()), CmdBytes(CMD_SET_REMAP, [RemapByte(o)]));
    Oriented(Bytewise(Reset(), CmdList(PowerUp())), RemapByte(o));
  }

  lemma TurnedOn(c: Chip)
    requires Settled(c)
    ensures var d := Bytewise(c, CmdBytes(CMD_DISPLAY_ON, []));
            Settled(d) && d.displayOn && d.remap == c.remap && d.rgba == c.rgba && d.shown == c.rgba
  {
    CommandTakesEffect(c, CMD_DISPLAY_ON, []);
  }

  /** init: the panel is on, in the orientation asked for, and black. */
  lemma InitLightsUp(o: Orientation)
    ensures var d := Bytewise(Reset(), InitBytes(o));
            && Settled(d) && d.displayOn && d.remap == Decoded(RemapByte(o))
            && d.shown == d.rgba && Pictures(d.shown, d.remap, Zeros())
  {
    var setup := CmdList(PowerUp()) + CmdBytes(CMD_SET_REMAP, [RemapByte(o)]);
    PoweredUp(o);
    var c := Bytewise(Reset(), setup);
    FlushPaints(c, Zeros());
    TurnedOn(Bytewise(c, FlushBytes(Zeros())));
    BytewiseAppend(Reset(), setup + FlushBytes(Zeros()), CmdBytes(CMD_DISPLAY_ON, []));
    BytewiseAppend(Reset(), setup, FlushBytes(Zeros()));
  }

  lemma FirstFrame(c: Chip, frames: seq<seq<Byte>>)
    requires Ok(c) && |frames| > 0
    ensures Bytewise(c, FramesBytes(frames)) == Bytewise(Bytewise(c, FlushBytes(frames[0])), FramesBytes(frames[1..]))
  {
    BytewiseAppend(c, FlushBytes(frames[0]), FramesBytes(frames[1..]));
  }

  /** Switched on, at rest, in orientation m. */
  ghost predicate Lit(c: Chip, m: Remap) {
    Settled(c) && c.displayOn && c.remap == m
  }

  lemma {:induction false} FramesKeepLit(c: Chip, m: Remap, frames: seq<seq<Byte>>)
    requires Lit(c, m) && forall fb <- frames :: |fb| == FB_LEN
    ensures Lit(Bytewise(c, FramesBytes(frames)), m)
    decreases |frames|
  {
    if frames != [] {
      FlushPaints(c, frames[0]);
      FirstFrame(c, frames);
      FramesKeepLit(Bytewise(c, FlushBytes(frames[0])), m, frames[1..]);
    }
  }

  function RemapOf(o: Orientation): Remap {
    Remap(o.verticalIncrement, o.mirrorH, o.flipV, o.bgr)
  }

  lemma InitLights(o: Orientation)
    ensures Lit(Bytewise(Reset(), InitBytes(o)), RemapOf(o))
  {
    InitLightsUp(o);
    RemapIsDecoded(o);
  }

  lemma LastFramePaints(c: Chip, m: Remap, fb: seq<Byte>)
    requires Lit(c, m) && |fb| == FB_LEN
    ensures Pictures(Bytewise(c, FlushBytes(fb)).shown, m, fb)
  {
    FlushPaints(c, fb);
  }

  /** After power-up in any orientation, any earlier frames and then `fb`, delivered in any legal pieces,
      the screen shows `fb`: each panel pixel holds the widened word of the one framebuffer pixel its
      orientation calls for, red and blue exchanged iff BGR was asked for. */
  lemma ScreenShowsLastFrame(o: Orientation, earlier: seq<seq<Byte>>, fb: seq<Byte>, ds: seq<Delivery>)
    requires |fb| == FB_LEN && forall f <- earlier :: |f| == FB_LEN
    requires AllLegal(Reset(), ds) && OnTheWire(ds) == InitBytes(o) + FramesBytes(earlier) + FlushBytes(fb)
    ensures Pictures(Deliver(Reset(), ds).shown, RemapOf(o), fb)
  {
    CutsDoNotMatter(Reset(), ds);
    var c := Bytewise(Reset(), InitBytes(o));
    InitLights(o);
    BytewiseAppend(Reset(), InitBytes(o), FramesBytes(earlier));
    FramesKeepLit(c, RemapOf(o), earlier);
    BytewiseAppend(Reset(), InitBytes(o) + FramesBytes(earlier), FlushBytes(fb));
    LastFramePaints(Bytewise(c, FramesBytes(earlier)), RemapOf(o), fb);
  }
}
