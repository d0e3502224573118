/** The driver object of device/src/display.rs: a framebuffer drawn into in place, and the bytes it
    sends. */
module Driver {
  import opened Common
  import opened Panel
  import opened Display

  /** A colour as embedded-graphics holds it: 5, 6 and 5 bits. */
  datatype Rgb565 = Rgb565(r: int, g: int, b: int)

  predicate ColorOk(c: Rgb565) {
    0 <= c.r < 32 && 0 <= c.g < 64 && 0 <= c.b < 32
  }

  /** A coloured point; drawing clips, so the point may be anywhere. */
  datatype Pixel = Pixel(x: int, y: int, color: Rgb565)

  function ColorWord(c: Rgb565): (w: int)
    requires ColorOk(c)
    ensures 0 <= w < 65536
  {
    c.r * 2048 + c.g * 32 + c.b
  }

  /** Where framebuffer pixel (x, y) starts. */
  function FbOffset(x: int, y: int): int {
    (y * WIDTH + x) * 2
  }

  function Plotted(fb: seq<Byte>, x: int, y: int, c: Rgb565): (r: seq<Byte>)
    requires |fb| == FB_LEN && OnPanel(x, y) && ColorOk(c)
    ensures |r| == FB_LEN
  {
    fb[FbOffset(x, y) := ColorWord(c) / 256][FbOffset(x, y) + 1 := ColorWord(c) % 256]
  }

  function Drawn(fb: seq<Byte>, pixels: seq<Pixel>): (r: seq<Byte>)
    requires |fb| == FB_LEN && forall p <- pixels :: ColorOk(p.color)
    ensures |r| == FB_LEN
    decreases |pixels|
  {
    if pixels == [] then fb
    else
      var p := pixels[0];
      Drawn(if OnPanel(p.x, p.y) then Plotted(fb, p.x, p.y, p.color) else fb, pixels[1..])
  }

  function FbWord(fb: seq<Byte>, x: int, y: int): int
    requires |fb| == FB_LEN && OnPanel(x, y)
  {
    fb[FbOffset(x, y)] as int * 256 + fb[FbOffset(x, y) + 1]
  }

  lemma PlottedWord(fb: seq<Byte>, px: int, py: int, c: Rgb565, x: int, y: int)
    requires |fb| == FB_LEN && OnPanel(px, py) && ColorOk(c) && OnPanel(x, y)
    ensures FbWord(Plotted(fb, px, py, c), x, y) == if (x, y) == (px, py) then ColorWord(c) else FbWord(fb, x, y)
  {
    StoredWord(fb, FbOffset(px, py), ColorWord(c), FbOffset(x, y));
  }

  /** Two bytes of the buffer stored and read back; both offsets are even. */
  lemma StoredWord(fb: seq<Byte>, i: int, word: int, j: int)
    requires 0 <= i < |fb| - 1 && 0 <= j < |fb| - 1 && i % 2 == 0 && j % 2 == 0 && 0 <= word < 65536
    ensures var r := fb[i := word / 256][i + 1 := word % 256];
            r[j] as int * 256 + r[j + 1] == if i == j then word else fb[j] as int * 256 + fb[j + 1]
  {
  }

  /** The colour the last of `pixels` gives to (x, y), if any does. */
  function LastAt(pixels: seq<Pixel>, x: int, y: int): Option<Rgb565> {
    if pixels == [] then None
    else
      var rest := LastAt(pixels[1..], x, y);
      if rest.Some? then rest
      else if (pixels[0].x, pixels[0].y) == (x, y) then Some(pixels[0].color)
      else None
  }

  /** Drawing leaves each pixel with the last colour given to it, and otherwise as it was; points
      off the panel change nothing. */
  lemma {:induction false} DrawnPixel(fb: seq<Byte>, pixels: seq<Pixel>, x: int, y: int)
    requires |fb| == FB_LEN && forall p <- pixels :: ColorOk(p.color)
    requires OnPanel(x, y)
    ensures LastAt(pixels, x, y).Some? ==> ColorOk(LastAt(pixels, x, y).value)
    ensures FbWord(Drawn(fb, pixels), x, y)
         == match LastAt(pixels, x, y)
            case Some(c) => ColorWord(c)
            case None => FbWord(fb, x, y)
    decreases |pixels|
  {
    if pixels != [] {
      var p := pixels[0];
      if OnPanel(p.x, p.y) {
        PlottedWord(fb, p.x, p.y, p.color, x, y);
        DrawnPixel(Plotted(fb, p.x, p.y, p.color), pixels[1..], x, y);
      } else {
        DrawnPixel(fb, pixels[1..], x, y);
      }
    }
  }

  lemma {:induction false} DrawnAppend(fb: seq<Byte>, pixels: seq<Pixel>, p: Pixel)
    requires |fb| == FB_LEN && ColorOk(p.color) && forall q <- pixels :: ColorOk(q.color)
    ensures forall q <- pixels + [p] :: ColorOk(q.color)
    ensures var d := Drawn(fb, pixels);
            Drawn(fb, pixels + [p]) == if OnPanel(p.x, p.y) then Plotted(d, p.x, p.y, p.color) else d
    decreases |pixels|
  {
    if pixels == [] {
      assert ([p])[1..] == [];
    } else {
      assert (pixels + [p])[1..] == pixels[1..] + [p];
      var q := pixels[0];
      DrawnAppend(if OnPanel(q.x, q.y) then Plotted(fb, q.x, q.y, q.color) else fb, pixels[1..], p);
    }
  }

  class Ssd1351 {
    const fb: array<Byte>
    var wire: seq<Sent> // everything sent since the last reset pulse

    ghost predicate Valid()
      reads this
    {
      fb.Length == FB_LEN
    }

    constructor ()
      ensures Valid() && fresh(fb) && fb[..] == Zeros()
    {
      fb := new Byte[FB_LEN](i => 0);
      wire := [];
      new;
      assert fb[..] == Zeros();
    }

    method Cmd(command: Byte, args: seq<Byte>)
      modifies this`wire
      ensures wire == old(wire) + CmdBytes(command, args)
    {
      wire := wire + [Sent(false, command)];
      if |args| > 0 {
        wire := wire + Tag(true, args);
      }
    }

    method SetFullWindow()
      modifies this`wire
      ensures wire == old(wire) + CmdList(FullWindow())
    {
      ghost var rest: seq<(Byte, seq<Byte>)> := FullWindow()[1..];
      assert rest[1..] == [];
      Cmd(CMD_SET_COLUMN, [0x00, WIDTH - 1]);
      Cmd(CMD_SET_ROW, [0x00, HEIGHT - 1]);
    }

    method Flush()
      requires Valid()
      modifies this`wire
      ensures wire == old(wire) + FlushBytes(fb[..])
    {
      SetFullWindow();
      wire := wire + [Sent(false, CMD_WRITE_RAM)];
      wire := wire + Tag(true, fb[..]);
    }

    method Fill(value: Byte)
      requires Valid()
      modifies fb
      ensures forall i :: 0 <= i < FB_LEN ==> fb[i] == value
    {
      forall i | 0 <= i < fb.Length {
        fb[i] := value;
      }
    }

    /** The sixteen calls of `cmd` that start init, from a table. */
    method SendAll(cmds: seq<(Byte, seq<Byte>)>)
      modifies this`wire
      ensures wire == old(wire) + CmdList(cmds)
    {
      for i := 0 to |cmds|
        invariant wire + CmdList(cmds[i..]) == old(wire) + CmdList(cmds)
      {
        Cmd(cmds[i].0, cmds[i].1);
        assert cmds[i..][1..] == cmds[i + 1..];
      }
      assert cmds[|cmds|..] == [];
    }

    method Init(orientation: Orientation)
      requires Valid()
      modifies this`wire, fb
      ensures wire == InitBytes(orientation) && fb[..] == Zeros()
    {
      InitWith(PowerUp(), RemapByte(orientation));
    }

    method InitWith(cmds: seq<(Byte, seq<Byte>)>, remap: Byte)
      requires Valid()
      modifies this`wire, fb
      ensures fb[..] == Zeros()
      ensures wire == CmdList(cmds) + CmdBytes(CMD_SET_REMAP, [remap]) + FlushBytes(Zeros())
                      + CmdBytes(CMD_DISPLAY_ON, [])
    {
      wire := []; // the reset pulse
      SendAll(cmds);
      Cmd(CMD_SET_REMAP, [remap]);
      Fill(0);
      assert fb[..] == Zeros();
      Flush();
      Cmd(CMD_DISPLAY_ON, []);
    }

    method DrawIter(pixels: seq<Pixel>)
      requires Valid() && forall p <- pixels :: ColorOk(p.color)
      modifies fb
      ensures fb[..] == Drawn(old(fb[..]), pixels)
    {
      for i := 0 to |pixels|
        invariant fb[..] == Drawn(old(fb[..]), pixels[..i])
      {
        var p := pixels[i];
        DrawnAppend(old(fb[..]), pixels[..i], p);
        OneLonger(pixels, i);
        if p.x < 0 || p.y < 0 || p.x >= WIDTH || p.y >= HEIGHT {
          continue;
        }
        var idx := (p.y * WIDTH + p.x) * 2;
        fb[idx] := ColorWord(p.color) / 256;
        fb[idx + 1] := ColorWord(p.color) % 256;
      }
      assert pixels[..|pixels|] == pixels;
    }

    /** clear: one colour everywhere, by a plain fill when both bytes are the same. */
    method Clear(color: Rgb565)
      requires Valid() && ColorOk(color)
      modifies fb
      ensures forall x, y :: OnPanel(x, y) ==> FbWord(fb[..], x, y) == ColorWord(color)
    {
      var hi, lo := ColorWord(color) / 256, ColorWord(color) % 256;
      if hi == lo {
        Fill(hi);
      } else {
        for k := 0 to FB_LEN / 2
          invariant forall i :: 0 <= i < k ==> fb[2 * i] == hi && fb[2 * i + 1] == lo
        {
          fb[2 * k] := hi;
          fb[2 * k + 1] := lo;
        }
        forall x, y | OnPanel(x, y)
          ensures FbWord(fb[..], x, y) == ColorWord(color)
        {
          var i := y * WIDTH + x;
          assert fb[2 * i] == hi && fb[2 * i + 1] == lo;
        }
      }
    }
  }
}
