/** The handlers of device/wokwi/src/ssd1351.c in place: registers in fields, arguments, pixel bytes
    and picture in buffers. Each handler is proved against its function in module Panel. */
module ChipObject {
  import opened Common
  import P = Panel

  class Chip {
    var displayOn: bool
    var remap: P.Remap // the four flags of the remap byte
    var currentCmd: Byte
    const args: array<Byte>
    var argsExpected: nat
    var argsReceived: nat
    var win: P.Window // col_start, col_end, row_start, row_end
    var nextCol: nat
    var nextRow: nat
    var pendingWriteBytes: int
    const pixelBytes: array<Byte>
    var pixelByteCount: nat
    const rgba: array<Byte>
    var screen: seq<Byte> // the simulator's framebuffer

    ghost function State(): P.Chip
      reads this, args, pixelBytes, rgba
      requires pixelByteCount <= pixelBytes.Length
    {
      P.Chip(displayOn, remap, currentCmd, args[..], argsExpected, argsReceived, win, nextCol, nextRow,
             pendingWriteBytes, pixelBytes[..pixelByteCount], rgba[..], screen)
    }

    ghost predicate Valid()
      reads this, args, pixelBytes, rgba
    {
      && args.Length == 3 && pixelBytes.Length == 2 && rgba.Length == P.RGBA_BYTES
      && args != pixelBytes && args != rgba && pixelBytes != rgba
      && pixelByteCount <= 1
      && P.Ok(State())
    }

    constructor ()
      ensures Valid() && fresh(args) && fresh(pixelBytes) && fresh(rgba)
      ensures State() == P.Reset()
    {
      args := new Byte[3](i => 0);
      pixelBytes := new Byte[2](i => 0);
      rgba := new Byte[P.RGBA_BYTES](i => 0);
      displayOn, remap := false, P.Remap(false, false, false, false);
      currentCmd, argsExpected, argsReceived := 0, 0, 0;
      win := P.Window(0, P.WIDTH - 1, 0, P.HEIGHT - 1);
      nextCol, nextRow, pendingWriteBytes, pixelByteCount := 0, 0, 0, 0;
      screen := P.Blank();
      new;
      assert rgba[..] == P.Blank() && args[..] == [0, 0, 0];
    }

    method ClearPicture()
      requires rgba.Length == P.RGBA_BYTES
      modifies rgba
      ensures rgba[..] == P.Blank()
    {
      forall i | 0 <= i < rgba.Length {
        rgba[i] := 0;
      }
    }

    method ResetPanel()
      requires Valid()
      modifies this, rgba
      ensures Valid()
      ensures State() == P.ResetKeeping(old(args[..]))
    {
      ClearPicture();
      displayOn, remap := false, P.Remap(false, false, false, false);
      currentCmd, argsExpected, argsReceived := 0, 0, 0;
      win := P.Window(0, P.WIDTH - 1, 0, P.HEIGHT - 1);
      nextCol, nextRow, pendingWriteBytes, pixelByteCount := win.colStart, win.rowStart, 0, 0;
      screen := P.Blank();
    }

    method PresentDisplay()
      requires Valid()
      modifies this`screen
      ensures Valid() && State() == P.Present(old(State()))
    {
      if !displayOn {
        return;
      }
      screen := rgba[..];
    }

    method BeginWriteRam()
      requires Valid()
      modifies this
      ensures Valid() && State() == P.BeginWriteRam(old(State()))
    {
      P.WindowSize(win);
      nextCol, nextRow := win.colStart, win.rowStart;
      pendingWriteBytes := (win.colEnd - win.colStart + 1) * (win.rowEnd - win.rowStart + 1) * 2;
      pixelByteCount := 0;
    }

    /** clamp_u8 on both arguments, then normalize_window. */
    method NormalizedArgs(max: nat) returns (start: nat, end: nat)
      requires args.Length == 3
      ensures (start, end) == P.Normalize(args[0], args[1], max)
    {
      start, end := Min(args[0], max), Min(args[1], max);
      if end < start {
        start, end := end, start;
      }
    }

    method SetColumns()
      requires Valid()
      modifies this
      ensures Valid()
      ensures var (s, e) := P.Normalize(args[0], args[1], P.WIDTH - 1);
              State() == old(State()).(win := old(State()).win.(colStart := s, colEnd := e))
    {
      var start, end := NormalizedArgs(P.WIDTH - 1);
      win := win.(colStart := start, colEnd := end);
    }

    method SetRows()
      requires Valid()
      modifies this
      ensures Valid()
      ensures var (s, e) := P.Normalize(args[0], args[1], P.HEIGHT - 1);
              State() == old(State()).(win := old(State()).win.(rowStart := s, rowEnd := e))
    {
      var start, end := NormalizedArgs(P.HEIGHT - 1);
      win := win.(rowStart := start, rowEnd := end);
    }

    method ApplyCurrentCommand()
      requires Valid()
      modifies this
      ensures Valid() && State() == P.Apply(old(State()))
    {
      if currentCmd == P.CMD_DISPLAY_OFF {
        displayOn := false;
        screen := P.Blank();
      } else if currentCmd == P.CMD_DISPLAY_ON {
        displayOn := true;
        PresentDisplay();
      } else if currentCmd == P.CMD_SET_REMAP {
        remap := P.Remap(P.Bit(args[0], 0x01), P.Bit(args[0], 0x02), P.Bit(args[0], 0x10), P.Bit(args[0], 0x04));
      } else if currentCmd == P.CMD_SET_COLUMN {
        SetColumns();
      } else if currentCmd == P.CMD_SET_ROW {
        SetRows();
      } else if currentCmd == P.CMD_WRITE_RAM {
        BeginWriteRam();
      }
      ghost var applied := State();
      argsExpected, argsReceived := 0, 0;
      assert State() == applied.(expected := 0, received := 0);
    }

    method HandleCommandByte(value: Byte)
      requires Valid()
      modifies this
      ensures Valid() && State() == P.CommandByte(old(State()), value)
    {
      currentCmd := value;
      argsExpected := P.ArgCount(value);
      argsReceived := 0;
      if argsExpected == 0 {
        ApplyCurrentCommand();
      }
    }

    method HandleDataByte(value: Byte)
      requires Valid()
      modifies this, args
      ensures Valid() && State() == P.DataByte(old(State()), value)
    {
      if pendingWriteBytes > 0 || argsExpected == 0 || argsReceived >= args.Length {
        return;
      }
      args[argsReceived] := value;
      argsReceived := argsReceived + 1;
      if argsReceived == argsExpected {
        argsReceived := 0; // the command resets it in any case
        ApplyCurrentCommand();
      }
    }

    method AdvanceCursor()
      requires Valid()
      modifies this
      ensures Valid() && State() == P.Advance(old(State()))
    {
      if remap.vertical {
        if nextRow < win.rowEnd {
          nextRow := nextRow + 1;
          return;
        }
        nextRow := win.rowStart;
        if nextCol < win.colEnd {
          nextCol := nextCol + 1;
        }
        return;
      }
      if nextCol < win.colEnd {
        nextCol := nextCol + 1;
        return;
      }
      nextCol := win.colStart;
      if nextRow < win.rowEnd {
        nextRow := nextRow + 1;
      }
    }

    method StorePixel(x: int, y: int, offset: int, shade: seq<Byte>)
      requires rgba.Length == P.RGBA_BYTES && P.OnPanel(x, y) && |shade| == 4
      requires offset == P.Offset(x, y)
      modifies rgba
      ensures rgba[..] == P.Painted(old(rgba[..]), x, y, shade)
    {
      rgba[offset] := shade[0];
      rgba[offset + 1] := shade[1];
      rgba[offset + 2] := shade[2];
      rgba[offset + 3] := shade[3];
    }

    method PaintNext(shade: seq<Byte>)
      requires Valid() && |shade| == 4
      modifies this, rgba
      ensures Valid() && State() == P.PaintNext(old(State()), shade)
    {
      var x := if remap.mirrorH then P.WIDTH - 1 - nextCol else nextCol;
      var y := if remap.flipV then P.HEIGHT - 1 - nextRow else nextRow;
      var offset := (y * P.WIDTH + x) * 4;
      StorePixel(x, y, offset, shade);
      AdvanceCursor();
    }

    method WritePixel(word: int)
      requires Valid() && 0 <= word < 65536
      modifies this, rgba
      ensures Valid() && State() == P.WritePixel(old(State()), word)
    {
      PaintNext(P.Widen(word));
    }

    /** One round of the loop of handle_ram_bytes. */
    method RamByte(value: Byte)
      requires Valid() && pendingWriteBytes > 0
      modifies this, pixelBytes, rgba
      ensures Valid() && State() == P.RamByte(old(State()), value)
    {
      pixelBytes[pixelByteCount] := value;
      pixelByteCount := pixelByteCount + 1;
      pendingWriteBytes := pendingWriteBytes - 1;
      if pixelByteCount == 2 {
        var word := P.Word(remap.bgr, pixelBytes[0], pixelBytes[1]);
        pixelByteCount := 0;
        WritePixel(word);
      }
    }

    method HandleRamBytes(buffer: seq<Byte>)
      requires Valid() && |buffer| <= pendingWriteBytes
      modifies this, pixelBytes, rgba
      ensures Valid() && State() == P.RamBytes(old(State()), buffer)
    {
      ghost var before := State();
      for i := 0 to |buffer|
        invariant Valid() && pendingWriteBytes == before.pending - i
        invariant State() == P.RamFold(before, buffer[..i])
      {
        RamByte(buffer[i]);
        P.RamFoldNext(before, buffer, i);
      }
      assert buffer[..|buffer|] == buffer;
      if pendingWriteBytes == 0 && pixelByteCount == 0 {
        PresentDisplay();
      }
    }

    /** chip_spi_done, without the request for the next read. */
    method SpiDone(isData: bool, buffer: seq<Byte>)
      requires Valid() && P.Legal(State(), P.Delivery(isData, buffer))
      modifies this, args, pixelBytes, rgba
      ensures Valid() && State() == P.SpiDone(old(State()), P.Delivery(isData, buffer))
    {
      if |buffer| == 0 {
        return;
      }
      ghost var before := State();
      if isData && pendingWriteBytes > 0 {
        HandleRamBytes(buffer);
      } else if isData {
        for i := 0 to |buffer|
          invariant Valid()
          invariant P.DataBytes(State(), buffer[i..]) == P.DataBytes(before, buffer)
        {
          HandleDataByte(buffer[i]);
          assert buffer[i..][1..] == buffer[i + 1..];
        }
      } else {
        for i := 0 to |buffer|
          invariant Valid()
          invariant P.CommandBytes(State(), buffer[i..]) == P.CommandBytes(before, buffer)
        {
          HandleCommandByte(buffer[i]);
          assert buffer[i..][1..] == buffer[i + 1..];
        }
      }
    }

    /** start_next_spi_read: how many bytes the chip asks for, given the D/C level. */
    method NextReadCount(dcHigh: bool) returns (count: int)
      requires Valid()
      ensures count >= 1
      ensures forall buffer: seq<Byte> :: |buffer| <= count ==> P.Legal(State(), P.Delivery(true, buffer))
      ensures P.Legal(State(), P.Delivery(dcHigh, seq(count, i => 0)))
    {
      count := 1;
      if pendingWriteBytes > 0 && dcHigh {
        count := Min(pendingWriteBytes, 4096);
      }
    }
  }
}
