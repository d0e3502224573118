/** The whole picture path: a cell of the source sheet, converted on the host, drawn by the firmware
    into its framebuffer, sent to the panel and shown. */
module Pipeline {
  import opened Common
  import opened Panel
  import opened Display
  import opened Driver
  import opened SpriteCell

  /** The last colour given to a point is the colour of some pixel at that point. */
  lemma {:induction false} LastAtIsTouched(pixels: seq<Pixel>, x: int, y: int) returns (i: int)
    requires LastAt(pixels, x, y).Some?
    ensures 0 <= i < |pixels| && pixels[i] == Pixel(x, y, LastAt(pixels, x, y).value)
    decreases |pixels|
  {
    if LastAt(pixels[1..], x, y).Some? {
      var j := LastAtIsTouched(pixels[1..], x, y);
      i := j + 1;
    } else {
      i := 0;
    }
  }

  lemma {:induction false} NoColorMeansUntouched(pixels: seq<Pixel>, x: int, y: int, k: int)
    requires LastAt(pixels, x, y) == None && 0 <= k < |pixels|
    ensures (pixels[k].x, pixels[k].y) != (x, y)
    decreases |pixels|
  {
    if k > 0 {
      NoColorMeansUntouched(pixels[1..], x, y, k - 1);
    }
  }

  /** The word a framebuffer must hold at (x, y) once the sprite of `c` has been drawn over `before`
      at (fx, fy): a nearest palette colour where the cell is opaque enough, the old word elsewhere. */
  ghost predicate Composed(c: Cell, palette: seq<Word16>, threshold: int, fx: int, fy: int, x: int, y: int,
                           before: int, after: int)
    requires CellOk(c)
  {
    if Seen(c, threshold, x - fx, y - fy) then Fits(c, palette, x - fx, y - fy, after) else after == before
  }

  /** A word of the palette that is nearest to cell pixel (x, y). */
  ghost predicate Fits(c: Cell, palette: seq<Word16>, x: int, y: int, word: int)
    requires CellOk(c) && InCell(c, x, y)
  {
    ClosestWord(palette, Composite(At(c, x, y)), word)
  }

  ghost predicate ClosestWord(palette: seq<Word16>, wanted: Word16, word: int) {
    if palette == [] then word == 0
    else exists i {:trigger Nearest(palette, wanted, i)} :: Nearest(palette, wanted, i) && word == palette[i]
  }

  lemma NearColorIsClosestWord(palette: seq<Word16>, wanted: Word16, color: Rgb565)
    requires NearColor(palette, wanted, color)
    ensures ColorOk(color) && ClosestWord(palette, wanted, ColorWord(color))
  {
    if palette == [] {
      ColorKeepsWord(0);
    } else {
      var i :| Nearest(palette, wanted, i) && color == ColorOf(palette[i]);
      ColorKeepsWord(palette[i]);
    }
  }

  lemma ShownWordFits(c: Cell, palette: seq<Word16>, p: Pixel, fx: int, fy: int, x: int, y: int)
    requires CellOk(c) && InCell(c, x, y) && Shows(c, palette, p, fx, fy, x, y)
    ensures ColorOk(p.color) && Fits(c, palette, x, y, ColorWord(p.color))
  {
    NearColorIsClosestWord(palette, Composite(At(c, x, y)), p.color);
  }

  lemma TouchComposes(c: Cell, palette: seq<Word16>, threshold: int, p: Pixel, fx: int, fy: int, before: int)
    requires CellOk(c) && Right(c, palette, threshold, p, fx, fy)
    ensures ColorOk(p.color)
    ensures Composed(c, palette, threshold, fx, fy, p.x, p.y, before, ColorWord(p.color))
  {
    ShownWordFits(c, palette, p, fx, fy, p.x - fx, p.y - fy);
  }

  lemma NoTouchComposes(c: Cell, palette: seq<Word16>, threshold: int, pixels: seq<Pixel>, fx: int, fy: int,
                        x: int, y: int, before: int)
    requires CellOk(c) && AllOfTheCell(c, threshold, pixels, fx, fy)
    requires LastAt(pixels, x, y) == None
    ensures Composed(c, palette, threshold, fx, fy, x, y, before, before)
  {
    if Seen(c, threshold, x - fx, y - fy) {
      assert Touched(pixels, fx + (x - fx), fy + (y - fy));
      var k :| 0 <= k < |pixels| && pixels[k].x == x && pixels[k].y == y;
      NoColorMeansUntouched(pixels, x, y, k);
    }
  }

  /** Drawing a converted cell leaves in the framebuffer exactly the cell, clipped to the panel. */
  lemma CellIsDrawn(c: Cell, palette: seq<Word16>, threshold: int, s: Sprite, fx: int, fy: int, fb: seq<Byte>,
                    x: int, y: int)
    requires CellOk(c) && IsSpriteOf(c, palette, threshold, s)
    requires |fb| == FB_LEN && OnPanel(x, y)
    ensures Composed(c, palette, threshold, fx, fy, x, y,
                     FbWord(fb, x, y), FbWord(Drawn(fb, Blit(s, palette, fx, fy)), x, y))
  {
    var pixels := Blit(s, palette, fx, fy);
    BlitIsTheCell(c, palette, threshold, s, fx, fy);
    DrawnPixel(fb, pixels, x, y);
    if LastAt(pixels, x, y).Some? {
      var i := LastAtIsTouched(pixels, x, y);
      assert Right(c, palette, threshold, pixels[i], fx, fy);
      TouchComposes(c, palette, threshold, pixels[i], fx, fy, FbWord(fb, x, y));
    } else {
      NoTouchComposes(c, palette, threshold, pixels, fx, fy, x, y, FbWord(fb, x, y));
    }
  }

  /** The framebuffer coordinates behind panel pixel (px, py). */
  function FbPosition(m: Remap, px: int, py: int): (int, int) {
    (FbIndex(m, px, py) % WIDTH, FbIndex(m, px, py) / WIDTH)
  }

  /** Where framebuffer pixel (x, y) goes in an orientation: its column and row, exchanged if the RAM is filled
      downwards first, then counted from the right if mirrored and from the bottom if flipped. */
  lemma WhereThePixelsGo(o: Orientation, x: int, y: int)
    requires OnPanel(x, y)
    ensures var (col, row) := if o.verticalIncrement then (y, x) else (x, y);
            var px, py := if o.mirrorH then 127 - col else col, if o.flipV then 127 - row else row;
            OnPanel(px, py) && FbPosition(RemapOf(o), px, py) == (x, y)
  {
    var (col, row) := if o.verticalIncrement then (y, x) else (x, y);
    var px, py := if o.mirrorH then 127 - col else col, if o.flipV then 127 - row else row;
    RowMajorDivMod(y, x, 128);
    assert FbIndex(RemapOf(o), px, py) == y * 128 + x;
  }

  /** Panel pixel (px, py) shows framebuffer word `word`. */
  ghost predicate ShowsWord(shown: seq<Byte>, bgr: bool, px: int, py: int, word: int)
    requires OnPanel(px, py)
  {
    && |shown| == RGBA_BYTES && 0 <= word < 65536
    && Lights(bgr, PixelAt(shown, px, py), word / 256, word % 256)
  }

  lemma FrameOnScreen(fb: seq<Byte>, o: Orientation, earlier: seq<seq<Byte>>, ds: seq<Delivery>, px: int, py: int)
    requires |fb| == FB_LEN && forall f <- earlier :: |f| == FB_LEN
    requires AllLegal(Reset(), ds) && OnTheWire(ds) == InitBytes(o) + FramesBytes(earlier) + FlushBytes(fb)
    requires OnPanel(px, py)
    ensures |Deliver(Reset(), ds).shown| == RGBA_BYTES && Showing(Deliver(Reset(), ds).shown, RemapOf(o), fb, px, py)
  {
    ScreenShowsLastFrame(o, earlier, fb, ds);
  }

  lemma ShowingWord(shown: seq<Byte>, m: Remap, fb: seq<Byte>, px: int, py: int, x: int, y: int)
    requires |shown| == RGBA_BYTES && |fb| == FB_LEN && OnPanel(px, py)
    requires Showing(shown, m, fb, px, py) && (x, y) == FbPosition(m, px, py)
    ensures OnPanel(x, y) && ShowsWord(shown, m.bgr, px, py, FbWord(fb, x, y))
  {
    PositionOfIndex(m, px, py);
    WordOfBytes(fb, x, y);
    ShadeLights(m.bgr, FbWord(fb, x, y) / 256, FbWord(fb, x, y) % 256);
  }

  lemma PositionOfIndex(m: Remap, px: int, py: int)
    requires OnPanel(px, py)
    ensures var (x, y) := FbPosition(m, px, py);
            OnPanel(x, y) && FbOffset(x, y) == 2 * FbIndex(m, px, py)
  {
    PanelAndFramebufferMatchUp(m, px, py, 0);
  }

  lemma WordOfBytes(fb: seq<Byte>, x: int, y: int)
    requires |fb| == FB_LEN && OnPanel(x, y)
    ensures 0 <= FbWord(fb, x, y) < 65536
    ensures FbWord(fb, x, y) / 256 == fb[FbOffset(x, y)]
    ensures FbWord(fb, x, y) % 256 == fb[FbOffset(x, y) + 1]
  {
  }

  /** From sheet to screen. In every orientation, over every background, for every placement, after
      any earlier frames and however the bytes are delivered: panel pixel (px, py) shows the one
      framebuffer pixel its orientation calls for, and that pixel is the cell's nearest palette
      colour where the cell is opaque enough there, and the background elsewhere. */
  lemma SheetToScreen(c: Cell, palette: seq<Word16>, threshold: int, s: Sprite, fx: int, fy: int,
                      background: seq<Byte>, o: Orientation, earlier: seq<seq<Byte>>, ds: seq<Delivery>,
                      px: int, py: int)
    requires CellOk(c) && IsSpriteOf(c, palette, threshold, s)
    requires |background| == FB_LEN
    requires forall f <- earlier :: |f| == FB_LEN
    requires AllLegal(Reset(), ds)
    requires var drawn := Drawn(background, Blit(s, palette, fx, fy));
             OnTheWire(ds) == InitBytes(o) + FramesBytes(earlier) + FlushBytes(drawn)
    requires OnPanel(px, py)
    ensures var (x, y) := FbPosition(RemapOf(o), px, py);
            && OnPanel(x, y)
            && exists word ::
                 && Composed(c, palette, threshold, fx, fy, x, y, FbWord(background, x, y), word)
                 && ShowsWord(Deliver(Reset(), ds).shown, o.bgr, px, py, word)
  {
    var fb := Drawn(background, Blit(s, palette, fx, fy));
    var (x, y) := FbPosition(RemapOf(o), px, py);
    FrameOnScreen(fb, o, earlier, ds, px, py);
    ShowingWord(Deliver(Reset(), ds).shown, RemapOf(o), fb, px, py, x, y);
    CellIsDrawn(c, palette, threshold, s, fx, fy, background, x, y);
  }
}
