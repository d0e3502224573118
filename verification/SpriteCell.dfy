/** From a cell of the source sheet to pixels on the device: bounding box, palette, run-length code
    (`_encode_sprite` and `_nearest_palette_index` in host/tools/convert_sprite_sheet.py), then the
    decoder's coordinates and colours (device/src/render.rs 345-416). */
module SpriteCell {
  import opened Common
  import opened SpriteCodec
  import D = Driver
  import P = Panel

  datatype Rgba = Rgba(r: Byte, g: Byte, b: Byte, a: Byte)

  datatype Image = Image(width: nat, height: nat, pixels: seq<Rgba>)

  /** One cell of a sheet: `w` by `h` pixels whose top left corner is (left, top). */
  datatype Cell = Cell(image: Image, left: nat, top: nat, w: nat, h: nat)

  /** The converter refuses a longer palette before it encodes anything. */
  const MAX_PALETTE := 128

  type Word16 = x: int | 0 <= x < 65536

  datatype Sprite = Sprite(x: int, y: int, width: int, height: int, data: seq<Byte>)

  ghost predicate CellOk(c: Cell) {
    && |c.image.pixels| == c.image.height * c.image.width
    && c.left + c.w <= c.image.width && c.top + c.h <= c.image.height
  }

  predicate InCell(c: Cell, x: int, y: int) {
    0 <= x < c.w && 0 <= y < c.h
  }

  function At(c: Cell, x: int, y: int): Rgba
    requires CellOk(c) && InCell(c, x, y)
  {
    RowMajorInside(c.top + y, c.left + x, c.image.height, c.image.width);
    c.image.pixels[(c.top + y) * c.image.width + (c.left + x)]
  }

  predicate Seen(c: Cell, threshold: int, x: int, y: int)
    requires CellOk(c)
  {
    InCell(c, x, y) && At(c, x, y).a >= threshold
  }

  // ------------------------------------------------ colours

  function Blend(channel: Byte, alpha: Byte): (v: Byte)
  {
    var p: int := channel as int * alpha as int;
    assert p <= 255 * 255;
    (p + 127) / 255
  }

  /** `_composite_to_rgb565`: the pixel over black, in 5/6/5 bits. */
  function Composite(p: Rgba): Word16 {
    (Blend(p.r, p.a) / 8) * 2048 + (Blend(p.g, p.a) / 4) * 32 + Blend(p.b, p.a) / 8
  }

  /** Channel bits that are the channel over black, c * a / 255 rounded to the nearest, cut to steps of
      `step`. */
  predicate OverBlack(bits: int, step: int, c: Byte, a: Byte) {
    bits * step * 255 <= c * a + 127 < (bits + 1) * step * 255
  }

  lemma CutDown(channel: Byte, alpha: Byte, step: int)
    requires step > 0
    ensures OverBlack(Blend(channel, alpha) / step, step, channel, alpha)
  {
    var v, p: int := Blend(channel, alpha), channel as int * alpha as int + 127;
    assert v * 255 <= p < (v + 1) * 255;
    assert v / step * step <= v < (v / step + 1) * step;
  }

  lemma OpaqueOrClear(channel: Byte, alpha: Byte)
    ensures alpha == 255 ==> Blend(channel, alpha) == channel
    ensures alpha == 0 ==> Blend(channel, alpha) == 0
  {
  }

  lemma FiveSixFive(r: int, g: int, b: int)
    requires 0 <= r < 32 && 0 <= g < 64 && 0 <= b < 32
    ensures var w := r * 2048 + g * 32 + b;
            w / 2048 == r && w / 32 % 64 == g && w % 32 == b
  {
  }

  /** The word of a pixel holds its three channels over black, in five, six and five bits. An opaque pixel
      keeps the top bits of its channels, and a clear one is black. */
  lemma CompositeIsOverBlack(p: Rgba)
    ensures var w := Composite(p);
            && OverBlack(w / 2048, 8, p.r, p.a) && OverBlack(w / 32 % 64, 4, p.g, p.a) && OverBlack(w % 32, 8, p.b, p.a)
            && (p.a == 255 ==> w / 2048 == p.r / 8 && w / 32 % 64 == p.g / 4 && w % 32 == p.b / 8)
            && (p.a == 0 ==> w == 0)
  {
    CutDown(p.r, p.a, 8);
    CutDown(p.g, p.a, 4);
    CutDown(p.b, p.a, 8);
    var r: int, g: int, b: int := Blend(p.r, p.a), Blend(p.g, p.a), Blend(p.b, p.a);
    FiveSixFive(r / 8, g / 4, b / 8);
    assert Composite(p) == (r / 8) * 2048 + (g / 4) * 32 + b / 8;
    OpaqueOrClear(p.r, p.a);
    OpaqueOrClear(p.g, p.a);
    OpaqueOrClear(p.b, p.a);
  }

  function Distance(a: Word16, b: Word16): int {
    var dr, dg, db := P.Red(a) - P.Red(b), P.Green(a) - P.Green(b), P.Blue(a) - P.Blue(b);
    dr * dr * 4 + dg * dg * 2 + db * db * 4
  }

  /** Twice the squares of all three channel differences, and twice those of red and blue once more. */
  lemma DistanceWeights(v: Word16, w: Word16)
    ensures var r, g, b := P.Red(v) - P.Red(w), P.Green(v) - P.Green(w), P.Blue(v) - P.Blue(w);
            Distance(v, w) == 2 * (r * r + g * g + b * b) + 2 * (r * r + b * b)
  {
    Weighted(P.Red(v) - P.Red(w), P.Green(v) - P.Green(w), P.Blue(v) - P.Blue(w));
  }

  lemma Weighted(r: int, g: int, b: int)
    ensures r * r * 4 + g * g * 2 + b * b * 4 == 2 * (r * r + g * g + b * b) + 2 * (r * r + b * b)
  {
  }

  lemma DistanceBounded(a: Word16, b: Word16)
    ensures 0 <= Distance(a, b) < 0x1000_0000_0000_0000
  {
    ChannelsBounded(a);
    ChannelsBounded(b);
    WeightedBounded(P.Red(a) - P.Red(b), P.Green(a) - P.Green(b), P.Blue(a) - P.Blue(b));
  }

  lemma ChannelsBounded(word: Word16)
    ensures 0 <= P.Red(word) < 64 && 0 <= P.Green(word) < 64 && 0 <= P.Blue(word) < 64
  {
  }

  lemma WeightedBounded(dr: int, dg: int, db: int)
    requires -64 <= dr <= 64 && -64 <= dg <= 64 && -64 <= db <= 64
    ensures 0 <= dr * dr * 4 + dg * dg * 2 + db * db * 4 <= 40960
  {
    SquareBounded(dr);
    SquareBounded(dg);
    SquareBounded(db);
  }

  lemma SquareBounded(d: int)
    requires -64 <= d <= 64
    ensures 0 <= d * d <= 4096
  {
    assert d >= 0 ==> d * d <= 64 * d;
    assert d <= 0 ==> d * d == (-d) * (-d) <= 64 * (-d);
  }

  /** The first palette entry at the least distance. */
  ghost predicate Nearest(palette: seq<Word16>, word: Word16, i: int) {
    && 0 <= i < |palette|
    && (forall j :: 0 <= j < |palette| ==> Distance(word, palette[i]) <= Distance(word, palette[j]))
    && (forall j :: 0 <= j < i ==> Distance(word, palette[i]) < Distance(word, palette[j]))
  }

  /** The index that stands for a colour: the nearest entry, or 0 if the palette has none. */
  ghost predicate Picked(palette: seq<Word16>, word: Word16, i: int) {
    if palette == [] then i == 0 else Nearest(palette, word, i)
  }

  method NearestPaletteIndex(word: Word16, palette: seq<Word16>) returns (best: nat)
    ensures Picked(palette, word, best)
  {
    best := 0;
    var bestDistance := 0x1000_0000_0000_0000;
    for i := 0 to |palette|
      invariant i == 0 ==> best == 0 && bestDistance == 0x1000_0000_0000_0000
      invariant i > 0 ==> best < i && bestDistance == Distance(word, palette[best])
      invariant forall j :: 0 <= j < i ==> bestDistance <= Distance(word, palette[j])
      invariant forall j :: 0 <= j < best ==> bestDistance < Distance(word, palette[j])
    {
      DistanceBounded(word, palette[i]);
      var distance := Distance(word, palette[i]);
      if distance < bestDistance {
        bestDistance := distance;
        best := i;
      }
    }
  }

  // ------------------------------------------------ the bounding box

  datatype Box = Box(minX: int, minY: int, maxX: int, maxY: int)

  predicate InBox(b: Box, x: int, y: int) {
    b.minX <= x <= b.maxX && b.minY <= y <= b.maxY
  }

  /** The smallest box around all seen pixels: each side touches one. */
  ghost predicate Tight(c: Cell, threshold: int, b: Box)
    requires CellOk(c)
  {
    && (forall x, y :: Seen(c, threshold, x, y) ==> InBox(b, x, y))
    && (exists y :: Seen(c, threshold, b.minX, y))
    && (exists y :: Seen(c, threshold, b.maxX, y))
    && (exists x :: Seen(c, threshold, x, b.minY))
    && (exists x :: Seen(c, threshold, x, b.maxY))
  }

  /** The pixels the scan has passed when it is about to look at (x, y). */
  predicate Passed(x: int, y: int, x': int, y': int) {
    y' < y || (y' == y && x' < x)
  }

  /** The box so far is tight around the seen pixels passed, or is the empty start. */
  ghost predicate TightSoFar(c: Cell, threshold: int, b: Box, x: int, y: int)
    requires CellOk(c)
  {
    && (forall x', y' :: Passed(x, y, x', y') && Seen(c, threshold, x', y') ==> InBox(b, x', y'))
    && (b == Box(c.w, c.h, -1, -1)
        || (&& (exists y' :: Seen(c, threshold, b.minX, y'))
            && (exists y' :: Seen(c, threshold, b.maxX, y'))
            && (exists x' :: Seen(c, threshold, x', b.minY))
            && (exists x' :: Seen(c, threshold, x', b.maxY))))
  }

  function Grown(b: Box, x: int, y: int): Box {
    Box(Min(b.minX, x), Min(b.minY, y), Max(b.maxX, x), Max(b.maxY, y))
  }

  lemma GrowTight(c: Cell, threshold: int, b: Box, x: int, y: int)
    requires CellOk(c) && InCell(c, x, y) && TightSoFar(c, threshold, b, x, y)
    ensures TightSoFar(c, threshold, if Seen(c, threshold, x, y) then Grown(b, x, y) else b, x + 1, y)
  {
  }

  method FindBox(c: Cell, threshold: int) returns (b: Box)
    requires CellOk(c)
    ensures TightSoFar(c, threshold, b, 0, c.h)
  {
    b := Box(c.w, c.h, -1, -1);
    for y := 0 to c.h
      invariant TightSoFar(c, threshold, b, 0, y)
    {
      for x := 0 to c.w
        invariant TightSoFar(c, threshold, b, x, y)
      {
        GrowTight(c, threshold, b, x, y);
        if At(c, x, y).a >= threshold {
          b := Grown(b, x, y);
        }
      }
      assert forall x', y' :: Passed(0, y + 1, x', y') && Seen(c, threshold, x', y') ==> Passed(c.w, y, x', y');
    }
  }

  // ------------------------------------------------ the palette indices of the box

  function BoxWidth(b: Box): int { b.maxX - b.minX + 1 }

  function BoxHeight(b: Box): int { b.maxY - b.minY + 1 }

  /** Where (x, y) comes in the row-major list of the box. */
  function Place(b: Box, x: int, y: int): int {
    (y - b.minY) * BoxWidth(b) + (x - b.minX)
  }

  /** What the list must hold for (x, y). */
  ghost predicate Stands(c: Cell, palette: seq<Word16>, threshold: int, x: int, y: int, idx: Index)
    requires CellOk(c) && InCell(c, x, y)
  {
    match idx
    case None => !Seen(c, threshold, x, y)
    case Some(p) => Seen(c, threshold, x, y) && Picked(palette, Composite(At(c, x, y)), p)
  }

  ghost predicate ListedSoFar(c: Cell, palette: seq<Word16>, threshold: int, b: Box, list: seq<Index>, x: int, y: int)
    requires CellOk(c) && BoxInCell(c, b)
  {
    && |list| == Place(b, x, y)
    && forall x', y' :: InBox(b, x', y') && Passed(x, y, x', y') ==>
         0 <= Place(b, x', y') < |list| && Stands(c, palette, threshold, x', y', list[Place(b, x', y')])
  }

  predicate BoxInCell(c: Cell, b: Box) {
    0 <= b.minX <= b.maxX < c.w && 0 <= b.minY <= b.maxY < c.h
  }

  lemma PlacesDiffer(b: Box, x: int, y: int, x': int, y': int)
    requires InBox(b, x, y) && InBox(b, x', y') && Passed(x, y, x', y')
    ensures 0 <= Place(b, x', y') < Place(b, x, y)
  {
    var n := BoxWidth(b);
    RowMajorInside(y' - b.minY, x' - b.minX, y' - b.minY + 1, n);
    if y' < y {
      Below(y' - b.minY, x' - b.minX, y - b.minY, n);
      NonNegative(y - b.minY, n);
    }
  }

  lemma NonNegative(a: int, n: int)
    requires a >= 0 && n >= 0
    ensures a * n >= 0
  {
  }

  lemma ListOneMore(c: Cell, palette: seq<Word16>, threshold: int, b: Box, list: seq<Index>, x: int, y: int, idx: Index)
    requires CellOk(c) && BoxInCell(c, b) && InBox(b, x, y)
    requires ListedSoFar(c, palette, threshold, b, list, x, y)
    requires Stands(c, palette, threshold, x, y, idx)
    ensures ListedSoFar(c, palette, threshold, b, list + [idx], x + 1, y)
  {
    forall x', y' | InBox(b, x', y') && Passed(x + 1, y, x', y')
      ensures 0 <= Place(b, x', y') < |list + [idx]|
      ensures Stands(c, palette, threshold, x', y', (list + [idx])[Place(b, x', y')])
    {
      if (x', y') != (x, y) {
        PlacesDiffer(b, x, y, x', y');
      } else {
        RowMajorInside(y - b.minY, x - b.minX, y - b.minY + 1, BoxWidth(b));
      }
    }
  }

  lemma NextRow(c: Cell, palette: seq<Word16>, threshold: int, b: Box, list: seq<Index>, y: int)
    requires CellOk(c) && BoxInCell(c, b)
    requires ListedSoFar(c, palette, threshold, b, list, b.maxX + 1, y)
    ensures ListedSoFar(c, palette, threshold, b, list, b.minX, y + 1)
  {
    Distribute(y - b.minY, BoxWidth(b));
  }

  method ListIndices(c: Cell, palette: seq<Word16>, threshold: int, b: Box) returns (list: seq<Index>)
    requires CellOk(c) && BoxInCell(c, b) && |palette| <= MAX_PALETTE
    ensures ListedSoFar(c, palette, threshold, b, list, b.minX, b.maxY + 1)
  {
    list := [];
    for y := b.minY to b.maxY + 1
      invariant ListedSoFar(c, palette, threshold, b, list, b.minX, y)
    {
      for x := b.minX to b.maxX + 1
        invariant ListedSoFar(c, palette, threshold, b, list, x, y)
      {
        var p := At(c, x, y);
        var idx: Index := None;
        if p.a >= threshold {
          var best := NearestPaletteIndex(Composite(p), palette);
          idx := Some(best);
        }
        ListOneMore(c, palette, threshold, b, list, x, y, idx);
        list := list + [idx];
      }
      NextRow(c, palette, threshold, b, list, y);
    }
  }

  // ------------------------------------------------ the sprite

  /** What the generated sprite is, without saying how it was found. */
  ghost predicate IsSpriteOf(c: Cell, palette: seq<Word16>, threshold: int, s: Sprite)
    requires CellOk(c)
  {
    || (s == Sprite(0, 0, 0, 0, []) && forall x, y :: !Seen(c, threshold, x, y))
    || (exists b, list :: Boxed(c, palette, threshold, s, b, list))
  }

  ghost predicate Boxed(c: Cell, palette: seq<Word16>, threshold: int, s: Sprite, b: Box, list: seq<Index>)
    requires CellOk(c)
  {
    && BoxInCell(c, b) && Tight(c, threshold, b)
    && ListedSoFar(c, palette, threshold, b, list, b.minX, b.maxY + 1)
    && s == Sprite(b.minX, b.minY, BoxWidth(b), BoxHeight(b), Encode(list))
  }

  lemma FullScan(c: Cell, threshold: int, b: Box)
    requires CellOk(c) && TightSoFar(c, threshold, b, 0, c.h)
    ensures b.maxX < b.minX || b.maxY < b.minY ==> forall x, y :: !Seen(c, threshold, x, y)
    ensures b.maxX >= b.minX && b.maxY >= b.minY ==> Tight(c, threshold, b) && BoxInCell(c, b)
  {
    forall x, y | Seen(c, threshold, x, y)
      ensures InBox(b, x, y)
    {
      assert Passed(0, c.h, x, y);
    }
  }

  lemma BoxedIsSprite(c: Cell, palette: seq<Word16>, threshold: int, s: Sprite, b: Box, list: seq<Index>)
    requires CellOk(c) && Boxed(c, palette, threshold, s, b, list)
    ensures IsSpriteOf(c, palette, threshold, s)
  {
  }

  /** The sprite of the box around the opaque pixels. */
  method EncodeBox(c: Cell, palette: seq<Word16>, threshold: int, b: Box) returns (s: Sprite, list: seq<Index>)
    requires CellOk(c) && |palette| <= MAX_PALETTE && BoxInCell(c, b)
    ensures ListedSoFar(c, palette, threshold, b, list, b.minX, b.maxY + 1)
    ensures s == Sprite(b.minX, b.minY, BoxWidth(b), BoxHeight(b), Encode(list))
  {
    list := ListIndices(c, palette, threshold, b);
    var data := EncodeRle(list);
    s := Sprite(b.minX, b.minY, b.maxX - b.minX + 1, b.maxY - b.minY + 1, data);
  }

  method EncodeSprite(c: Cell, palette: seq<Word16>, threshold: int) returns (s: Sprite)
    requires CellOk(c) && |palette| <= MAX_PALETTE
    ensures IsSpriteOf(c, palette, threshold, s)
  {
    var b := FindBox(c, threshold);
    FullScan(c, threshold, b);
    if b.maxX < b.minX || b.maxY < b.minY {
      return Sprite(0, 0, 0, 0, []);
    }
    var list;
    s, list := EncodeBox(c, palette, threshold, b);
    BoxedIsSprite(c, palette, threshold, s, b, list);
  }

  // ------------------------------------------------ the pixels the device draws

  /** rgb565_color */
  function ColorOf(word: Word16): (c: D.Rgb565)
    ensures D.ColorOk(c)
  {
    D.Rgb565(P.Red(word), P.Green(word), P.Blue(word))
  }

  lemma ColorKeepsWord(word: Word16)
    ensures D.ColorOk(ColorOf(word)) && D.ColorWord(ColorOf(word)) == word
  {
    assert word / 2048 < 32;
    assert word == word / 32 * 32 + word % 32;
    assert word / 32 == word / 2048 * 64 + word / 32 % 64;
  }

  /** `PALETTE_RGB565.get(i).unwrap_or(0)` */
  function Lookup(palette: seq<Word16>, i: Byte): Word16 {
    if i < |palette| then palette[i] else 0
  }

  /** What SpritePixels yields for one dot, with the sprite placed by (fx, fy). */
  function PixelOfDot(s: Sprite, palette: seq<Word16>, fx: int, fy: int, dot: Dot): D.Pixel
    requires s.width > 0
  {
    D.Pixel(fx + s.x + dot.at % s.width, fy + s.y + dot.at / s.width, ColorOf(Lookup(palette, dot.color)))
  }

  /** Everything blit_sprite draws. */
  function Blit(s: Sprite, palette: seq<Word16>, fx: int, fy: int): (pixels: seq<D.Pixel>)
    requires s.width >= 0
    ensures forall p <- pixels :: D.ColorOk(p.color)
    ensures s.width > 0 ==> |pixels| == |Decode(s.data, s.width * s.height, 0)|
  {
    if s.width == 0 then []
    else
      var dots := Decode(s.data, s.width * s.height, 0);
      seq(|dots|, i requires 0 <= i < |dots| => PixelOfDot(s, palette, fx, fy, dots[i]))
  }

  /** The visible dots of a list are its solid entries at their own places. */
  lemma {:induction false} VisibleAre(list: seq<Index>, at: int, d: Dot)
    ensures d in Visible(list, at) <==> 0 <= d.at - at < |list| && list[d.at - at] == Some(d.color)
    decreases |list|
  {
    if list != [] {
      var head := if list[0].Some? then [Dot(at, list[0].value)] else [];
      var tail := Visible(list[1..], at + 1);
      assert d in head + tail <==> d in head || d in tail;
      VisibleAre(list[1..], at + 1, d);
      if d.at > at && d.at - at < |list| {
        assert list[d.at - at] == list[1..][d.at - (at + 1)];
      }
    }
  }

  lemma DotInList(c: Cell, palette: seq<Word16>, threshold: int, s: Sprite, b: Box, list: seq<Index>, d: Dot)
    requires CellOk(c) && Boxed(c, palette, threshold, s, b, list)
    requires d in Decode(s.data, s.width * s.height, 0)
    ensures 0 <= d.at < |list| == s.width * s.height && list[d.at] == Some(d.color)
  {
    ListSize(c, palette, threshold, b, list);
    DecodeEncode(list);
    VisibleAre(list, 0, d);
  }

  /** Cell pixel (x, y) is opaque enough, and `color` is the index that stands for it. */
  ghost predicate ShownAs(c: Cell, palette: seq<Word16>, threshold: int, x: int, y: int, color: int)
    requires CellOk(c)
  {
    Seen(c, threshold, x, y) && Picked(palette, Composite(At(c, x, y)), color)
  }

  /** An entry of the whole list is an opaque pixel with its colour. */
  lemma EntryShows(c: Cell, palette: seq<Word16>, threshold: int, b: Box, list: seq<Index>, x: int, y: int, color: Byte)
    requires CellOk(c) && BoxInCell(c, b) && InBox(b, x, y)
    requires ListedSoFar(c, palette, threshold, b, list, b.minX, b.maxY + 1)
    requires 0 <= Place(b, x, y) < |list| && list[Place(b, x, y)] == Some(color)
    ensures ShownAs(c, palette, threshold, x, y, color)
  {
    ListedAt(c, palette, threshold, b, list, x, y);
    StandsShows(c, palette, threshold, x, y, color);
  }

  lemma StandsShows(c: Cell, palette: seq<Word16>, threshold: int, x: int, y: int, color: Byte)
    requires CellOk(c) && InCell(c, x, y) && Stands(c, palette, threshold, x, y, Some(color))
    ensures ShownAs(c, palette, threshold, x, y, color)
  {
  }

  /** Index `at` of the list of a box is the place of one of its points. */
  lemma PlaceIsFound(b: Box, at: int)
    requires BoxWidth(b) > 0 && 0 <= at < BoxWidth(b) * BoxHeight(b)
    ensures var x, y := b.minX + at % BoxWidth(b), b.minY + at / BoxWidth(b);
            InBox(b, x, y) && Place(b, x, y) == at
  {
    QuotientInside(at, BoxHeight(b), BoxWidth(b));
  }

  /** The whole list holds for each point of the box what it must. */
  lemma ListedAt(c: Cell, palette: seq<Word16>, threshold: int, b: Box, list: seq<Index>, x: int, y: int)
    requires CellOk(c) && BoxInCell(c, b) && InBox(b, x, y)
    requires ListedSoFar(c, palette, threshold, b, list, b.minX, b.maxY + 1)
    ensures 0 <= Place(b, x, y) < |list| && Stands(c, palette, threshold, x, y, list[Place(b, x, y)])
  {
    assert Passed(b.minX, b.maxY + 1, x, y);
  }

  lemma ListSize(c: Cell, palette: seq<Word16>, threshold: int, b: Box, list: seq<Index>)
    requires CellOk(c) && BoxInCell(c, b)
    requires ListedSoFar(c, palette, threshold, b, list, b.minX, b.maxY + 1)
    ensures |list| == BoxWidth(b) * BoxHeight(b)
  {
  }

  lemma Monotone(a: int, b: int, n: int)
    requires a <= b && n >= 0
    ensures a * n <= b * n
  {
    NonNegative(b - a, n);
    assert (b - a) * n == b * n - a * n;
  }

  lemma QuotientInside(i: int, h: int, n: int)
    requires n > 0 && 0 <= i < n * h
    ensures 0 <= i / n < h && i / n * n + i % n == i
  {
    if i / n >= h {
      Monotone(h, i / n, n);
    }
  }

  lemma SeenHasDot(c: Cell, palette: seq<Word16>, threshold: int, s: Sprite, b: Box, list: seq<Index>, x: int, y: int)
    returns (d: Dot)
    requires CellOk(c) && Boxed(c, palette, threshold, s, b, list) && Seen(c, threshold, x, y)
    ensures d in Decode(s.data, s.width * s.height, 0)
    ensures d.at % s.width == x - b.minX && d.at / s.width == y - b.minY
  {
    ListSize(c, palette, threshold, b, list);
    DecodeEncode(list);
    assert InBox(b, x, y) && Passed(b.minX, b.maxY + 1, x, y);
    var i := Place(b, x, y);
    RowMajorDivMod(y - b.minY, x - b.minX, BoxWidth(b));
    d := Dot(i, list[i].value);
    VisibleAre(list, 0, d);
  }

  // ------------------------------------------------ main results

  /** Row-major order of points. */
  predicate Before(p: D.Pixel, q: D.Pixel) {
    p.y < q.y || (p.y == q.y && p.x < q.x)
  }

  /** A pixel that shows cell pixel (x, y) at its own place, moved by (fx, fy), in the colour of a
      palette entry that is nearest to it. */
  ghost predicate Shows(c: Cell, palette: seq<Word16>, p: D.Pixel, fx: int, fy: int, x: int, y: int)
    requires CellOk(c) && InCell(c, x, y)
  {
    && p.x == fx + x && p.y == fy + y
    && NearColor(palette, Composite(At(c, x, y)), p.color)
  }

  /** The colour of a palette entry nearest to `wanted`, or black if there is no palette. */
  ghost predicate NearColor(palette: seq<Word16>, wanted: Word16, color: D.Rgb565) {
    if palette == [] then color == ColorOf(0)
    else exists i {:trigger Nearest(palette, wanted, i)} :: Nearest(palette, wanted, i) && color == ColorOf(palette[i])
  }

  /** A drawn pixel that comes from a seen pixel of the cell. */
  ghost predicate Right(c: Cell, palette: seq<Word16>, threshold: int, p: D.Pixel, fx: int, fy: int)
    requires CellOk(c)
  {
    Seen(c, threshold, p.x - fx, p.y - fy) && Shows(c, palette, p, fx, fy, p.x - fx, p.y - fy)
  }

  /** A dot of the sprite of a cell, drawn where its place in the box says, is right. */
  lemma DotsOfCell(c: Cell, palette: seq<Word16>, threshold: int, b: Box, list: seq<Index>, fx: int, fy: int,
                   color: Byte, p: D.Pixel)
    requires CellOk(c) && BoxInCell(c, b) && InBox(b, p.x - fx, p.y - fy)
    requires ListedSoFar(c, palette, threshold, b, list, b.minX, b.maxY + 1)
    requires 0 <= Place(b, p.x - fx, p.y - fy) < |list| && list[Place(b, p.x - fx, p.y - fy)] == Some(color)
    requires p.color == ColorOf(Lookup(palette, color))
    ensures Right(c, palette, threshold, p, fx, fy)
  {
    EntryShows(c, palette, threshold, b, list, p.x - fx, p.y - fy, color);
    ShownIsRight(c, palette, threshold, p, fx, fy, color);
  }

  lemma DotIsRight(c: Cell, palette: seq<Word16>, threshold: int, s: Sprite, b: Box, list: seq<Index>, fx: int, fy: int,
                   d: Dot)
    requires CellOk(c) && BoxInCell(c, b)
    requires ListedSoFar(c, palette, threshold, b, list, b.minX, b.maxY + 1)
    requires s.x == b.minX && s.y == b.minY && s.width == BoxWidth(b)
    requires 0 <= d.at < |list| == BoxWidth(b) * BoxHeight(b) && list[d.at] == Some(d.color)
    ensures Right(c, palette, threshold, PixelOfDot(s, palette, fx, fy, d), fx, fy)
  {
    PixelPlace(s, b, palette, fx, fy, d);
    DotsOfCell(c, palette, threshold, b, list, fx, fy, d.color, PixelOfDot(s, palette, fx, fy, d));
  }

  lemma PixelPlace(s: Sprite, b: Box, palette: seq<Word16>, fx: int, fy: int, d: Dot)
    requires s.x == b.minX && s.y == b.minY && s.width == BoxWidth(b) > 0 && 0 <= d.at < BoxWidth(b) * BoxHeight(b)
    ensures var p := PixelOfDot(s, palette, fx, fy, d);
            InBox(b, p.x - fx, p.y - fy) && Place(b, p.x - fx, p.y - fy) == d.at
  {
    PlaceIsFound(b, d.at);
  }

  lemma ShownIsRight(c: Cell, palette: seq<Word16>, threshold: int, p: D.Pixel, fx: int, fy: int, color: Byte)
    requires CellOk(c) && ShownAs(c, palette, threshold, p.x - fx, p.y - fy, color)
    requires p.color == ColorOf(Lookup(palette, color))
    ensures Right(c, palette, threshold, p, fx, fy)
  {
    PickedIsNear(palette, Composite(At(c, p.x - fx, p.y - fy)), color);
  }

  lemma PickedIsNear(palette: seq<Word16>, wanted: Word16, color: Byte)
    requires Picked(palette, wanted, color)
    ensures NearColor(palette, wanted, ColorOf(Lookup(palette, color)))
  {
  }

  /** Every pixel drawn is a seen pixel of the cell, where it belongs and in its colour. */
  ghost predicate OnlyTheCell(c: Cell, palette: seq<Word16>, threshold: int, pixels: seq<D.Pixel>, fx: int, fy: int)
    requires CellOk(c)
  {
    forall p <- pixels :: Right(c, palette, threshold, p, fx, fy)
  }

  /** Every seen pixel of the cell is drawn. */
  ghost predicate AllOfTheCell(c: Cell, threshold: int, pixels: seq<D.Pixel>, fx: int, fy: int)
    requires CellOk(c)
  {
    forall x, y :: Seen(c, threshold, x, y) ==> Touched(pixels, fx + x, fy + y)
  }

  ghost predicate Touched(pixels: seq<D.Pixel>, x: int, y: int) {
    exists i :: 0 <= i < |pixels| && pixels[i].x == x && pixels[i].y == y
  }

  ghost predicate InOrder(pixels: seq<D.Pixel>) {
    forall i, j :: 0 <= i < j < |pixels| ==> Before(pixels[i], pixels[j])
  }

  /** Converting a cell and drawing the sprite puts every seen pixel on the device, nothing else,
      and no point twice: the pixels come in strict row-major order. */
  lemma BlitIsTheCell(c: Cell, palette: seq<Word16>, threshold: int, s: Sprite, fx: int, fy: int)
    requires CellOk(c) && IsSpriteOf(c, palette, threshold, s)
    ensures OnlyTheCell(c, palette, threshold, Blit(s, palette, fx, fy), fx, fy)
    ensures AllOfTheCell(c, threshold, Blit(s, palette, fx, fy), fx, fy)
    ensures InOrder(Blit(s, palette, fx, fy))
  {
    if s != Sprite(0, 0, 0, 0, []) {
      var b, list :| Boxed(c, palette, threshold, s, b, list);
      NothingElse(c, palette, threshold, s, b, list, fx, fy);
      NothingMissing(c, palette, threshold, s, b, list, fx, fy);
      BlitInOrder(s, palette, fx, fy);
    }
  }

  lemma NothingElse(c: Cell, palette: seq<Word16>, threshold: int, s: Sprite, b: Box, list: seq<Index>,
                    fx: int, fy: int)
    requires CellOk(c) && Boxed(c, palette, threshold, s, b, list)
    ensures OnlyTheCell(c, palette, threshold, Blit(s, palette, fx, fy), fx, fy)
  {
    var dots, pixels := Decode(s.data, s.width * s.height, 0), Blit(s, palette, fx, fy);
    forall p | p in pixels
      ensures Right(c, palette, threshold, p, fx, fy)
    {
      var i :| 0 <= i < |pixels| && pixels[i] == p;
      DotInList(c, palette, threshold, s, b, list, dots[i]);
      DotIsRight(c, palette, threshold, s, b, list, fx, fy, dots[i]);
    }
  }

  lemma NothingMissing(c: Cell, palette: seq<Word16>, threshold: int, s: Sprite, b: Box, list: seq<Index>,
                       fx: int, fy: int)
    requires CellOk(c) && Boxed(c, palette, threshold, s, b, list)
    ensures AllOfTheCell(c, threshold, Blit(s, palette, fx, fy), fx, fy)
  {
    var dots, pixels := Decode(s.data, s.width * s.height, 0), Blit(s, palette, fx, fy);
    forall x, y | Seen(c, threshold, x, y)
      ensures Touched(pixels, fx + x, fy + y)
    {
      var d := SeenHasDot(c, palette, threshold, s, b, list, x, y);
      var i :| 0 <= i < |dots| && dots[i] == d;
      assert pixels[i].x == fx + x && pixels[i].y == fy + y;
    }
  }

  /** For any sprite at all, well made or not, the points drawn come in strict row-major order. */
  lemma BlitInOrder(s: Sprite, palette: seq<Word16>, fx: int, fy: int)
    requires s.width >= 0
    ensures InOrder(Blit(s, palette, fx, fy))
  {
    if s.width > 0 {
      var dots, pixels := Decode(s.data, s.width * s.height, 0), Blit(s, palette, fx, fy);
      AnyDataAscends(s.data, s.width * s.height, 0);
      forall i, j | 0 <= i < j < |pixels|
        ensures Before(pixels[i], pixels[j])
      {
        PlacesAscend(dots[i].at, dots[j].at, s.width);
      }
    }
  }

  lemma PlacesAscend(i: int, j: int, n: int)
    requires n > 0 && 0 <= i < j
    ensures i / n < j / n || (i / n == j / n && i % n < j % n)
  {
    if i / n > j / n {
      Below(j / n, j % n, i / n, n);
    }
  }
}
