/** The PNG reader and writer of host/tools/convert_sprite_sheet.py: chunk layout as in section 3 and
    filters as in section 6 of RFC 2083. The checksum and the two directions of the compression are
    parameters. */
module Png {
  import opened Common

  type Bytes = seq<Byte>

  // ------------------------------------------------ filters

  function Abs(x: int): (r: int)
    ensures r >= 0 && (r == x || r == -x)
  {
    if x < 0 then -x else x
  }

  function Paeth(left: Byte, up: Byte, upperLeft: Byte): Byte {
    var estimate := left + up - upperLeft;
    var leftDist, upDist, upperLeftDist := Abs(estimate - left), Abs(estimate - up), Abs(estimate - upperLeft);
    if leftDist <= upDist && leftDist <= upperLeftDist then left
    else if upDist <= upperLeftDist then up
    else upperLeft
  }

  /** The neighbour nearest to left + up - upperLeft, ties going to left, then up. */
  lemma PaethIsNearest(left: Byte, up: Byte, upperLeft: Byte)
    ensures var p, e := Paeth(left, up, upperLeft), left + up - upperLeft;
            && (p == left || p == up || p == upperLeft)
            && Abs(e - p) <= Abs(e - left) && Abs(e - p) <= Abs(e - up) && Abs(e - p) <= Abs(e - upperLeft)
            && (Abs(e - left) == Abs(e - p) ==> p == left)
            && (Abs(e - left) > Abs(e - p) && Abs(e - up) == Abs(e - p) ==> p == up)
  {
  }

  /** The neighbour nearest to left + up - upperLeft, left before up before upper left. */
  predicate NearestNeighbour(p: Byte, left: Byte, up: Byte, upperLeft: Byte) {
    var e := left + up - upperLeft;
    && p in {left, up, upperLeft}
    && (forall q <- [left, up, upperLeft] :: Abs(e - p) <= Abs(e - q))
    && (Abs(e - left) == Abs(e - p) ==> p == left)
    && (Abs(e - left) > Abs(e - p) && Abs(e - up) == Abs(e - p) ==> p == up)
  }

  /** What a byte comes back as, from the encoded byte x and its three neighbours (section 6 of RFC 2083). */
  predicate ComesBack(kind: Byte, x: Byte, left: Byte, up: Byte, upperLeft: Byte, out: Byte) {
    match kind
    case 0 => out == x
    case 1 => out == (x + left) % 256
    case 2 => out == (x + up) % 256
    case 3 => 2 * ((out - x) % 256) <= left + up <= 2 * ((out - x) % 256) + 1
    case 4 => NearestNeighbour((out - x) % 256, left, up, upperLeft)
    case _ => false
  }

  /** Byte i of a row is the scan line's byte brought back, next to the row above. */
  predicate ByteComesBack(kind: Byte, scanline: Bytes, prev: Bytes, bpp: nat, row: Bytes, i: nat)
    requires i < |row| && |prev| == |scanline| == |row|
  {
    if i < bpp then ComesBack(kind, scanline[i], 0, prev[i], 0, row[i])
    else ComesBack(kind, scanline[i], row[i - bpp], prev[i], prev[i - bpp], row[i])
  }

  /** A row that is the scan line brought back. */
  ghost predicate RowComesBack(kind: Byte, scanline: Bytes, prev: Bytes, bpp: nat, row: Bytes)
    requires |prev| == |scanline| == |row|
  {
    forall i :: 0 <= i < |row| ==> ByteComesBack(kind, scanline, prev, bpp, row, i)
  }

  /** What filter `kind` expects from the three neighbours. */
  function Predicted(kind: Byte, left: Byte, up: Byte, upperLeft: Byte): Byte {
    if kind == 1 then left
    else if kind == 2 then up
    else if kind == 3 then (left + up) / 2
    else if kind == 4 then Paeth(left, up, upperLeft)
    else 0
  }

  /** The byte bpp places back, or 0 before the row. */
  function Back(row: Bytes, i: nat, bpp: nat): Byte
    requires i < |row| || (bpp > 0 && i <= |row|)
  {
    if i >= bpp then row[i - bpp] else 0
  }

  /** The prediction for byte i of a row, from the bytes before it. */
  function PredictedAt(kind: Byte, row: Bytes, prev: Bytes, bpp: nat, i: nat): Byte
    requires bpp > 0 && i <= |row| && i < |prev|
  {
    Predicted(kind, Back(row, i, bpp), prev[i], Back(prev, i, bpp))
  }

  /** The encoder's filter. */
  function Filtered(kind: Byte, row: Bytes, prev: Bytes, bpp: nat): (f: Bytes)
    requires bpp > 0 && |prev| == |row|
    ensures |f| == |row|
  {
    seq(|row|, i requires 0 <= i < |row| => (row[i] - PredictedAt(kind, row, prev, bpp, i)) % 256)
  }

  /** The first n bytes of a row brought back. */
  function Unfiltered(kind: Byte, scanline: Bytes, prev: Bytes, bpp: nat, n: nat): (row: Bytes)
    requires bpp > 0 && |prev| == |scanline| && n <= |scanline|
    ensures |row| == n
  {
    if n == 0 then []
    else
      var row := Unfiltered(kind, scanline, prev, bpp, n - 1);
      row + [(scanline[n - 1] + PredictedAt(kind, row, prev, bpp, n - 1)) % 256]
  }

  /** The branches of the reader's inner loop. */
  method Reconstruct(kind: Byte, encoded: int, left: Byte, up: Byte, upperLeft: Byte) returns (value: Option<int>)
    ensures value == if kind <= 4 then Some(encoded + Predicted(kind, left, up, upperLeft)) else None
  {
    var l: int, u: int := left, up;
    if kind == 0 {
      value := Some(encoded);
    } else if kind == 1 {
      value := Some(encoded + l);
    } else if kind == 2 {
      value := Some(encoded + u);
    } else if kind == 3 {
      value := Some(encoded + (l + u) / 2);
    } else if kind == 4 {
      value := Some(encoded + Paeth(left, up, upperLeft));
    } else {
      value := None;
    }
  }

  method UnfilterScanline(kind: Byte, scanline: Bytes, prev: Bytes, bpp: nat) returns (row: Option<Bytes>)
    requires bpp > 0 && |prev| == |scanline|
    ensures row == if kind <= 4 || scanline == [] then Some(Unfiltered(kind, scanline, prev, bpp, |scanline|)) else None
    ensures row.Some? ==> |row.value| == |scanline| && RowComesBack(kind, scanline, prev, bpp, row.value)
  {
    var out := new Byte[|scanline|];
    for i := 0 to |scanline|
      invariant i > 0 ==> kind <= 4
      invariant out[..i] == Unfiltered(kind, scanline, prev, bpp, i)
    {
      var left := if i >= bpp then out[i - bpp] else 0;
      var upperLeft := if i >= bpp then prev[i - bpp] else 0;
      assert left == Back(out[..i], i, bpp);
      var value := Reconstruct(kind, scanline[i], left, prev[i], upperLeft);
      if value == None {
        return None;
      }
      ghost var before := out[..i];
      out[i] := value.value % 256;
      assert out[..i] == before && out[..i + 1] == before + [out[i]];
    }
    assert out[..] == out[..|scanline|];
    UnfilteredComesBack(kind, scanline, prev, bpp);
    row := Some(out[..]);
  }

  lemma {:induction false} UnfilteredGrows(kind: Byte, scanline: Bytes, prev: Bytes, bpp: nat, n: nat, m: nat)
    requires bpp > 0 && |prev| == |scanline| && n <= m <= |scanline|
    ensures Unfiltered(kind, scanline, prev, bpp, m)[..n] == Unfiltered(kind, scanline, prev, bpp, n)
  {
    if n < m {
      UnfilteredGrows(kind, scanline, prev, bpp, n, m - 1);
    }
  }

  /** Only the bytes in front of i count for the prediction. */
  lemma PredictionLooksBack(kind: Byte, row: Bytes, prev: Bytes, bpp: nat, i: nat)
    requires bpp > 0 && i <= |row| && i < |prev|
    ensures PredictedAt(kind, row, prev, bpp, i) == PredictedAt(kind, row[..i], prev, bpp, i)
  {
  }

  lemma PredictedComesBack(kind: Byte, x: Byte, left: Byte, up: Byte, upperLeft: Byte)
    requires kind <= 4
    ensures ComesBack(kind, x, left, up, upperLeft, (x + Predicted(kind, left, up, upperLeft)) % 256)
  {
    ByteBack(x, Predicted(kind, left, up, upperLeft));
    if kind == 3 {
      HalfOfSum(left, up);
    } else if kind == 4 {
      PaethIsNearest(left, up, upperLeft);
      assert NearestNeighbour(Paeth(left, up, upperLeft), left, up, upperLeft);
    }
  }

  lemma HalfOfSum(left: Byte, up: Byte)
    ensures var m: int := (left + up) / 2; 2 * m <= left + up <= 2 * m + 1
  {
  }

  lemma UnfilteredByte(kind: Byte, scanline: Bytes, prev: Bytes, bpp: nat, i: nat)
    requires bpp > 0 && |prev| == |scanline| && kind <= 4 && i < |scanline|
    ensures ByteComesBack(kind, scanline, prev, bpp, Unfiltered(kind, scanline, prev, bpp, |scanline|), i)
  {
    var row := Unfiltered(kind, scanline, prev, bpp, |scanline|);
    UnfilteredGrows(kind, scanline, prev, bpp, i, |scanline|);
    UnfilteredGrows(kind, scanline, prev, bpp, i + 1, |scanline|);
    assert row[i] == row[..i + 1][i];
    PredictionLooksBack(kind, row, prev, bpp, i);
    PredictedComesBack(kind, scanline[i], Back(row, i, bpp), prev[i], Back(prev, i, bpp));
  }

  /** Unfiltering brings each byte back from its own encoded byte and the bytes next to it. */
  lemma UnfilteredComesBack(kind: Byte, scanline: Bytes, prev: Bytes, bpp: nat)
    requires bpp > 0 && |prev| == |scanline| && (kind <= 4 || scanline == [])
    ensures RowComesBack(kind, scanline, prev, bpp, Unfiltered(kind, scanline, prev, bpp, |scanline|))
  {
    var row := Unfiltered(kind, scanline, prev, bpp, |scanline|);
    forall i | 0 <= i < |row|
      ensures ByteComesBack(kind, scanline, prev, bpp, row, i)
    {
      UnfilteredByte(kind, scanline, prev, bpp, i);
    }
  }

  lemma ByteBack(a: Byte, p: Byte)
    ensures ((a - p) % 256 + p) % 256 == a && ((a + p) % 256 - p) % 256 == a && ((a + p) % 256 - a) % 256 == p
  {
  }

  /** Unfiltering undoes the filter, whatever its kind. */
  lemma {:induction false} UnfilterFilter(kind: Byte, row: Bytes, prev: Bytes, bpp: nat, n: nat)
    requires bpp > 0 && |prev| == |row| && n <= |row|
    ensures Unfiltered(kind, Filtered(kind, row, prev, bpp), prev, bpp, n) == row[..n]
  {
    if n > 0 {
      UnfilterFilter(kind, row, prev, bpp, n - 1);
      PredictionLooksBack(kind, row, prev, bpp, n - 1);
      ByteBack(row[n - 1], PredictedAt(kind, row, prev, bpp, n - 1));
      assert row[..n] == row[..n - 1] + [row[n - 1]];
    }
  }

  /** And filtering what was unfiltered gives the scan line again. */
  lemma FilterUnfilter(kind: Byte, scanline: Bytes, prev: Bytes, bpp: nat)
    requires bpp > 0 && |prev| == |scanline|
    ensures Filtered(kind, Unfiltered(kind, scanline, prev, bpp, |scanline|), prev, bpp) == scanline
  {
    var row := Unfiltered(kind, scanline, prev, bpp, |scanline|);
    forall i | 0 <= i < |scanline|
      ensures (row[i] - PredictedAt(kind, row, prev, bpp, i)) % 256 == scanline[i]
    {
      UnfilteredGrows(kind, scanline, prev, bpp, i, |scanline|);
      UnfilteredGrows(kind, scanline, prev, bpp, i + 1, |scanline|);
      assert row[i] == row[..i + 1][i];
      PredictionLooksBack(kind, row, prev, bpp, i);
      ByteBack(scanline[i], PredictedAt(kind, row, prev, bpp, i));
    }
  }

  // ------------------------------------------------ rows

  const BPP := 4

  /** The rows of a picture, each with its filter kind in front. */
  function Scanlines(pixels: Bytes, stride: nat, height: nat, kinds: Bytes, prev: Bytes): (data: Bytes)
    requires |pixels| == height * stride && |kinds| == height && |prev| == stride
    ensures |data| == height * (stride + 1)
    decreases height
  {
    if height == 0 then []
    else
      OneRowLess(height, stride);
      [kinds[0]] + Filtered(kinds[0], pixels[..stride], prev, BPP)
      + Scanlines(pixels[stride..], stride, height - 1, kinds[1..], pixels[..stride])
  }

  lemma OneRowLess(height: nat, stride: nat)
    requires height > 0
    ensures height * stride == stride + (height - 1) * stride
    ensures height * (stride + 1) == (stride + 1) + (height - 1) * (stride + 1)
    ensures (height - 1) * stride >= 0 && (height - 1) * (stride + 1) >= 0
  {
  }

  /** The reader's loop over the rows. */
  function Rows(data: Bytes, stride: nat, height: nat, prev: Bytes): (pixels: Option<Bytes>)
    requires |data| == height * (stride + 1) && |prev| == stride
    ensures pixels.Some? ==> |pixels.value| == height * stride
    decreases height
  {
    if height == 0 then Some([])
    else
      OneRowLess(height, stride);
      if data[0] > 4 && stride > 0 then None
      else
        var row := Unfiltered(data[0], data[1..stride + 1], prev, BPP, stride);
        match Rows(data[stride + 1..], stride, height - 1, row)
        case None => None
        case Some(rest) => Some(row + rest)
  }

  /** Every row has one of the five filters. */
  predicate AllKnown(kinds: Bytes) {
    forall i :: 0 <= i < |kinds| ==> kinds[i] <= 4
  }

  /** Reading the rows undoes writing them, whatever filter each row has. */
  lemma {:induction false} RowsOfScanlines(pixels: Bytes, stride: nat, height: nat, kinds: Bytes, prev: Bytes)
    requires |pixels| == height * stride && |kinds| == height && |prev| == stride
    requires AllKnown(kinds)
    ensures Rows(Scanlines(pixels, stride, height, kinds, prev), stride, height, prev) == Some(pixels)
    decreases height
  {
    if height > 0 {
      OneRowLess(height, stride);
      var row, kind := pixels[..stride], kinds[0];
      var line := Filtered(kind, row, prev, BPP);
      var rest := Scanlines(pixels[stride..], stride, height - 1, kinds[1..], row);
      var data := [kind] + line + rest;
      assert data[0] == kind && data[1..stride + 1] == line && data[stride + 1..] == rest;
      UnfilterFilter(kind, row, prev, BPP, stride);
      assert row[..stride] == row;
      RowsOfScanlines(pixels[stride..], stride, height - 1, kinds[1..], row);
      assert pixels == row + pixels[stride..];
    }
  }

  /** Row y of the pixels is row y of the data brought back, next to the row above it, or to `prev`. */
  ghost predicate RowIsRead(data: Bytes, stride: nat, height: nat, prev: Bytes, pixels: Bytes, y: nat)
    requires y < height && |data| == height * (stride + 1) && |pixels| == height * stride && |prev| == stride
  {
    OneRowLess(height, stride);
    RowBounds(y, height, stride);
    RowBounds(y, height, stride + 1);
    RowComesBack(data[y * (stride + 1)], data[y * (stride + 1) + 1..(y + 1) * (stride + 1)],
                 if y == 0 then prev else RowOf(pixels, stride, height, y - 1), BPP,
                 RowOf(pixels, stride, height, y))
  }

  function RowOf(pixels: Bytes, stride: nat, height: nat, y: nat): (row: Bytes)
    requires y < height && |pixels| == height * stride
    ensures |row| == stride
  {
    RowBounds(y, height, stride);
    pixels[y * stride..(y + 1) * stride]
  }

  lemma RowBounds(y: nat, height: nat, n: nat)
    requires y < height
    ensures 0 <= y * n && y * n + n == (y + 1) * n <= height * n
  {
    Products(height - y - 1, n);
    Products(y, n);
    assert height * n == (y + 1) * n + (height - y - 1) * n;
  }

  lemma Products(a: nat, n: nat)
    ensures a * n >= 0 && (a + 1) * n == a * n + n
  {
  }

  /** The reader refuses a picture exactly for an unknown filter of some row that is not empty; and every row it
      reads comes back from its own filter byte and encoded bytes and the row above it. */
  lemma {:induction false} RowsAreRead(data: Bytes, stride: nat, height: nat, prev: Bytes)
    requires |data| == height * (stride + 1) && |prev| == stride
    ensures Rows(data, stride, height, prev).Some? <==> KindsKnown(data, stride, height)
    ensures var pixels := Rows(data, stride, height, prev);
            pixels.Some? ==> forall y :: 0 <= y < height ==> RowIsRead(data, stride, height, prev, pixels.value, y)
    decreases height
  {
    if height > 0 {
      OneRowLess(height, stride);
      var line, rest := data[1..stride + 1], data[stride + 1..];
      var row := Unfiltered(data[0], line, prev, BPP, stride);
      RowsAreRead(rest, stride, height - 1, row);
      KindsOfRest(data, stride, height);
      if KindsKnown(data, stride, height) {
        var more := Rows(rest, stride, height - 1, row).value;
        var pixels := row + more;
        forall y | 0 <= y < height
          ensures RowIsRead(data, stride, height, prev, pixels, y)
        {
          if y == 0 {
            FirstRowIsRead(data, stride, height, prev, more);
          } else {
            LaterRowIsRead(data, stride, height, prev, row, more, y);
          }
        }
      }
    }
  }

  ghost predicate KindsKnown(data: Bytes, stride: nat, height: nat)
    requires |data| == height * (stride + 1)
  {
    stride == 0 || forall y :: 0 <= y < height ==> KindOf(data, stride, height, y) <= 4
  }

  /** The filter byte of row y. */
  function KindOf(data: Bytes, stride: nat, height: nat, y: nat): Byte
    requires y < height && |data| == height * (stride + 1)
  {
    RowBounds(y, height, stride + 1);
    data[y * (stride + 1)]
  }

  lemma KindsOfRest(data: Bytes, stride: nat, height: nat)
    requires height > 0 && |data| == height * (stride + 1)
    ensures |data[stride + 1..]| == (height - 1) * (stride + 1)
    ensures KindsKnown(data, stride, height)
       <==> (stride == 0 || data[0] <= 4) && KindsKnown(data[stride + 1..], stride, height - 1)
  {
    OneRowLess(height, stride);
    forall y | 1 <= y < height
      ensures KindOf(data, stride, height, y) == KindOf(data[stride + 1..], stride, height - 1, y - 1)
    {
      RowBounds(y, height, stride + 1);
      OneRowLess(y, stride);
    }
    if stride > 0 && KindsKnown(data, stride, height) {
      assert KindOf(data, stride, height, 0) == data[0];
      var rest, h := data[stride + 1..], height - 1;
      forall y: nat | y < h
        ensures KindOf(rest, stride, h, y) <= 4
      {
        assert KindOf(data, stride, height, y + 1) == KindOf(rest, stride, h, y);
      }
    }
  }

  lemma FirstRowIsRead(data: Bytes, stride: nat, height: nat, prev: Bytes, more: Bytes)
    requires height > 0 && |data| == height * (stride + 1) && |prev| == stride && |more| == (height - 1) * stride
    requires data[0] <= 4 || stride == 0
    ensures var row := Unfiltered(data[0], data[1..stride + 1], prev, BPP, stride);
            |row + more| == height * stride && RowIsRead(data, stride, height, prev, row + more, 0)
  {
    OneRowLess(height, stride);
    var row := Unfiltered(data[0], data[1..stride + 1], prev, BPP, stride);
    UnfilteredComesBack(data[0], data[1..stride + 1], prev, BPP);
    assert RowOf(row + more, stride, height, 0) == row;
  }

  lemma LaterRowIsRead(data: Bytes, stride: nat, height: nat, prev: Bytes, row: Bytes, more: Bytes, y: nat)
    requires 0 < y < height && |data| == height * (stride + 1) && |prev| == |row| == stride
    requires |more| == (height - 1) * stride && |data[stride + 1..]| == (height - 1) * (stride + 1)
    requires RowIsRead(data[stride + 1..], stride, height - 1, row, more, y - 1)
    ensures |row + more| == height * stride && RowIsRead(data, stride, height, prev, row + more, y)
  {
    OneRowLess(height, stride);
    OneRowLess(y, stride);
    RowBounds(y, height, stride + 1);
    RowBounds(y - 1, height - 1, stride + 1);
    var rest := data[stride + 1..];
    assert rest[(y - 1) * (stride + 1)] == data[y * (stride + 1)];
    assert rest[(y - 1) * (stride + 1) + 1..y * (stride + 1)] == data[y * (stride + 1) + 1..(y + 1) * (stride + 1)];
    RowOfLater(row, more, stride, height, y);
    if y > 1 {
      RowOfLater(row, more, stride, height, y - 1);
    } else {
      assert RowOf(row + more, stride, height, 0) == row;
    }
  }

  lemma RowOfLater(row: Bytes, more: Bytes, stride: nat, height: nat, y: nat)
    requires 0 < y < height && |row| == stride && |more| == (height - 1) * stride
    ensures |row + more| == height * stride
    ensures RowOf(row + more, stride, height, y) == RowOf(more, stride, height - 1, y - 1)
  {
    OneRowLess(height, stride);
    OneRowLess(y, stride);
    RowBounds(y, height, stride);
    RowBounds(y - 1, height - 1, stride);
  }

  // ------------------------------------------------ chunks

  const TWO32 := 0x1_0000_0000

  /** struct.pack(">I", n) */
  function Pack32(n: int): (b: Bytes)
    requires 0 <= n < TWO32
    ensures |b| == 4
  {
    assert n / 0x100_0000 < 256;
    [n / 0x100_0000, n / 0x1_0000 % 256, n / 0x100 % 256, n % 256]
  }

  function U32(b: Bytes): (n: nat)
    requires |b| == 4
    ensures n < TWO32
  {
    var w: int, x: int, y: int, z: int := b[0], b[1], b[2], b[3];
    w * 0x100_0000 + x * 0x1_0000 + y * 0x100 + z
  }

  /** The first byte is the most significant. */
  lemma BigEndian(b: Bytes)
    requires |b| == 4
    ensures var n := U32(b);
            n / 0x100_0000 == b[0] && n / 0x1_0000 % 256 == b[1] && n / 0x100 % 256 == b[2] && n % 256 == b[3]
  {
    var w: int, x: int, y: int, z: int := b[0], b[1], b[2], b[3];
    var high, upper := w * 256 + x, (w * 256 + x) * 256 + y;
    assert U32(b) == upper * 256 + z;
    RowMajorDivMod(upper, z, 256);
    RowMajorDivMod(high, y, 256);
    RowMajorDivMod(w, x, 256);
    RowMajorDivMod(high, y * 256 + z, 0x1_0000);
    RowMajorDivMod(w, x * 0x1_0000 + y * 256 + z, 0x100_0000);
  }

  lemma Pack32RoundTrip(n: int)
    requires 0 <= n < TWO32
    ensures U32(Pack32(n)) == n
  {
    var a, b := n / 0x1_0000, n / 0x100;
    assert b / 256 == a && a / 256 == n / 0x100_0000;
    assert n == b * 256 + n % 256 && b == a * 256 + b % 256 && a == a / 256 * 256 + a % 256;
  }

  const IHDR: Bytes := [73, 72, 68, 82]
  const IDAT: Bytes := [73, 68, 65, 84]
  const IEND: Bytes := [73, 69, 78, 68]
  const SIGNATURE: Bytes := [137, 80, 78, 71, 13, 10, 26, 10]

  datatype Chunk = Chunk(kind: Bytes, payload: Bytes)

  predicate ChunkOk(c: Chunk) {
    |c.kind| == 4 && |c.payload| < TWO32
  }

  function Check(crc: Bytes -> int, b: Bytes): (n: int)
    ensures 0 <= n < TWO32
  {
    crc(b) % TWO32
  }

  /** _png_chunk */
  function ChunkBytes(crc: Bytes -> int, c: Chunk): (b: Bytes)
    requires ChunkOk(c)
  {
    Pack32(|c.payload|) + c.kind + c.payload + Pack32(Check(crc, c.kind + c.payload))
  }

  datatype Header = Header(width: nat, height: nat, depth: Byte, color: Byte, interlace: Byte)

  datatype Error = NotPng | Truncated | BadCrc | BadHeader | MissingHeader | Unsupported | BadData | WrongLength
                 | BadFilter

  datatype Scan = Scanned(header: Option<Header>, idat: Bytes) | Failed(error: Error)

  function HeaderOf(b: Bytes): Header
    requires |b| == 13
  {
    Header(U32(b[..4]), U32(b[4..8]), b[8], b[9], b[12])
  }

  /** What the reader has gathered before it looks at the next chunk. */
  datatype Gathered = Gathered(header: Option<Header>, idat: Bytes)

  datatype Outcome = Next(g: Gathered) | Done(g: Gathered) | Wrong(error: Error)

  /** What one chunk does. */
  function Take(c: Chunk, g: Gathered): Outcome {
    if c.kind == IHDR then
      (if |c.payload| != 13 then Wrong(BadHeader) else Next(Gathered(Some(HeaderOf(c.payload)), g.idat)))
    else if c.kind == IDAT then Next(Gathered(g.header, g.idat + c.payload))
    else if c.kind == IEND then Done(g)
    else Next(g)
  }

  /** The first chunk of a text, if it is whole and its checksum is right. */
  function FirstChunk(crc: Bytes -> int, raw: Bytes): (c: Option<Chunk>)
    requires |raw| >= 12
    ensures c.Some? ==> ChunkOk(c.value) && 12 + |c.value.payload| <= |raw|
  {
    var length := U32(raw[..4]);
    if 12 + length > |raw| then None
    else
      var c := Chunk(raw[4..8], raw[8..8 + length]);
      if Check(crc, c.kind + c.payload) == U32(raw[8 + length..12 + length]) then Some(c) else None
  }

  /** Why there is no first chunk. */
  function ChunkError(raw: Bytes): Error
    requires |raw| >= 12
  {
    if 12 + U32(raw[..4]) > |raw| then Truncated else BadCrc
  }

  /** The reader's loop over the chunks. */
  function Chunks(crc: Bytes -> int, raw: Bytes, g: Gathered): Scan
    decreases |raw|
  {
    if raw == [] then Scanned(g.header, g.idat)
    else if |raw| < 12 then Failed(Truncated)
    else match FirstChunk(crc, raw)
      case None => Failed(ChunkError(raw))
      case Some(c) =>
        match Take(c, g)
        case Next(g') => Chunks(crc, raw[12 + |c.payload|..], g')
        case Done(g') => Scanned(g'.header, g'.idat)
        case Wrong(e) => Failed(e)
  }

  lemma FirstChunkOfBytes(crc: Bytes -> int, c: Chunk, more: Bytes)
    requires ChunkOk(c)
    ensures var raw := ChunkBytes(crc, c) + more;
            && |raw| >= 12 && FirstChunk(crc, raw) == Some(c) && raw[12 + |c.payload|..] == more
  {
    var length, check := Pack32(|c.payload|), Pack32(Check(crc, c.kind + c.payload));
    var raw := ChunkBytes(crc, c) + more;
    Pieces(length, c.kind, c.payload, check, more);
    Pack32RoundTrip(|c.payload|);
    Pack32RoundTrip(Check(crc, c.kind + c.payload));
  }

  lemma Pieces(length: Bytes, kind: Bytes, payload: Bytes, check: Bytes, more: Bytes)
    requires |length| == |kind| == |check| == 4
    ensures var raw, n := length + kind + payload + check + more, |payload|;
            && raw[..4] == length && raw[4..8] == kind && raw[8..8 + n] == payload && raw[8 + n..12 + n] == check
            && raw[12 + n..] == more
  {
  }

  // ------------------------------------------------ files

  /** 8-bit RGBA, row after row. */
  datatype Picture = Picture(width: nat, height: nat, pixels: Bytes)

  datatype Read = Ok(picture: Picture) | Refused(error: Error)

  function Zeros(n: nat): (z: Bytes)
    ensures |z| == n && forall i :: 0 <= i < n ==> z[i] == 0
  {
    seq(n, _ => 0)
  }

  /** From the header and the gathered data to the picture. */
  function Assemble(inflate: Bytes -> Option<Bytes>, header: Option<Header>, idat: Bytes): Read {
    if header == None then Refused(MissingHeader)
    else
      var h := header.value;
      if h.depth != 8 || h.color != 6 || h.interlace != 0 then Refused(Unsupported)
      else if inflate(idat) == None then Refused(BadData)
      else
        var data := inflate(idat).value;
        if |data| != h.height * (h.width * 4 + 1) then Refused(WrongLength)
        else match Rows(data, h.width * 4, h.height, Zeros(h.width * 4))
          case None => Refused(BadFilter)
          case Some(pixels) => Ok(Picture(h.width, h.height, pixels))
  }

  /** read_rgba_png */
  function ReadPng(crc: Bytes -> int, inflate: Bytes -> Option<Bytes>, raw: Bytes): Read {
    if |raw| < 8 || raw[..8] != SIGNATURE then Refused(NotPng)
    else match Chunks(crc, raw[8..], Gathered(None, []))
      case Failed(e) => Refused(e)
      case Scanned(header, idat) => Assemble(inflate, header, idat)
  }

  method ReadRows(data: Bytes, stride: nat, height: nat) returns (pixels: Option<Bytes>)
    requires |data| == height * (stride + 1)
    ensures pixels == Rows(data, stride, height, Zeros(stride))
  {
    var prev := Zeros(stride);
    var rows: Bytes, rest := [], data;
    JoinedNothing(Rows(data, stride, height, prev));
    for y := 0 to height
      invariant |prev| == stride && |rest| == (height - y) * (stride + 1)
      invariant Rows(data, stride, height, Zeros(stride)) == Joined(rows, Rows(rest, stride, height - y, prev))
    {
      OneRowLess(height - y, stride);
      var kind := rest[0];
      var row := UnfilterScanline(kind, rest[1..stride + 1], prev, BPP);
      if row == None {
        return None;
      }
      rest := rest[stride + 1..];
      JoinedTwice(rows, row.value, Rows(rest, stride, height - y - 1, row.value));
      rows := rows + row.value;
      prev := row.value;
    }
    assert rows + [] == rows;
    pixels := Some(rows);
  }

  function Joined(front: Bytes, back: Option<Bytes>): Option<Bytes> {
    if back == None then None else Some(front + back.value)
  }

  lemma JoinedNothing(c: Option<Bytes>)
    ensures Joined([], c) == c
  {
    if c.Some? {
      assert [] + c.value == c.value;
    }
  }

  lemma JoinedTwice(a: Bytes, b: Bytes, c: Option<Bytes>)
    ensures Joined(a, Joined(b, c)) == Joined(a + b, c)
  {
    if c.Some? {
      assert a + (b + c.value) == a + b + c.value;
    }
  }

  /** From `pos` on, with `g` gathered, the reading comes to `goal`. */
  ghost predicate Leads(crc: Bytes -> int, raw: Bytes, pos: nat, g: Gathered, goal: Scan) {
    pos <= |raw| && Chunks(crc, raw[pos..], g) == goal
  }

  lemma ChunkLeads(crc: Bytes -> int, raw: Bytes, pos: nat, g: Gathered, goal: Scan, c: Chunk)
    requires Leads(crc, raw, pos, g, goal) && pos + 12 <= |raw| && FirstChunk(crc, raw[pos..]) == Some(c)
    ensures pos + 12 + |c.payload| <= |raw|
    ensures Take(c, g).Wrong? ==> goal == Failed(Take(c, g).error)
    ensures Take(c, g).Done? ==> goal == Scanned(Take(c, g).g.header, Take(c, g).g.idat)
    ensures Take(c, g).Next? ==> Leads(crc, raw, pos + 12 + |c.payload|, Take(c, g).g, goal)
  {
    assert raw[pos..][12 + |c.payload|..] == raw[pos + 12 + |c.payload|..];
  }

  lemma NothingLeads(crc: Bytes -> int, raw: Bytes, pos: nat, g: Gathered, goal: Scan)
    requires Leads(crc, raw, pos, g, goal)
    ensures pos == |raw| ==> goal == Scanned(g.header, g.idat)
    ensures pos < |raw| < pos + 12 ==> goal == Failed(Truncated)
    ensures pos + 12 <= |raw| && FirstChunk(crc, raw[pos..]) == None ==> goal == Failed(ChunkError(raw[pos..]))
  {
  }

  /** One round of the reader's loop. */
  method ReadChunk(crc: Bytes -> int, raw: Bytes, pos: nat, g: Gathered, ghost goal: Scan)
    returns (o: Outcome, next: nat)
    requires Leads(crc, raw, pos, g, goal) && pos < |raw|
    ensures o.Wrong? ==> goal == Failed(o.error)
    ensures o.Done? ==> goal == Scanned(o.g.header, o.g.idat)
    ensures o.Next? ==> next > pos && Leads(crc, raw, next, o.g, goal)
  {
    next := pos;
    if pos + 12 > |raw| {
      NothingLeads(crc, raw, pos, g, goal);
      return Wrong(Truncated), next;
    }
    var c, error := FindChunk(crc, raw, pos);
    if c == None {
      NothingLeads(crc, raw, pos, g, goal);
      return Wrong(error), next;
    }
    ChunkLeads(crc, raw, pos, g, goal, c.value);
    next := pos + 12 + |c.value.payload|;
    o := Take(c.value, g);
  }

  /** The chunk that starts at `pos`: its length, kind, payload and checksum. */
  method FindChunk(crc: Bytes -> int, raw: Bytes, pos: nat) returns (c: Option<Chunk>, error: Error)
    requires pos + 12 <= |raw|
    ensures c == FirstChunk(crc, raw[pos..]) && (c == None ==> error == ChunkError(raw[pos..]))
  {
    SliceOfRest(raw, pos, 0, 4);
    var length := U32(raw[pos..pos + 4]);
    if pos + 12 + length > |raw| {
      return None, Truncated;
    }
    SliceOfRest(raw, pos, 4, 8);
    SliceOfRest(raw, pos, 8, 8 + length);
    SliceOfRest(raw, pos, 8 + length, 12 + length);
    var kind, payload := raw[pos + 4..pos + 8], raw[pos + 8..pos + 8 + length];
    if Check(crc, kind + payload) != U32(raw[pos + 8 + length..pos + 12 + length]) {
      return None, BadCrc;
    }
    return Some(Chunk(kind, payload)), BadCrc;
  }

  lemma SliceOfRest(raw: Bytes, pos: nat, a: nat, b: nat)
    requires a <= b && pos + b <= |raw|
    ensures raw[pos..][a..b] == raw[pos + a..pos + b]
  {
  }

  method ReadChunks(crc: Bytes -> int, raw: Bytes, start: nat) returns (scan: Scan)
    requires start <= |raw|
    ensures Leads(crc, raw, start, Gathered(None, []), scan)
  {
    var pos, g := start, Gathered(None, []);
    ghost var goal := Chunks(crc, raw[start..], g);
    while pos < |raw|
      invariant Leads(crc, raw, pos, g, goal)
      decreases |raw| - pos
    {
      var o;
      o, pos := ReadChunk(crc, raw, pos, g, goal);
      match o {
        case Wrong(e) => return Failed(e);
        case Done(g') => return Scanned(g'.header, g'.idat);
        case Next(g') => g := g';
      }
    }
    NothingLeads(crc, raw, pos, g, goal);
    scan := Scanned(g.header, g.idat);
  }

  method ReadRgbaPng(crc: Bytes -> int, inflate: Bytes -> Option<Bytes>, raw: Bytes) returns (r: Read)
    ensures r == ReadPng(crc, inflate, raw)
  {
    if |raw| < 8 || raw[..8] != SIGNATURE {
      return Refused(NotPng);
    }
    var scan := ReadChunks(crc, raw, 8);
    if scan.Failed? {
      return Refused(scan.error);
    }
    r := ReadPicture(inflate, scan.header, scan.idat);
  }

  /** What follows the loop over the chunks: the checks on the header, the inflated data, its length, and
      the loop over the rows. */
  method ReadPicture(inflate: Bytes -> Option<Bytes>, header: Option<Header>, idat: Bytes) returns (r: Read)
    ensures r == Assemble(inflate, header, idat)
  {
    if header == None {
      return Refused(MissingHeader);
    }
    var h := header.value;
    if h.depth != 8 || h.color != 6 || h.interlace != 0 {
      return Refused(Unsupported);
    }
    var data := inflate(idat);
    if data == None {
      return Refused(BadData);
    }
    var stride := h.width * BPP;
    if |data.value| != h.height * (stride + 1) {
      return Refused(WrongLength);
    }
    var pixels := ReadRows(data.value, stride, h.height);
    if pixels == None {
      return Refused(BadFilter);
    }
    r := Ok(Picture(h.width, h.height, pixels.value));
  }

  // ------------------------------------------------ every valid file is read

  /** The chunks of a file, one after the other, and then `end`. */
  function FileFrom(crc: Bytes -> int, chunks: seq<Chunk>, end: Bytes): Bytes
    requires forall i :: 0 <= i < |chunks| ==> ChunkOk(chunks[i])
    decreases |chunks|
  {
    if chunks == [] then end else ChunkBytes(crc, chunks[0]) + FileFrom(crc, chunks[1..], end)
  }

  /** Between the header and the end: data chunks, and chunks of kinds the reader does not know. */
  predicate MiddleOk(chunks: seq<Chunk>) {
    forall i :: 0 <= i < |chunks| ==> ChunkOk(chunks[i]) && chunks[i].kind != IHDR && chunks[i].kind != IEND
  }

  function WithData(c: Chunk): Bytes {
    if c.kind == IDAT then c.payload else []
  }

  /** The data chunks' payloads, joined. */
  function DataOf(chunks: seq<Chunk>): Bytes
    decreases |chunks|
  {
    if chunks == [] then [] else WithData(chunks[0]) + DataOf(chunks[1..])
  }

  function HeaderChunk(p: Picture): Chunk
    requires p.width < TWO32 && p.height < TWO32
  {
    Chunk(IHDR, Pack32(p.width) + Pack32(p.height) + [8, 6, 0, 0, 0])
  }

  lemma HeaderIsRead(p: Picture)
    requires p.width < TWO32 && p.height < TWO32
    ensures ChunkOk(HeaderChunk(p)) && Take(HeaderChunk(p), Gathered(None, []))
         == Next(Gathered(Some(Header(p.width, p.height, 8, 6, 0)), []))
  {
    Pack32RoundTrip(p.width);
    Pack32RoundTrip(p.height);
    var b := HeaderChunk(p).payload;
    assert b[..4] == Pack32(p.width) && b[4..8] == Pack32(p.height);
  }

  function Proceed(crc: Bytes -> int, o: Outcome, more: Bytes): Scan {
    match o
    case Next(g) => Chunks(crc, more, g)
    case Done(g) => Scanned(g.header, g.idat)
    case Wrong(e) => Failed(e)
  }

  lemma ChunkIsTaken(crc: Bytes -> int, c: Chunk, more: Bytes, g: Gathered)
    requires ChunkOk(c)
    ensures Chunks(crc, ChunkBytes(crc, c) + more, g) == Proceed(crc, Take(c, g), more)
  {
    FirstChunkOfBytes(crc, c, more);
  }

  lemma MiddleChunkIsTaken(c: Chunk, g: Gathered)
    requires c.kind != IHDR && c.kind != IEND
    ensures Take(c, g) == Next(Gathered(g.header, g.idat + WithData(c)))
  {
    assert g.idat + [] == g.idat;
  }

  /** From g, the chunks are read and leave their data behind. */
  ghost predicate IsRead(crc: Bytes -> int, chunks: seq<Chunk>, end: Bytes, g: Gathered)
    requires MiddleOk(chunks)
  {
    Chunks(crc, FileFrom(crc, chunks, end), g) == Chunks(crc, end, Gathered(g.header, g.idat + DataOf(chunks)))
  }

  lemma OneMoreIsRead(crc: Bytes -> int, chunks: seq<Chunk>, end: Bytes, g: Gathered)
    requires chunks != [] && MiddleOk(chunks)
    requires IsRead(crc, chunks[1..], end, Gathered(g.header, g.idat + WithData(chunks[0])))
    ensures IsRead(crc, chunks, end, g)
  {
    MiddleChunkIsTaken(chunks[0], g);
    OneChunkRead(crc, chunks, end, g, Gathered(g.header, g.idat + WithData(chunks[0])));
    Regroup(g.idat, WithData(chunks[0]), DataOf(chunks[1..]));
  }

  lemma {:induction false} MiddleIsRead(crc: Bytes -> int, chunks: seq<Chunk>, end: Bytes, g: Gathered)
    requires MiddleOk(chunks)
    ensures IsRead(crc, chunks, end, g)
    decreases |chunks|
  {
    if chunks == [] {
      assert g.idat + [] == g.idat;
    } else {
      MiddleIsRead(crc, chunks[1..], end, Gathered(g.header, g.idat + WithData(chunks[0])));
      OneMoreIsRead(crc, chunks, end, g);
    }
  }

  lemma OneChunkRead(crc: Bytes -> int, chunks: seq<Chunk>, end: Bytes, g: Gathered, g': Gathered)
    requires chunks != [] && MiddleOk(chunks) && Take(chunks[0], g) == Next(g')
    ensures Chunks(crc, FileFrom(crc, chunks, end), g) == Chunks(crc, FileFrom(crc, chunks[1..], end), g')
  {
    ChunkIsTaken(crc, chunks[0], FileFrom(crc, chunks[1..], end), g);
  }

  predicate PictureOk(p: Picture) {
    p.width < TWO32 && p.height < TWO32 && |p.pixels| == p.height * (p.width * 4)
  }

  const END_CHUNK := Chunk(IEND, [])

  /** A file: signature, header, anything in the middle, the end, and whatever may follow it. */
  function ValidFile(crc: Bytes -> int, p: Picture, middle: seq<Chunk>, trailing: Bytes): Bytes
    requires PictureOk(p) && MiddleOk(middle)
  {
    HeaderIsRead(p);
    SIGNATURE + (ChunkBytes(crc, HeaderChunk(p)) + FileFrom(crc, middle, ChunkBytes(crc, END_CHUNK) + trailing))
  }

  lemma FileIsScanned(crc: Bytes -> int, p: Picture, middle: seq<Chunk>, trailing: Bytes)
    requires PictureOk(p) && MiddleOk(middle)
    ensures var raw := ValidFile(crc, p, middle, trailing);
            && |raw| >= 8 && raw[..8] == SIGNATURE
            && Chunks(crc, raw[8..], Gathered(None, []))
            == Scanned(Some(Header(p.width, p.height, 8, 6, 0)), DataOf(middle))
  {
    var end := ChunkBytes(crc, END_CHUNK) + trailing;
    var g := Gathered(Some(Header(p.width, p.height, 8, 6, 0)), []);
    HeaderIsRead(p);
    ChunkIsTaken(crc, HeaderChunk(p), FileFrom(crc, middle, end), Gathered(None, []));
    MiddleIsRead(crc, middle, end, g);
    assert [] + DataOf(middle) == DataOf(middle);
    ChunkIsTaken(crc, END_CHUNK, trailing, Gathered(g.header, DataOf(middle)));
    var raw := ValidFile(crc, p, middle, trailing);
    assert raw[8..] == ChunkBytes(crc, HeaderChunk(p)) + FileFrom(crc, middle, end);
  }

  /** Any valid file is read as its picture: whichever of the five filters each row was given, however
      the compressed data was cut into chunks, and whatever other chunks lie between them. */
  lemma ValidFilesAreRead(crc: Bytes -> int, inflate: Bytes -> Option<Bytes>, p: Picture, kinds: Bytes,
                          middle: seq<Chunk>, trailing: Bytes)
    requires PictureOk(p) && MiddleOk(middle) && |kinds| == p.height && AllKnown(kinds)
    requires inflate(DataOf(middle)) == Some(Scanlines(p.pixels, p.width * 4, p.height, kinds, Zeros(p.width * 4)))
    ensures ReadPng(crc, inflate, ValidFile(crc, p, middle, trailing)) == Ok(p)
  {
    FileIsScanned(crc, p, middle, trailing);
    RowsOfScanlines(p.pixels, p.width * 4, p.height, kinds, Zeros(p.width * 4));
  }

  // ------------------------------------------------ the writer

  datatype Written = File(raw: Bytes) | Mismatch | TooBig

  /** write_rgba_png */
  method WriteRgbaPng(crc: Bytes -> int, deflate: Bytes -> Bytes, p: Picture) returns (w: Written)
    ensures w.Mismatch? <==> |p.pixels| != p.height * (p.width * 4)
    ensures PictureOk(p) && |deflate(Plain(p))| < TWO32 ==>
      w == File(ValidFile(crc, p, [Chunk(IDAT, deflate(Plain(p)))], []))
  {
    var stride := p.width * 4;
    if |p.pixels| != p.height * stride {
      return Mismatch;
    }
    var rows := PlainRows(p.pixels, stride, p.height);
    assert PictureOk(p) ==> rows == Plain(p);
    if p.width >= TWO32 || p.height >= TWO32 || |deflate(rows)| >= TWO32 {
      return TooBig;
    }
    HeaderIsRead(p);
    var data := Chunk(IDAT, deflate(rows));
    assert [data][1..] == [];
    assert FileFrom(crc, [data], ChunkBytes(crc, END_CHUNK) + [])
        == ChunkBytes(crc, data) + (ChunkBytes(crc, END_CHUNK) + []);
    var end := ChunkBytes(crc, END_CHUNK) + [];
    w := File(SIGNATURE + (ChunkBytes(crc, HeaderChunk(p)) + (ChunkBytes(crc, data) + end)));
  }

  /** The rows as the writer lays them out: filter 0 for each. */
  function Plain(p: Picture): Bytes
    requires PictureOk(p)
  {
    Scanlines(p.pixels, p.width * 4, p.height, Zeros(p.height), Zeros(p.width * 4))
  }

  lemma NoFilter(row: Bytes, prev: Bytes, bpp: nat)
    requires bpp > 0 && |prev| == |row|
    ensures Filtered(0, row, prev, bpp) == row
  {
  }

  method PlainRows(pixels: Bytes, stride: nat, height: nat) returns (rows: Bytes)
    requires |pixels| == height * stride
    ensures rows == Scanlines(pixels, stride, height, Zeros(height), Zeros(stride))
  {
    rows := [];
    ghost var prev := Zeros(stride);
    var rest := pixels;
    for y := 0 to height
      invariant |prev| == stride && |rest| == (height - y) * stride
      invariant Scanlines(pixels, stride, height, Zeros(height), Zeros(stride))
             == rows + Scanlines(rest, stride, height - y, Zeros(height - y), prev)
    {
      OneRowLess(height - y, stride);
      var row := rest[..stride];
      NoFilter(row, prev, BPP);
      assert Zeros(height - y)[1..] == Zeros(height - y - 1);
      RowSplit(rows, row, Scanlines(rest[stride..], stride, height - y - 1, Zeros(height - y - 1), row));
      rows := rows + [0];
      rows := rows + row;
      rest := rest[stride..];
      prev := row;
    }
    assert rows + [] == rows;
  }

  lemma RowSplit(a: Bytes, row: Bytes, b: Bytes)
    ensures a + ([0] + row + b) == a + [0] + row + b
  {
  }

  /** Reading back what was written gives the picture, for any checksum and any compression that can be
      undone. */
  lemma WriteThenRead(crc: Bytes -> int, deflate: Bytes -> Bytes, inflate: Bytes -> Option<Bytes>, p: Picture)
    requires PictureOk(p) && |deflate(Plain(p))| < TWO32
    requires inflate(deflate(Plain(p))) == Some(Plain(p))
    ensures ReadPng(crc, inflate, ValidFile(crc, p, [Chunk(IDAT, deflate(Plain(p)))], [])) == Ok(p)
  {
    var middle := [Chunk(IDAT, deflate(Plain(p)))];
    assert DataOf(middle) == deflate(Plain(p)) + DataOf(middle[1..]) == deflate(Plain(p));
    ValidFilesAreRead(crc, inflate, p, Zeros(p.height), middle, []);
  }
}
