/** Loading a heightmap and turning it into a grid of cells (Private/HeightmapParser.cpp).
    The file is given as its bytes, or `None` when it cannot be read. */
module HeightmapParser {
  import opened Common
  import opened HeightmapCell
  import opened Grid
  import opened Altitude
  import opened DistanceToOcean

  function Square(k: int): int
  {
    k * k
  }

  ghost predicate IsPerfectSquare(n: int)
  {
    exists k: nat :: Square(k) == n
  }

  /** `FMath::Sqrt` of the sample count, truncated into an `int32`: the integer square root. */
  function FloorSqrt(n: nat): (r: nat)
    ensures Square(r) <= n < Square(r + 1)
  {
    if n == 0 then 0
    else
      var s := FloorSqrt(n - 1);
      if Square(s + 1) <= n then
        SquareGrows(s + 1);
        s + 1
      else s
  }

  lemma SquareGrows(k: nat)
    ensures Square(k) < Square(k + 1)
  {
    assert Square(k + 1) == Square(k) + 2 * k + 1;
  }

  lemma SquareMono(a: nat, b: nat)
    requires a <= b
    ensures Square(a) <= Square(b)
  {
    assert Square(b) - Square(a) == (b - a) * (b + a);
  }

  /** The integer square root of a perfect square `k * k` is `k`. */
  lemma FloorSqrtOfSquare(k: nat)
    ensures FloorSqrt(Square(k)) == k
  {
    var r := FloorSqrt(Square(k));
    if r < k {
      SquareMono(r + 1, k);
    } else if r > k {
      SquareMono(k + 1, r);
    }
  }

  /** The width found by the square test passes it exactly when the count is a perfect square. */
  lemma SquareTest(n: nat)
    ensures Square(FloorSqrt(n)) == n <==> IsPerfectSquare(n)
  {
    if IsPerfectSquare(n) {
      var k: nat :| Square(k) == n;
      FloorSqrtOfSquare(k);
    }
  }

  /** Outcome of a size check: whether it passed and the `Width`/`Height` it leaves behind. */
  datatype SizeCheck = SizeCheck(ok: bool, width: int, height: int)

  /** The shared tail of the three checks: width and height are both the integer
      square root, and the check passes iff their product is the sample count. */
  function SquareCheck(numSamples: nat): (r: SizeCheck)
    ensures r.width == r.height == FloorSqrt(numSamples)
    ensures r.ok <==> IsPerfectSquare(numSamples)
    ensures r.ok ==> r.width * r.height == numSamples
  {
    SquareTest(numSamples);
    var w := FloorSqrt(numSamples);
    SizeCheck(w * w == numSamples, w, w)
  }

  /** `ParseRawHeightmap`: one byte per sample. */
  function ParseRawHeightmap(rawData: seq<byte>): (r: SizeCheck)
    ensures r.ok <==> IsPerfectSquare(|rawData|)
    ensures r.width == r.height && (r.ok ==> r.width * r.height == |rawData|)
  {
    SquareCheck(|rawData|)
  }

  /** `ParseR16Heightmap`: two bytes per sample. An odd byte count fails before
      `Width` and `Height` are touched. */
  function ParseR16Heightmap(rawData: seq<byte>, width: int, height: int): (r: SizeCheck)
    ensures |rawData| % 2 != 0 ==> r == SizeCheck(false, width, height)
    ensures r.ok <==> |rawData| % 2 == 0 && IsPerfectSquare(|rawData| / 2)
    ensures r.ok ==> r.width == r.height && 2 * (r.width * r.height) == |rawData|
  {
    if |rawData| % 2 != 0 then SizeCheck(false, width, height)
    else
      assert |rawData| == 2 * (|rawData| / 2);
      SquareCheck(|rawData| / 2)
  }

  /** `ParseR32Heightmap`: four bytes per sample. */
  function ParseR32Heightmap(rawData: seq<byte>, width: int, height: int): (r: SizeCheck)
    ensures |rawData| % 4 != 0 ==> r == SizeCheck(false, width, height)
    ensures r.ok <==> |rawData| % 4 == 0 && IsPerfectSquare(|rawData| / 4)
    ensures r.ok ==> r.width == r.height && 4 * (r.width * r.height) == |rawData|
  {
    if |rawData| % 4 != 0 then SizeCheck(false, width, height)
    else
      assert |rawData| == 4 * (|rawData| / 4);
      SquareCheck(|rawData| / 4)
  }

  /** `LoadHeightmap`: an unreadable file fails and leaves `Width`/`Height` as they
      were; otherwise the bytes are the pixels and the square test decides. */
  function LoadHeightmap(file: Option<seq<byte>>, width: int, height: int): (r: SizeCheck)
    ensures file.None? ==> r == SizeCheck(false, width, height)
    ensures file.Some? ==> r.width == r.height == FloorSqrt(|file.value|)
    ensures r.ok <==> file.Some? && IsPerfectSquare(|file.value|)
  {
    match file
    case None => SizeCheck(false, width, height)
    case Some(bytes) => SquareCheck(|bytes|)
  }

  /** The arguments of `ParseHeightmap` other than the file and the outputs. */
  datatype ParseParams = ParseParams(
    seaLevel: real,
    minAltitude: real,
    maxAltitude: real,
    minLatitude: real,
    maxLatitude: real,
    minLongitude: real,
    maxLongitude: real)

  /** The cell built for pixel (x, y) of a `width` by `height` map. */
  function MakeCell(pixel: byte, x: int, y: int, width: int, height: int, p: ParseParams): (c: Cell)
    requires width > 0 && height > 0
    ensures c.altitude == CalculateAltitude(pixel, p.minAltitude, p.maxAltitude)
    ensures c.oceanDepth >= 0.0 && (c.oceanDepth > 0.0 <==> c.altitude < p.seaLevel)
    ensures c.altitude <= p.seaLevel ==> c.oceanDepth == p.seaLevel - c.altitude && c.distanceToOcean == 0.0
    ensures c.altitude > p.seaLevel ==> c.oceanDepth == 0.0 && c.distanceToOcean == FLT_MAX
    ensures c == DefaultCell().(latitude := c.latitude, longitude := c.longitude, altitude := c.altitude,
                                oceanDepth := c.oceanDepth, distanceToOcean := c.distanceToOcean)
  {
    var altitude := CalculateAltitude(pixel, p.minAltitude, p.maxAltitude);
    var below := altitude <= p.seaLevel;
    DefaultCell().(
      latitude := p.minLatitude + (p.maxLatitude - p.minLatitude) * (y as real / height as real),
      longitude := p.minLongitude + (p.maxLongitude - p.minLongitude) * (x as real / width as real),
      altitude := altitude,
      oceanDepth := if below then CalculateOceanDepth(p.seaLevel, altitude) else 0.0,
      distanceToOcean := if below then 0.0 else FLT_MAX)
  }

  /** Row 0 gets `MinLatitude` exactly, and with MinLatitude < MaxLatitude every row
      lies in [MinLatitude, MaxLatitude): the last row stops one step short. The same
      holds for columns and longitude. */
  lemma CoordinateBounds(pixel: byte, x: int, y: int, width: int, height: int, p: ParseParams)
    requires InGrid(x, y, width, height)
    ensures var c := MakeCell(pixel, x, y, width, height, p);
      (y == 0 ==> c.latitude == p.minLatitude) &&
      (x == 0 ==> c.longitude == p.minLongitude) &&
      (p.minLatitude < p.maxLatitude ==> p.minLatitude <= c.latitude < p.maxLatitude) &&
      (p.minLongitude < p.maxLongitude ==> p.minLongitude <= c.longitude < p.maxLongitude)
  {
    var c := MakeCell(pixel, x, y, width, height, p);
    assert c.latitude == p.minLatitude + (p.maxLatitude - p.minLatitude) * (y as real / height as real);
    assert c.longitude == p.minLongitude + (p.maxLongitude - p.minLongitude) * (x as real / width as real);
    FractionBelowOne(y, height, p.maxLatitude - p.minLatitude);
    FractionBelowOne(x, width, p.maxLongitude - p.minLongitude);
  }

  lemma FractionBelowOne(i: int, n: int, span: real)
    requires 0 <= i < n
    ensures span > 0.0 ==> 0.0 <= span * (i as real / n as real) < span
  {
    var t := i as real / n as real;
    assert 0.0 <= t < 1.0;
    if span > 0.0 {
      assert span - span * t == span * (1.0 - t);
    }
  }

  /** The cells of a `width` by `height` map in row-major order, before the distance pass. */
  function CellGrid(pixels: seq<byte>, width: int, height: int, p: ParseParams): seq<Cell>
    requires |pixels| == width * height
  {
    if width <= 0 || height <= 0 then []
    else
      seq(|pixels|, i requires 0 <= i < |pixels| => MakeCell(pixels[i], Col(i, width), Row(i, width), width, height, p))
  }

  /** Cell `y * Width + x` of the grid is built from the byte at the same index and
      from the coordinates (x, y). */
  lemma CellGridRowMajor(pixels: seq<byte>, width: int, height: int, p: ParseParams, x: int, y: int)
    requires |pixels| == width * height && InGrid(x, y, width, height)
    ensures |CellGrid(pixels, width, height, p)| == width * height
    ensures 0 <= Index(x, y, width) < |pixels|
    ensures CellGrid(pixels, width, height, p)[Index(x, y, width)] ==
      MakeCell(pixels[Index(x, y, width)], x, y, width, height, p)
  {
    IndexInRange(x, y, width, height);
    IndexCoords(x, y, width);
  }

  /** The nested y/x loop of `ParseHeightmap` (Private/HeightmapParser.cpp:27-59). */
  method BuildCells(pixels: seq<byte>, width: int, height: int, p: ParseParams) returns (cells: seq<Cell>)
    requires width >= 0 && height >= 0 && |pixels| == width * height
    ensures cells == CellGrid(pixels, width, height, p)
  {
    cells := [];
    for y := 0 to height
      invariant |cells| == Index(0, y, width)
      invariant forall i :: 0 <= i < |cells| ==>
        width > 0 && height > 0 && i < |pixels| &&
        cells[i] == MakeCell(pixels[i], Col(i, width), Row(i, width), width, height, p)
    {
      for x := 0 to width
        invariant |cells| == Index(x, y, width)
        invariant forall i :: 0 <= i < |cells| ==>
          width > 0 && height > 0 && i < |pixels| &&
          cells[i] == MakeCell(pixels[i], Col(i, width), Row(i, width), width, height, p)
      {
        var index := y * width + x;
        IndexInRange(x, y, width, height);
        IndexCoords(x, y, width);
        var cell := MakeCell(pixels[index], x, y, width, height, p);
        cells := cells + [cell];
      }
    }
    assert width > 0 && height > 0 ==> |cells| == |pixels|;
  }

  /** The grid after the distance pass: only `DistanceToOcean` is recomputed. */
  function WithDistances(cells: seq<Cell>, width: int): (r: seq<Cell>)
    ensures |r| == |cells|
  {
    seq(|cells|, i requires 0 <= i < |cells| => cells[i].(distanceToOcean := ExpectedDistance(cells, width, i)))
  }

  /** `ParseHeightmap`. `outData`, `width` and `height` are the caller's by-reference
      arguments on entry; the primed results are their values on return. */
  method ParseHeightmap(file: Option<seq<byte>>, p: ParseParams, outData: seq<Cell>, width: int, height: int)
      returns (ok: bool, outData': seq<Cell>, width': int, height': int)
    requires file.Some? ==> |file.value| <= Int32Max
    ensures ok <==> file.Some? && IsPerfectSquare(|file.value|)
    ensures file.None? ==> width' == width && height' == height
    ensures file.Some? ==> width' == height' == FloorSqrt(|file.value|)
    ensures !ok ==> outData' == outData
    ensures ok ==> (|file.value| == width' * height' &&
      outData' == WithDistances(CellGrid(file.value, width', height', p), width'))
  {
    var loaded := LoadHeightmap(file, width, height);
    width', height' := loaded.width, loaded.height;
    if !loaded.ok {
      return false, outData, width', height';
    }
    var pixels := file.value;
    var cells := BuildCells(pixels, width', height', p);
    var grid := new Cell[|cells|](i requires 0 <= i < |cells| => cells[i]);
    assert grid[..] == cells;
    var distanceOk := CalculateDistanceToOcean(grid, width', height');
    if !distanceOk {
      return false, outData, width', height';
    }
    outData' := grid[..];
    ok := true;
  }

  /** The distance pass cannot fail after a successful load: the built grid always
      has Width*Height cells. */
  lemma DistancePassSizeMatches(pixels: seq<byte>, width: int, height: int, p: ParseParams)
    requires width > 0 && height > 0 && |pixels| == width * height
    ensures |CellGrid(pixels, width, height, p)| == width * height
  {
  }

  /** A cell exactly at sea level is not a search source: its depth is 0 and its
      initial distance 0 is replaced by the pass with a positive value. */
  lemma SeaLevelCellIsNotSource(pixels: seq<byte>, width: int, height: int, p: ParseParams, i: int)
    requires width > 0 && height > 0 && |pixels| == width * height && |pixels| <= Int32Max && 0 <= i < |pixels|
    requires CalculateAltitude(pixels[i], p.minAltitude, p.maxAltitude) == p.seaLevel
    ensures CellGrid(pixels, width, height, p)[i].oceanDepth == 0.0
    ensures CellGrid(pixels, width, height, p)[i].distanceToOcean == 0.0
    ensures WithDistances(CellGrid(pixels, width, height, p), width)[i].distanceToOcean > 0.0
  {
    var cells := CellGrid(pixels, width, height, p);
    if HasOcean(cells) {
      NearestOceanBounded(cells, width, height, i);
      if NearestOcean(cells, width, i) == 0 {
        ZeroNearestIsOcean(cells, width, height, i);
      }
    }
  }
}
