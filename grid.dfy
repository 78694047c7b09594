/** Row-major grid geometry shared by the heightmap passes: cell `Index` sits at
    column `Index % Width` and row `Index / Width`. For a non-negative index and a
    non-zero width, Dafny's `%` and `/` agree with the C++ operators. */
module Grid {

  function Col(i: int, w: int): int
    requires w != 0
  {
    i % w
  }

  function Row(i: int, w: int): int
    requires w != 0
  {
    i / w
  }

  function Index(x: int, y: int, w: int): int
  {
    y * w + x
  }

  predicate InGrid(x: int, y: int, w: int, h: int)
  {
    0 <= x < w && 0 <= y < h
  }

  function IAbs(a: int): nat
  {
    if a < 0 then -a else a
  }

  /** City-block distance between two cells. */
  function Manhattan(i: int, j: int, w: int): nat
    requires w != 0
  {
    IAbs(Col(i, w) - Col(j, w)) + IAbs(Row(i, w) - Row(j, w))
  }

  /** The column and row of `Index(x, y, w)` are `x` and `y`. */
  lemma IndexCoords(x: int, y: int, w: int)
    requires 0 <= x < w
    ensures Col(Index(x, y, w), w) == x && Row(Index(x, y, w), w) == y
  {
    var i := Index(x, y, w);
    var q, r := i / w, i % w;
    assert i == w * q + r && 0 <= r < w;
    assert w * (y - q) == r - x;
    if y - q >= 1 {
      MulAtLeast(w, y - q);
    } else if y - q <= -1 {
      MulAtLeast(w, q - y);
    }
  }

  lemma MulAtLeast(w: int, k: int)
    requires w > 0 && k >= 1
    ensures w * k >= w
  {
  }

  /** Every index of a `w` by `h` grid has in-grid coordinates and is rebuilt from them. */
  lemma CoordsInGrid(i: int, w: int, h: int)
    requires w > 0 && 0 <= i < w * h
    ensures InGrid(Col(i, w), Row(i, w), w, h)
    ensures Index(Col(i, w), Row(i, w), w) == i
  {
    var q, r := i / w, i % w;
    assert i == w * q + r;
  }

  lemma MulMono(w: int, a: int, b: int)
    requires w >= 0 && a <= b
    ensures w * a <= w * b
  {
  }

  /** The largest city-block distance on a `w` by `h` grid is below its cell count. */
  lemma SumBelowProduct(w: int, h: int)
    requires w > 0 && h > 0
    ensures (w - 1) + (h - 1) < w * h
  {
    MulMono(w - 1, 0, h - 1);
    assert (w - 1) * (h - 1) >= 0;
    assert w * h == (w - 1) * (h - 1) + (w - 1) + (h - 1) + 1;
  }

  /** In-grid coordinates give an index inside the grid. */
  lemma IndexInRange(x: int, y: int, w: int, h: int)
    requires InGrid(x, y, w, h)
    ensures 0 <= Index(x, y, w) < w * h
  {
    MulMono(w, y, h - 1);
    assert y * w <= (h - 1) * w;
  }

  /** The bounds test of the neighbour loops can only pass when the width is positive. */
  lemma InGridWidthPositive(x: int, y: int, w: int, h: int)
    requires InGrid(x, y, w, h)
    ensures w > 0 && h > 0
  {
  }
}
