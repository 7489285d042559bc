/**
 * The multi-camera monitor of `Scene` (src/scene.cpp): a 1270-pixel-wide image whose
 * height grows with the number of cameras, with one 199x112 tile per top camera. The
 * first four tiles sit in a 2x2 block right of the 398-pixel-wide preview column; the
 * others fill rows of four below it.
 */
module MonitorLayout {

  const MONITOR_WIDTH: int := 1270
  const TILE_WIDTH: int := 199
  const TILE_HEIGHT: int := 112
  /** The width of the preview column at the left of the first rows. */
  const PREVIEW_WIDTH: int := 398

  /**
   * C++ `int` division, which truncates toward zero (Dafny's `/` is Euclidean): the
   * quotient has the sign of `a`, and the remainder `a - q * b` has the sign of `a` and
   * is smaller than `b` in magnitude.
   */
  function CDiv(a: int, b: int): (q: int)
    requires b > 0
    ensures a >= 0 ==> q >= 0 && 0 <= a - q * b < b
    ensures a < 0 ==> q <= 0 && -b < a - q * b <= 0
  {
    if a >= 0 then a / b else -((-a) / b)
  }

  /** Truncation toward zero determines the quotient: any such `q` is `CDiv(a, b)`. */
  lemma CDivIsTruncation(a: int, b: int, q: int)
    requires b > 0
    requires a >= 0 ==> 0 <= a - q * b < b
    requires a < 0 ==> -b < a - q * b <= 0
    ensures q == CDiv(a, b)
  {
    var c := CDiv(a, b);
    var k := q - c;
    assert (a - c * b) - (a - q * b) == k * b;
  }

  /** The height of the monitor for `n` cameras (top and lateral): `224 + 112*((n-1)/4)`. */
  function MonitorHeight(n: int): int {
    224 + 112 * CDiv(n - 1, 4)
  }

  /** The column of the tile of top camera `i`. */
  function XOffset(i: nat): int {
    if i < 4 then 398 + 199 * (i % 2) else 199 * (i % 4)
  }

  /** The row of the tile of top camera `i`. */
  function YOffset(i: nat): int {
    if i < 4 then 112 * (i / 2) else 224 + 112 * ((i - 4) / 4)
  }

  /** With no camera at all, C's truncating division still gives the two-row minimum. */
  lemma EmptyMonitorHeight()
    ensures MonitorHeight(0) == 224
  {
  }

  /** The height grows by one 112-pixel row for every four cameras beyond the first four. */
  lemma HeightRows(n: int)
    requires n >= 1
    ensures MonitorHeight(n) >= 224
    ensures n <= 4 ==> MonitorHeight(n) == 224
    ensures MonitorHeight(n + 4) == MonitorHeight(n) + TILE_HEIGHT
  {
  }

  /** Every tile of a camera `i < n` lies inside the `1270 x MonitorHeight(n)` monitor. */
  lemma TileInsideMonitor(n: int, i: nat)
    requires i < n
    ensures 0 <= XOffset(i) && XOffset(i) + TILE_WIDTH <= MONITOR_WIDTH
    ensures 0 <= YOffset(i) && YOffset(i) + TILE_HEIGHT <= MonitorHeight(n)
  {
    if i >= 4 {
      assert (i - 4) / 4 + 1 == i / 4;
      assert i / 4 <= (n - 1) / 4;
    }
  }

  /** The four first tiles stay right of the preview column. */
  lemma FirstTilesRightOfPreview(i: nat)
    requires i < 4
    ensures XOffset(i) >= PREVIEW_WIDTH
    ensures YOffset(i) + TILE_HEIGHT <= 224
  {
  }

  /** The grid cell of tile `i`: column and row in 199x112 units. */
  function Cell(i: nat): (c: (int, int))
    ensures XOffset(i) == TILE_WIDTH * c.0 && YOffset(i) == TILE_HEIGHT * c.1
  {
    if i < 4 then (2 + i % 2, i / 2) else (i % 4, 2 + (i - 4) / 4)
  }

  lemma CellsDistinct(i: nat, j: nat)
    requires i != j
    ensures Cell(i) != Cell(j)
  {
    if i >= 4 && j >= 4 && i % 4 == j % 4 {
      assert i == 4 + 4 * ((i - 4) / 4) + i % 4;
      assert j == 4 + 4 * ((j - 4) / 4) + j % 4;
    }
  }

  /** Two different cameras never draw over each other's tile. */
  lemma TilesDisjoint(i: nat, j: nat)
    requires i != j
    ensures || XOffset(i) + TILE_WIDTH <= XOffset(j) || XOffset(j) + TILE_WIDTH <= XOffset(i)
            || YOffset(i) + TILE_HEIGHT <= YOffset(j) || YOffset(j) + TILE_HEIGHT <= YOffset(i)
  {
    CellsDistinct(i, j);
    var ci, cj := Cell(i), Cell(j);
    if ci.0 != cj.0 {
      assert ci.0 + 1 <= cj.0 || cj.0 + 1 <= ci.0;
    } else {
      assert ci.1 + 1 <= cj.1 || cj.1 + 1 <= ci.1;
    }
  }
}
