/**
 * The arithmetic of the calculation (main.py, calculate): the tile count
 * along one axis, its rounding up to whole tiles, the total, and the
 * cut-off on the last tile of each axis. Python floats are idealised as
 * exact reals.
 */
module TileCount {

  /** Python's int() on a float: truncation toward zero. */
  function Trunc(x: real): (n: int)
    ensures 0.0 <= x ==> n as real <= x < n as real + 1.0
    ensures x < 0.0 ==> n as real - 1.0 < x <= n as real
  {
    if x >= 0.0 then x.Floor else -((-x).Floor)
  }

  /** float.is_integer(): the value has no fractional part. */
  predicate IsInteger(x: real) {
    x.Floor as real == x
  }

  /** n is the least integer not below x. */
  predicate IsCeiling(n: int, x: real) {
    x <= n as real < x + 1.0
  }

  /** The rounding the calculation applies: int(x) when x is integral, int(x) + 1 otherwise. */
  function RoundUp(x: real): int {
    if IsInteger(x) then Trunc(x) else Trunc(x) + 1
  }

  /**
   * The rounding is the ceiling exactly when x is not negative or is integral;
   * a negative non-integral x is rounded one too high (int() truncates toward zero).
   */
  lemma RoundUpIsCeiling(x: real)
    ensures IsCeiling(RoundUp(x), x) <==> (0.0 <= x || IsInteger(x))
    ensures x < 0.0 && !IsInteger(x) ==> RoundUp(x) == x.Floor + 2
  {
    if IsInteger(x) && x < 0.0 {
      assert (-x).Floor == -x.Floor by {
        assert (-x.Floor) as real == -x;
      }
    }
  }

  /** The integer m is not below x. */
  predicate NotBelow(m: int, x: real) {
    x <= m as real
  }

  /** The ceiling is unique, and it is the least integer not below x. */
  lemma CeilingIsLeast(n: int, x: real)
    requires IsCeiling(n, x)
    ensures NotBelow(n, x)
    ensures forall m: int :: NotBelow(m, x) ==> n <= m
    ensures forall m: int :: IsCeiling(m, x) ==> m == n
  {
  }

  /** The raw, fractional count along an axis: the first tile needs no leading joint. */
  function RawCount(d: real, t: real, g: real): real
    requires t + g > 0.0
  {
    (d + g) / (t + g)
  }

  /** Whole tiles along an axis of length d, tiles of size t and joints of width g. */
  function AxisCount(d: real, t: real, g: real): int
    requires t + g > 0.0
  {
    RoundUp(RawCount(d, t, g))
  }

  /** The length covered by n tiles laid in a row with n - 1 joints between them. */
  function Span(n: int, t: real, g: real): real {
    n as real * t + (n - 1) as real * g
  }

  /** The cut-off on an axis: how far n tiles and their joints overshoot the surface length d. */
  function CutOff(n: int, d: real, t: real, g: real): real {
    n as real * (t + g) - g - d
  }

  /** n tiles are the fewest that, with their joints, cover a surface of length d. */
  predicate LeastCover(n: int, d: real, t: real, g: real) {
    1 <= n && d <= Span(n, t, g) && Span(n - 1, t, g) < d
  }

  /** Dividing by a positive pitch s keeps the order with an integer bound. */
  lemma DivideByPitch(a: real, s: real, m: int)
    requires s > 0.0
    ensures a <= m as real * s <==> a / s <= m as real
    ensures a < m as real * s <==> a / s < m as real
  {
    var q := a / s;
    assert q * s == a;
    if a <= m as real * s {
      assert q * s <= m as real * s;
    }
    if q <= m as real {
      assert q * s <= m as real * s;
    }
  }

  /** A span of m tiles covers d exactly when m is at least the raw count. */
  lemma SpanCovers(m: int, d: real, t: real, g: real)
    requires t + g > 0.0
    ensures d <= Span(m, t, g) <==> RawCount(d, t, g) <= m as real
    ensures Span(m, t, g) < d <==> m as real < RawCount(d, t, g)
  {
    assert Span(m, t, g) == m as real * (t + g) - g;
    DivideByPitch(d + g, t + g, m);
  }

  /** For a positive length, the rounded count is the fewest tiles that cover it. */
  lemma AxisCountIsLeastCover(d: real, t: real, g: real)
    requires d > 0.0 && t > 0.0 && g >= 0.0
    ensures LeastCover(AxisCount(d, t, g), d, t, g)
    ensures forall m: int :: d <= Span(m, t, g) ==> AxisCount(d, t, g) <= m
  {
    var raw := RawCount(d, t, g);
    var n := AxisCount(d, t, g);
    assert raw > 0.0;
    RoundUpIsCeiling(raw);
    SpanCovers(n, d, t, g);
    SpanCovers(n - 1, d, t, g);
    forall m: int | d <= Span(m, t, g)
      ensures n <= m
    {
      SpanCovers(m, d, t, g);
    }
  }

  /**
   * The cut-off is the overshoot of the covering span, it is never negative and
   * shorter than one tile with its joint, and it is zero exactly when the raw count is whole.
   */
  lemma CutOffBounds(d: real, t: real, g: real)
    requires d > 0.0 && t > 0.0 && g >= 0.0
    ensures CutOff(AxisCount(d, t, g), d, t, g) == Span(AxisCount(d, t, g), t, g) - d
    ensures 0.0 <= CutOff(AxisCount(d, t, g), d, t, g) < t + g
    ensures CutOff(AxisCount(d, t, g), d, t, g) == 0.0 <==> IsInteger(RawCount(d, t, g))
  {
    var raw := RawCount(d, t, g);
    var n := AxisCount(d, t, g);
    RawCountFacts(d, t, g);
    RoundUpIsCeiling(raw);
    var f := n as real - raw;
    OvershootIsFraction(n, raw, d, t, g);
    assert CutOff(n, d, t, g) == Span(n, t, g) - d;
    assert 0.0 <= f < 1.0;
    ScaledFraction(f, t + g);
    assert CutOff(n, d, t, g) == f * (t + g);
    assert f == 0.0 <==> IsInteger(raw) by {
      if f == 0.0 {
        assert raw.Floor == n;
      }
    }
  }

  /** For a positive dimension the raw count is positive, and it measures the dimension in pitches. */
  lemma RawCountFacts(d: real, t: real, g: real)
    requires d > 0.0 && t > 0.0 && g >= 0.0
    ensures RawCount(d, t, g) > 0.0
    ensures RawCount(d, t, g) * (t + g) == d + g
  {
  }

  /** The overshoot of n pitches over the dimension is the excess of n over the raw count, in pitches. */
  lemma OvershootIsFraction(n: int, raw: real, d: real, t: real, g: real)
    requires raw * (t + g) == d + g
    ensures CutOff(n, d, t, g) == (n as real - raw) * (t + g)
    ensures Span(n, t, g) == n as real * (t + g) - g
  {
  }

  /** A fraction 0 <= f < 1 of a positive length s is shorter than s, and zero only when f is. */
  lemma ScaledFraction(f: real, s: real)
    requires 0.0 <= f < 1.0 && s > 0.0
    ensures 0.0 <= f * s < s
    ensures f * s == 0.0 <==> f == 0.0
  {
  }

  /** A longer surface never needs fewer tiles along that axis. */
  lemma AxisCountMonotone(d1: real, d2: real, t: real, g: real)
    requires 0.0 < d1 <= d2 && t > 0.0 && g >= 0.0
    ensures AxisCount(d1, t, g) <= AxisCount(d2, t, g)
  {
    AxisCountIsLeastCover(d1, t, g);
    AxisCountIsLeastCover(d2, t, g);
  }

  /** The figures the calculation produces for one surface. */
  datatype Tiling = Tiling(
    length: real, height: real, tileSize: real, grout: real,
    tilesLength: int, tilesHeight: int, total: int,
    cutLength: real, cutHeight: real)

  /** What a tiling of a surface promises: least covers per axis, a full grid, bounded cut-offs. */
  predicate Sound(r: Tiling) {
    && LeastCover(r.tilesLength, r.length, r.tileSize, r.grout)
    && LeastCover(r.tilesHeight, r.height, r.tileSize, r.grout)
    && r.total == r.tilesLength * r.tilesHeight
    && r.cutLength == Span(r.tilesLength, r.tileSize, r.grout) - r.length
    && r.cutHeight == Span(r.tilesHeight, r.tileSize, r.grout) - r.height
    && 0.0 <= r.cutLength < r.tileSize + r.grout
    && 0.0 <= r.cutHeight < r.tileSize + r.grout
  }

  /** The per-axis counts, their product and the two cut-offs, for validated inputs. */
  function Compute(length: real, height: real, tileSize: real, grout: real): (r: Tiling)
    requires length > 0.0 && height > 0.0 && tileSize > 0.0 && grout >= 0.0
    ensures r.length == length && r.height == height && r.tileSize == tileSize && r.grout == grout
    ensures Sound(r)
    ensures r.total >= 1
    ensures r.cutLength == 0.0 <==> IsInteger(RawCount(length, tileSize, grout))
    ensures r.cutHeight == 0.0 <==> IsInteger(RawCount(height, tileSize, grout))
  {
    AxisCountIsLeastCover(length, tileSize, grout);
    AxisCountIsLeastCover(height, tileSize, grout);
    CutOffBounds(length, tileSize, grout);
    CutOffBounds(height, tileSize, grout);
    var tilesLength := AxisCount(length, tileSize, grout);
    var tilesHeight := AxisCount(height, tileSize, grout);
    Tiling(length, height, tileSize, grout,
           tilesLength, tilesHeight, tilesLength * tilesHeight,
           CutOff(tilesLength, length, tileSize, grout),
           CutOff(tilesHeight, height, tileSize, grout))
  }

  /** At most one count is the least cover of a surface. */
  lemma LeastCoverUnique(n: int, m: int, d: real, t: real, g: real)
    requires t > 0.0 && g >= 0.0
    requires LeastCover(n, d, t, g) && LeastCover(m, d, t, g)
    ensures n == m
  {
    SpanCovers(n, d, t, g);
    SpanCovers(n - 1, d, t, g);
    SpanCovers(m, d, t, g);
    SpanCovers(m - 1, d, t, g);
  }

  /** Sound pins a tiling down: the only sound tiling of given inputs is the computed one. */
  lemma SoundIsComputed(r: Tiling)
    requires r.length > 0.0 && r.height > 0.0 && r.tileSize > 0.0 && r.grout >= 0.0
    requires Sound(r)
    ensures r == Compute(r.length, r.height, r.tileSize, r.grout)
  {
    var c := Compute(r.length, r.height, r.tileSize, r.grout);
    LeastCoverUnique(r.tilesLength, c.tilesLength, r.length, r.tileSize, r.grout);
    LeastCoverUnique(r.tilesHeight, c.tilesHeight, r.height, r.tileSize, r.grout);
  }

  /** A 3 m by 2 m wall, 0.3 m tiles and 1 mm joints: 10 by 7 tiles, 70 in all, cut on both axes. */
  lemma ExampleWall()
    ensures Compute(3.0, 2.0, 0.3, 0.001).tilesLength == 10
    ensures Compute(3.0, 2.0, 0.3, 0.001).tilesHeight == 7
    ensures Compute(3.0, 2.0, 0.3, 0.001).total == 70
    ensures Compute(3.0, 2.0, 0.3, 0.001).cutLength > 0.0
    ensures Compute(3.0, 2.0, 0.3, 0.001).cutHeight > 0.0
  {
    var c := Compute(3.0, 2.0, 0.3, 0.001);
    LeastCoverUnique(c.tilesLength, 10, 3.0, 0.3, 0.001);
    LeastCoverUnique(c.tilesHeight, 7, 2.0, 0.3, 0.001);
  }

  /** A 1 m square with 1 m tiles and 0.5 mm joints: one tile, nothing to cut. */
  lemma ExampleOneTile()
    ensures Compute(1.0, 1.0, 1.0, 0.0005).total == 1
    ensures Compute(1.0, 1.0, 1.0, 0.0005).cutLength == 0.0
    ensures Compute(1.0, 1.0, 1.0, 0.0005).cutHeight == 0.0
  {
    var c := Compute(1.0, 1.0, 1.0, 0.0005);
    assert LeastCover(1, 1.0, 1.0, 0.0005) by {
      assert Span(1, 1.0, 0.0005) == 1.0;
      assert Span(0, 1.0, 0.0005) == -0.0005;
    }
    LeastCoverUnique(c.tilesLength, 1, 1.0, 1.0, 0.0005);
    LeastCoverUnique(c.tilesHeight, 1, 1.0, 1.0, 0.0005);
    assert Span(c.tilesLength, 1.0, 0.0005) == 1.0;
  }
}
