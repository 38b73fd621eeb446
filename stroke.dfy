/** The stroke interpolator of the Canvas component's mouse-move handler: from
    the previous pointer position and the current one it produces the points at
    which the brush is stamped, at most a quarter of the brush size apart. */
module Stroke {
  import opened Geometry

  function Sq(v: real): real
  {
    v * v
  }

  /** Largest gap allowed between consecutive stamps: brushSize / 4. */
  function Spacing(brushSize: real): real
  {
    brushSize / 4.0
  }

  /** The point at parameter t on the segment from a to b. */
  function Lerp(a: Point, b: Point, t: real): Point
  {
    Point(a.x + (b.x - a.x) * t, a.y + (b.y - a.y) * t)
  }

  lemma SqMonotone(a: real, b: real)
    requires 0.0 <= a <= b
    ensures Sq(a) <= Sq(b)
  {
    assert a * a <= a * b;
    assert a * b <= b * b;
  }

  /** Dividing both sides of a * q < b by a positive q. */
  lemma DivideBoth(a: real, b: real, q: real)
    requires q > 0.0 && a * q < b
    ensures a < b / q
  {
    var c := b / q;
    assert c * q == b;
    if a >= c {
      ScaleMonotone(c, a, q);
    }
  }

  /** A candidate count whose span n*s is still short of the distance is below
      the bound that makes the counting in CountFrom terminate. */
  lemma CountBelowBound(d2: real, s: real, n: nat)
    requires s > 0.0 && n >= 1 && Sq(n as real * s) < d2
    ensures n as real < d2 / (s * s)
  {
    var m, q := n as real, s * s;
    assert Sq(m * s) == (m * m) * q;
    ScaleMonotone(1.0, m, m);
    ScaleMonotone(m, m * m, q);
    DivideBoth(m, d2, q);
  }

  /** The least k >= n whose span k*s reaches the distance sqrt(d2). */
  function CountFrom(d2: real, s: real, n: nat): (k: nat)
    requires s > 0.0 && n >= 1 && Sq((n - 1) as real * s) < d2
    ensures k >= n
    ensures Sq((k - 1) as real * s) < d2 <= Sq(k as real * s)
    decreases (d2 / (s * s)).Floor - n
  {
    if d2 <= Sq(n as real * s) then n
    else
      CountBelowBound(d2, s, n);
      CountFrom(d2, s, n + 1)
  }

  /** Math.ceil(dist / s) for dist = sqrt(d2) > s, characterised without the
      square root: (steps - 1) * s < dist <= steps * s. */
  function StepCount(d2: real, s: real): (steps: nat)
    requires s > 0.0 && d2 > Sq(s)
    ensures steps >= 2
    ensures Sq((steps - 1) as real * s) < d2 <= Sq(steps as real * s)
  {
    CountFrom(d2, s, 1)
  }

  /** Spans grow with the count. */
  lemma SpanMonotone(s: real, j: int, k: int)
    requires s > 0.0 && 0 <= j <= k
    ensures Sq(j as real * s) <= Sq(k as real * s)
  {
    ScaleMonotone(0.0, j as real, s);
    ScaleMonotone(j as real, k as real, s);
    SqMonotone(j as real * s, k as real * s);
  }

  /** The characterisation pins the count down: no other n satisfies it. */
  lemma StepCountUnique(d2: real, s: real, n: nat)
    requires s > 0.0 && d2 > Sq(s) && n >= 1
    requires Sq((n - 1) as real * s) < d2 <= Sq(n as real * s)
    ensures StepCount(d2, s) == n
  {
    var k := StepCount(d2, s);
    if k < n {
      SpanMonotone(s, k, n - 1);
    } else if k > n {
      SpanMonotone(s, n, k - 1);
    }
  }

  /** pts are the points at parameters 1/n, 2/n, ..., n/n of the segment from
      a to b, where n is the number of points. */
  predicate OnGrid(a: Point, b: Point, pts: seq<Point>)
  {
    forall k :: 0 <= k < |pts| ==> pts[k] == Lerp(a, b, (k + 1) as real / |pts| as real)
  }

  /** The i-th point of a grid, counting from 1, is at parameter i/n. */
  lemma GridPoint(a: Point, b: Point, pts: seq<Point>, i: nat)
    requires OnGrid(a, b, pts) && 1 <= i <= |pts|
    ensures pts[i - 1] == Lerp(a, b, i as real / |pts| as real)
  {
    assert ((i - 1) + 1) as real == i as real;
  }

  /** A grid is fixed by its ends and its number of points. */
  lemma GridUnique(a: Point, b: Point, xs: seq<Point>, ys: seq<Point>)
    requires OnGrid(a, b, xs) && OnGrid(a, b, ys) && |xs| == |ys|
    ensures xs == ys
  {
  }

  /** The points the mouse-move handler stamps when the pointer moves from last
      to cur: cur alone when it is within a spacing of last, otherwise steps
      points at t = i/steps for i = 1..steps. last itself is never included. */
  function StrokePoints(last: Point, cur: Point, brushSize: real): (pts: seq<Point>)
    requires brushSize > 0.0
    ensures |pts| >= 1 && pts[|pts| - 1] == cur
    ensures |pts| == 1 <==> DistSq(last, cur) <= Sq(Spacing(brushSize))
    ensures |pts| > 1 ==> |pts| == StepCount(DistSq(last, cur), Spacing(brushSize))
    ensures OnGrid(last, cur, pts)
  {
    var s, d2 := Spacing(brushSize), DistSq(last, cur);
    if d2 > Sq(s) then
      var steps := StepCount(d2, s);
      var pts := seq(steps, k requires 0 <= k < steps => Lerp(last, cur, (k + 1) as real / steps as real));
      assert pts[steps - 1] == cur by {
        assert (steps - 1 + 1) as real / steps as real == 1.0;
        LerpEnds(last, cur);
      }
      pts
    else
      assert cur == Lerp(last, cur, 1.0 / 1.0) by {
        LerpEnds(last, cur);
      }
      [cur]
  }

  lemma LerpEnds(a: Point, b: Point)
    ensures Lerp(a, b, 0.0) == a && Lerp(a, b, 1.0) == b
  {
  }

  /** Two points of one segment are apart by the difference of their parameters
      times the segment's length. */
  lemma LerpGap(a: Point, b: Point, t1: real, t2: real)
    ensures DistSq(Lerp(a, b, t1), Lerp(a, b, t2)) == Sq(t2 - t1) * DistSq(a, b)
  {
    var dx, dy, dt := b.x - a.x, b.y - a.y, t2 - t1;
    var p, q := Lerp(a, b, t1), Lerp(a, b, t2);
    LerpDelta(a.x, dx, t1, t2);
    LerpDelta(a.y, dy, t1, t2);
    SqProduct(dx, dt);
    SqProduct(dy, dt);
    assert Sq(dt) * Sq(dx) + Sq(dt) * Sq(dy) == Sq(dt) * (Sq(dx) + Sq(dy));
  }

  lemma LerpDelta(a: real, d: real, t1: real, t2: real)
    ensures (a + d * t2) - (a + d * t1) == d * (t2 - t1)
  {
  }

  lemma SqProduct(d: real, t: real)
    ensures Sq(d * t) == Sq(t) * Sq(d)
  {
  }

  /** If n spacings cover the distance, an n-th of it is at most a spacing. */
  lemma ShareBound(n: real, s: real, d2: real)
    requires n > 0.0 && d2 <= Sq(n * s)
    ensures Sq(1.0 / n) * d2 <= Sq(s)
  {
    var u := 1.0 / n;
    assert u * n == 1.0;
    assert u > 0.0;
    ScaleMonotone(d2, Sq(n * s), Sq(u));
    assert Sq(n * s) * Sq(u) == Sq((u * n) * s);
  }

  lemma ConsecutiveParameters(k: int, n: real)
    requires n > 0.0
    ensures (k + 1) as real / n - k as real / n == 1.0 / n
  {
  }

  /** On an even grid of parameters (k+1)/n, consecutive points (counting the
      start a as the one before the first) are one step, 1/n, apart. */
  lemma GridGap(a: Point, b: Point, pts: seq<Point>, k: nat)
    requires k < |pts| && OnGrid(a, b, pts)
    ensures DistSq(if k == 0 then a else pts[k - 1], pts[k]) == Sq(1.0 / |pts| as real) * DistSq(a, b)
  {
    var n := |pts| as real;
    var t0, t1 := k as real / n, (k + 1) as real / n;
    assert (if k == 0 then a else pts[k - 1]) == Lerp(a, b, t0) by {
      if k == 0 {
        assert t0 == 0.0;
        LerpEnds(a, b);
      } else {
        assert pts[k - 1] == Lerp(a, b, ((k - 1) + 1) as real / n);
      }
    }
    LerpGap(a, b, t0, t1);
    ConsecutiveParameters(k, n);
  }

  /** The parameter step is small enough: (dist / steps)^2 <= spacing^2. */
  lemma StrokeShare(last: Point, cur: Point, brushSize: real)
    requires brushSize > 0.0
    ensures Sq(1.0 / |StrokePoints(last, cur, brushSize)| as real) * DistSq(last, cur)
         <= Sq(Spacing(brushSize))
  {
    var pts := StrokePoints(last, cur, brushSize);
    if |pts| > 1 {
      ShareBound(|pts| as real, Spacing(brushSize), DistSq(last, cur));
    } else {
      assert 1.0 / |pts| as real == 1.0;
    }
  }

  /** Every stamp is within one spacing of the one before it (the first stamp of
      last, which is itself not stamped), and all the gaps are equal: dist / steps. */
  lemma StrokeSpacing(last: Point, cur: Point, brushSize: real, k: nat)
    requires brushSize > 0.0 && k < |StrokePoints(last, cur, brushSize)|
    ensures var pts := StrokePoints(last, cur, brushSize);
      var before := if k == 0 then last else pts[k - 1];
      DistSq(before, pts[k]) == Sq(1.0 / |pts| as real) * DistSq(last, cur) <= Sq(Spacing(brushSize))
  {
    var pts := StrokePoints(last, cur, brushSize);
    GridGap(last, cur, pts, k);
    StrokeShare(last, cur, brushSize);
  }

  /** Stamps run along the segment from last to cur in strictly increasing t,
      every t in (0, 1]: an earlier stamp j sits at a smaller t than a later
      stamp k. */
  lemma StrokeOnSegment(last: Point, cur: Point, brushSize: real, j: nat, k: nat)
    requires brushSize > 0.0 && j < k < |StrokePoints(last, cur, brushSize)|
    ensures var pts := StrokePoints(last, cur, brushSize);
      && pts[j] == Lerp(last, cur, (j + 1) as real / |pts| as real)
      && pts[k] == Lerp(last, cur, (k + 1) as real / |pts| as real)
      && 0.0 < (j + 1) as real / |pts| as real < (k + 1) as real / |pts| as real <= 1.0
  {
    var pts := StrokePoints(last, cur, brushSize);
    GridOrder(|pts|, j, k);
  }

  /** Grid parameters (i + 1) / n increase strictly with i and lie in (0, 1]. */
  lemma GridOrder(n: nat, j: nat, k: nat)
    requires j < k < n
    ensures 0.0 < (j + 1) as real / n as real < (k + 1) as real / n as real <= 1.0
  {
    DivideStrict(0.0, (j + 1) as real, n as real);
    DivideStrict((j + 1) as real, (k + 1) as real, n as real);
    if k + 1 < n {
      DivideStrict((k + 1) as real, n as real, n as real);
    }
  }

  /** Dividing by a positive number keeps a strict order. */
  lemma DivideStrict(a: real, b: real, n: real)
    requires n > 0.0 && a < b
    ensures a / n < b / n
  {
    var p, q := a / n, b / n;
    assert p * n == a && q * n == b;
    if p >= q {
      ScaleMonotone(q, p, n);
    }
  }

  /** A 100-pixel horizontal drag with a 20-pixel brush (spacing 5) stamps
      exactly 20 points, at x = 5, 10, ..., 100. */
  lemma HorizontalDragStamps()
    ensures var pts := StrokePoints(Point(0.0, 0.0), Point(100.0, 0.0), 20.0);
      |pts| == 20 && forall k :: 0 <= k < 20 ==> pts[k] == Point(5.0 * (k + 1) as real, 0.0)
  {
    var last, cur := Point(0.0, 0.0), Point(100.0, 0.0);
    var pts := StrokePoints(last, cur, 20.0);
    assert DistSq(last, cur) == 10000.0;
    assert Spacing(20.0) == 5.0;
    StepCountUnique(10000.0, 5.0, 20);
    assert |pts| == 20;
    forall k | 0 <= k < 20
      ensures pts[k] == Point(5.0 * (k + 1) as real, 0.0)
    {
      assert pts[k] == Lerp(last, cur, (k + 1) as real / 20.0);
    }
  }
}
