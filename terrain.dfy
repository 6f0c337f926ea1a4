/**
 * The terrain mesher of terrain.cxx: a regular grid of elevation samples is
 * thinned in place until a pass removes nothing more, compacted in place,
 * handed to a triangulator, given accumulated vertex normals and written as
 * one batch of the indexed mesh writer.
 *
 * A grid point is `Point(x, y, z)`; the source marks a removed point by
 * storing NaN in z, which is `z == None` here. The sample array, the normal
 * array and the in-place passes over them stay arrays and loops.
 */
module Terrain {
  import opened Wrappers
  import opened Obj
  import opened ElevationTiles
  import opened Projection

  /** A grid sample (`XYZ`); z is None once thinning has removed it. */
  datatype Point = Point(x: real, y: real, z: Option<real>)

  /** A triangle over indices of the compacted point array (`ITRIANGLE`). */
  datatype Triangle = Triangle(p1: int, p2: int, p3: int)

  // ---------------------------------------------------------------------
  // Vectors (terrain.cxx:15-43)
  // ---------------------------------------------------------------------

  /** vecAdd (terrain.cxx:15-19), as a value: the componentwise sum. */
  function VecAdd(a: Vec3, b: Vec3): (r: Vec3)
    ensures a == Zero ==> r == b
    ensures r.x - b.x == a.x && r.y - b.y == a.y && r.z - b.z == a.z
  {
    Vec3(a.x + b.x, a.y + b.y, a.z + b.z)
  }

  /** vecSub (terrain.cxx:21-25): the vector that, added to b, gives a. */
  function VecSub(a: Vec3, b: Vec3): (r: Vec3)
    ensures VecAdd(r, b) == a
  {
    Vec3(a.x - b.x, a.y - b.y, a.z - b.z)
  }

  function Dot(a: Vec3, b: Vec3): real
  {
    a.x * b.x + a.y * b.y + a.z * b.z
  }

  /** The cross product triangleNormal forms (terrain.cxx:34-36): it is
      orthogonal to both edges. */
  function Cross(u: Vec3, v: Vec3): (r: Vec3)
    ensures Dot(r, u) == 0.0 && Dot(r, v) == 0.0
  {
    Vec3(u.y * v.z - u.z * v.y, u.z * v.x - u.x * v.z, u.x * v.y - u.y * v.x)
  }

  // ---------------------------------------------------------------------
  // findNearHeight (terrain.cxx:45-52)
  // ---------------------------------------------------------------------

  /** `reach` slots from `floor` on hold heights, so a walk that starts below
      floor with a stride of at most `reach` stops at the latest there. */
  predicate Landing(pts: seq<Point>, floor: int, reach: int)
  {
    && 0 <= floor && floor + reach <= |pts|
    && forall t :: floor <= t < floor + reach ==> pts[t].z.Some?
  }

  /** The slot findNearHeight stops at: the first slot after s, on the
      stride, that holds a height. */
  function NearSlot(pts: seq<Point>, s: int, step: int, floor: int, reach: int): (r: int)
    requires 0 <= s < floor && 1 <= step <= reach && Landing(pts, floor, reach)
    ensures s < r < |pts| && pts[r].z.Some?
    decreases floor - s
  {
    if pts[s + step].z.Some? then s + step else NearSlot(pts, s + step, step, floor, reach)
  }

  /** t is s plus a whole number of strides. */
  predicate OnStride(s: int, t: int, step: int)
    requires step >= 1
    decreases t - s
  {
    t == s || (s < t && OnStride(s, t - step, step))
  }

  lemma {:induction false} OnStrideShift(s: int, t: int, step: int)
    requires step >= 1 && s < t && OnStride(s, t, step)
    ensures s + step <= t && OnStride(s + step, t, step)
    decreases t - s
  {
    if t - step != s {
      OnStrideShift(s, t - step, step);
    }
  }

  /** The walk moves by whole strides and passes over removed slots only:
      it stops at the first slot on its stride that holds a height. */
  lemma {:induction false} NearSlotFirst(pts: seq<Point>, s: int, step: int, floor: int, reach: int, t: int)
    requires 0 <= s < floor && 1 <= step <= reach && Landing(pts, floor, reach)
    ensures OnStride(s, NearSlot(pts, s, step, floor, reach), step)
    ensures s < t < NearSlot(pts, s, step, floor, reach) && OnStride(s, t, step) ==> pts[t].z.None?
    decreases floor - s
  {
    var next := s + step;
    assert OnStride(s, next, step) by {
      assert OnStride(s, next - step, step);
    }
    if s < t && OnStride(s, t, step) {
      OnStrideShift(s, t, step);
    }
    if pts[next].z.None? {
      NearSlotFirst(pts, next, step, floor, reach, t);
      OnStrideJoin(s, next, NearSlot(pts, next, step, floor, reach), step);
    }
  }

  /** Strides compose: from s to m and from m to t is from s to t. */
  lemma {:induction false} OnStrideJoin(s: int, m: int, t: int, step: int)
    requires step >= 1 && OnStride(s, m, step) && OnStride(m, t, step)
    ensures OnStride(s, t, step)
    decreases t - m
  {
    if t != m {
      OnStrideJoin(s, m, t - step, step);
      assert s <= t - step by {
        OnStrideAbove(s, m, step);
        OnStrideAbove(m, t - step, step);
      }
    }
  }

  lemma {:induction false} OnStrideAbove(s: int, t: int, step: int)
    requires step >= 1 && OnStride(s, t, step)
    ensures s <= t
    decreases t - s
  {
  }

  /** terrain.cxx:45-52: from slot index, step by dx * rows + dy until a
      slot holds a height; the walk's first step is unconditional. */
  method FindNearHeight(rows: int, cols: int, index: int, dx: int, dy: int, verts: array<Point>,
                        ghost floor: int, ghost reach: int) returns (h: real)
    requires 0 <= index < floor && 1 <= dx * rows + dy <= reach && Landing(verts[..], floor, reach)
    ensures h == verts[NearSlot(verts[..], index, dx * rows + dy, floor, reach)].z.value
  {
    ghost var pts := verts[..];
    ghost var step := dx * rows + dy;
    var s := index;
    ghost var prev := s;
    s := s + dx * rows + dy;
    while verts[s].z.None?
      invariant index <= prev < floor && s == prev + step && s < verts.Length
      invariant NearSlot(pts, index, step, floor, reach) == NearSlot(pts, prev, step, floor, reach)
      decreases floor - prev
    {
      prev := s;
      s := s + dx * rows + dy;
    }
    h := verts[s].z.value;
  }

  // ---------------------------------------------------------------------
  // thin (terrain.cxx:54-83)
  // ---------------------------------------------------------------------

  function Abs(a: real): (r: real)
    ensures r >= 0.0 && (r == a || r == -a)
  {
    if a < 0.0 then -a else a
  }

  /** The number of slots thin's two loops visit: (cols - 2) * (rows - 2)
      when the grid has an interior, none otherwise. */
  function Inspected(rows: int, cols: int): (p: nat)
    ensures p > 0 <==> rows >= 3 && cols >= 3
  {
    if rows >= 3 && cols >= 3 then MulPositive(cols - 2, rows - 2); (cols - 2) * (rows - 2) else 0
  }

  lemma {:induction false} MulPositive(a: int, b: int)
    requires a >= 1 && b >= 1
    ensures a * b >= 1
  {
  }

  /** Every walk a pass starts stays inside the array: the rows + 1 slots
      after the inspected prefix hold heights. */
  predicate Walkable(pts: seq<Point>, rows: int, floor: int)
  {
    rows >= 2 && Landing(pts, floor, rows + 1)
  }

  /** What a pass needs of the array. */
  predicate ThinReady(pts: seq<Point>, rows: int, cols: int)
  {
    Inspected(rows, cols) == 0 || Walkable(pts, rows, Inspected(rows, cols))
  }

  /** The removal mark: the height is gone, the position stays. */
  function Removed(p: Point): Point
  {
    p.(z := None)
  }

  /** Slot index's test (terrain.cxx:61-71): its height is within tolerance
      of the heights the walks find with strides rows - 1, rows and rows + 1
      (dx = 1 and dy = -1, 0, 1). */
  predicate Flat(pts: seq<Point>, rows: int, floor: int, index: int, tolerance: real)
    requires 0 <= index < floor && Walkable(pts, rows, floor) && pts[index].z.Some?
  {
    var e1 := pts[index].z.value;
    var e2 := pts[NearSlot(pts, index, rows - 1, floor, rows + 1)].z.value;
    var e3 := pts[NearSlot(pts, index, rows, floor, rows + 1)].z.value;
    var e4 := pts[NearSlot(pts, index, rows + 1, floor, rows + 1)].z.value;
    Abs(e1 - e2) <= tolerance && Abs(e1 - e3) <= tolerance && Abs(e1 - e4) <= tolerance
  }

  /** One slot of a pass: a point with a height is removed when Flat holds. */
  function ThinStep(pts: seq<Point>, rows: int, floor: int, index: int, tolerance: real): (r: seq<Point>)
    requires 0 <= index < floor && Walkable(pts, rows, floor)
    ensures |r| == |pts| && Walkable(r, rows, floor)
  {
    if pts[index].z.Some? && Flat(pts, rows, floor, index, tolerance) then pts[index := Removed(pts[index])]
    else pts
  }

  /** The array after a pass has visited slots 0 .. k - 1, in order. */
  function ThinPrefix(pts: seq<Point>, rows: int, floor: int, k: int, tolerance: real): (r: seq<Point>)
    requires 0 <= k <= floor && (k == 0 || Walkable(pts, rows, floor))
    ensures |r| == |pts| && (Walkable(pts, rows, floor) ==> Walkable(r, rows, floor))
  {
    if k == 0 then pts
    else ThinStep(ThinPrefix(pts, rows, floor, k - 1, tolerance), rows, floor, k - 1, tolerance)
  }

  /** One full call of thin. */
  function ThinPass(pts: seq<Point>, rows: int, cols: int, tolerance: real): (r: seq<Point>)
    requires ThinReady(pts, rows, cols)
    ensures |r| == |pts| && ThinReady(r, rows, cols)
  {
    ThinPrefix(pts, rows, Inspected(rows, cols), Inspected(rows, cols), tolerance)
  }

  /** The number of points that still have a height. */
  function PresentCount(pts: seq<Point>): (n: nat)
    ensures n <= |pts|
  {
    if pts == [] then 0
    else PresentCount(pts[..|pts| - 1]) + (if pts[|pts| - 1].z.Some? then 1 else 0)
  }

  lemma {:induction false} MulStep(a: int, b: int)
    ensures (a + 1) * b == a * b + b
  {
  }

  /** The index of row j of column i stays inside the inspected prefix. */
  lemma {:induction false} SlotInPrefix(rows: int, cols: int, i: int, j: int)
    requires 1 <= i < cols - 1 && 1 <= j < rows - 1
    ensures 0 <= (i - 1) * (rows - 2) + (j - 1) < Inspected(rows, cols)
  {
    var per := rows - 2;
    MulMonotone(i - 1, cols - 3, per);
    MulStep(cols - 3, per);
  }

  /** terrain.cxx:60-75 for one slot. */
  method ThinSlot(rows: int, cols: int, verts: array<Point>, index: int, tolerance: real, ghost floor: int)
    returns (counted: bool)
    requires 0 <= index < floor && Walkable(verts[..], rows, floor)
    modifies verts
    ensures verts[..] == ThinStep(old(verts[..]), rows, floor, index, tolerance)
    ensures counted <==> verts[index].z.Some?
  {
    if verts[index].z.Some? {
      var e1 := verts[index].z.value;
      var e2 := FindNearHeight(rows, cols, index, 1, -1, verts, floor, rows + 1);
      var e3 := FindNearHeight(rows, cols, index, 1, 0, verts, floor, rows + 1);
      var e4 := FindNearHeight(rows, cols, index, 1, 1, verts, floor, rows + 1);
      var d2 := Abs(e1 - e2);
      var d3 := Abs(e1 - e3);
      var d4 := Abs(e1 - e4);
      if d2 <= tolerance && d3 <= tolerance && d4 <= tolerance {
        verts[index] := Removed(verts[index]);
        counted := false;
      } else {
        counted := true;
      }
    } else {
      counted := false;
    }
  }

  /** The number of points with a height grows by the next slot's. */
  lemma {:induction false} PresentCountStep(pts: seq<Point>, i: int)
    requires 0 <= i < |pts|
    ensures PresentCount(pts[..i + 1]) == PresentCount(pts[..i]) + (if pts[i].z.Some? then 1 else 0)
  {
    assert pts[..i + 1][..i] == pts[..i];
  }

  /** One turn of thin's inner loop: slot index is tested, then counted
      when it kept its height. */
  method VisitSlot(rows: int, cols: int, verts: array<Point>, index: int, tolerance: real, nonEmpty: int,
                   ghost orig: seq<Point>, ghost p: int)
    returns (count: int)
    requires 0 <= index < p && Walkable(orig, rows, p)
    requires verts[..] == ThinPrefix(orig, rows, p, index, tolerance)
    requires nonEmpty == PresentCount(verts[..index])
    modifies verts
    ensures verts[..] == ThinPrefix(orig, rows, p, index + 1, tolerance)
    ensures count == PresentCount(verts[..index + 1])
  {
    ghost var before := verts[..];
    var counted := ThinSlot(rows, cols, verts, index, tolerance, p);
    assert verts[..index] == before[..index];
    PresentCountStep(verts[..], index);
    count := if counted then nonEmpty + 1 else nonEmpty;
  }

  /** terrain.cxx:54-83: the i and j loops only count; the slot visited is
      the separate counter index, which runs over 0 .. Inspected - 1. The
      result is the number of inspected points that kept their height. */
  method Thin(rows: int, cols: int, verts: array<Point>, tolerance: real) returns (nonEmpty: int)
    requires ThinReady(verts[..], rows, cols)
    modifies verts
    ensures verts[..] == ThinPass(old(verts[..]), rows, cols, tolerance)
    ensures nonEmpty == PresentCount(verts[..Inspected(rows, cols)])
  {
    ghost var orig := verts[..];
    ghost var p := Inspected(rows, cols);
    ghost var per := if rows >= 3 then rows - 2 else 0;
    var index := 0;
    nonEmpty := 0;
    var i := 1;
    while i < cols - 1
      invariant 1 <= i && (cols >= 2 ==> i <= cols - 1)
      invariant index == (i - 1) * per && index <= p
      invariant verts[..] == ThinPrefix(orig, rows, p, index, tolerance)
      invariant nonEmpty == PresentCount(verts[..index])
    {
      var j := 1;
      while j < rows - 1
        invariant 1 <= j && (rows >= 2 ==> j <= rows - 1)
        invariant index == (i - 1) * per + (j - 1) && index <= p
        invariant verts[..] == ThinPrefix(orig, rows, p, index, tolerance)
        invariant nonEmpty == PresentCount(verts[..index])
      {
        SlotInPrefix(rows, cols, i, j);
        nonEmpty := VisitSlot(rows, cols, verts, index, tolerance, nonEmpty, orig, p);
        index := index + 1;
        j := j + 1;
      }
      MulStep(i - 1, per);
      i := i + 1;
    }
    assert index == p by {
      if cols >= 3 {
        assert i == cols - 1;
      }
    }
  }

  // ---------------------------------------------------------------------
  // What a pass does
  // ---------------------------------------------------------------------

  /** A pass changes a slot only by removing a point it has not yet
      removed, and only inside the visited prefix. */
  lemma {:induction false} ThinPrefixShape(pts: seq<Point>, rows: int, floor: int, k: int, tolerance: real, t: int)
    requires 0 <= k <= floor && (k == 0 || Walkable(pts, rows, floor)) && 0 <= t < |pts|
    ensures var r := ThinPrefix(pts, rows, floor, k, tolerance);
            r[t] == pts[t] || (t < k && pts[t].z.Some? && r[t] == Removed(pts[t]))
  {
    if k > 0 {
      ThinPrefixShape(pts, rows, floor, k - 1, tolerance, t);
    }
  }

  /** A slot the pass has already left is not touched again. */
  lemma {:induction false} ThinPrefixSettled(pts: seq<Point>, rows: int, floor: int, k: int, tolerance: real, t: int)
    requires 0 <= t < k <= floor && Walkable(pts, rows, floor)
    ensures ThinPrefix(pts, rows, floor, k, tolerance)[t] == ThinPrefix(pts, rows, floor, t + 1, tolerance)[t]
  {
    if k > t + 1 {
      ThinPrefixSettled(pts, rows, floor, k - 1, tolerance, t);
    }
  }

  /** Point t of the inspected prefix ends the pass removed exactly when it
      was removed already or, when the pass reached it, the three heights
      its walks found were within tolerance of its own; and the pass
      reaches it with its value from before the pass. */
  lemma {:induction false} ThinPassDecides(pts: seq<Point>, rows: int, cols: int, tolerance: real, t: int)
    requires ThinReady(pts, rows, cols) && 0 <= t < Inspected(rows, cols)
    ensures var p := Inspected(rows, cols);
            var reached := ThinPrefix(pts, rows, p, t, tolerance);
            && reached[t] == pts[t]
            && (ThinPass(pts, rows, cols, tolerance)[t].z.None? <==>
                  pts[t].z.None? || Flat(reached, rows, p, t, tolerance))
  {
    var p := Inspected(rows, cols);
    ThinPrefixShape(pts, rows, p, t, tolerance, t);
    ThinPrefixSettled(pts, rows, p, p, tolerance, t);
  }

  /** A pass keeps every point outside the inspected prefix, never gives a
      height back, and only ever clears one. */
  lemma {:induction false} ThinPassShape(pts: seq<Point>, rows: int, cols: int, tolerance: real, t: int)
    requires ThinReady(pts, rows, cols) && 0 <= t < |pts|
    ensures var r := ThinPass(pts, rows, cols, tolerance);
            && (t >= Inspected(rows, cols) ==> r[t] == pts[t])
            && (r[t].z.Some? ==> r[t] == pts[t])
            && (pts[t].z.None? ==> r[t] == pts[t])
            && r[t].x == pts[t].x && r[t].y == pts[t].y
  {
    ThinPrefixShape(pts, rows, Inspected(rows, cols), Inspected(rows, cols), tolerance, t);
  }

  /** Removing points never raises the count, and equal counts mean
      nothing was removed. */
  lemma {:induction false} PresentCountCompare(a: seq<Point>, b: seq<Point>)
    requires |a| == |b|
    requires forall i :: 0 <= i < |a| ==> (a[i].z.Some? ==> b[i].z.Some?)
    ensures PresentCount(a) <= PresentCount(b)
    ensures PresentCount(a) == PresentCount(b) ==> forall i :: 0 <= i < |a| ==> (a[i].z.Some? <==> b[i].z.Some?)
  {
    if a != [] {
      var n := |a| - 1;
      PresentCountCompare(a[..n], b[..n]);
      if PresentCount(a) == PresentCount(b) {
        forall i | 0 <= i < |a|
          ensures a[i].z.Some? <==> b[i].z.Some?
        {
          if i < n {
            assert a[..n][i] == a[i] && b[..n][i] == b[i];
          }
        }
      }
    }
  }

  /** A pass never raises the count of the inspected prefix; a pass that
      leaves it unchanged changed nothing at all. */
  lemma {:induction false} PassCount(pts: seq<Point>, rows: int, cols: int, tolerance: real)
    requires ThinReady(pts, rows, cols)
    ensures var p := Inspected(rows, cols);
            var r := ThinPass(pts, rows, cols, tolerance);
            && p <= |pts|
            && PresentCount(r[..p]) <= PresentCount(pts[..p])
            && (PresentCount(r[..p]) == PresentCount(pts[..p]) ==> r == pts)
  {
    var p := Inspected(rows, cols);
    var r := ThinPass(pts, rows, cols, tolerance);
    assert p <= |pts|;
    forall t | 0 <= t < |pts| {
      ThinPassShape(pts, rows, cols, tolerance, t);
    }
    PresentCountCompare(r[..p], pts[..p]);
    if PresentCount(r[..p]) == PresentCount(pts[..p]) {
      forall t | 0 <= t < |pts|
        ensures r[t] == pts[t]
      {
        if t < p {
          assert r[..p][t] == r[t] && pts[..p][t] == pts[t];
        }
      }
    }
  }

  /** The array after n passes. */
  function Passes(pts: seq<Point>, rows: int, cols: int, tolerance: real, n: nat): (r: seq<Point>)
    requires ThinReady(pts, rows, cols)
    ensures |r| == |pts| && ThinReady(r, rows, cols)
  {
    if n == 0 then pts else ThinPass(Passes(pts, rows, cols, tolerance, n - 1), rows, cols, tolerance)
  }

  /** The tolerance terrain_to_obj passes to thin (terrain.cxx:127). */
  const ThinTolerance: real := 2.0

  /** terrain.cxx:122-128: passes until one returns the count the previous
      one returned. The counts never rise, so the loop ends; where it ends a
      further pass would change nothing. */
  method Converge(rows: int, cols: int, verts: array<Point>) returns (count: int, ghost passes: nat)
    requires ThinReady(verts[..], rows, cols)
    modifies verts
    ensures verts[..] == Passes(old(verts[..]), rows, cols, ThinTolerance, passes)
    ensures ThinReady(verts[..], rows, cols)
    ensures ThinPass(verts[..], rows, cols, ThinTolerance) == verts[..]
    ensures count == PresentCount(verts[..Inspected(rows, cols)])
  {
    ghost var orig := verts[..];
    ghost var p := Inspected(rows, cols);
    ghost var prev := verts[..];
    var lastCount := 0;
    count := -1;
    passes := 0;
    while lastCount != count
      invariant verts[..] == Passes(orig, rows, cols, ThinTolerance, passes)
      invariant ThinReady(verts[..], rows, cols) && p <= verts.Length
      invariant count >= -1 && (count < 0 ==> lastCount == 0) && (lastCount < 0 ==> count >= 0)
      invariant count >= 0 ==> count == PresentCount(verts[..p])
      invariant count >= 0 && lastCount >= 0 ==>
                  && ThinReady(prev, rows, cols)
                  && verts[..] == ThinPass(prev, rows, cols, ThinTolerance)
                  && lastCount == PresentCount(prev[..p])
                  && count <= lastCount
      decreases if count < 0 then 2 else if lastCount < 0 then 1 else 0, count + lastCount
    {
      prev := verts[..];
      PassCount(prev, rows, cols, ThinTolerance);
      lastCount := count;
      count := Thin(rows, cols, verts, ThinTolerance);
      passes := passes + 1;
    }
    PassCount(prev, rows, cols, ThinTolerance);
  }

  // ---------------------------------------------------------------------
  // Sampling (terrain.cxx:100-119)
  // ---------------------------------------------------------------------

  /** RAD_TO_DEG as proj_api.h defines it. */
  const RadToDeg: real := 57.29577951308232

  /** Column c's x (terrain.cxx:108): a share of the projected extent; the
      lower bound is not added. */
  function GridX(bounds: seq<real>, cols: int, c: int): (x: real)
    requires |bounds| == 4 && cols > 0
    ensures c == 0 ==> x == 0.0
    ensures c == cols ==> x == bounds[2] - bounds[0]
  {
    (bounds[2] - bounds[0]) * (c as real) / (cols as real)
  }

  /** Row r's y (terrain.cxx:110), likewise. */
  function GridY(bounds: seq<real>, rows: int, r: int): (y: real)
    requires |bounds| == 4 && rows > 0
    ensures r == 0 ==> y == 0.0
    ensures r == rows ==> y == bounds[3] - bounds[1]
  {
    (bounds[3] - bounds[1]) * (r as real) / (rows as real)
  }

  /** The x of every column. */
  function ColumnXs(bounds: seq<real>, cols: int): (xs: seq<real>)
    requires |bounds| == 4 && cols > 0
    ensures |xs| == cols
  {
    Xs(bounds, cols, cols)
  }

  /** The x of the first n columns. */
  function Xs(bounds: seq<real>, cols: int, n: nat): (xs: seq<real>)
    requires |bounds| == 4 && cols > 0
    ensures |xs| == n
  {
    if n == 0 then [] else Xs(bounds, cols, n - 1) + [GridX(bounds, cols, n - 1)]
  }

  /** The y of the first n rows. */
  function Ys(bounds: seq<real>, rows: int, n: nat): (ys: seq<real>)
    requires |bounds| == 4 && rows > 0
    ensures |ys| == n
  {
    if n == 0 then [] else Ys(bounds, rows, n - 1) + [GridY(bounds, rows, n - 1)]
  }

  lemma {:induction false} XsAt(bounds: seq<real>, cols: int, n: nat, c: int)
    requires |bounds| == 4 && cols > 0 && 0 <= c < n
    ensures Xs(bounds, cols, n)[c] == GridX(bounds, cols, c)
  {
    if c < n - 1 {
      XsAt(bounds, cols, n - 1, c);
    }
  }

  lemma {:induction false} YsAt(bounds: seq<real>, rows: int, n: nat, r: int)
    requires |bounds| == 4 && rows > 0 && 0 <= r < n
    ensures Ys(bounds, rows, n)[r] == GridY(bounds, rows, r)
  {
    if r < n - 1 {
      YsAt(bounds, rows, n - 1, r);
    }
  }

  /** The y of every row. */
  function RowYs(bounds: seq<real>, rows: int): (ys: seq<real>)
    requires |bounds| == 4 && rows > 0
    ensures |ys| == rows
  {
    Ys(bounds, rows, rows)
  }

  /** Column c's x and row r's y are the source's formulas. */
  lemma {:induction false} GridCoordinates(bounds: seq<real>, rows: int, cols: int, c: int, r: int)
    requires |bounds| == 4 && rows > 0 && cols > 0 && 0 <= c < cols && 0 <= r < rows
    ensures ColumnXs(bounds, cols)[c] == GridX(bounds, cols, c)
    ensures RowYs(bounds, rows)[r] == GridY(bounds, rows, r)
  {
    XsAt(bounds, cols, cols, c);
    YsAt(bounds, rows, rows, r);
  }

  /** With the projection running west to east, the columns' x never
      decreases. */
  lemma {:induction false} ColumnXsSorted(bounds: seq<real>, cols: int, a: int, b: int)
    requires |bounds| == 4 && cols > 0 && bounds[0] <= bounds[2] && 0 <= a <= b < cols
    ensures ColumnXs(bounds, cols)[a] <= ColumnXs(bounds, cols)[b]
  {
    GridCoordinates(bounds, 1, cols, a, 0);
    GridCoordinates(bounds, 1, cols, b, 0);
    var w := bounds[2] - bounds[0];
    RealMulNonneg(w, (b - a) as real);
    assert w * (b as real) - w * (a as real) == w * ((b - a) as real);
    RealDivMonotone(w * (a as real), w * (b as real), cols as real);
  }

  lemma {:induction false} RealMulNonneg(x: real, y: real)
    requires x >= 0.0 && y >= 0.0
    ensures x * y >= 0.0
  {
  }

  lemma {:induction false} RealDivMonotone(x: real, y: real, d: real)
    requires x <= y && d > 0.0
    ensures x / d <= y / d
  {
    assert y / d - x / d == (y - x) / d;
  }

  /** The query's answer at grid position (x, y): the position is projected
      back to geographic radians, and the query takes latitude first. */
  function GridHeight(query: Query, unproject: Projector, x: real, y: real): Result<real, QueryError>
  {
    var ll := unproject(x, y);
    query(ll.1 * RadToDeg, ll.0 * RadToDeg)
  }

  /** Every cell of the grid has a height. */
  predicate Known(query: Query, unproject: Projector, xs: seq<real>, ys: seq<real>)
  {
    forall c, r :: 0 <= c < |xs| && 0 <= r < |ys| ==> GridHeight(query, unproject, xs[c], ys[r]).Ok?
  }

  /** The height a sample gets from the query's answer. */
  function Height(h: Result<real, QueryError>): Option<real>
  {
    if h.Ok? then Some(h.value) else None
  }

  /** The sample of cell (c, r). */
  function GridPoint(query: Query, unproject: Projector, xs: seq<real>, ys: seq<real>, c: int, r: int): Point
    requires 0 <= c < |xs| && 0 <= r < |ys|
  {
    Point(xs[c], ys[r], Height(GridHeight(query, unproject, xs[c], ys[r])))
  }

  /** The first n samples of column c, from row 0 up. */
  function Column(query: Query, unproject: Projector, xs: seq<real>, ys: seq<real>, c: int, n: int): (s: seq<Point>)
    requires 0 <= c < |xs| && 0 <= n <= |ys|
    ensures |s| == n
  {
    if n == 0 then []
    else Column(query, unproject, xs, ys, c, n - 1) + [GridPoint(query, unproject, xs, ys, c, n - 1)]
  }

  /** The samples of the first n columns, column after column. */
  function Grid(query: Query, unproject: Projector, xs: seq<real>, ys: seq<real>, n: int): (s: seq<Point>)
    requires 0 <= n <= |xs|
    ensures |s| == n * |ys|
  {
    if n == 0 then []
    else
      MulStep(n - 1, |ys|);
      Grid(query, unproject, xs, ys, n - 1) + Column(query, unproject, xs, ys, n - 1, |ys|)
  }

  /** The slot of row r in column c lies inside the first n columns. */
  lemma {:induction false} GridSlot(rows: int, n: int, c: int, r: int)
    requires 0 <= c < n && 0 <= r < rows
    ensures 0 <= c * rows + r < n * rows
  {
    MulMonotone(c + 1, n, rows);
    MulStep(c, rows);
  }

  /** terrain.cxx:103-119: columns in the outer loop, rows in the inner,
      one slot after the other. */
  method Sample(query: Query, unproject: Projector, bounds: seq<real>, rows: int, cols: int, coords: array<Point>)
    requires |bounds| == 4 && rows > 0 && cols > 0 && rows * cols <= coords.Length
    requires Known(query, unproject, ColumnXs(bounds, cols), RowYs(bounds, rows))
    modifies coords
    ensures coords[..rows * cols] == Grid(query, unproject, ColumnXs(bounds, cols), RowYs(bounds, rows), cols)
    ensures coords[rows * cols..] == old(coords[rows * cols..])
  {
    ghost var xs, ys := ColumnXs(bounds, cols), RowYs(bounds, rows);
    ghost var grid := Grid(query, unproject, xs, ys, cols);
    ghost var orig := coords[..];
    ghost var total := cols * rows;
    assert total == rows * cols;
    var i := 0;
    var c := 0;
    while c < cols
      invariant 0 <= c <= cols && i == c * rows && i <= total
      invariant coords[..i] == grid[..i]
      invariant coords[i..] == orig[i..]
      decreases cols - c
    {
      i := SampleNextColumn(query, unproject, bounds, rows, cols, coords, c, i, grid, orig);
      c := c + 1;
    }
  }

  /** One turn of Sample's outer loop: column c follows the columns before
      it and the slots after it are untouched. */
  method SampleNextColumn(query: Query, unproject: Projector, bounds: seq<real>, rows: int, cols: int,
                          coords: array<Point>, c: int, i: int, ghost grid: seq<Point>, ghost orig: seq<Point>)
    returns (next: int)
    requires |bounds| == 4 && rows > 0 && 0 <= c < cols && rows * cols <= coords.Length
    requires Known(query, unproject, ColumnXs(bounds, cols), RowYs(bounds, rows))
    requires grid == Grid(query, unproject, ColumnXs(bounds, cols), RowYs(bounds, rows), cols)
    requires i == c * rows && |orig| == coords.Length
    requires coords[..i] == grid[..i] && coords[i..] == orig[i..]
    modifies coords
    ensures next == (c + 1) * rows && next <= cols * rows
    ensures coords[..next] == grid[..next] && coords[next..] == orig[next..]
  {
    ghost var xs, ys := ColumnXs(bounds, cols), RowYs(bounds, rows);
    ColumnBounds(c, cols, rows);
    ghost var before := coords[..];
    next := SampleColumn(query, unproject, bounds, rows, cols, coords, c, i);
    GridColumn(query, unproject, xs, ys, cols, c);
    assert coords[..next] == coords[..i] + coords[i..next];
    assert grid[..next] == grid[..i] + grid[i..next];
    assert orig[next..] == before[next..];
  }

  /** The inner loop of Sample (terrain.cxx:109-118): column c's rows go
      into the slots from i on. */
  method SampleColumn(query: Query, unproject: Projector, bounds: seq<real>, rows: int, cols: int,
                      coords: array<Point>, c: int, i: int) returns (next: int)
    requires |bounds| == 4 && rows > 0 && 0 <= c < cols && 0 <= i && i + rows <= coords.Length
    requires Known(query, unproject, ColumnXs(bounds, cols), RowYs(bounds, rows))
    modifies coords
    ensures next == i + rows
    ensures coords[i..next] == Column(query, unproject, ColumnXs(bounds, cols), RowYs(bounds, rows), c, rows)
    ensures coords[..i] == old(coords[..i]) && coords[next..] == old(coords[next..])
  {
    ghost var xs, ys := ColumnXs(bounds, cols), RowYs(bounds, rows);
    var x := GridX(bounds, cols, c);
    next := i;
    var r := 0;
    while r < rows
      invariant 0 <= r <= rows && next == i + r
      invariant coords[i..next] == Column(query, unproject, xs, ys, c, r)
      invariant coords[..i] == old(coords[..i]) && coords[next..] == old(coords[next..])
    {
      var y := GridY(bounds, rows, r);
      GridCoordinates(bounds, rows, cols, c, r);
      var ll := unproject(x, y);
      var z := query(ll.1 * RadToDeg, ll.0 * RadToDeg);
      coords[next] := Point(x, y, Some(z.value));
      next := next + 1;
      r := r + 1;
    }
  }

  /** Column c of the grid sits in the slots from c * rows on. */
  lemma {:induction false} GridColumn(query: Query, unproject: Projector, xs: seq<real>, ys: seq<real>, n: int, c: int)
    requires 0 <= c < n <= |xs|
    ensures (c + 1) * |ys| <= n * |ys|
    ensures Grid(query, unproject, xs, ys, n)[c * |ys|..(c + 1) * |ys|] == Column(query, unproject, xs, ys, c, |ys|)
  {
    var k := |ys|;
    ColumnBounds(c, n, k);
    var before := Grid(query, unproject, xs, ys, n - 1);
    var col := Column(query, unproject, xs, ys, n - 1, k);
    assert Grid(query, unproject, xs, ys, n) == before + col;
    if c < n - 1 {
      GridColumn(query, unproject, xs, ys, n - 1, c);
      SliceOfFront(before, col, c * k, (c + 1) * k);
    } else {
      assert (before + col)[|before|..|before| + k] == col;
    }
  }

  /** The products GridColumn's slots are made of. */
  lemma {:induction false} ColumnBounds(c: int, n: int, k: int)
    requires 0 <= c < n && 0 <= k
    ensures 0 <= c * k && (c + 1) * k == c * k + k && n * k == (n - 1) * k + k
    ensures (c + 1) * k <= n * k && (c < n - 1 ==> (c + 1) * k <= (n - 1) * k)
  {
    MulMonotone(0, c, k);
    MulStep(c, k);
    MulStep(n - 1, k);
    MulMonotone(c + 1, n, k);
    if c < n - 1 {
      MulMonotone(c + 1, n - 1, k);
    }
  }

  /** A slice of the front part of a concatenation. */
  lemma {:induction false} SliceOfFront(front: seq<Point>, back: seq<Point>, lo: int, hi: int)
    requires 0 <= lo <= hi <= |front|
    ensures (front + back)[lo..hi] == front[lo..hi]
  {
    assert forall t :: lo <= t < hi ==> (front + back)[t] == front[t];
  }

  lemma {:induction false} ColumnAt(query: Query, unproject: Projector, xs: seq<real>, ys: seq<real>, c: int, n: int, r: int)
    requires 0 <= c < |xs| && 0 <= r < n <= |ys|
    ensures Column(query, unproject, xs, ys, c, n)[r] == GridPoint(query, unproject, xs, ys, c, r)
  {
    if r < n - 1 {
      ColumnAt(query, unproject, xs, ys, c, n - 1, r);
    }
  }

  /** Column-major layout: cell (c, r) is sampled into slot c * rows + r. */
  lemma {:induction false} GridAt(query: Query, unproject: Projector, xs: seq<real>, ys: seq<real>, n: int, c: int, r: int)
    requires 0 <= c < n <= |xs| && 0 <= r < |ys|
    ensures 0 <= c * |ys| + r < n * |ys|
    ensures Grid(query, unproject, xs, ys, n)[c * |ys| + r] == GridPoint(query, unproject, xs, ys, c, r)
  {
    GridSlot(|ys|, n, c, r);
    if c < n - 1 {
      GridAt(query, unproject, xs, ys, n - 1, c, r);
      GridSlot(|ys|, n - 1, c, r);
    } else {
      MulStep(n - 1, |ys|);
      ColumnAt(query, unproject, xs, ys, c, |ys|, r);
    }
  }

  /** Points in non-decreasing x order, as the triangulator requires. */
  predicate SortedByX(pts: seq<Point>)
  {
    forall i, j :: 0 <= i < j < |pts| ==> pts[i].x <= pts[j].x
  }

  /** Every sample of column c has the column's x. */
  lemma {:induction false} ColumnOnX(query: Query, unproject: Projector, xs: seq<real>, ys: seq<real>, c: int, n: int)
    requires 0 <= c < |xs| && 0 <= n <= |ys|
    ensures forall r :: 0 <= r < n ==> Column(query, unproject, xs, ys, c, n)[r].x == xs[c]
  {
    if n > 0 {
      ColumnOnX(query, unproject, xs, ys, c, n - 1);
    }
  }

  /** When none of the first n columns lies east of bound, no sample of
      theirs does. */
  lemma {:induction false} GridWestOf(query: Query, unproject: Projector, xs: seq<real>, ys: seq<real>, n: int, bound: real)
    requires 0 <= n <= |xs|
    requires forall c :: 0 <= c < n ==> xs[c] <= bound
    ensures forall i :: 0 <= i < |Grid(query, unproject, xs, ys, n)| ==> Grid(query, unproject, xs, ys, n)[i].x <= bound
  {
    if n > 0 {
      var before, column := Grid(query, unproject, xs, ys, n - 1), Column(query, unproject, xs, ys, n - 1, |ys|);
      GridWestOf(query, unproject, xs, ys, n - 1, bound);
      ColumnOnX(query, unproject, xs, ys, n - 1, |ys|);
      WestOfAppend(before, column, bound);
      assert Grid(query, unproject, xs, ys, n) == before + column;
    }
  }

  lemma {:induction false} WestOfAppend(a: seq<Point>, b: seq<Point>, bound: real)
    requires forall i :: 0 <= i < |a| ==> a[i].x <= bound
    requires forall i :: 0 <= i < |b| ==> b[i].x <= bound
    ensures forall i :: 0 <= i < |a + b| ==> (a + b)[i].x <= bound
  {
  }

  /** Points in x order followed by points all on a line x = m no west of
      them stay in x order. */
  lemma {:induction false} AppendSorted(a: seq<Point>, b: seq<Point>, m: real)
    requires SortedByX(a)
    requires forall i :: 0 <= i < |a| ==> a[i].x <= m
    requires forall i :: 0 <= i < |b| ==> b[i].x == m
    ensures SortedByX(a + b)
  {
  }

  /** With non-decreasing column x's, the column-major samples come in
      non-decreasing x order. */
  lemma {:induction false} GridSorted(query: Query, unproject: Projector, xs: seq<real>, ys: seq<real>, n: int)
    requires 0 <= n <= |xs|
    requires forall a, b :: 0 <= a <= b < |xs| ==> xs[a] <= xs[b]
    ensures SortedByX(Grid(query, unproject, xs, ys, n))
  {
    if n > 0 {
      var before, column := Grid(query, unproject, xs, ys, n - 1), Column(query, unproject, xs, ys, n - 1, |ys|);
      GridSorted(query, unproject, xs, ys, n - 1);
      ColumnOnX(query, unproject, xs, ys, n - 1, |ys|);
      GridWestOf(query, unproject, xs, ys, n - 1, xs[n - 1]);
      AppendSorted(before, column, xs[n - 1]);
      assert Grid(query, unproject, xs, ys, n) == before + column;
    }
  }

  /** The sampled grid of terrain_to_obj is in x order when the projected
      bounds run west to east. */
  lemma {:induction false} SampledSorted(query: Query, unproject: Projector, bounds: seq<real>, rows: int, cols: int)
    requires |bounds| == 4 && rows > 0 && cols > 0 && bounds[0] <= bounds[2]
    ensures SortedByX(Grid(query, unproject, ColumnXs(bounds, cols), RowYs(bounds, rows), cols))
  {
    var xs := ColumnXs(bounds, cols);
    forall a, b | 0 <= a <= b < |xs|
      ensures xs[a] <= xs[b]
    {
      ColumnXsSorted(bounds, cols, a, b);
    }
    GridSorted(query, unproject, xs, RowYs(bounds, rows), cols);
  }
  // ---------------------------------------------------------------------
  // Compaction (terrain.cxx:130-135)
  // ---------------------------------------------------------------------

  /** The points that still have a height, in their order. */
  function Kept(pts: seq<Point>): (r: seq<Point>)
    ensures |r| <= |pts|
  {
    if pts == [] then []
    else Kept(pts[..|pts| - 1]) + (if pts[|pts| - 1].z.Some? then [pts[|pts| - 1]] else [])
  }

  /** The kept points are as many as the points with a height. */
  lemma {:induction false} KeptCount(pts: seq<Point>)
    ensures |Kept(pts)| == PresentCount(pts)
  {
    if pts != [] {
      KeptCount(pts[..|pts| - 1]);
    }
  }

  /** A point is kept exactly when it is in the input with a height. */
  lemma {:induction false} KeptMembers(pts: seq<Point>, p: Point)
    ensures p in Kept(pts) <==> p in pts && p.z.Some?
  {
    if pts != [] {
      var init := pts[..|pts| - 1];
      KeptMembers(init, p);
      assert pts == init + [pts[|pts| - 1]];
    }
  }

  /** Keeping a subsequence keeps the x order. */
  lemma {:induction false} KeptSorted(pts: seq<Point>)
    requires SortedByX(pts)
    ensures SortedByX(Kept(pts))
  {
    if pts != [] {
      var init := pts[..|pts| - 1];
      var last := pts[|pts| - 1];
      assert SortedByX(init);
      KeptSorted(init);
      if last.z.Some? {
        var k := Kept(init);
        forall i | 0 <= i < |k|
          ensures k[i].x <= last.x
        {
          KeptMembers(init, k[i]);
        }
      }
    }
  }

  /** Kept grows by the next point when that point has a height. */
  lemma {:induction false} KeptStep(pts: seq<Point>, i: int)
    requires 0 <= i < |pts|
    ensures Kept(pts[..i + 1]) == Kept(pts[..i]) + (if pts[i].z.Some? then [pts[i]] else [])
  {
    assert pts[..i + 1][..i] == pts[..i];
  }

  /** One turn of the compaction loop: the point in slot i moves down to
      slot j when it has a height. */
  method KeepIfPresent(coords: array<Point>, i: int, j: int, ghost orig: seq<Point>) returns (next: int)
    requires 0 <= j <= i < coords.Length && |orig| == coords.Length
    requires coords[..j] == Kept(orig[..i]) && coords[j..] == orig[j..]
    modifies coords
    ensures j <= next <= i + 1
    ensures coords[..next] == Kept(orig[..i + 1]) && coords[next..] == orig[next..]
  {
    KeptStep(orig, i);
    assert coords[i] == orig[i] by {
      assert coords[j..][i - j] == orig[j..][i - j];
    }
    next := j;
    if coords[i].z.Some? {
      ghost var before := coords[..];
      coords[j] := coords[i];
      assert coords[..j + 1] == before[..j] + [orig[i]];
      assert coords[j + 1..] == before[j + 1..] == orig[j + 1..] by {
        assert before[j + 1..] == before[j..][1..] && orig[j + 1..] == orig[j..][1..];
      }
      next := j + 1;
    }
  }

  /** terrain.cxx:130-135: a stable in-place filter over the first
      rows * cols slots; the slots from j on keep what they held. */
  method Compact(rows: int, cols: int, coords: array<Point>) returns (j: int)
    requires 0 <= rows * cols <= coords.Length
    modifies coords
    ensures 0 <= j <= rows * cols
    ensures coords[..j] == Kept(old(coords[..rows * cols]))
    ensures coords[j..] == old(coords[j..])
  {
    ghost var orig := coords[..];
    j := 0;
    var i := 0;
    while i < rows * cols
      invariant 0 <= j <= i <= rows * cols
      invariant coords[..j] == Kept(orig[..i])
      invariant coords[j..] == orig[j..]
    {
      j := KeepIfPresent(coords, i, j, orig);
      i := i + 1;
    }
    assert orig[..rows * cols] == orig[..i];
  }

  // ---------------------------------------------------------------------
  // Normals (terrain.cxx:27-43, 144-151)
  // ---------------------------------------------------------------------

  const Zero: Vec3 := Vec3(0.0, 0.0, 0.0)

  /** The scaling of triangleNormal (terrain.cxx:38-42), a division by the
      square root of the squared length; floating point and sqrt are not
      modelled, so the caller supplies it. */
  type Normalizer = Vec3 -> Vec3

  /** A point with a height as a vector (x, y, z). */
  function Position(p: Point): Vec3
    requires p.z.Some?
  {
    Vec3(p.x, p.y, p.z.value)
  }

  /** Every corner of t is one of the first n points, and those have a
      height: what the triangulator hands back for the compacted points. */
  predicate Spans(pts: seq<Point>, t: Triangle)
  {
    && 0 <= t.p1 < |pts| && 0 <= t.p2 < |pts| && 0 <= t.p3 < |pts|
    && pts[t.p1].z.Some? && pts[t.p2].z.Some? && pts[t.p3].z.Some?
  }

  /** triangleNormal (terrain.cxx:27-43): the normalised cross product of
      the edges p1->p2 and p1->p3. */
  function FaceNormal(pts: seq<Point>, t: Triangle, normalize: Normalizer): Vec3
    requires Spans(pts, t)
  {
    var origin := Position(pts[t.p1]);
    normalize(Cross(VecSub(Position(pts[t.p2]), origin), VecSub(Position(pts[t.p3]), origin)))
  }

  /** Before normalisation the face normal is orthogonal to both edges of
      the triangle that leave p1. */
  lemma {:induction false} FaceNormalOrthogonal(pts: seq<Point>, t: Triangle)
    requires Spans(pts, t)
    ensures var origin := Position(pts[t.p1]);
            var u, v := VecSub(Position(pts[t.p2]), origin), VecSub(Position(pts[t.p3]), origin);
            Dot(Cross(u, v), u) == 0.0 && Dot(Cross(u, v), v) == 0.0
  {
  }

  function AddIf(acc: Vec3, hit: bool, n: Vec3): Vec3
  {
    if hit then VecAdd(acc, n) else acc
  }

  /** normals[v] after the first k triangles of the accumulation loop
      (terrain.cxx:144-151): zero, then the face normal added once for each
      of p1, p2, p3 that is v, in that order. */
  function Accumulated(pts: seq<Point>, tris: seq<Triangle>, normalize: Normalizer, k: int, v: int): Vec3
    requires 0 <= k <= |tris| && forall t :: t in tris ==> Spans(pts, t)
  {
    if k == 0 then Zero
    else
      var t := tris[k - 1];
      var n := FaceNormal(pts, t, normalize);
      AddIf(AddIf(AddIf(Accumulated(pts, tris, normalize, k - 1, v), t.p1 == v, n), t.p2 == v, n), t.p3 == v, n)
  }

  /** How many corners of t are vertex v. */
  function Corners(t: Triangle, v: int): (m: nat)
    ensures m <= 3 && (m == 0 <==> t.p1 != v && t.p2 != v && t.p3 != v)
  {
    (if t.p1 == v then 1 else 0) + (if t.p2 == v then 1 else 0) + (if t.p3 == v then 1 else 0)
  }

  /** m copies of n added up. */
  function Scale(m: nat, n: Vec3): Vec3
  {
    if m == 0 then Zero else VecAdd(Scale(m - 1, n), n)
  }

  /** The reference definition of a vertex normal: the sum, over the first
      k triangles, of each face normal times the number of its corners at v. */
  function NormalSum(pts: seq<Point>, tris: seq<Triangle>, normalize: Normalizer, k: int, v: int): Vec3
    requires 0 <= k <= |tris| && forall t :: t in tris ==> Spans(pts, t)
  {
    if k == 0 then Zero
    else VecAdd(NormalSum(pts, tris, normalize, k - 1, v), Scale(Corners(tris[k - 1], v), FaceNormal(pts, tris[k - 1], normalize)))
  }

  /** The in-place additions of the loop compute the reference sum: a
      vertex's normal is the sum of the normals of the faces it is a corner
      of, counted once per corner. */
  lemma {:induction false} AccumulatedIsSum(pts: seq<Point>, tris: seq<Triangle>, normalize: Normalizer, k: int, v: int)
    requires 0 <= k <= |tris| && forall t :: t in tris ==> Spans(pts, t)
    ensures Accumulated(pts, tris, normalize, k, v) == NormalSum(pts, tris, normalize, k, v)
  {
    if k > 0 {
      AccumulatedIsSum(pts, tris, normalize, k - 1, v);
      AddCorners(Accumulated(pts, tris, normalize, k - 1, v), tris[k - 1], v, FaceNormal(pts, tris[k - 1], normalize));
    }
  }

  /** One triangle of the loop: adding n once per corner at v adds n times
      the number of those corners. */
  lemma {:induction false} AddCorners(acc: Vec3, t: Triangle, v: int, n: Vec3)
    ensures AddIf(AddIf(AddIf(acc, t.p1 == v, n), t.p2 == v, n), t.p3 == v, n) == VecAdd(acc, Scale(Corners(t, v), n))
  {
    assert Scale(1, n) == n;
    assert Scale(2, n) == VecAdd(n, n);
    assert Scale(3, n) == VecAdd(VecAdd(n, n), n);
  }

  /** A vertex that is a corner of none of the first k triangles keeps the
      zero vector of the memset. */
  lemma {:induction false} UntouchedNormal(pts: seq<Point>, tris: seq<Triangle>, normalize: Normalizer, k: int, v: int)
    requires 0 <= k <= |tris| && forall t :: t in tris ==> Spans(pts, t)
    requires forall i :: 0 <= i < k ==> Corners(tris[i], v) == 0
    ensures Accumulated(pts, tris, normalize, k, v) == Zero
  {
    if k > 0 {
      UntouchedNormal(pts, tris, normalize, k - 1, v);
    }
  }

  /** terrain.cxx:144-151: normals[0..j) zeroed, then every triangle's
      normal added in place to the normals of its three corners. */
  method AccumulateNormals(coords: array<Point>, j: int, tris: seq<Triangle>, normalize: Normalizer, normals: array<Vec3>)
    requires 0 <= j <= coords.Length && j <= normals.Length
    requires forall t :: t in tris ==> Spans(coords[..j], t)
    modifies normals
    ensures forall v :: 0 <= v < j ==> normals[v] == Accumulated(coords[..j], tris, normalize, |tris|, v)
    ensures normals[j..] == old(normals[j..])
  {
    ghost var pts := coords[..j];
    var v := 0;
    while v < j
      invariant 0 <= v <= j
      invariant forall w :: 0 <= w < v ==> normals[w] == Zero
      invariant normals[j..] == old(normals[j..])
    {
      normals[v] := Zero;
      v := v + 1;
    }
    var i := 0;
    while i < |tris|
      invariant 0 <= i <= |tris|
      invariant forall w :: 0 <= w < j ==> normals[w] == Accumulated(pts, tris, normalize, i, w)
      invariant normals[j..] == old(normals[j..])
    {
      var t := tris[i];
      assert t in tris;
      var origin := Position(coords[t.p1]);
      var u := VecSub(Position(coords[t.p2]), origin);
      var w := VecSub(Position(coords[t.p3]), origin);
      var normal := normalize(Cross(u, w));
      assert normal == FaceNormal(pts, t, normalize);
      AddNormal(normals, j, t, normal, pts, tris, normalize, i);
      i := i + 1;
    }
  }

  /** The three vecAdd calls of one triangle (terrain.cxx:148-150). */
  method AddNormal(normals: array<Vec3>, j: int, t: Triangle, normal: Vec3,
                   ghost pts: seq<Point>, ghost tris: seq<Triangle>, ghost normalize: Normalizer, ghost i: int)
    requires 0 <= j <= normals.Length && 0 <= i < |tris| && t == tris[i] && |pts| == j
    requires forall t :: t in tris ==> Spans(pts, t)
    requires normal == FaceNormal(pts, t, normalize)
    requires forall w :: 0 <= w < j ==> normals[w] == Accumulated(pts, tris, normalize, i, w)
    modifies normals
    ensures forall w :: 0 <= w < j ==> normals[w] == Accumulated(pts, tris, normalize, i + 1, w)
    ensures normals[j..] == old(normals[j..])
  {
    assert t in tris;
    normals[t.p1] := VecAdd(normals[t.p1], normal);
    assert forall w :: 0 <= w < j ==> normals[w] == AddIf(Accumulated(pts, tris, normalize, i, w), t.p1 == w, normal);
    normals[t.p2] := VecAdd(normals[t.p2], normal);
    assert forall w :: 0 <= w < j ==>
      normals[w] == AddIf(AddIf(Accumulated(pts, tris, normalize, i, w), t.p1 == w, normal), t.p2 == w, normal);
    normals[t.p3] := VecAdd(normals[t.p3], normal);
  }

  // ---------------------------------------------------------------------
  // Emission (terrain.cxx:153-162)
  // ---------------------------------------------------------------------

  /** The vertex written for a point: the height goes into OBJ's y, the
      grid's y into OBJ's z. */
  function MeshVertex(p: Point): Vec3
    requires p.z.Some?
  {
    Vec3(p.x, p.z.value, p.y)
  }

  /** All points have a height. */
  predicate AllPresent(pts: seq<Point>)
  {
    forall k :: 0 <= k < |pts| ==> pts[k].z.Some?
  }

  /** The vertex records of the first k points, each with its normal as
      accumulated (not axis-swapped). */
  function VertexRecords(pts: seq<Point>, normals: seq<Vec3>, k: int): (r: seq<Line>)
    requires 0 <= k <= |pts| && |pts| <= |normals| && AllPresent(pts)
    ensures |r| == k
  {
    if k == 0 then [] else VertexRecords(pts, normals, k - 1) + [VertexNormal(MeshVertex(pts[k - 1]), normals[k - 1])]
  }

  /** The face records of the first k triangles, with every local index
      shifted by the checkpointed counter. */
  function FaceRecords(tris: seq<Triangle>, offset: int, k: int): (r: seq<Line>)
    requires 0 <= k <= |tris|
    ensures |r| == k
  {
    if k == 0 then [] else FaceRecords(tris, offset, k - 1) + [Face(Corners3(tris[k - 1], offset))]
  }

  function Corners3(t: Triangle, offset: int): seq<int>
  {
    [t.p1 + offset, t.p2 + offset, t.p3 + offset]
  }

  /** Vertex records define their points' mesh vertices, in order. */
  lemma {:induction false} VertexRecordsVertices(pts: seq<Point>, normals: seq<Vec3>, k: int)
    requires 0 <= k <= |pts| && |pts| <= |normals| && AllPresent(pts)
    ensures |Vertices(VertexRecords(pts, normals, k))| == k
    ensures forall m :: 0 <= m < k ==> Vertices(VertexRecords(pts, normals, k))[m] == MeshVertex(pts[m])
  {
    if k > 0 {
      VertexRecordsVertices(pts, normals, k - 1);
      AppendOne(VertexRecords(pts, normals, k - 1), VertexNormal(MeshVertex(pts[k - 1]), normals[k - 1]));
    }
  }

  lemma {:induction false} VertexRecordsNoFaces(pts: seq<Point>, normals: seq<Vec3>, k: int)
    requires 0 <= k <= |pts| && |pts| <= |normals| && AllPresent(pts)
    ensures Faces(VertexRecords(pts, normals, k)) == []
  {
    if k > 0 {
      VertexRecordsNoFaces(pts, normals, k - 1);
      AppendOne(VertexRecords(pts, normals, k - 1), VertexNormal(MeshVertex(pts[k - 1]), normals[k - 1]));
    }
  }

  /** Face records define no vertex, and one face per triangle. */
  lemma {:induction false} FaceRecordsFaces(tris: seq<Triangle>, offset: int, k: int)
    requires 0 <= k <= |tris|
    ensures |Faces(FaceRecords(tris, offset, k))| == k
    ensures forall i :: 0 <= i < k ==> Faces(FaceRecords(tris, offset, k))[i] == Corners3(tris[i], offset)
  {
    if k > 0 {
      var prev, face := FaceRecords(tris, offset, k - 1), Corners3(tris[k - 1], offset);
      FaceRecordsFaces(tris, offset, k - 1);
      AppendOne(prev, Face(face));
      var fs := Faces(FaceRecords(tris, offset, k));
      assert fs == Faces(prev) + [face];
      forall i | 0 <= i < k
        ensures fs[i] == Corners3(tris[i], offset)
      {
        if i < k - 1 {
          assert fs[i] == Faces(prev)[i];
        }
      }
    }
  }

  lemma {:induction false} FaceRecordsNoVertices(tris: seq<Triangle>, offset: int, k: int)
    requires 0 <= k <= |tris|
    ensures Vertices(FaceRecords(tris, offset, k)) == []
  {
    if k > 0 {
      FaceRecordsNoVertices(tris, offset, k - 1);
      AppendOne(FaceRecords(tris, offset, k - 1), Face(Corners3(tris[k - 1], offset)));
    }
  }

  /** terrain.cxx:153-162: a checkpoint, one vertex with its normal per
      kept point, then one face per triangle, its indices shifted by the
      checkpoint. */
  method Emit(writer: ObjWriter, coords: array<Point>, normals: array<Vec3>, j: int, tris: seq<Triangle>)
    requires writer.Valid() && 0 <= j <= coords.Length && j <= normals.Length
    requires AllPresent(coords[..j])
    modifies writer
    ensures writer.offset == old(writer.vertIndex) && writer.vertIndex == old(writer.vertIndex) + j
    ensures writer.out == old(writer.out) + VertexRecords(coords[..j], normals[..j], j) + FaceRecords(tris, writer.offset, |tris|)
    ensures writer.Valid()
  {
    writer.Checkpoint();
    EmitVertices(writer, coords, normals, j);
    EmitFaces(writer, tris);
  }

  /** The vertex loop of the emission (terrain.cxx:154-156). */
  method EmitVertices(writer: ObjWriter, coords: array<Point>, normals: array<Vec3>, j: int)
    requires writer.Valid() && 0 <= j <= coords.Length && j <= normals.Length
    requires AllPresent(coords[..j])
    modifies writer`vertIndex, writer`out
    ensures writer.vertIndex == old(writer.vertIndex) + j
    ensures writer.out == old(writer.out) + VertexRecords(coords[..j], normals[..j], j)
    ensures writer.Valid()
  {
    ghost var pts, ns := coords[..j], normals[..j];
    var i := 0;
    while i < j
      invariant 0 <= i <= j && writer.Valid()
      invariant writer.vertIndex == old(writer.vertIndex) + i
      invariant writer.out == old(writer.out) + VertexRecords(pts, ns, i)
    {
      assert coords[i] == pts[i] && normals[i] == ns[i];
      var _ := writer.WriteVertexNormal(Vec3(coords[i].x, coords[i].z.value, coords[i].y), normals[i]);
      i := i + 1;
    }
  }

  /** The face loop of the emission (terrain.cxx:158-162). */
  method EmitFaces(writer: ObjWriter, tris: seq<Triangle>)
    requires writer.Valid()
    modifies writer`out, writer`face
    ensures writer.out == old(writer.out) + FaceRecords(tris, writer.offset, |tris|)
    ensures writer.Valid()
  {
    var k := 0;
    while k < |tris|
      invariant 0 <= k <= |tris| && writer.Valid()
      invariant writer.out == old(writer.out) + FaceRecords(tris, writer.offset, k)
    {
      EmitFace(writer, tris[k]);
      k := k + 1;
    }
  }

  /** One turn of the face loop (terrain.cxx:158-162): the triangle's three
      corners, shifted by the checkpoint offset, as one face record. */
  method EmitFace(writer: ObjWriter, t: Triangle)
    requires writer.Valid()
    modifies writer`out, writer`face
    ensures writer.out == old(writer.out) + [Face(Corners3(t, writer.offset))]
    ensures writer.Valid()
  {
    writer.BeginFace();
    writer.AddIndex(t.p1);
    writer.AddIndex(t.p2);
    writer.AddIndex(t.p3);
    assert writer.face == Corners3(t, writer.offset);
    writer.EndFace();
  }

  /** The vertices of an emitted batch: those before it, then the kept
      points' mesh vertices; the face records add none. */
  lemma {:induction false} EmittedVertices(prefix: seq<Line>, pts: seq<Point>, normals: seq<Vec3>, tris: seq<Triangle>, offset: int)
    requires AllPresent(pts) && |pts| <= |normals|
    ensures var vs := VertexRecords(pts, normals, |pts|);
            Vertices(prefix + vs + FaceRecords(tris, offset, |tris|)) == Vertices(prefix + vs)
  {
    var vs := VertexRecords(pts, normals, |pts|);
    var fs := FaceRecords(tris, offset, |tris|);
    FaceRecordsNoVertices(tris, offset, |tris|);
    VerticesAppend(prefix + vs, fs);
  }

  /** The faces of an emitted batch: those before it, then one per
      triangle. */
  lemma {:induction false} EmittedFaces(prefix: seq<Line>, pts: seq<Point>, normals: seq<Vec3>, tris: seq<Triangle>, offset: int)
    requires AllPresent(pts) && |pts| <= |normals|
    ensures var vs := VertexRecords(pts, normals, |pts|);
            var fs := FaceRecords(tris, offset, |tris|);
            Faces(prefix + vs + fs) == Faces(prefix) + Faces(fs)
  {
    var vs := VertexRecords(pts, normals, |pts|);
    var fs := FaceRecords(tris, offset, |tris|);
    VertexRecordsNoFaces(pts, normals, |pts|);
    FacesAppend(prefix + vs, fs);
    FacesAppend(prefix, vs);
  }

  /** What the emitted stream means: triangle i becomes face number
      |Faces(prefix)| + i, and each of its three indices names the mesh
      vertex of the corresponding compacted point, however many vertices
      the stream held before the checkpoint. */
  lemma {:induction false} EmittedTriangle(prefix: seq<Line>, pts: seq<Point>, normals: seq<Vec3>, tris: seq<Triangle>, i: int)
    requires AllPresent(pts) && |pts| <= |normals| && 0 <= i < |tris| && Spans(pts, tris[i])
    ensures var offset := |Vertices(prefix)| + 1;
            var all := prefix + VertexRecords(pts, normals, |pts|) + FaceRecords(tris, offset, |tris|);
            && |Faces(prefix)| + i < |Faces(all)|
            && Faces(all)[|Faces(prefix)| + i] == [tris[i].p1 + offset, tris[i].p2 + offset, tris[i].p3 + offset]
            && Resolve(all, tris[i].p1 + offset) == Some(MeshVertex(pts[tris[i].p1]))
            && Resolve(all, tris[i].p2 + offset) == Some(MeshVertex(pts[tris[i].p2]))
            && Resolve(all, tris[i].p3 + offset) == Some(MeshVertex(pts[tris[i].p3]))
  {
    var offset := |Vertices(prefix)| + 1;
    EmittedFace(prefix, pts, normals, tris, offset, i);
    EmittedCorner(prefix, pts, normals, tris, offset, tris[i].p1);
    EmittedCorner(prefix, pts, normals, tris, offset, tris[i].p2);
    EmittedCorner(prefix, pts, normals, tris, offset, tris[i].p3);
  }

  /** Triangle i is face number |Faces(prefix)| + i of the stream, its
      indices shifted by offset. */
  lemma {:induction false} EmittedFace(prefix: seq<Line>, pts: seq<Point>, normals: seq<Vec3>, tris: seq<Triangle>, offset: int, i: int)
    requires AllPresent(pts) && |pts| <= |normals| && 0 <= i < |tris|
    ensures var all := prefix + VertexRecords(pts, normals, |pts|) + FaceRecords(tris, offset, |tris|);
            && |Faces(prefix)| + i < |Faces(all)|
            && Faces(all)[|Faces(prefix)| + i] == Corners3(tris[i], offset)
  {
    var fs := FaceRecords(tris, offset, |tris|);
    EmittedFaces(prefix, pts, normals, tris, offset);
    FaceRecordsFaces(tris, offset, |tris|);
    assert Faces(fs)[i] == Corners3(tris[i], offset);
  }

  /** Local index k of the batch names point k's mesh vertex. */
  lemma {:induction false} EmittedCorner(prefix: seq<Line>, pts: seq<Point>, normals: seq<Vec3>, tris: seq<Triangle>, offset: int, k: int)
    requires AllPresent(pts) && |pts| <= |normals| && 0 <= k < |pts| && offset == |Vertices(prefix)| + 1
    ensures Resolve(prefix + VertexRecords(pts, normals, |pts|) + FaceRecords(tris, offset, |tris|), k + offset)
            == Some(MeshVertex(pts[k]))
  {
    var vs := VertexRecords(pts, normals, |pts|);
    EmittedVertices(prefix, pts, normals, tris, offset);
    VertexRecordsVertices(pts, normals, |pts|);
    ResolveAfter(prefix, vs, k);
  }

  // ---------------------------------------------------------------------
  // terrain_to_obj (terrain.cxx:85-162)
  // ---------------------------------------------------------------------

  /** The sampling step: one arc second (terrain.cxx:89). */
  const ArcSecond: real := 1.0 / 3600.0

  /** The number of samples between lo and hi, both ends included
      (terrain.cxx:90-91): one more than the whole arc-second steps of the
      span. A reversed span gives no sample, or a negative count once it is
      at least an arc second long. */
  function Samples(lo: real, hi: real): (n: int)
    ensures (hi - lo) * 3600.0 < n as real <= (hi - lo) * 3600.0 + 1.0
    ensures n >= 1 <==> lo <= hi
    ensures n >= 0 <==> lo - ArcSecond <= hi
  {
    assert (hi - lo) / ArcSecond == (hi - lo) * 3600.0;
    ((hi - lo) / ArcSecond + 1.0).Floor
  }

  /** The bounding box in radians, projected corner by corner
      (terrain.cxx:92-94). */
  function ProjectedBounds(project: Projector, x1: real, y1: real, x2: real, y2: real): (b: seq<real>)
    ensures |b| == 4
  {
    Transform(project, [x1 * DegToRad, y1 * DegToRad, x2 * DegToRad, y2 * DegToRad])
  }

  /** The corners of the box are projected one by one. */
  lemma {:induction false} ProjectedCorners(project: Projector, x1: real, y1: real, x2: real, y2: real)
    ensures var b := ProjectedBounds(project, x1, y1, x2, y2);
            && (b[0], b[1]) == project(x1 * DegToRad, y1 * DegToRad)
            && (b[2], b[3]) == project(x2 * DegToRad, y2 * DegToRad)
  {
    var coords := [x1 * DegToRad, y1 * DegToRad, x2 * DegToRad, y2 * DegToRad];
    TransformPair(project, coords, 0);
    TransformPair(project, coords, 1);
  }

  lemma {:induction false} ColumnPresent(query: Query, unproject: Projector, xs: seq<real>, ys: seq<real>, c: int, n: int)
    requires 0 <= c < |xs| && 0 <= n <= |ys| && Known(query, unproject, xs, ys)
    ensures AllPresent(Column(query, unproject, xs, ys, c, n))
  {
    if n > 0 {
      ColumnPresent(query, unproject, xs, ys, c, n - 1);
    }
  }

  /** Every sample has a height. */
  lemma {:induction false} GridPresent(query: Query, unproject: Projector, xs: seq<real>, ys: seq<real>, n: int)
    requires 0 <= n <= |xs| && Known(query, unproject, xs, ys)
    ensures AllPresent(Grid(query, unproject, xs, ys, n))
  {
    if n > 0 {
      GridPresent(query, unproject, xs, ys, n - 1);
      ColumnPresent(query, unproject, xs, ys, n - 1, |ys|);
    }
  }

  /** A fully sampled grid is ready for thinning: the landing zone after
      the inspected prefix lies inside the grid. */
  lemma {:induction false} SampledReady(pts: seq<Point>, rows: int, cols: int)
    requires rows > 0 && cols > 0 && rows * cols <= |pts| && AllPresent(pts[..rows * cols])
    ensures ThinReady(pts, rows, cols)
  {
    var p := Inspected(rows, cols);
    if p > 0 {
      assert p == rows * cols - 2 * rows - 2 * cols + 4 by {
        assert (cols - 2) * (rows - 2) == cols * (rows - 2) - 2 * (rows - 2);
        assert cols * (rows - 2) == cols * rows - 2 * cols;
      }
      forall t | p <= t < p + rows + 1
        ensures pts[t].z.Some?
      {
        assert pts[t] == pts[..rows * cols][t];
      }
    }
  }

  /** A pass never moves a point: each slot keeps its x. */
  lemma {:induction false} PassesKeepX(pts: seq<Point>, rows: int, cols: int, tolerance: real, n: nat, t: int)
    requires ThinReady(pts, rows, cols) && 0 <= t < |pts|
    ensures Passes(pts, rows, cols, tolerance, n)[t].x == pts[t].x
  {
    if n > 0 {
      PassesKeepX(pts, rows, cols, tolerance, n - 1, t);
      ThinPassShape(Passes(pts, rows, cols, tolerance, n - 1), rows, cols, tolerance, t);
    }
  }

  /** x order depends on the x's alone. */
  lemma {:induction false} SortedBySameX(a: seq<Point>, b: seq<Point>)
    requires SortedByX(a) && |a| == |b| && forall t :: 0 <= t < |a| ==> a[t].x == b[t].x
    ensures SortedByX(b)
  {
  }

  /** The kept points all have a height. */
  lemma {:induction false} KeptPresent(pts: seq<Point>)
    ensures AllPresent(Kept(pts))
  {
    var k := Kept(pts);
    forall m | 0 <= m < |k|
      ensures k[m].z.Some?
    {
      KeptMembers(pts, k[m]);
    }
  }

  /** A 3 x 3 grid of equal heights: the one pass-visited slot is slot 0,
      the corner (0, 0), and it is removed; the centre (1, 1), slot 4, is
      not visited and keeps its height. */
  lemma {:induction false} FlatGridCorner()
    ensures var flat := seq(9, _ => Point(0.0, 0.0, Some(10.0)));
            && ThinReady(flat, 3, 3)
            && ThinPass(flat, 3, 3, ThinTolerance)[0].z.None?
            && ThinPass(flat, 3, 3, ThinTolerance)[4] == flat[4]
  {
    var flat := seq(9, _ => Point(0.0, 0.0, Some(10.0)));
    assert Inspected(3, 3) == 1;
    assert Walkable(flat, 3, 1);
    ThinPassDecides(flat, 3, 3, ThinTolerance, 0);
    assert NearSlot(flat, 0, 2, 1, 4) == 2;
    assert NearSlot(flat, 0, 3, 1, 4) == 3;
    assert NearSlot(flat, 0, 4, 1, 4) == 4;
    assert Flat(flat, 3, 1, 0, ThinTolerance);
    ThinPassShape(flat, 3, 3, ThinTolerance, 4);
  }

  /** The first half of terrain_to_obj (terrain.cxx:89-128): the grid
      dimensions, the projected bounds, the buffer of rows * cols + 3
      points, the samples, and thinning until a pass changes nothing. The
      ghost results name the sampled grid and the number of passes. */
  method SampleAndThin(query: Query, project: Projector, unproject: Projector,
                       x1: real, y1: real, x2: real, y2: real)
    returns (rows: int, cols: int, coords: array<Point>, ghost grid: seq<Point>, ghost passes: nat)
    requires x1 <= x2 && y1 <= y2
    requires var b := ProjectedBounds(project, x1, y1, x2, y2);
             && b[0] <= b[2]
             && Known(query, unproject, ColumnXs(b, Samples(x1, x2)), RowYs(b, Samples(y1, y2)))
    ensures rows == Samples(y1, y2) && cols == Samples(x1, x2) && rows > 0 && cols > 0
    ensures fresh(coords) && coords.Length == rows * cols + 3
    ensures var b := ProjectedBounds(project, x1, y1, x2, y2);
            && |grid| == rows * cols + 3
            && grid[..rows * cols] == Grid(query, unproject, ColumnXs(b, cols), RowYs(b, rows), cols)
            && ThinReady(grid, rows, cols)
    ensures coords[..] == Passes(grid, rows, cols, ThinTolerance, passes)
    ensures ThinPass(coords[..], rows, cols, ThinTolerance) == coords[..]
    ensures SortedByX(coords[..rows * cols])
  {
    rows := Samples(y1, y2);
    cols := Samples(x1, x2);
    var bounds := ProjectedBounds(project, x1, y1, x2, y2);
    ghost var xs, ys := ColumnXs(bounds, cols), RowYs(bounds, rows);
    coords := new Point[rows * cols + 3];

    Sample(query, unproject, bounds, rows, cols, coords);
    grid := coords[..];
    assert grid[..rows * cols] == Grid(query, unproject, xs, ys, cols);
    GridPresent(query, unproject, xs, ys, cols);
    SampledReady(grid, rows, cols);
    SampledSorted(query, unproject, bounds, rows, cols);

    var count;
    count, passes := Converge(rows, cols, coords);
    ghost var thinned := coords[..];
    forall t | 0 <= t < rows * cols
      ensures grid[..rows * cols][t].x == thinned[..rows * cols][t].x
    {
      PassesKeepX(grid, rows, cols, ThinTolerance, passes, t);
    }
    SortedBySameX(grid[..rows * cols], thinned[..rows * cols]);
  }

  /** terrain_to_obj (terrain.cxx:85-162) after the elevation store is
      built: sample the grid, thin it to a fixpoint, compact it, hand it to
      the triangulator, accumulate normals and write one mesh batch. The
      ghost results name the intermediate states.

      A reversed box is not rejected by the source. When rows * cols is
      negative, allocating the sample buffer throws
      std::bad_array_new_length (terrain.cxx:100-101) before anything is
      written; when it is zero, the loops visit no slot and the batch holds
      no vertex and no face. */
  method TerrainToObj(query: Query, project: Projector, unproject: Projector,
                      triangulate: seq<Point> -> seq<Triangle>, normalize: Normalizer, writer: ObjWriter,
                      x1: real, y1: real, x2: real, y2: real)
    returns (failure: Option<AllocationError>, ghost grid: seq<Point>, ghost passes: nat,
             ghost kept: seq<Point>, ghost tris: seq<Triangle>, ghost normals: seq<Vec3>)
    requires writer.Valid()
    requires Samples(y1, y2) >= 0 || Samples(x1, x2) >= 0
    requires x1 <= x2 && y1 <= y2 ==>
               var b := ProjectedBounds(project, x1, y1, x2, y2);
               && b[0] <= b[2]
               && Known(query, unproject, ColumnXs(b, Samples(x1, x2)), RowYs(b, Samples(y1, y2)))
    requires forall pts, t :: SortedByX(pts) && AllPresent(pts) && t in triangulate(pts) ==> Spans(pts, t)
    modifies writer
    ensures failure.Some? <==> Samples(y1, y2) * Samples(x1, x2) < 0
    ensures failure.Some? ==> failure == Some(BadArrayNewLength) && unchanged(writer)
    ensures Samples(y1, y2) * Samples(x1, x2) == 0 ==> kept == [] && tris == [] && writer.out == old(writer.out)
    ensures x1 <= x2 && y1 <= y2 ==>
            var rows, cols := Samples(y1, y2), Samples(x1, x2);
            var b := ProjectedBounds(project, x1, y1, x2, y2);
            && |grid| == rows * cols + 3
            && grid[..rows * cols] == Grid(query, unproject, ColumnXs(b, cols), RowYs(b, rows), cols)
            && ThinReady(grid, rows, cols)
            && var thinned := Passes(grid, rows, cols, ThinTolerance, passes);
               && ThinPass(thinned, rows, cols, ThinTolerance) == thinned
               && kept == Kept(thinned[..rows * cols])
    ensures failure.None? ==>
            && SortedByX(kept) && AllPresent(kept)
            && tris == triangulate(kept)
            && |normals| == |kept|
            && (forall v :: 0 <= v < |kept| ==> normals[v] == Accumulated(kept, tris, normalize, |tris|, v))
            && writer.out == old(writer.out) + VertexRecords(kept, normals, |kept|) + FaceRecords(tris, old(writer.vertIndex), |tris|)
    ensures writer.Valid()
  {
    var rows, cols := Samples(y1, y2), Samples(x1, x2);
    if rows * cols < 0 {
      failure := Some(BadArrayNewLength);
      grid, passes, kept, tris, normals := [], 0, [], [], [];
      return;
    }
    failure := None;
    if rows > 0 && cols > 0 {
      grid, passes, kept, tris, normals := MeshGrid(query, project, unproject, triangulate, normalize, writer, x1, y1, x2, y2);
    } else {
      grid, passes := [], 0;
      kept, tris, normals := MeshEmptyGrid(rows, cols, triangulate, normalize, writer);
    }
  }

  /** terrain_to_obj over a box whose grid has rows and columns. */
  method MeshGrid(query: Query, project: Projector, unproject: Projector,
                  triangulate: seq<Point> -> seq<Triangle>, normalize: Normalizer, writer: ObjWriter,
                  x1: real, y1: real, x2: real, y2: real)
    returns (ghost grid: seq<Point>, ghost passes: nat, ghost kept: seq<Point>,
             ghost tris: seq<Triangle>, ghost normals: seq<Vec3>)
    requires writer.Valid() && x1 <= x2 && y1 <= y2
    requires var b := ProjectedBounds(project, x1, y1, x2, y2);
             && b[0] <= b[2]
             && Known(query, unproject, ColumnXs(b, Samples(x1, x2)), RowYs(b, Samples(y1, y2)))
    requires forall pts, t :: SortedByX(pts) && AllPresent(pts) && t in triangulate(pts) ==> Spans(pts, t)
    modifies writer
    ensures var rows, cols := Samples(y1, y2), Samples(x1, x2);
            var b := ProjectedBounds(project, x1, y1, x2, y2);
            && |grid| == rows * cols + 3
            && grid[..rows * cols] == Grid(query, unproject, ColumnXs(b, cols), RowYs(b, rows), cols)
            && ThinReady(grid, rows, cols)
            && var thinned := Passes(grid, rows, cols, ThinTolerance, passes);
               && ThinPass(thinned, rows, cols, ThinTolerance) == thinned
               && kept == Kept(thinned[..rows * cols])
    ensures SortedByX(kept) && AllPresent(kept)
    ensures tris == triangulate(kept)
    ensures |normals| == |kept|
    ensures forall v :: 0 <= v < |kept| ==> normals[v] == Accumulated(kept, tris, normalize, |tris|, v)
    ensures writer.out == old(writer.out) + VertexRecords(kept, normals, |kept|) + FaceRecords(tris, old(writer.vertIndex), |tris|)
    ensures writer.Valid()
  {
    var rows, cols, coords;
    rows, cols, coords, grid, passes := SampleAndThin(query, project, unproject, x1, y1, x2, y2);
    kept, tris, normals := Mesh(rows, cols, coords, triangulate, normalize, writer);
  }

  /** terrain_to_obj over a box whose grid has no slot: sampling, thinning
      and compaction visit nothing, and the batch writes no record. */
  method MeshEmptyGrid(rows: int, cols: int, triangulate: seq<Point> -> seq<Triangle>,
                       normalize: Normalizer, writer: ObjWriter)
    returns (ghost kept: seq<Point>, ghost tris: seq<Triangle>, ghost normals: seq<Vec3>)
    requires writer.Valid() && rows * cols == 0
    requires forall pts, t :: SortedByX(pts) && AllPresent(pts) && t in triangulate(pts) ==> Spans(pts, t)
    modifies writer
    ensures kept == [] && tris == triangulate(kept) == [] && normals == []
    ensures writer.out == old(writer.out) && writer.Valid()
  {
    var coords := new Point[rows * cols + 3];
    kept, tris, normals := Mesh(rows, cols, coords, triangulate, normalize, writer);
    EmptyBatch(kept, tris, normals, triangulate, old(writer.vertIndex));
  }

  /** An empty grid keeps no point; the triangulator, which only builds
      triangles over its points, returns none, and the batch writes no
      record. */
  lemma {:induction false} EmptyBatch(kept: seq<Point>, tris: seq<Triangle>, normals: seq<Vec3>,
                                      triangulate: seq<Point> -> seq<Triangle>, base: int)
    requires kept == Kept([]) && tris == triangulate(kept) && |normals| == |kept|
    requires forall pts, t :: SortedByX(pts) && AllPresent(pts) && t in triangulate(pts) ==> Spans(pts, t)
    ensures kept == [] && tris == []
    ensures VertexRecords(kept, normals, |kept|) + FaceRecords(tris, base, |tris|) == []
  {
    assert 0 < |tris| ==> Spans(kept, tris[0]);
  }

  /** The second half of terrain_to_obj (terrain.cxx:130-162): compact the
      thinned grid, triangulate it, accumulate the normals and write the
      batch. */
  method Mesh(rows: int, cols: int, coords: array<Point>,
              triangulate: seq<Point> -> seq<Triangle>, normalize: Normalizer, writer: ObjWriter)
    returns (ghost kept: seq<Point>, ghost tris: seq<Triangle>, ghost normals: seq<Vec3>)
    requires writer.Valid() && 0 <= rows * cols <= coords.Length
    requires SortedByX(coords[..rows * cols])
    requires forall pts, t :: SortedByX(pts) && AllPresent(pts) && t in triangulate(pts) ==> Spans(pts, t)
    modifies coords, writer
    ensures kept == Kept(old(coords[..rows * cols]))
    ensures SortedByX(kept) && AllPresent(kept)
    ensures tris == triangulate(kept)
    ensures |normals| == |kept|
    ensures forall v :: 0 <= v < |kept| ==> normals[v] == Accumulated(kept, tris, normalize, |tris|, v)
    ensures writer.out == old(writer.out) + VertexRecords(kept, normals, |kept|) + FaceRecords(tris, old(writer.vertIndex), |tris|)
    ensures writer.Valid()
  {
    var normalBuffer := new Vec3[rows * cols];
    ghost var thinned := coords[..];

    var j := Compact(rows, cols, coords);
    kept := coords[..j];
    KeptSorted(thinned[..rows * cols]);
    KeptPresent(thinned[..rows * cols]);

    var triangles := triangulate(coords[..j]);
    tris := triangles;
    forall t | t in triangles
      ensures Spans(coords[..j], t)
    {
    }

    AccumulateNormals(coords, j, triangles, normalize, normalBuffer);
    normals := normalBuffer[..j];
    Emit(writer, coords, normalBuffer, j, triangles);
  }
}
