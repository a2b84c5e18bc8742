/** `adapt_to_grid` (fbpic/main.py:612-667): snap a requested particle
    loading interval onto the points of a 1-D grid and count the
    macro-particles to load. */
module GridSnapping {
  import opened Outcomes
  import opened RealArith

  predicate Increasing(s: seq<real>)
  {
    forall i, j :: 0 <= i < j < |s| ==> s[i] < s[j]
  }

  /** A grid whose points are `x[0] + k*dx` with `dx = x[1] - x[0] > 0`. */
  predicate EvenlySpaced(x: seq<real>)
  {
    && |x| >= 2
    && x[1] > x[0]
    && forall k :: 0 <= k < |x| ==> x[k] == x[0] + k as real * (x[1] - x[0])
  }

  /** `x.min()` */
  function SeqMin(s: seq<real>): real
    requires |s| > 0
  {
    if |s| == 1 then s[0]
    else
      var rest := SeqMin(s[1..]);
      if s[0] <= rest then s[0] else rest
  }

  /** `x.max()` */
  function SeqMax(s: seq<real>): real
    requires |s| > 0
  {
    if |s| == 1 then s[0]
    else
      var rest := SeqMax(s[1..]);
      if s[0] >= rest then s[0] else rest
  }

  /** The minimum and the maximum are elements, and bound every element. */
  lemma {:induction false} SeqMinMax(s: seq<real>)
    requires |s| > 0
    ensures SeqMin(s) in s && SeqMax(s) in s
    ensures forall v :: v in s ==> SeqMin(s) <= v <= SeqMax(s)
  {
    if |s| > 1 {
      SeqMinMax(s[1..]);
      assert forall v :: v in s ==> v == s[0] || v in s[1..];
    }
  }

  /** `x[(x > lo) & (x < hi)]`: the grid points strictly inside `(lo, hi)`,
      in grid order. */
  function Inside(x: seq<real>, lo: real, hi: real): (r: seq<real>)
    ensures |r| <= |x|
  {
    if x == [] then []
    else
      var rest := Inside(x[1..], lo, hi);
      if lo < x[0] < hi then [x[0]] + rest else rest
  }

  /** `Inside` keeps exactly the points strictly between the bounds, and
      keeps an increasing grid increasing. */
  lemma {:induction false} InsideSelects(x: seq<real>, lo: real, hi: real)
    ensures forall v :: v in Inside(x, lo, hi) <==> v in x && lo < v < hi
    ensures Increasing(x) ==> Increasing(Inside(x, lo, hi))
  {
    if x != [] {
      var rest := Inside(x[1..], lo, hi);
      InsideSelects(x[1..], lo, hi);
      assert forall v :: v in x <==> v == x[0] || v in x[1..];
      if lo < x[0] < hi && Increasing(x) {
        forall j | 0 <= j < |rest|
          ensures x[0] < rest[j]
        {
          assert rest[j] in x[1..];
          var t :| 0 <= t < |x[1..]| && x[1..][t] == rest[j];
          assert x[t + 1] == rest[j];
        }
        assert Increasing(x[1..]);
        assert Increasing([x[0]] + rest);
      }
      if !(lo < x[0] < hi) && Increasing(x) {
        assert Increasing(x[1..]);
      }
    }
  }

  /** The cell size the source reads off the first two points. */
  function Dx(x: seq<real>): real
    requires |x| >= 2
  {
    x[1] - x[0]
  }

  /** Lowest admissible loading bound: half a cell below the first point. */
  function LowerLimit(x: seq<real>): real
    requires |x| >= 2
  {
    SeqMin(x) - 0.5 * Dx(x)
  }

  /** Highest admissible loading bound: `nEmpty` cells are kept free below
      half a cell above the last point. */
  function UpperLimit(x: seq<real>, nEmpty: int): real
    requires |x| >= 2
  {
    SeqMax(x) + (0.5 - nEmpty as real) * Dx(x)
  }

  datatype Bounds = Bounds(lo: real, hi: real)

  /** Step 1 of `adapt_to_grid`: each requested bound is moved onto its
      admissible limit when it lies beyond it, and kept otherwise. */
  function Clamp(x: seq<real>, pMin: real, pMax: real, nEmpty: int): (b: Bounds)
    requires |x| >= 2
    ensures LowerLimit(x) <= b.lo && (b.lo == pMin || b.lo == LowerLimit(x))
    ensures b.hi <= UpperLimit(x, nEmpty) && (b.hi == pMax || b.hi == UpperLimit(x, nEmpty))
    ensures LowerLimit(x) <= pMin ==> b.lo == pMin
    ensures pMax <= UpperLimit(x, nEmpty) ==> b.hi == pMax
  {
    var lo := if pMin < LowerLimit(x) then LowerLimit(x) else pMin;
    var hi := if pMax > UpperLimit(x, nEmpty) then UpperLimit(x, nEmpty) else pMax;
    Bounds(lo, hi)
  }

  /** The tuple `(p_xmin, p_xmax, Npx)` returned by `adapt_to_grid`. */
  datatype Loading = Loading(pMin: real, pMax: real, count: int)

  /** `adapt_to_grid(x, p_xmin, p_xmax, p_nx, ncells_empty)`. A grid with no
      point fails in `x.min()`, a grid of one point in `x[1]`. */
  function AdaptToGrid(x: seq<real>, pMin: real, pMax: real, pNx: int, nEmpty: int)
    : (r: Result<Loading>)
    ensures r == Err(EmptyGrid) <==> |x| == 0
    ensures r == Err(GridIndexOutOfRange) <==> |x| == 1
    ensures r.Ok? <==> |x| >= 2
  {
    if |x| == 0 then Err(EmptyGrid)
    else if |x| == 1 then Err(GridIndexOutOfRange)
    else
      var b := Clamp(x, pMin, pMax, nEmpty);
      var load := Inside(x, b.lo, b.hi);
      var count := |load| * pNx;
      if count > 0 then
        Ok(Loading(SeqMin(load) - 0.5 * Dx(x), SeqMax(load) + 0.5 * Dx(x), count))
      else
        Ok(Loading(b.lo, b.hi, count))
  }

  /** What the result means: the count is `pNx` per grid point strictly
      inside the clamped interval; a positive count snaps the bounds to half
      a cell around the first and last of those points, any other count
      returns the clamped bounds unchanged. */
  lemma {:induction false} AdaptToGridLoadsInsidePoints(x: seq<real>, pMin: real, pMax: real,
                                                        pNx: int, nEmpty: int)
    requires |x| >= 2
    ensures var r := AdaptToGrid(x, pMin, pMax, pNx, nEmpty).value;
            var b := Clamp(x, pMin, pMax, nEmpty);
            var load := Inside(x, b.lo, b.hi);
            && r.count == |load| * pNx
            && (r.count > 0 ==> |load| > 0 && r.pMin + 0.5 * Dx(x) in load && r.pMax - 0.5 * Dx(x) in load
                                && forall v :: v in load ==> r.pMin + 0.5 * Dx(x) <= v <= r.pMax - 0.5 * Dx(x))
            && (r.count <= 0 ==> r.pMin == b.lo && r.pMax == b.hi)
  {
    var b := Clamp(x, pMin, pMax, nEmpty);
    var load := Inside(x, b.lo, b.hi);
    if |load| * pNx > 0 {
      assert |load| > 0;
      SeqMinMax(load);
      InsideSelects(x, b.lo, b.hi);
    }
  }

  /** The loading region never starts more than half a cell below the first
      grid point, and on a grid with increasing points and `nEmpty >= 0` it
      never ends more than half a cell above the last one. On an evenly
      spaced grid it also keeps the top `nEmpty` cells free: it never ends
      above the upper limit of the clamp. */
  lemma {:induction false} AdaptToGridStaysInBox(x: seq<real>, pMin: real, pMax: real,
                                                 pNx: int, nEmpty: int)
    requires |x| >= 2
    ensures AdaptToGrid(x, pMin, pMax, pNx, nEmpty).value.pMin >= SeqMin(x) - 0.5 * Dx(x)
    ensures Dx(x) > 0.0 && nEmpty >= 0 ==>
              AdaptToGrid(x, pMin, pMax, pNx, nEmpty).value.pMax <= SeqMax(x) + 0.5 * Dx(x)
    ensures EvenlySpaced(x) ==>
              AdaptToGrid(x, pMin, pMax, pNx, nEmpty).value.pMax <= UpperLimit(x, nEmpty)
  {
    if EvenlySpaced(x) {
      AdaptToGridKeepsEmptyCells(x, pMin, pMax, pNx, nEmpty);
    }
    var b := Clamp(x, pMin, pMax, nEmpty);
    var load := Inside(x, b.lo, b.hi);
    if |load| * pNx > 0 {
      assert |load| > 0;
      SeqMinMax(load);
      SeqMinMax(x);
      InsideSelects(x, b.lo, b.hi);
      assert SeqMin(load) in x && SeqMax(load) in x;
    } else if Dx(x) > 0.0 && nEmpty >= 0 {
      assert 0.0 <= nEmpty as real * Dx(x) by {
        if nEmpty > 0 { MulLeftMono(0.0, nEmpty as real, Dx(x)); }
      }
    }
  }

  /** On an evenly spaced grid the snapped upper bound stays at or below
      the upper limit of the clamp, so the top `nEmpty` cells get no
      particles. */
  lemma {:induction false} AdaptToGridKeepsEmptyCells(x: seq<real>, pMin: real, pMax: real,
                                                      pNx: int, nEmpty: int)
    requires EvenlySpaced(x)
    ensures AdaptToGrid(x, pMin, pMax, pNx, nEmpty).value.pMax <= UpperLimit(x, nEmpty)
  {
    var b := Clamp(x, pMin, pMax, nEmpty);
    if |Inside(x, b.lo, b.hi)| * pNx > 0 {
      SnappedBoundsAreFixed(x, b.lo, b.hi, nEmpty);
    }
  }

  /** On a grid that is not evenly spaced, the half cell read off the first
      two points need not fit below the upper limit: with points 0, 1, 1.4
      and 2 and one empty cell the limit is 1.5, yet the snapped upper bound
      is 1.9. */
  lemma UnevenGridReachesEmptyCells()
    ensures UpperLimit([0.0, 1.0, 1.4, 2.0], 1) == 1.5
    ensures AdaptToGrid([0.0, 1.0, 1.4, 2.0], 0.0, 2.0, 1, 1) == Ok(Loading(0.5, 1.9, 2))
  {
    var x := [0.0, 1.0, 1.4, 2.0];
    assert SeqMax(x) == 2.0 && SeqMin(x) == 0.0;
    var load := Inside(x, 0.0, 1.5);
    assert load == [1.0, 1.4];
    assert SeqMin(load) == 1.0 && SeqMax(load) == 1.4;
  }

  /** The count is linear in the number of particles per grid point, and
      scaling that number by a positive factor leaves the bounds unchanged. */
  lemma {:induction false} AdaptToGridLinearInDensity(x: seq<real>, pMin: real, pMax: real,
                                                      pNx: int, nEmpty: int, k: int)
    requires |x| >= 2
    ensures AdaptToGrid(x, pMin, pMax, k * pNx, nEmpty).value.count
            == k * AdaptToGrid(x, pMin, pMax, pNx, nEmpty).value.count
    ensures k > 0 ==>
              var r := AdaptToGrid(x, pMin, pMax, pNx, nEmpty).value;
              var s := AdaptToGrid(x, pMin, pMax, k * pNx, nEmpty).value;
              s.pMin == r.pMin && s.pMax == r.pMax
  {
    var b := Clamp(x, pMin, pMax, nEmpty);
    var n := |Inside(x, b.lo, b.hi)|;
    assert n * (k * pNx) == k * (n * pNx);
    if k > 0 {
      assert n * (k * pNx) > 0 <==> n * pNx > 0 by {
        if n * pNx > 0 { assert k * (n * pNx) >= n * pNx; }
        if n * pNx <= 0 { assert k * (n * pNx) <= 0; }
      }
    }
  }

  /** The points of an evenly spaced grid increase. */
  lemma {:induction false} EvenlySpacedIsIncreasing(x: seq<real>)
    requires EvenlySpaced(x)
    ensures Increasing(x)
  {
    var dx := Dx(x);
    forall i, j | 0 <= i < j < |x|
      ensures x[i] < x[j]
    {
      assert x[i] == x[0] + i as real * dx;
      assert x[j] == x[0] + j as real * dx;
      MulStrictMono(i as real, j as real, dx);
    }
  }

  /** The smallest and largest points of an increasing grid are its ends. */
  lemma {:induction false} IncreasingEnds(x: seq<real>)
    requires |x| > 0 && Increasing(x)
    ensures SeqMin(x) == x[0] && SeqMax(x) == x[|x| - 1]
  {
    SeqMinMax(x);
    var lo := SeqMin(x);
    var hi := SeqMax(x);
    var a :| 0 <= a < |x| && x[a] == lo;
    var b :| 0 <= b < |x| && x[b] == hi;
    assert x[0] in x && x[|x| - 1] in x;
    assert x[0] <= x[a];
    assert x[b] <= x[|x| - 1];
  }

  /** The same for an evenly spaced grid. */
  lemma EvenlySpacedEnds(x: seq<real>)
    requires EvenlySpaced(x)
    ensures SeqMin(x) == x[0] && SeqMax(x) == x[|x| - 1]
  {
    EvenlySpacedIsIncreasing(x);
    IncreasingEnds(x);
  }

  /** On an evenly spaced grid a point less than half a cell below another
      point is not below it at all, and symmetrically above. */
  lemma {:induction false} HalfCellSeparates(x: seq<real>, i: int, k: int)
    requires EvenlySpaced(x) && 0 <= i < |x| && 0 <= k < |x|
    ensures x[k] > x[i] - 0.5 * Dx(x) ==> x[i] <= x[k]
    ensures x[k] < x[i] + 0.5 * Dx(x) ==> x[k] <= x[i]
  {
    var dx := Dx(x);
    var xi, xk := x[i], x[k];
    assert xk == x[0] + k as real * dx;
    assert xi == x[0] + i as real * dx;
    assert xk - xi == (k - i) as real * dx;
    WholeSteps(xk - xi, k - i, dx);
  }

  /** Two intervals that agree on every grid point select the same points. */
  lemma {:induction false} InsideAgrees(x: seq<real>, lo: real, hi: real, lo': real, hi': real)
    requires forall k :: 0 <= k < |x| ==> (lo < x[k] < hi <==> lo' < x[k] < hi')
    ensures Inside(x, lo, hi) == Inside(x, lo', hi')
  {
    if x != [] {
      assert lo < x[0] < hi <==> lo' < x[0] < hi';
      forall k | 0 <= k < |x[1..]|
        ensures lo < x[1..][k] < hi <==> lo' < x[1..][k] < hi'
      {
        assert x[1..][k] == x[k + 1];
      }
      InsideAgrees(x[1..], lo, hi, lo', hi');
    }
  }

  /** On an evenly spaced grid, a grid point below the upper limit leaves
      room for half a cell above it. */
  lemma {:induction false} RoomBelowUpperLimit(x: seq<real>, j: int, nEmpty: int)
    requires EvenlySpaced(x) && 0 <= j < |x|
    ensures x[j] < UpperLimit(x, nEmpty) ==> x[j] + 0.5 * Dx(x) <= UpperLimit(x, nEmpty)
  {
    var top := |x| - 1;
    EvenlySpacedEnds(x);
    var x0, xj, xtop, dx := x[0], x[j], x[top], Dx(x);
    var u := UpperLimit(x, nEmpty);
    assert u == xtop + (0.5 - nEmpty as real) * dx;
    assert xtop == x0 + top as real * dx;
    assert xj == x0 + j as real * dx;
    WholeSteps(xj + 0.5 * dx - u, j - top + nEmpty, dx);
  }

  /** On an evenly spaced grid, the open interval reaching half a cell
      beyond `x[i]` and `x[j]` holds exactly the points from `x[i]` to `x[j]`. */
  lemma {:induction false} HalfCellWindow(x: seq<real>, i: int, j: int, k: int)
    requires EvenlySpaced(x) && 0 <= i < |x| && 0 <= j < |x| && 0 <= k < |x|
    ensures x[i] - 0.5 * Dx(x) < x[k] < x[j] + 0.5 * Dx(x) <==> x[i] <= x[k] <= x[j]
  {
    HalfCellSeparates(x, i, k);
    HalfCellSeparates(x, j, k);
  }

  /** On an evenly spaced grid, an interval holding exactly the points from
      `x[i]` to `x[j]` selects what the half-cell interval around them selects. */
  lemma {:induction false} SnappedIntervalSelectsSame(x: seq<real>, lo: real, hi: real, i: int, j: int)
    requires EvenlySpaced(x) && 0 <= i < |x| && 0 <= j < |x|
    requires forall k :: 0 <= k < |x| ==> (lo < x[k] < hi <==> x[i] <= x[k] <= x[j])
    ensures Inside(x, lo, hi) == Inside(x, x[i] - 0.5 * Dx(x), x[j] + 0.5 * Dx(x))
  {
    forall k | 0 <= k < |x|
      ensures lo < x[k] < hi <==> x[i] - 0.5 * Dx(x) < x[k] < x[j] + 0.5 * Dx(x)
    {
      HalfCellWindow(x, i, j, k);
    }
    InsideAgrees(x, lo, hi, x[i] - 0.5 * Dx(x), x[j] + 0.5 * Dx(x));
  }

  /** The positive-count case of idempotence: with `first` and `last` the
      smallest and largest selected points, the clamp keeps the snapped
      bounds and they select the same points. */
  lemma {:induction false} SnappedBoundsAreFixed(x: seq<real>, lo: real, hi: real, nEmpty: int)
    requires EvenlySpaced(x) && LowerLimit(x) <= lo && hi <= UpperLimit(x, nEmpty)
    requires |Inside(x, lo, hi)| > 0
    ensures var load := Inside(x, lo, hi);
            var lo', hi' := SeqMin(load) - 0.5 * Dx(x), SeqMax(load) + 0.5 * Dx(x);
            && Clamp(x, lo', hi', nEmpty) == Bounds(lo', hi')
            && Inside(x, lo', hi') == load
  {
    var load := Inside(x, lo, hi);
    InsideSelects(x, lo, hi);
    SeqMinMax(load);
    SeqMinMax(x);
    var first, last := SeqMin(load), SeqMax(load);
    var i :| 0 <= i < |x| && x[i] == first;
    var j :| 0 <= j < |x| && x[j] == last;
    RoomBelowUpperLimit(x, j, nEmpty);
    assert LowerLimit(x) <= first - 0.5 * Dx(x);
    forall k | 0 <= k < |x|
      ensures lo < x[k] < hi <==> x[i] <= x[k] <= x[j]
    {
      assert x[k] in x;
    }
    SnappedIntervalSelectsSame(x, lo, hi, i, j);
  }

  /** On an evenly spaced grid, applying `adapt_to_grid` to its own output
      gives back the same bounds and count. */
  lemma {:induction false} AdaptToGridIdempotent(x: seq<real>, pMin: real, pMax: real,
                                                 pNx: int, nEmpty: int)
    requires EvenlySpaced(x)
    ensures var r := AdaptToGrid(x, pMin, pMax, pNx, nEmpty).value;
            AdaptToGrid(x, r.pMin, r.pMax, pNx, nEmpty) == Ok(r)
  {
    var b := Clamp(x, pMin, pMax, nEmpty);
    var load := Inside(x, b.lo, b.hi);
    if |load| * pNx > 0 {
      assert |load| > 0;
      SnappedBoundsAreFixed(x, b.lo, b.hi, nEmpty);
    } else {
      assert Clamp(x, b.lo, b.hi, nEmpty) == b;
    }
  }
}
