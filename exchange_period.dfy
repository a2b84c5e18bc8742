/** How often particles migrate between domains (`Simulation.__init__`,
    fbpic/main.py:220-242). All quantities are mathematical reals. */
module ExchangePeriod {
  import opened Outcomes
  import opened RealArith

  /** Speed of light in vacuum, m/s (scipy.constants.c). */
  const C: real := 299792458.0

  /** Python's `int(x)` on a float: truncation toward zero. */
  function Trunc(x: real): (r: int)
    ensures 0.0 <= x ==> 0 <= r && r as real <= x < r as real + 1.0
    ensures x < 0.0 ==> r <= 0 && r as real - 1.0 < x <= r as real
  {
    if x >= 0.0 then x.Floor else -((-x).Floor)
  }

  /** The slab of this process, as returned by `divide_into_domain`
      (already converted to the boosted frame when one is used). */
  datatype Slab = Slab(zmin: real, zmax: real, nz: int)

  /** Whether the two divisions of the formula have non-zero divisors. */
  predicate Divisible(dt: real, slab: Slab)
  {
    slab.nz != 0 && slab.zmax - slab.zmin != 0.0 && dt != 0.0
  }

  /** `cells_per_step`: cells crossed in one step at twice the speed of
      light (the factor 2 covers a moving window or a Galilean frame). */
  function CellsPerStep(dt: real, slab: Slab): (r: real)
    requires slab.nz != 0 && slab.zmax - slab.zmin != 0.0
    ensures r * ((slab.zmax - slab.zmin) / slab.nz as real) == 2.0 * C * dt
    ensures dt > 0.0 && slab.zmax > slab.zmin && slab.nz > 0 ==> r > 0.0
  {
    2.0 * C * dt / ((slab.zmax - slab.zmin) / slab.nz as real)
  }

  /** The exchange period stored by the constructor, or the exception it
      raises. `requested` is the `exchange_period` argument, `size` the
      number of processes and `nGuard` the guard width of the communicator. */
  function ExchangePeriod(requested: Option<int>, dt: real, slab: Slab, size: nat,
                          nGuard: int, boundaries: string): (r: Result<int>)
    // a user-supplied period is stored unchanged and unchecked
    ensures requested.Some? ==> r == Ok(requested.value)
    // a computed period is at least 1, and the only failures are the two named ones
    ensures requested.None? && r.Ok? ==> r.value >= 1
    ensures requested.None? && r.Err? ==>
              r.error == (if Divisible(dt, slab) then GuardRegionTooSmall else DivisionByZero)
    // one periodic process: always 1 once the formula can be evaluated
    ensures requested.None? && size == 1 && boundaries == "periodic" ==>
              r == (if Divisible(dt, slab) then Ok(1) else Err(DivisionByZero))
  {
    match requested
    case Some(p) => Ok(p)
    case None =>
      if slab.nz == 0 || slab.zmax - slab.zmin == 0.0 then Err(DivisionByZero)
      else
        var cellsPerStep := CellsPerStep(dt, slab);
        if cellsPerStep == 0.0 then Err(DivisionByZero)
        else
          var formula := Trunc((nGuard - 3) as real / cellsPerStep);
          var period := if size == 1 && boundaries == "periodic" then 1 else formula;
          if period < 1 then Err(GuardRegionTooSmall) else Ok(period)
  }

  /** Without an override and outside the single-process periodic case, the
      computed period is the largest number of steps in which a particle
      moving at twice the speed of light crosses at most `nGuard - 3` cells,
      and construction fails exactly when not even one step is safe. */
  lemma {:induction false} ComputedPeriodIsLargestSafe(dt: real, slab: Slab, size: nat,
                                                        nGuard: int, boundaries: string)
    requires dt > 0.0 && slab.zmax > slab.zmin && slab.nz > 0
    requires !(size == 1 && boundaries == "periodic")
    ensures var r := ExchangePeriod(None, dt, slab, size, nGuard, boundaries);
            && (r.Ok? <==> CellsPerStep(dt, slab) <= (nGuard - 3) as real)
            && (r.Err? ==> r.error == GuardRegionTooSmall)
            && (r.Ok? ==> r.value as real * CellsPerStep(dt, slab) <= (nGuard - 3) as real
                                < (r.value + 1) as real * CellsPerStep(dt, slab))
  {
    var cps := CellsPerStep(dt, slab);
    var dz := (slab.zmax - slab.zmin) / slab.nz as real;
    assert dz > 0.0;
    assert cps > 0.0 by {
      assert 2.0 * C * dt > 0.0;
    }
    var q := (nGuard - 3) as real / cps;
    assert q * cps == (nGuard - 3) as real;
    var p := Trunc(q);
    assert ExchangePeriod(None, dt, slab, size, nGuard, boundaries) ==
           (if p < 1 then Err(GuardRegionTooSmall) else Ok(p));
    if p >= 1 {
      MulLeftMono(p as real, q, cps);
      assert q < (p + 1) as real;
      assert q * cps < (p + 1) as real * cps;
      MulLeftMono(1.0, q, cps);
    } else if cps <= (nGuard - 3) as real {
      // then q >= 1, so its truncation is at least 1
      if q < 1.0 {
        MulLeftMono(q, 1.0, cps);
      }
      assert false;
    }
  }

  /** The worked instance: 64 cells over 20 microns, 20 guard cells and
      dt = 1e-16 s on two processes give 88; one periodic process with a
      guard region too small for the formula (which gives -5) still gets 1. */
  lemma WorkedInstances()
    ensures ExchangePeriod(None, 1e-16, Slab(0.0, 20e-6, 64), 2, 20, "open") == Ok(88)
    ensures Trunc((2 - 3) as real / CellsPerStep(1e-16, Slab(0.0, 20e-6, 64))) == -5
    ensures ExchangePeriod(None, 1e-16, Slab(0.0, 20e-6, 64), 1, 2, "periodic") == Ok(1)
  {
  }
}
