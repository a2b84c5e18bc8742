/** The `Simulation` object of fbpic/main.py: its counters and lists, the
    exchange period fixed at construction, the moving window it may attach,
    and the methods `step`, `deposit` and `shift_galilean_boundaries` that
    drive the collaborators in a fixed order.

    The collaborators (`Fields`, `Particles`, `BoundaryCommunicator`,
    `MovingWindow`, the diagnostics, external fields and laser antennas) are
    not modelled inside: each call to one of them appends an event to the
    ghost journal `log`, and may change only the objects its `modifies`
    clause names. The state the simulation changes itself is modelled: the
    counters, the `sorted` flags it clears, the injection counter it resets
    and the grid positions the Galilean shift moves. */
module PicSimulation {
  import opened Outcomes
  import opened Schedule
  import opened ExchangePeriod
  import opened RunFacts

  /** The events recorded so far, in call order. */
  class Journal {
    ghost var ops: seq<Op>

    constructor ()
      ensures ops == []
    {
      ops := [];
    }
  }

  /** One azimuthal mode of the interpolation grid (`fld.interp[m]`): the
      bounds of the box and the positions `z` of the grid points. */
  class InterpGrid {
    var zmin: real
    var zmax: real
    const z: array<real>

    constructor (zmin: real, zmax: real, z: array<real>)
      ensures this.zmin == zmin && this.zmax == zmax && this.z == z
    {
      this.zmin := zmin;
      this.zmax := zmax;
      this.z := z;
    }
  }

  /** A particle species; only its `sorted` flag is visible here. */
  class Species {
    var sorted: bool

    constructor (sorted: bool)
      ensures this.sorted == sorted
    {
      this.sorted := sorted;
    }
  }

  /** The moving window attached to the communicator. `nzInject` is the
      number of cells whose particles are still to be injected: `move_grids`
      increases it and the simulation resets it after a particle exchange. */
  class MovingWindow {
    var nzInject: int
    const v: real
    const period: int
    const dt: real
    const pNz: int
    const tStart: real

    constructor (v: real, period: int, dt: real, pNz: int, tStart: real)
      ensures this.v == v && this.period == period && this.dt == dt
      ensures this.pNz == pNz && this.tStart == tStart
    {
      this.v := v;
      this.period := period;
      this.dt := dt;
      this.pNz := pNz;
      this.tStart := tStart;
      nzInject := 0;
    }
  }

  /** The bookkeeping of one grid mode, as a value. */
  datatype GridPos = GridPos(zmin: real, zmax: real, z: seq<real>)

  /** Every position moved by `d`. */
  function ShiftAll(z: seq<real>, d: real): (r: seq<real>)
    ensures |r| == |z|
    ensures forall j :: 0 <= j < |z| ==> r[j] == z[j] + d
  {
    seq(|z|, j requires 0 <= j < |z| => z[j] + d)
  }

  /** One mode's bounds and grid points moved by `d`. */
  function ShiftedMode(p: GridPos, d: real): (r: GridPos)
    ensures r.zmin == p.zmin + d && r.zmax == p.zmax + d && r.z == ShiftAll(p.z, d)
  {
    GridPos(p.zmin + d, p.zmax + d, ShiftAll(p.z, d))
  }

  /** Every mode's bounds and grid points moved by `d`. */
  function Shifted(g: seq<GridPos>, d: real): (r: seq<GridPos>)
    ensures |r| == |g|
    ensures forall m :: 0 <= m < |g| ==> r[m] == ShiftedMode(g[m], d)
  {
    seq(|g|, m requires 0 <= m < |g| => ShiftedMode(g[m], d))
  }

  /** The bookkeeping of one grid mode in the current heap. */
  ghost function ModePos(g: InterpGrid): GridPos
    reads g, g.z
  {
    GridPos(g.zmin, g.zmax, g.z[..])
  }

  class Simulation {
    const log: Journal

    // The configuration fixed by the constructor
    const dt: real
    const pNz: int
    const exchangePeriod: int
    const filterCurrents: bool
    const useGalilean: bool
    const vComoving: Option<real>
    const useCuda: bool
    const interp: seq<InterpGrid>
    const ptcl: seq<Species>

    // The state
    var time: real
    var iteration: int
    var diags: seq<nat>
    var externalFields: seq<nat>
    var laserAntennas: seq<nat>
    var movingWin: Option<MovingWindow>

    /** The end of `__init__` (fbpic/main.py:277-290): the counters start at
        zero, the lists of diagnostics, external fields and antennas empty,
        and no moving window is attached. */
    constructor (dt: real, pNz: int, exchangePeriod: int, filterCurrents: bool,
                 useGalilean: bool, vComoving: Option<real>, useCuda: bool,
                 interp: seq<InterpGrid>, ptcl: seq<Species>)
      ensures this.dt == dt && this.pNz == pNz && this.exchangePeriod == exchangePeriod
      ensures this.filterCurrents == filterCurrents && this.useGalilean == useGalilean
      ensures this.vComoving == vComoving && this.useCuda == useCuda
      ensures this.interp == interp && this.ptcl == ptcl
      ensures time == 0.0 && iteration == 0
      ensures diags == [] && externalFields == [] && laserAntennas == []
      ensures movingWin.None? && fresh(log) && log.ops == []
    {
      this.dt := dt;
      this.pNz := pNz;
      this.exchangePeriod := exchangePeriod;
      this.filterCurrents := filterCurrents;
      this.useGalilean := useGalilean;
      this.vComoving := vComoving;
      this.useCuda := useCuda;
      this.interp := interp;
      this.ptcl := ptcl;
      time := 0.0;
      iteration := 0;
      diags := [];
      externalFields := [];
      laserAntennas := [];
      movingWin := None;
      log := new Journal();
    }

    /** `__init__` as far as it is modelled: the Galilean frame is switched
        off when there is no comoving velocity (fbpic/main.py:198-201), the
        exchange period is derived or construction fails (220-242), and the
        counters and lists start empty (277-290). `slab` and `dt` are the
        domain and time step after the boost conversion and the domain
        decomposition; the grid modes and species, built by `Fields` and
        `Particles`, are given. */
    static method Create(dt: real, pNz: int, requested: Option<int>, slab: Slab, size: nat,
                         nGuard: int, boundaries: string, filterCurrents: bool,
                         useGalilean: bool, vComoving: Option<real>, useCuda: bool,
                         interp: seq<InterpGrid>, ptcl: seq<Species>)
      returns (r: Result<Simulation>)
      ensures var p := ExchangePeriod.ExchangePeriod(requested, dt, slab, size, nGuard, boundaries);
              && (p.Err? ==> r == Err(p.error))
              && (p.Ok? ==> r.Ok? && fresh(r.value) && fresh(r.value.log)
                            && r.value.exchangePeriod == p.value)
      ensures r.Ok? ==>
                && r.value.useGalilean == (useGalilean && vComoving.Some?)
                && r.value.vComoving == vComoving && r.value.dt == dt && r.value.pNz == pNz
                && r.value.filterCurrents == filterCurrents && r.value.useCuda == useCuda
                && r.value.interp == interp && r.value.ptcl == ptcl
                && r.value.time == 0.0 && r.value.iteration == 0
                && r.value.diags == [] && r.value.externalFields == []
                && r.value.laserAntennas == [] && r.value.movingWin.None?
                && r.value.log.ops == []
      ensures r.Ok? && (forall i, j :: 0 <= i < j < |interp| ==>
                          interp[i] != interp[j] && interp[i].z != interp[j].z)
              ==> r.value.Valid()
    {
      var galilean := useGalilean && vComoving.Some?;
      var p := ExchangePeriod.ExchangePeriod(requested, dt, slab, size, nGuard, boundaries);
      if p.Err? {
        return Err(p.error);
      }
      var sim := new Simulation(dt, pNz, p.value, filterCurrents, galilean, vComoving,
                                useCuda, interp, ptcl);
      return Ok(sim);
    }

    /** `set_moving_window(v, ...)`: attach a new window moving at `v`
        that keeps the exchange period, the time step, `p_nz` and the
        current time; nothing else of the simulation changes. */
    method SetMovingWindow(v: real)
      modifies this
      ensures movingWin.Some? && fresh(movingWin.value)
      ensures movingWin.value.v == v && movingWin.value.period == exchangePeriod
      ensures movingWin.value.dt == dt && movingWin.value.pNz == pNz
      ensures movingWin.value.tStart == time
      ensures time == old(time) && iteration == old(iteration) && diags == old(diags)
      ensures externalFields == old(externalFields) && laserAntennas == old(laserAntennas)
    {
      var w := new MovingWindow(v, exchangePeriod, dt, pNz, time);
      movingWin := Some(w);
    }

    /** The grid modes are distinct objects with distinct position arrays,
        and the Galilean frame is only on with a comoving velocity. */
    ghost predicate Valid()
    {
      && (forall i, j :: 0 <= i < j < |interp| ==> interp[i] != interp[j] && interp[i].z != interp[j].z)
      && (useGalilean ==> vComoving.Some?)
    }

    ghost function SpeciesSet(): set<object>
    {
      set i | 0 <= i < |ptcl| :: ptcl[i] as object
    }

    ghost function GridSet(): set<object>
    {
      (set m | 0 <= m < |interp| :: interp[m] as object)
      + (set m | 0 <= m < |interp| :: interp[m].z as object)
    }

    ghost function WindowSet(): set<object>
      reads this
    {
      if movingWin.Some? then {movingWin.value as object} else {}
    }

    /** The moving window is none of the objects the PIC loop changes. */
    lemma WindowApart()
      requires movingWin.Some?
      ensures movingWin.value as object !in GridSet() && movingWin.value as object !in SpeciesSet()
      ensures movingWin.value as object != log
    {
    }

    /** What the calls of a step depend on. */
    function Config(): Setup
      reads this
    {
      Setup(|ptcl|, diags, externalFields, laserAntennas, dt, exchangePeriod,
            movingWin.Some?, useGalilean, filterCurrents)
    }

    /** The positions of every grid mode. */
    ghost function Positions(): (r: seq<GridPos>)
      reads GridSet()
      ensures |r| == |interp|
      ensures forall m :: 0 <= m < |interp| ==> r[m] == ModePos(interp[m])
    {
      seq(|interp|, m requires 0 <= m < |interp| reads GridSet() => ModePos(interp[m]))
    }

    // -------------------------------------------------------------------
    // Collaborator calls

    /** A collaborator call that changes nothing modelled here. */
    method Call(op: Op)
      modifies log
      ensures unchanged(this)
      ensures log.ops == old(log.ops) + [op]
      ensures unchanged(GridSet())
    {
      log.ops := log.ops + [op];
    }

    /** A call on species `i`, which may change the species (a deposition
        may sort its particles). */
    method CallSpecies(i: nat, call: SpeciesCall)
      requires i < |ptcl|
      modifies log, ptcl[i]
      ensures unchanged(this)
      ensures log.ops == old(log.ops) + [OnSpecies(i, call)]
      ensures unchanged(GridSet())
    {
      log.ops := log.ops + [OnSpecies(i, call)];
    }

    /** `self.comm.move_grids(fld, self.dt, self.time)`: moves the grids and
        increases the number of cells to inject. */
    method MoveWindowGrids()
      requires movingWin.Some?
      modifies log, movingWin.value, GridSet()
      ensures unchanged(this)
      ensures log.ops == old(log.ops) + [MoveGrids(dt, time)]
      ensures movingWin.value.nzInject >= old(movingWin.value.nzInject)
    {
      log.ops := log.ops + [MoveGrids(dt, time)];
    }

    /** `for species in self.ptcl: <call>` */
    method EachSpeciesCall(call: SpeciesCall)
      modifies log, ptcl
      ensures unchanged(this)
      ensures log.ops == old(log.ops) + EachSpecies(|ptcl|, call)
      ensures unchanged(GridSet())
    {
      var i := 0;
      while i < |ptcl|
        invariant 0 <= i <= |ptcl|
        invariant log.ops == old(log.ops) + EachSpecies(i, call)
      {
        CallSpecies(i, call);
        i := i + 1;
      }
    }

    /** `for antenna in self.laser_antennas: <acall>` */
    method EachAntennaCall(acall: AntennaCall)
      modifies log
      ensures unchanged(this)
      ensures log.ops == old(log.ops) + EachAntenna(laserAntennas, acall)
      ensures unchanged(GridSet())
    {
      var i := 0;
      while i < |laserAntennas|
        invariant 0 <= i <= |laserAntennas|
        invariant log.ops == old(log.ops) + EachAntenna(laserAntennas[..i], acall)
      {
        assert laserAntennas[..i + 1][..i] == laserAntennas[..i];
        Call(OnAntenna(laserAntennas[i], acall));
        i := i + 1;
      }
      assert laserAntennas[..i] == laserAntennas;
    }

    // -------------------------------------------------------------------
    // deposit (fbpic/main.py:466-516)

    /** Erase the accumulator, deposit every species and every antenna into
        it, divide by the cell volume and exchange its guard cells. */
    method Accumulate(acc: FieldName)
      modifies log, ptcl
      ensures unchanged(this)
      ensures log.ops == old(log.ops) + [Erase(acc)] + EachSpecies(|ptcl|, DepositTo(acc))
                         + EachAntenna(laserAntennas, AntennaDeposit(acc))
                         + [DivideByVolume(acc), ExchangeFields(acc)]
      ensures unchanged(GridSet())
    {
      Call(Erase(acc));
      EachSpeciesCall(DepositTo(acc));
      EachAntennaCall(AntennaDeposit(acc));
      Call(DivideByVolume(acc));
      Call(ExchangeFields(acc));
    }

    /** `deposit(fieldtype)`: an unknown name fails before any call; a known
        one makes exactly the calls of `DepositOps`. */
    method Deposit(fieldtype: string) returns (o: Outcome)
      modifies log, ptcl
      ensures unchanged(this)
      ensures ParseDepositTarget(fieldtype).None? ==>
                o == Fail(UnknownFieldType) && log.ops == old(log.ops)
                && forall i :: 0 <= i < |ptcl| ==> ptcl[i].sorted == old(ptcl[i].sorted)
      ensures ParseDepositTarget(fieldtype).Some? ==>
                o == Pass
                && log.ops == old(log.ops) + DepositOps(ParseDepositTarget(fieldtype).value,
                                                        |ptcl|, laserAntennas, filterCurrents)
      ensures unchanged(GridSet())
    {
      match ParseDepositTarget(fieldtype)
      case None =>
        o := Fail(UnknownFieldType);
      case Some(k) =>
        DepositInto(k);
        o := Pass;
    }

    /** The calls of `deposit` once the name is known: accumulate on the
        interpolation grid, transform it to spectral space, and filter it
        when `filter_currents` is set. */
    method DepositInto(k: FieldName)
      requires IsDepositTarget(k)
      modifies log, ptcl
      ensures unchanged(this)
      ensures log.ops == old(log.ops) + DepositOps(k, |ptcl|, laserAntennas, filterCurrents)
      ensures unchanged(GridSet())
    {
      var acc := Accumulator(k);
      ghost var o := log.ops;
      Accumulate(acc);
      Call(Interp2Spect(k));
      if filterCurrents {
        Call(FilterSpect(k));
      } else {
        AppendEmpty(log.ops);
      }
      DepositShape(k, |ptcl|, laserAntennas, filterCurrents);
      Regroup6(o, [Erase(acc)], EachSpecies(|ptcl|, DepositTo(acc)),
               EachAntenna(laserAntennas, AntennaDeposit(acc)),
               [DivideByVolume(acc), ExchangeFields(acc)], [Interp2Spect(k)],
               When(filterCurrents, [FilterSpect(k)]));
    }

    // -------------------------------------------------------------------
    // shift_galilean_boundaries (fbpic/main.py:518-535)

    /** Moves the bounds and grid points of every mode by `v_comoving * 0.5 *
        dt`, and nothing else. Without a comoving velocity the product
        `None * 0.5` fails before anything moves. */
    method ShiftGalileanBoundaries() returns (o: Outcome)
      requires Valid()
      modifies GridSet()
      ensures vComoving.None? ==> o == Fail(NoComovingVelocity) && Positions() == old(Positions())
      ensures vComoving.Some? ==>
                o == Pass && Positions() == Shifted(old(Positions()), vComoving.value * 0.5 * dt)
    {
      if vComoving.None? {
        return Fail(NoComovingVelocity);
      }
      var d := vComoving.value * 0.5 * dt;
      ghost var before := Positions();
      var m := 0;
      while m < |interp|
        invariant 0 <= m <= |interp|
        invariant forall k :: 0 <= k < m ==> ModePos(interp[k]) == ShiftedMode(before[k], d)
        invariant forall k :: m <= k < |interp| ==> ModePos(interp[k]) == before[k]
      {
        ShiftMode(interp[m], d);
        m := m + 1;
      }
      o := Pass;
    }

    // -------------------------------------------------------------------
    // The blocks of one iteration of `step` (fbpic/main.py:343-449). Each
    // block is given the configuration `s` and the time `t` it runs at, so
    // that the journal of a block does not depend on the heap it ends in.

    /** `for diag in self.diags: diag.write(self.iteration)` */
    method RunDiagnostics()
      modifies log
      ensures unchanged(this)
      ensures log.ops == old(log.ops) + DiagOps(diags, iteration)
      ensures unchanged(GridSet())
    {
      var i := 0;
      while i < |diags|
        invariant 0 <= i <= |diags|
        invariant log.ops == old(log.ops) + DiagOps(diags[..i], iteration)
      {
        assert diags[..i + 1][..i] == diags[..i];
        Call(DiagWrite(diags[i], iteration));
        i := i + 1;
      }
      assert diags[..i] == diags;
    }

    /** Move the grids when a window is attached, then exchange the guard
        cells of E and B. */
    method PrepareExchanges(ghost s: Setup, ghost t: real)
      requires s == Config() && t == time
      modifies log, WindowSet(), GridSet()
      ensures unchanged(this)
      ensures log.ops == old(log.ops) + Prelude(s, t)
      ensures movingWin.None? ==> unchanged(GridSet())
      ensures movingWin.Some? ==> movingWin.value.nzInject >= old(movingWin.value.nzInject)
    {
      if movingWin.Some? {
        MoveWindowGrids();
      } else {
        AppendEmpty(log.ops);
      }
      Call(ExchangeFields(EB));
    }

    /** The particle exchange of every species, then the reset of the
        number of cells to inject. */
    method ExchangeAllParticles(ghost s: Setup, ghost t: real)
      requires s == Config() && t == time
      modifies log, ptcl, WindowSet()
      ensures unchanged(this)
      ensures log.ops == old(log.ops) + ParticleExchange(s, t)
      ensures movingWin.Some? ==> movingWin.value.nzInject == 0
      ensures unchanged(GridSet())
    {
      EachSpeciesCall(ExchangeParticles(time));
      if movingWin.Some? {
        movingWin.value.nzInject := 0;
        Call(ResetInjection);
      } else {
        AppendEmpty(log.ops);
      }
    }

    /** `for ext_field in self.external_fields: ext_field.apply_expression(...)` */
    method ApplyExternalFields()
      modifies log
      ensures unchanged(this)
      ensures log.ops == old(log.ops) + ExternalOps(externalFields, time)
      ensures unchanged(GridSet())
    {
      var i := 0;
      while i < |externalFields|
        invariant 0 <= i <= |externalFields|
        invariant log.ops == old(log.ops) + ExternalOps(externalFields[..i], time)
      {
        assert externalFields[..i + 1][..i] == externalFields[..i];
        Call(ApplyExternal(externalFields[i], time));
        i := i + 1;
      }
      assert externalFields[..i] == externalFields;
    }

    /** `for species in ptcl: species.sorted = False` */
    method ClearSortedFlags()
      modifies log, ptcl
      ensures unchanged(this)
      ensures log.ops == old(log.ops) + EachSpecies(|ptcl|, ClearSorted)
      ensures forall i :: 0 <= i < |ptcl| ==> !ptcl[i].sorted
      ensures unchanged(GridSet())
    {
      var i := 0;
      while i < |ptcl|
        invariant 0 <= i <= |ptcl|
        invariant log.ops == old(log.ops) + EachSpecies(i, ClearSorted)
        invariant forall j :: 0 <= j < i ==> !ptcl[j].sorted
      {
        ptcl[i].sorted := false;
        Call(OnSpecies(i, ClearSorted));
        i := i + 1;
      }
    }

    /** Gather, apply the external fields, clear `sorted` and deposit the
        charge at the start of the step. */
    method GatherFields(ghost s: Setup, ghost t: real)
      requires s == Config() && t == time
      modifies log, ptcl
      ensures unchanged(this)
      ensures log.ops == old(log.ops) + Gathering(s, t)
      ensures unchanged(GridSet())
    {
      ghost var o := log.ops;
      EachSpeciesCall(Gather);
      ApplyExternalFields();
      ClearSortedFlags();
      var _ := Deposit("rho_prev");
      Regroup4(o, EachSpecies(|ptcl|, Gather), ExternalOps(externalFields, time),
               EachSpecies(|ptcl|, ClearSorted),
               DepositOps(RhoPrev, |ptcl|, laserAntennas, filterCurrents));
    }

    /** `update_v` then `halfpush_x` for every antenna. */
    method AdvanceAntennas(t: real)
      modifies log
      ensures unchanged(this)
      ensures log.ops == old(log.ops) + AntennaAdvance(laserAntennas, t, dt)
      ensures unchanged(GridSet())
    {
      var i := 0;
      while i < |laserAntennas|
        invariant 0 <= i <= |laserAntennas|
        invariant log.ops == old(log.ops) + AntennaAdvance(laserAntennas[..i], t, dt)
      {
        var a := laserAntennas[i];
        assert laserAntennas[..i + 1][..i] == laserAntennas[..i];
        ghost var before := log.ops;
        Call(OnAntenna(a, UpdateV(t)));
        Call(OnAntenna(a, AntennaHalfPushX(dt)));
        Pair(before, OnAntenna(a, UpdateV(t)), OnAntenna(a, AntennaHalfPushX(dt)));
        i := i + 1;
      }
      assert laserAntennas[..i] == laserAntennas;
    }

    /** How far one shift moves a Galilean grid: `v_comoving * 0.5 * dt`,
        and nothing when the frame is off. */
    function HalfDrift(): real
    {
      if useGalilean && vComoving.Some? then vComoving.value * 0.5 * dt else 0.0
    }

    /** How far one iteration moves a Galilean grid: two shifts. */
    function StepDrift(): real
    {
      HalfDrift() + HalfDrift()
    }

    /** Over `n` iterations the two shifts per iteration move the grids by
        `n * v_comoving * dt` in the Galilean frame, and not at all without it. */
    lemma RunDrift(g: seq<GridPos>, n: nat)
      ensures useGalilean && vComoving.Some? ==>
                Drifted(g, HalfDrift(), n) == Shifted(g, n as real * (vComoving.value * dt))
      ensures !useGalilean ==> Drifted(g, HalfDrift(), n) == g
    {
      var h := HalfDrift();
      DriftedIsShifted(g, h, n);
      if useGalilean && vComoving.Some? {
        assert h + h == vComoving.value * dt;
        SameShift(g, n as real * (h + h), n as real * (vComoving.value * dt));
      } else if !useGalilean {
        SameShift(g, n as real * (h + h), 0.0);
        ShiftedZero(g);
      }
    }

    /** The shift of the Galilean frame, when it is on. */
    method ShiftIfGalilean(ghost s: Setup)
      requires Valid() && s == Config()
      modifies log, GridSet()
      ensures unchanged(this)
      ensures log.ops == old(log.ops) + GalileanShift(s)
      ensures Positions() == Shifted(old(Positions()), HalfDrift())
    {
      if useGalilean {
        Call(ShiftGalilean);
        var _ := ShiftGalileanBoundaries();
      } else {
        AppendEmpty(log.ops);
        ShiftedZero(Positions());
      }
    }

    /** Ionise, push the momenta and the positions to the half step and
        advance the antennas. */
    method HalfPushParticles(f: Flags)
      modifies log, ptcl
      ensures unchanged(this)
      ensures log.ops == old(log.ops) + EachSpecies(|ptcl|, HandleIonization)
                         + When(f.moveMomenta, EachSpecies(|ptcl|, PushP))
                         + When(f.movePositions, EachSpecies(|ptcl|, HalfPushX))
                         + AntennaAdvance(laserAntennas, time + 0.5 * dt, dt)
      ensures unchanged(GridSet())
    {
      EachSpeciesCall(HandleIonization);
      if f.moveMomenta {
        EachSpeciesCall(PushP);
      } else {
        AppendEmpty(log.ops);
      }
      if f.movePositions {
        EachSpeciesCall(HalfPushX);
      } else {
        AppendEmpty(log.ops);
      }
      AdvanceAntennas(time + 0.5 * dt);
    }

    /** The first half of the particle push, then the shift of a Galilean
        grid. */
    method PushToHalfStep(ghost s: Setup, ghost t: real, f: Flags)
      requires Valid() && s == Config() && t == time
      modifies log, ptcl, GridSet()
      ensures unchanged(this)
      ensures log.ops == old(log.ops) + FirstHalfPush(s, f, t)
      ensures Positions() == Shifted(old(Positions()), HalfDrift())
    {
      ghost var o := log.ops;
      HalfPushParticles(f);
      ShiftIfGalilean(s);
      Regroup5(o, EachSpecies(s.nSpecies, HandleIonization), When(f.moveMomenta, EachSpecies(s.nSpecies, PushP)),
               When(f.movePositions, EachSpecies(s.nSpecies, HalfPushX)),
               AntennaAdvance(s.antennas, t + 0.5 * s.dt, s.dt), GalileanShift(s));
    }

    /** Push the positions to the full step and move the antennas. */
    method FullPushParticles(f: Flags)
      modifies log, ptcl
      ensures unchanged(this)
      ensures log.ops == old(log.ops) + When(f.movePositions, EachSpecies(|ptcl|, HalfPushX))
                         + EachAntenna(laserAntennas, AntennaHalfPushX(dt))
      ensures unchanged(GridSet())
    {
      if f.movePositions {
        EachSpeciesCall(HalfPushX);
      } else {
        AppendEmpty(log.ops);
      }
      EachAntennaCall(AntennaHalfPushX(dt));
    }

    /** The second half of the particle push, then the second shift of a
        Galilean grid. */
    method PushToFullStep(ghost s: Setup, f: Flags)
      requires Valid() && s == Config()
      modifies log, ptcl, GridSet()
      ensures unchanged(this)
      ensures log.ops == old(log.ops) + SecondHalfPush(s, f)
      ensures Positions() == Shifted(old(Positions()), HalfDrift())
    {
      ghost var o := log.ops;
      FullPushParticles(f);
      ShiftIfGalilean(s);
      Regroup(o + When(f.movePositions, EachSpecies(s.nSpecies, HalfPushX)),
              EachAntenna(s.antennas, AntennaHalfPushX(s.dt)), GalileanShift(s));
      Regroup(o, When(f.movePositions, EachSpecies(s.nSpecies, HalfPushX)),
              EachAntenna(s.antennas, AntennaHalfPushX(s.dt)) + GalileanShift(s));
    }

    /** Deposit the charge at the end of the step and correct the currents. */
    method ChargeAndCorrect(ghost s: Setup, f: Flags)
      requires s == Config()
      modifies log, ptcl
      ensures unchanged(this)
      ensures log.ops == old(log.ops) + Correction(s, f)
      ensures unchanged(GridSet())
    {
      ghost var o := log.ops;
      var _ := Deposit("rho_next");
      if f.correctCurrents {
        Call(CorrectCurrents);
      } else {
        AppendEmpty(log.ops);
      }
      Regroup(o, DepositOps(RhoNext, s.nSpecies, s.antennas, s.filter),
              When(f.correctCurrents, [CorrectCurrents]));
    }

    /** Damp the guard cells, push the fields in spectral space, clean the
        divergence if asked, and bring E and B back to the grid. */
    method AdvanceFields(f: Flags)
      modifies log
      ensures unchanged(this)
      ensures log.ops == old(log.ops) + FieldPush(f)
      ensures unchanged(GridSet())
    {
      ghost var o := log.ops;
      Call(DampGuardEB);
      Call(Interp2Spect(E));
      Call(Interp2Spect(B));
      Call(PushFields(f.useTrueRho));
      if f.correctDivE {
        Call(CorrectDivE);
      } else {
        AppendEmpty(log.ops);
      }
      Call(Spect2Interp(E));
      Call(Spect2Interp(B));
      FieldPushShape(o, f);
    }

    // -------------------------------------------------------------------
    // step (fbpic/main.py:292-464)

    /** Gathering, then the first half push. */
    method GatherAndHalfPush(ghost s: Setup, ghost t: real, f: Flags)
      requires Valid() && s == Config() && t == time
      modifies log, ptcl, GridSet()
      ensures unchanged(this)
      ensures log.ops == old(log.ops) + (Gathering(s, t) + FirstHalfPush(s, f, t))
      ensures Positions() == Shifted(old(Positions()), HalfDrift())
    {
      ghost var o := log.ops;
      GatherFields(s, t);
      PushToHalfStep(s, t, f);
      Regroup(o, Gathering(s, t), FirstHalfPush(s, f, t));
    }

    /** The PIC loop up to the current deposition: gathering, the first
        half push and `deposit('J')`. */
    method FirstHalfCycle(ghost s: Setup, ghost t: real, f: Flags)
      requires Valid() && s == Config() && t == time
      modifies log, ptcl, GridSet()
      ensures unchanged(this)
      ensures log.ops == old(log.ops) + (Gathering(s, t) + FirstHalfPush(s, f, t)
                                         + DepositOps(J, s.nSpecies, s.antennas, s.filter))
      ensures Positions() == Shifted(old(Positions()), HalfDrift())
    {
      ghost var o := log.ops;
      GatherAndHalfPush(s, t, f);
      var _ := Deposit("J");
      Regroup(o, Gathering(s, t) + FirstHalfPush(s, f, t), DepositOps(J, s.nSpecies, s.antennas, s.filter));
    }

    /** `deposit('rho_next')` with the current correction, then the field
        push. */
    method CorrectAndAdvance(ghost s: Setup, f: Flags)
      requires s == Config()
      modifies log, ptcl
      ensures unchanged(this)
      ensures log.ops == old(log.ops) + (Correction(s, f) + FieldPush(f))
      ensures unchanged(GridSet())
    {
      ghost var o := log.ops;
      ChargeAndCorrect(s, f);
      AdvanceFields(f);
      Regroup(o, Correction(s, f), FieldPush(f));
    }

    /** The rest of the PIC loop: the second half push, `deposit('rho_next')`
        with the current correction, and the field push. */
    method SecondHalfCycle(ghost s: Setup, f: Flags)
      requires Valid() && s == Config()
      modifies log, ptcl, GridSet()
      ensures unchanged(this)
      ensures log.ops == old(log.ops) + (SecondHalfPush(s, f) + Correction(s, f) + FieldPush(f))
      ensures Positions() == Shifted(old(Positions()), HalfDrift())
    {
      ghost var o := log.ops;
      PushToFullStep(s, f);
      CorrectAndAdvance(s, f);
      Regroup(o, SecondHalfPush(s, f), Correction(s, f) + FieldPush(f));
      Regroup(SecondHalfPush(s, f), Correction(s, f), FieldPush(f));
    }

    /** The standard PIC loop of one iteration, from the gathering to the
        field push: the grids move only by the two Galilean shifts. */
    method PicCycle(ghost s: Setup, ghost t: real, f: Flags)
      requires Valid() && s == Config() && t == time
      modifies log, ptcl, GridSet()
      ensures unchanged(this)
      ensures log.ops == old(log.ops) + CycleOps(s, f, t)
      ensures Positions() == Shifted(Shifted(old(Positions()), HalfDrift()), HalfDrift())
    {
      ghost var o := log.ops;
      FirstHalfCycle(s, t, f);
      SecondHalfCycle(s, f);
      RegroupHalves(o, Gathering(s, t), FirstHalfPush(s, f, t),
                    DepositOps(J, s.nSpecies, s.antennas, s.filter),
                    SecondHalfPush(s, f), Correction(s, f), FieldPush(f));
    }

    /** The diagnostics, then the moving window and the exchange of E and B. */
    method OpenIteration(ghost s: Setup, ghost t: real)
      requires s == Config() && t == time
      modifies log, WindowSet(), GridSet()
      ensures unchanged(this)
      ensures log.ops == old(log.ops) + (DiagOps(s.diags, iteration) + Prelude(s, t))
      ensures movingWin.None? ==> unchanged(GridSet())
      ensures movingWin.Some? ==> movingWin.value.nzInject >= old(movingWin.value.nzInject)
    {
      ghost var o := log.ops;
      RunDiagnostics();
      PrepareExchanges(s, t);
      Regroup(o, DiagOps(s.diags, iteration), Prelude(s, t));
    }

    /** `if exchange:` the particle exchange of every species and the reset
        of `nz_inject`; otherwise nothing. */
    method ExchangeIfDue(ghost s: Setup, ghost t: real, exchange: bool)
      requires s == Config() && t == time
      modifies log, ptcl, WindowSet()
      ensures unchanged(this)
      ensures log.ops == old(log.ops) + When(exchange, ParticleExchange(s, t))
      ensures unchanged(GridSet())
      ensures movingWin.Some? ==>
                movingWin.value.nzInject == (if exchange then 0 else old(movingWin.value.nzInject))
    {
      if exchange {
        ExchangeAllParticles(s, t);
      } else {
        AppendEmpty(log.ops);
      }
    }

    /** The particle exchange when it is due, then the PIC loop, which
        leaves `nz_inject` alone. */
    method ExchangeAndCycle(ghost s: Setup, ghost t: real, f: Flags, exchange: bool)
      requires Valid() && s == Config() && t == time
      modifies log, ptcl, WindowSet(), GridSet()
      ensures unchanged(this)
      ensures log.ops == old(log.ops) + (When(exchange, ParticleExchange(s, t)) + CycleOps(s, f, t))
      ensures Positions() == Shifted(Shifted(old(Positions()), HalfDrift()), HalfDrift())
      ensures movingWin.Some? ==>
                movingWin.value.nzInject == (if exchange then 0 else old(movingWin.value.nzInject))
    {
      ghost var o := log.ops;
      ExchangeIfDue(s, t, exchange);
      if movingWin.Some? {
        WindowApart();
      }
      PicCycle(s, t, f);
      Regroup(o, When(exchange, ParticleExchange(s, t)), CycleOps(s, f, t));
    }

    /** The loop body of `step` after the exchange test has a divisor:
        the particle exchange when it is due, the PIC loop, and the
        counters `self.time += self.dt` and `self.iteration += 1`. */
    method FinishIteration(ghost s: Setup, ghost t: real, f: Flags, first: bool)
      requires Valid() && s == Config() && t == time && exchangePeriod != 0
      modifies this, log, ptcl, WindowSet(), GridSet()
      ensures Config() == s && movingWin == old(movingWin)
      ensures time == t + dt && iteration == old(iteration) + 1
      ensures log.ops == old(log.ops) + (When(Exchanges(s.period, old(iteration), first), ParticleExchange(s, t))
                                         + CycleOps(s, f, t))
      ensures Positions() == Shifted(Shifted(old(Positions()), HalfDrift()), HalfDrift())
      ensures movingWin.Some? ==>
                movingWin.value.nzInject
                == (if Exchanges(s.period, old(iteration), first) then 0 else old(movingWin.value.nzInject))
    {
      var exchange := Exchanges(exchangePeriod, iteration, first);
      ExchangeAndCycle(s, t, f, exchange);
      AdvanceCounters();
    }

    /** `self.time += self.dt` and `self.iteration += 1`. */
    method AdvanceCounters()
      modifies this
      ensures time == old(time) + dt && iteration == old(iteration) + 1
      ensures diags == old(diags) && externalFields == old(externalFields)
      ensures laserAntennas == old(laserAntennas) && movingWin == old(movingWin)
      ensures unchanged(log) && unchanged(GridSet())
    {
      time := time + dt;
      iteration := iteration + 1;
    }

    /** One pass of the loop body of `step`. A zero exchange period makes
        `self.iteration % self.exchange_period` raise once the diagnostics
        have run and the grids have moved, before any particle is touched. */
    method Iterate(ghost s: Setup, ghost it: int, ghost t: real, f: Flags, first: bool) returns (o: Outcome)
      requires Valid() && s == Config() && it == iteration && t == time
      modifies this, log, ptcl, WindowSet(), GridSet()
      ensures Config() == s && movingWin == old(movingWin)
      ensures s.period == 0 ==>
                o == Fail(DivisionByZero) && time == t && iteration == it
                && log.ops == old(log.ops) + (DiagOps(s.diags, it) + Prelude(s, t))
      ensures s.period != 0 ==>
                o == Pass && time == t + s.dt && iteration == it + 1
                && log.ops == old(log.ops) + IterationOps(s, f, it, t, first)
      ensures movingWin.None? && s.period == 0 ==> Positions() == old(Positions())
      ensures movingWin.None? && s.period != 0 ==>
                Positions() == Shifted(Shifted(old(Positions()), HalfDrift()), HalfDrift())
      ensures movingWin.None? && s.period != 0 ==> Positions() == Shifted(old(Positions()), StepDrift())
      ensures movingWin.Some? && s.period == 0 ==>
                movingWin.value.nzInject >= old(movingWin.value.nzInject)
      ensures movingWin.Some? && s.period != 0 ==>
                if Exchanges(s.period, it, first) then movingWin.value.nzInject == 0
                else movingWin.value.nzInject >= old(movingWin.value.nzInject)
    {
      ghost var start, g0 := log.ops, Positions();
      OpenIteration(s, t);
      if exchangePeriod == 0 {
        return Fail(DivisionByZero);
      }
      FinishIteration(s, t, f, first);
      IterationShape(start, s, f, it, t, first);
      if movingWin.None? {
        PassDrift(g0, Positions(), HalfDrift(), StepDrift());
      }
      o := Pass;
    }

    /** `step(N, ...)`: stage the data in when CUDA is used, run `N`
        iterations (none when `N <= 0`, as `range(N)` is then empty), and
        stage the data out. The journal is the run of `RunOps`; the
        counters advance by one iteration and one time step per pass. */
    method Step(n: int, f: Flags) returns (o: Outcome)
      requires Valid()
      modifies this, log, ptcl, WindowSet(), GridSet()
      ensures Config() == old(Config()) && movingWin == old(movingWin)
      ensures exchangePeriod != 0 ==>
                o == Pass && iteration == old(iteration) + Passes(n)
                && time == TimeAfter(old(time), dt, Passes(n))
                && log.ops == old(log.ops) + When(useCuda, [StageIn])
                              + RunOps(Config(), f, old(iteration), old(time), Passes(n))
                              + When(useCuda, [StageOut])
      ensures exchangePeriod == 0 && n <= 0 ==>
                o == Pass && iteration == old(iteration) && time == old(time)
                && log.ops == old(log.ops) + When(useCuda, [StageIn]) + When(useCuda, [StageOut])
      ensures exchangePeriod == 0 && n > 0 ==>
                o == Fail(DivisionByZero) && iteration == old(iteration) && time == old(time)
                && log.ops == old(log.ops) + When(useCuda, [StageIn])
                              + (DiagOps(diags, iteration) + Prelude(Config(), time))
      ensures exchangePeriod != 0 && movingWin.None? ==>
                Positions() == Drifted(old(Positions()), HalfDrift(), Passes(n))
    {
      ghost var s := Config();
      if useCuda {
        Call(StageIn);
      } else {
        AppendEmpty(log.ops);
      }
      o := RunIterations(s, n, f);
      if o.Fail? {
        return;
      }
      if useCuda {
        Call(StageOut);
      } else {
        AppendEmpty(log.ops);
      }
    }

    /** `for i_step in range(N)`: the iterations of `RunOps`, one after the
        other, or the failure of the first one when the exchange period is
        zero. */
    method RunIterations(ghost s: Setup, n: int, f: Flags) returns (o: Outcome)
      requires Valid() && s == Config()
      modifies this, log, ptcl, WindowSet(), GridSet()
      ensures Config() == s && movingWin == old(movingWin)
      ensures s.period != 0 ==>
                o == Pass && iteration == old(iteration) + Passes(n)
                && time == TimeAfter(old(time), s.dt, Passes(n))
                && log.ops == old(log.ops) + RunOps(s, f, old(iteration), old(time), Passes(n))
      ensures s.period == 0 && n <= 0 ==>
                o == Pass && iteration == old(iteration) && time == old(time) && log.ops == old(log.ops)
      ensures s.period == 0 && n > 0 ==>
                o == Fail(DivisionByZero) && iteration == old(iteration) && time == old(time)
                && log.ops == old(log.ops) + (DiagOps(s.diags, old(iteration)) + Prelude(s, old(time)))
      ensures s.period != 0 && movingWin.None? ==>
                Positions() == Drifted(old(Positions()), HalfDrift(), Passes(n))
    {
      if exchangePeriod == 0 {
        // the first pass raises at `iteration % exchange_period`
        if n > 0 {
          o := Iterate(s, iteration, time, f, true);
        } else {
          o := Pass;
        }
        return;
      }
      RunPasses(s, n, f);
      o := Pass;
    }

    /** The loop of `step` for a non-zero exchange period. */
    method RunPasses(ghost s: Setup, n: int, f: Flags)
      requires Valid() && s == Config() && s.period != 0
      modifies this, log, ptcl, WindowSet(), GridSet()
      ensures Valid() && Config() == s && movingWin == old(movingWin)
      ensures iteration == old(iteration) + Passes(n)
      ensures time == TimeAfter(old(time), s.dt, Passes(n))
      ensures log.ops == old(log.ops) + RunOps(s, f, old(iteration), old(time), Passes(n))
      ensures movingWin.None? ==> Positions() == Drifted(old(Positions()), HalfDrift(), Passes(n))
    {
      ghost var it0, t0, base, start := iteration, time, log.ops, Positions();
      var i := 0;
      while i < n
        invariant 0 <= i <= Passes(n)
        invariant Valid() && Config() == s && movingWin == old(movingWin)
        invariant iteration == it0 + i && time == TimeAfter(t0, s.dt, i)
        invariant log.ops == base + RunOps(s, f, it0, t0, i)
        invariant movingWin.None? ==> Positions() == Drifted(start, HalfDrift(), i)
      {
        RunPass(s, it0, t0, base, start, f, i);
        i := i + 1;
      }
    }

    /** Pass `i` of the loop of `step` with a non-zero exchange period, from
        the state the passes before it left behind. */
    method RunPass(ghost s: Setup, ghost it0: int, ghost t0: real, ghost base: seq<Op>,
                   ghost start: seq<GridPos>, f: Flags, i: nat)
      requires Valid() && s == Config() && s.period != 0
      requires iteration == it0 + i && time == TimeAfter(t0, s.dt, i)
      requires log.ops == base + RunOps(s, f, it0, t0, i)
      requires movingWin.None? ==> Positions() == Drifted(start, HalfDrift(), i)
      modifies this, log, ptcl, WindowSet(), GridSet()
      ensures Valid() && Config() == s && movingWin == old(movingWin)
      ensures iteration == it0 + (i + 1) && time == TimeAfter(t0, s.dt, i + 1)
      ensures log.ops == base + RunOps(s, f, it0, t0, i + 1)
      ensures movingWin.None? ==> Positions() == Drifted(start, HalfDrift(), i + 1)
    {
      ghost var before, grids := log.ops, Positions();
      var _ := Iterate(s, it0 + i, TimeAfter(t0, s.dt, i), f, i == 0);
      TimeStep(t0, s.dt, i);
      RunExtends(before, log.ops, base, s, f, it0, t0, i);
      if movingWin.None? {
        DriftOnce(grids, Positions(), start, HalfDrift(), i);
      }
    }
  }

  /** The number of passes of `for i_step in range(N)`. */
  function Passes(n: int): nat
  {
    if n < 0 then 0 else n
  }

  /** The PIC loop of one iteration, from the gathering to the field push. */
  function CycleOps(s: Setup, f: Flags, time: real): seq<Op>
  {
    Gathering(s, time) + FirstHalfPush(s, f, time)
    + DepositOps(J, s.nSpecies, s.antennas, s.filter)
    + SecondHalfPush(s, f) + Correction(s, f) + FieldPush(f)
  }

  /** `IterationOps` regrouped as `Iterate` makes the calls. */
  lemma IterationShape(o: seq<Op>, s: Setup, f: Flags, iteration: int, time: real, first: bool)
    requires s.period != 0
    ensures o + (DiagOps(s.diags, iteration) + Prelude(s, time))
            + (When(Exchanges(s.period, iteration, first), ParticleExchange(s, time)) + CycleOps(s, f, time))
            == o + IterationOps(s, f, iteration, time, first)
  {
    RegroupIteration(o, DiagOps(s.diags, iteration), Prelude(s, time),
                     When(Exchanges(s.period, iteration, first), ParticleExchange(s, time)),
                     Gathering(s, time), FirstHalfPush(s, f, time),
                     DepositOps(J, s.nSpecies, s.antennas, s.filter),
                     SecondHalfPush(s, f), Correction(s, f), FieldPush(f));
  }

  lemma RegroupHalves(o: seq<Op>, a: seq<Op>, b: seq<Op>, c: seq<Op>, d: seq<Op>, e: seq<Op>, g: seq<Op>)
    ensures o + (a + b + c) + (d + e + g) == o + (a + b + c + d + e + g)
  {
    Regroup(a + b, c, d + e + g);
    Regroup(a + b + c, d + e, g);
    Regroup(a + b + c, d, e);
    Regroup(o, a + b + c, d + e + g);
  }

  lemma RegroupIteration(o: seq<Op>, d: seq<Op>, p: seq<Op>, w: seq<Op>, a: seq<Op>, b: seq<Op>,
                         c: seq<Op>, e: seq<Op>, g: seq<Op>, h: seq<Op>)
    ensures o + (d + p) + (w + (a + b + c + e + g + h)) == o + (d + (p + w + a + b + c + e + g + h))
  {
    var x := a + b + c + e + g + h;
    Regroup6(p + w, a, b, c, e, g, h);
    Regroup(o, d + p, w + x);
    Regroup(d, p, w + x);
    Regroup(p, w, x);
  }

  /** The grids after `n` iterations that each shift them twice by `h`. */
  function Drifted(g: seq<GridPos>, h: real, n: nat): seq<GridPos>
  {
    if n == 0 then g else Shifted(Shifted(Drifted(g, h, n - 1), h), h)
  }

  /** One more iteration shifts the grids twice more. */
  lemma DriftOnce(before: seq<GridPos>, after: seq<GridPos>, g: seq<GridPos>, h: real, i: nat)
    requires before == Drifted(g, h, i) && after == Shifted(Shifted(before, h), h)
    ensures after == Drifted(g, h, i + 1)
  {
  }

  /** The two shifts of one pass add up to one shift by their sum. */
  lemma PassDrift(before: seq<GridPos>, after: seq<GridPos>, h: real, d: real)
    requires after == Shifted(Shifted(before, h), h) && d == h + h
    ensures after == Shifted(before, d)
  {
    ShiftedAdd(before, h, h);
  }

  /** One more step advances the time by `dt`. */
  lemma TimeStep(time: real, dt: real, i: nat)
    ensures TimeAfter(time, dt, i) + dt == TimeAfter(time, dt, i + 1)
  {
  }

  /** `n` iterations move the grids by `n` times the two shifts. */
  lemma {:induction false} DriftedIsShifted(g: seq<GridPos>, h: real, n: nat)
    ensures Drifted(g, h, n) == Shifted(g, n as real * (h + h))
  {
    if n == 0 {
      ShiftedZero(g);
    } else {
      var m: nat := n - 1;
      DriftedIsShifted(g, h, m);
      ShiftedAdd(g, m as real * (h + h), h);
      ShiftedAdd(g, m as real * (h + h) + h, h);
      SameShift(g, m as real * (h + h) + h + h, n as real * (h + h));
    }
  }

  /** Shifting by zero moves nothing. */
  lemma ShiftedZero(g: seq<GridPos>)
    ensures Shifted(g, 0.0) == g
  {
    forall m | 0 <= m < |g|
      ensures Shifted(g, 0.0)[m] == g[m]
    {
      assert ShiftAll(g[m].z, 0.0) == g[m].z;
    }
  }

  /** Equal distances give equal shifts. */
  lemma SameShift(g: seq<GridPos>, a: real, b: real)
    requires a == b
    ensures Shifted(g, a) == Shifted(g, b)
  {
  }

  /** Two shifts add up. */
  lemma ShiftedAdd(g: seq<GridPos>, a: real, b: real)
    ensures Shifted(Shifted(g, a), b) == Shifted(g, a + b)
  {
    forall m | 0 <= m < |g|
      ensures Shifted(Shifted(g, a), b)[m] == Shifted(g, a + b)[m]
    {
      assert ShiftAll(ShiftAll(g[m].z, a), b) == ShiftAll(g[m].z, a + b);
    }
  }

  // Sequence identities, stated on plain values so that the methods that
  // build the journal need no reasoning about sequence elements.

  lemma AppendEmpty(x: seq<Op>)
    ensures x + [] == x
  {
  }

  /** The journal of a run grows by one iteration at a time. */
  lemma RunExtends(before: seq<Op>, after: seq<Op>, o: seq<Op>, s: Setup, f: Flags,
                   iteration: int, time: real, i: nat)
    requires s.period != 0 && before == o + RunOps(s, f, iteration, time, i)
    requires after == before + IterationOps(s, f, iteration + i, TimeAfter(time, s.dt, i), i == 0)
    ensures after == o + RunOps(s, f, iteration, time, i + 1)
  {
    RunSnoc(s, f, iteration, time, i);
    Regroup(o, RunOps(s, f, iteration, time, i),
            IterationOps(s, f, iteration + i, TimeAfter(time, s.dt, i), i == 0));
  }

  lemma Regroup(o: seq<Op>, a: seq<Op>, b: seq<Op>)
    ensures o + a + b == o + (a + b)
  {
  }

  lemma Pair(o: seq<Op>, x: Op, y: Op)
    ensures o + [x] + [y] == o + [x, y]
  {
  }

  lemma Regroup4(o: seq<Op>, a: seq<Op>, b: seq<Op>, c: seq<Op>, d: seq<Op>)
    ensures o + a + b + c + d == o + (a + b + c + d)
  {
  }

  lemma Regroup5(o: seq<Op>, a: seq<Op>, b: seq<Op>, c: seq<Op>, d: seq<Op>, e: seq<Op>)
    ensures o + a + b + c + d + e == o + (a + b + c + d + e)
  {
  }

  /** `FieldPush` as `PushFields` makes the calls, one at a time. */
  lemma FieldPushShape(o: seq<Op>, f: Flags)
    ensures o + [DampGuardEB] + [Interp2Spect(E)] + [Interp2Spect(B)] + [PushFields(f.useTrueRho)]
            + When(f.correctDivE, [CorrectDivE]) + [Spect2Interp(E)] + [Spect2Interp(B)]
            == o + FieldPush(f)
  {
  }

  lemma Regroup6(o: seq<Op>, a: seq<Op>, b: seq<Op>, c: seq<Op>, d: seq<Op>, e: seq<Op>, w: seq<Op>)
    ensures o + a + b + c + d + e + w == o + (a + b + c + d + e + w)
  {
  }

  /** `DepositOps` regrouped as `DepositInto` makes the calls. */
  lemma DepositShape(k: FieldName, nSpecies: nat, antennas: seq<nat>, filter: bool)
    requires IsDepositTarget(k)
    ensures var acc := Accumulator(k);
            DepositOps(k, nSpecies, antennas, filter)
            == [Erase(acc)] + EachSpecies(nSpecies, DepositTo(acc))
               + EachAntenna(antennas, AntennaDeposit(acc))
               + [DivideByVolume(acc), ExchangeFields(acc)] + [Interp2Spect(k)]
               + When(filter, [FilterSpect(k)])
  {
    var acc := Accumulator(k);
    assert [DivideByVolume(acc), ExchangeFields(acc)] + [Interp2Spect(k)]
        == [DivideByVolume(acc), ExchangeFields(acc), Interp2Spect(k)];
  }

  /** `interp[m].zmin += d`, `interp[m].zmax += d`, `interp[m].z += d`. */
  method ShiftMode(g: InterpGrid, d: real)
    modifies g, g.z
    ensures ModePos(g) == ShiftedMode(old(ModePos(g)), d)
  {
    g.zmin := g.zmin + d;
    g.zmax := g.zmax + d;
    var j := 0;
    while j < g.z.Length
      invariant 0 <= j <= g.z.Length
      invariant g.zmin == old(g.zmin) + d && g.zmax == old(g.zmax) + d
      invariant forall i :: 0 <= i < j ==> g.z[i] == old(g.z[i]) + d
      invariant forall i :: j <= i < g.z.Length ==> g.z[i] == old(g.z[i])
    {
      g.z[j] := g.z[j] + d;
      j := j + 1;
    }
    assert g.z[..] == ShiftAll(old(g.z[..]), d);
  }
}
