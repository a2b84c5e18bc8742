/** The order of collaborator calls made by `Simulation.step` and
    `Simulation.deposit` (fbpic/main.py:292-516), as sequences of events.
    The simulation records every call it makes in a ghost journal; the
    functions here say which sequence one PIC iteration, one deposition and
    a run of `N` iterations must produce, and the lemmas state what those
    sequences guarantee. */
module Schedule {
  import opened Outcomes

  /** The field names the source passes around as strings. */
  datatype FieldName = EB | E | B | Rho | RhoPrev | RhoNext | J

  /** The three names `deposit` accepts. */
  predicate IsDepositTarget(k: FieldName)
  {
    k == RhoPrev || k == RhoNext || k == J
  }

  /** The dispatch of `deposit` on its string argument. */
  function ParseDepositTarget(fieldtype: string): (r: Option<FieldName>)
    ensures r.Some? ==> IsDepositTarget(r.value)
  {
    if fieldtype == "rho_prev" then Some(RhoPrev)
    else if fieldtype == "rho_next" then Some(RhoNext)
    else if fieldtype == "J" then Some(J)
    else None
  }

  /** The string that designates a deposition target. */
  function TargetName(k: FieldName): string
    requires IsDepositTarget(k)
  {
    match k
    case RhoPrev => "rho_prev"
    case RhoNext => "rho_next"
    case J => "J"
  }

  /** The dispatch accepts exactly the three target names, and each name
      designates exactly one target. */
  lemma DepositTargetRoundTrip(k: FieldName, fieldtype: string)
    ensures IsDepositTarget(k) ==> ParseDepositTarget(TargetName(k)) == Some(k)
    ensures ParseDepositTarget(fieldtype) == Some(k) ==> TargetName(k) == fieldtype
    ensures ParseDepositTarget(fieldtype).None? <==>
              fieldtype != "rho_prev" && fieldtype != "rho_next" && fieldtype != "J"
  {
  }

  /** The interpolation-grid array a target accumulates into: both charge
      targets deposit into `rho`, the current into `J`. */
  function Accumulator(k: FieldName): FieldName
    requires IsDepositTarget(k)
  {
    if k == J then J else Rho
  }

  /** A call on one species of `self.ptcl`; `ClearSorted` is the assignment
      `species.sorted = False` that the simulation makes itself. */
  datatype SpeciesCall =
    | ExchangeParticles(time: real)
    | Gather
    | ClearSorted
    | DepositTo(field: FieldName)
    | HandleIonization
    | PushP
    | HalfPushX

  /** A call on one laser antenna. */
  datatype AntennaCall =
    | UpdateV(time: real)
    | AntennaHalfPushX(dt: real)
    | AntennaDeposit(field: FieldName)

  /** One event of the journal. Species are named by their position in
      `self.ptcl`; diagnostics, external fields and antennas by the handle
      stored in their list. `ResetInjection` is the assignment
      `moving_win.nz_inject = 0` and `ShiftGalilean` one call of
      `shift_galilean_boundaries`, both made by the simulation itself. */
  datatype Op =
    | StageIn                       // send_data_to_gpu
    | StageOut                      // receive_data_from_gpu
    | DiagWrite(diag: nat, iteration: int)
    | MoveGrids(dt: real, time: real)
    | ExchangeFields(field: FieldName)
    | OnSpecies(species: nat, call: SpeciesCall)
    | ResetInjection
    | ApplyExternal(ext: nat, time: real)
    | OnAntenna(antenna: nat, acall: AntennaCall)
    | Erase(field: FieldName)
    | DivideByVolume(field: FieldName)
    | Interp2Spect(field: FieldName)
    | FilterSpect(field: FieldName)
    | ShiftGalilean
    | CorrectCurrents
    | DampGuardEB
    | PushFields(useTrueRho: bool)
    | CorrectDivE
    | Spect2Interp(field: FieldName)

  /** What a run depends on besides the counters: the number of species,
      the handles of the diagnostics, external fields and antennas, the
      time step, the exchange period, whether a moving window is attached,
      whether the Galilean frame is on, and `filter_currents`. */
  datatype Setup = Setup(nSpecies: nat, diags: seq<nat>, externals: seq<nat>,
                         antennas: seq<nat>, dt: real, period: int,
                         window: bool, galilean: bool, filter: bool)

  /** The keyword arguments of `step` that gate calls (`show_progress`
      only prints). */
  datatype Flags = Flags(correctCurrents: bool, correctDivE: bool, useTrueRho: bool,
                         movePositions: bool, moveMomenta: bool)

  // ---------------------------------------------------------------------
  // Loops over the lists, each a sequence built in list order

  /** The calls of a block guarded by `if c:`. */
  function When(c: bool, ops: seq<Op>): seq<Op>
  {
    if c then ops else []
  }

  /** `for species in self.ptcl: <call>` for the first `n` species. */
  function EachSpecies(n: nat, call: SpeciesCall): (r: seq<Op>)
    ensures |r| == n
  {
    if n == 0 then [] else EachSpecies(n - 1, call) + [OnSpecies(n - 1, call)]
  }

  /** `for diag in self.diags: diag.write(iteration)` */
  function DiagOps(diags: seq<nat>, iteration: int): (r: seq<Op>)
    ensures |r| == |diags|
  {
    if diags == [] then []
    else DiagOps(diags[..|diags| - 1], iteration) + [DiagWrite(diags[|diags| - 1], iteration)]
  }

  /** `for ext_field in self.external_fields: ext_field.apply_expression(...)` */
  function ExternalOps(externals: seq<nat>, time: real): (r: seq<Op>)
    ensures |r| == |externals|
  {
    if externals == [] then []
    else ExternalOps(externals[..|externals| - 1], time)
         + [ApplyExternal(externals[|externals| - 1], time)]
  }

  /** `for antenna in self.laser_antennas: <acall>` */
  function EachAntenna(antennas: seq<nat>, acall: AntennaCall): (r: seq<Op>)
    ensures |r| == |antennas|
  {
    if antennas == [] then []
    else EachAntenna(antennas[..|antennas| - 1], acall)
         + [OnAntenna(antennas[|antennas| - 1], acall)]
  }

  /** The antenna loop of the first half push: `update_v` then `halfpush_x`,
      antenna by antenna. */
  function AntennaAdvance(antennas: seq<nat>, time: real, dt: real): (r: seq<Op>)
    ensures |r| == 2 * |antennas|
  {
    if antennas == [] then []
    else
      var a := antennas[|antennas| - 1];
      AntennaAdvance(antennas[..|antennas| - 1], time, dt)
      + [OnAntenna(a, UpdateV(time)), OnAntenna(a, AntennaHalfPushX(dt))]
  }

  // ---------------------------------------------------------------------
  // Deposition

  /** The events a deposition into target `k` may contain. */
  predicate DepositEvent(op: Op, k: FieldName)
    requires IsDepositTarget(k)
  {
    var acc := Accumulator(k);
    || op == Erase(acc)
    || (op.OnSpecies? && op.call == DepositTo(acc))
    || (op.OnAntenna? && op.acall == AntennaDeposit(acc))
    || op == DivideByVolume(acc) || op == ExchangeFields(acc)
    || op == Interp2Spect(k) || op == FilterSpect(k)
  }

  /** The calls of `deposit(k)` for a valid target `k`. */
  function DepositOps(k: FieldName, nSpecies: nat, antennas: seq<nat>, filter: bool): (r: seq<Op>)
    requires IsDepositTarget(k)
    ensures |r| == 4 + nSpecies + |antennas| + (if filter then 1 else 0)
  {
    var acc := Accumulator(k);
    [Erase(acc)]
    + EachSpecies(nSpecies, DepositTo(acc))
    + EachAntenna(antennas, AntennaDeposit(acc))
    + [DivideByVolume(acc), ExchangeFields(acc), Interp2Spect(k)]
    + When(filter, [FilterSpect(k)])
  }

  // ---------------------------------------------------------------------
  // One PIC iteration, in the order of the loop body of `step`

  /** Whether the iteration exchanges particles: `iteration % exchange_period
      == 0 or i_step == 0`. Python's `%` and Dafny's agree on whether the
      remainder is zero, whatever the signs. */
  predicate Exchanges(period: int, iteration: int, first: bool)
    requires period != 0
  {
    iteration % period == 0 || first
  }

  /** Python's `a % b` for a non-zero `b`: the remainder left by the floor
      division, which takes the sign of the divisor. */
  function PyMod(a: int, b: int): (r: int)
    requires b != 0
    ensures b > 0 ==> 0 <= r < b
    ensures b < 0 ==> b < r <= 0
    ensures (a - r) % b == 0
  {
    var e := a % b;
    assert a - e == b * (a / b);
    MultipleHasNoRemainder(b, a / b);
    if b > 0 || e == 0 then e
    else
      assert a - (e + b) == b * (a / b - 1);
      MultipleHasNoRemainder(b, a / b - 1);
      e + b
  }

  /** A multiple of `b` leaves no remainder. */
  lemma MultipleHasNoRemainder(b: int, q: int)
    requires b != 0
    ensures (b * q) % b == 0
  {
    var d, r := (b * q) / b, (b * q) % b;
    var k := q - d;
    assert r == b * k;
    if k != 0 {
      ProductAtLeastFactor(b, k);
      assert false;
    }
  }

  /** `|b * k| >= |b|` for a non-zero `k`, with the sign of `b * k`. */
  lemma ProductAtLeastFactor(b: int, k: int)
    requires b != 0 && k != 0
    ensures b > 0 && k > 0 ==> b * k >= b
    ensures b > 0 && k < 0 ==> b * k <= -b
    ensures b < 0 && k > 0 ==> b * k <= b
    ensures b < 0 && k < 0 ==> b * k >= -b
    decreases if k > 0 then k else -k
  {
    if k > 1 {
      ProductAtLeastFactor(b, k - 1);
    } else if k < -1 {
      ProductAtLeastFactor(b, k + 1);
    }
  }

  /** The exchange test is the source's: `iteration % exchange_period == 0`
      in Python's arithmetic, or the first pass. */
  lemma ExchangeTestAsInPython(period: int, iteration: int, first: bool)
    requires period != 0
    ensures Exchanges(period, iteration, first) <==> PyMod(iteration, period) == 0 || first
  {
  }

  /** The moving-window shift and the guard-cell exchange of E and B, made
      between the diagnostics and the exchange test. */
  function Prelude(s: Setup, time: real): (r: seq<Op>)
  {
    When(s.window, [MoveGrids(s.dt, time)]) + [ExchangeFields(EB)]
  }

  /** The particle exchange of every species, then the reset of the number
      of cells to inject when a window is attached. */
  function ParticleExchange(s: Setup, time: real): (r: seq<Op>)
    ensures |r| == s.nSpecies + (if s.window then 1 else 0)
  {
    EachSpecies(s.nSpecies, ExchangeParticles(time))
    + When(s.window, [ResetInjection])
  }

  /** Gathering, the external fields, clearing `sorted`, and `deposit('rho_prev')`. */
  function Gathering(s: Setup, time: real): (r: seq<Op>)
  {
    EachSpecies(s.nSpecies, Gather)
    + ExternalOps(s.externals, time)
    + EachSpecies(s.nSpecies, ClearSorted)
    + DepositOps(RhoPrev, s.nSpecies, s.antennas, s.filter)
  }

  function GalileanShift(s: Setup): seq<Op>
  {
    if s.galilean then [ShiftGalilean] else []
  }

  /** Ionisation, the momentum push, the first half push of the positions,
      the antenna advance and the first Galilean shift. */
  function FirstHalfPush(s: Setup, f: Flags, time: real): (r: seq<Op>)
  {
    EachSpecies(s.nSpecies, HandleIonization)
    + When(f.moveMomenta, EachSpecies(s.nSpecies, PushP))
    + When(f.movePositions, EachSpecies(s.nSpecies, HalfPushX))
    + AntennaAdvance(s.antennas, time + 0.5 * s.dt, s.dt)
    + GalileanShift(s)
  }

  /** The second half push of the positions and the antennas, and the second
      Galilean shift. */
  function SecondHalfPush(s: Setup, f: Flags): (r: seq<Op>)
  {
    When(f.movePositions, EachSpecies(s.nSpecies, HalfPushX))
    + EachAntenna(s.antennas, AntennaHalfPushX(s.dt))
    + GalileanShift(s)
  }

  /** `deposit('rho_next')` and the optional current correction. */
  function Correction(s: Setup, f: Flags): (r: seq<Op>)
  {
    DepositOps(RhoNext, s.nSpecies, s.antennas, s.filter)
    + When(f.correctCurrents, [CorrectCurrents])
  }

  /** Damping, the transforms to spectral space, the field push, the
      optional divergence cleaning and the transforms back. */
  function FieldPush(f: Flags): (r: seq<Op>)
  {
    [DampGuardEB, Interp2Spect(E), Interp2Spect(B), PushFields(f.useTrueRho)]
    + When(f.correctDivE, [CorrectDivE])
    + [Spect2Interp(E), Spect2Interp(B)]
  }

  /** Everything of an iteration after the diagnostics. */
  function IterationBody(s: Setup, f: Flags, iteration: int, time: real, first: bool): seq<Op>
    requires s.period != 0
  {
    Prelude(s, time)
    + When(Exchanges(s.period, iteration, first), ParticleExchange(s, time))
    + Gathering(s, time)
    + FirstHalfPush(s, f, time)
    + DepositOps(J, s.nSpecies, s.antennas, s.filter)
    + SecondHalfPush(s, f)
    + Correction(s, f)
    + FieldPush(f)
  }

  /** All calls of the iteration with counters `iteration` and `time`;
      `first` is `i_step == 0`. */
  function IterationOps(s: Setup, f: Flags, iteration: int, time: real, first: bool): seq<Op>
    requires s.period != 0
  {
    DiagOps(s.diags, iteration) + IterationBody(s, f, iteration, time, first)
  }

  /** The simulation time after `i` increments `self.time += self.dt`. */
  function TimeAfter(time: real, dt: real, i: nat): real
  {
    if i == 0 then time else TimeAfter(time, dt, i - 1) + dt
  }

  /** The iterations `0 .. n-1` of one call of `step` started with counters
      `iteration` and `time`, one sequence of calls per iteration: iteration
      `i` runs with `iteration + i`, the time after `i` steps, and the exchange
      forced when `i == 0`. */
  function Iterations(s: Setup, f: Flags, iteration: int, time: real, n: nat): (r: seq<seq<Op>>)
    requires s.period != 0
    ensures |r| == n
  {
    seq(n, i requires 0 <= i < n => IterationOps(s, f, iteration + i, TimeAfter(time, s.dt, i), i == 0))
  }

  /** Iteration `i` of a run runs with the counters advanced `i` times. */
  lemma IterationsAt(s: Setup, f: Flags, iteration: int, time: real, n: nat)
    requires s.period != 0
    ensures forall i :: 0 <= i < n ==>
              Iterations(s, f, iteration, time, n)[i]
              == IterationOps(s, f, iteration + i, TimeAfter(time, s.dt, i), i == 0)
  {
  }

  /** The calls of those iterations, one after the other. */
  function RunOps(s: Setup, f: Flags, iteration: int, time: real, n: nat): seq<Op>
    requires s.period != 0
  {
    Flatten(Iterations(s, f, iteration, time, n))
  }

  /** The concatenation of a sequence of call sequences. */
  function Flatten(xs: seq<seq<Op>>): seq<Op>
  {
    if |xs| == 0 then [] else Flatten(xs[..|xs| - 1]) + xs[|xs| - 1]
  }

  // ---------------------------------------------------------------------
  // Order and multiplicity of events

  /** `a` occurs somewhere before `b`. */
  predicate Precedes(s: seq<Op>, a: Op, b: Op)
  {
    exists i, j :: 0 <= i < j < |s| && s[i] == a && s[j] == b
  }

  lemma PrecedesAt(s: seq<Op>, i: int, j: int)
    requires 0 <= i < j < |s|
    ensures Precedes(s, s[i], s[j])
  {
  }

  lemma PrecedesAcross(l: seq<Op>, r: seq<Op>, a: Op, b: Op)
    requires Count(l, a) > 0 && Count(r, b) > 0
    ensures Precedes(l + r, a, b)
  {
    var i := CountWitness(l, a);
    var j := CountWitness(r, b);
    assert (l + r)[i] == a && (l + r)[|l| + j] == b;
  }

  lemma PrecedesPrefix(l: seq<Op>, r: seq<Op>, a: Op, b: Op)
    requires Precedes(l, a, b)
    ensures Precedes(l + r, a, b)
  {
    var i, j :| 0 <= i < j < |l| && l[i] == a && l[j] == b;
    assert (l + r)[i] == a && (l + r)[j] == b;
  }

  lemma PrecedesSuffix(l: seq<Op>, r: seq<Op>, a: Op, b: Op)
    requires Precedes(r, a, b)
    ensures Precedes(l + r, a, b)
  {
    var i, j :| 0 <= i < j < |r| && r[i] == a && r[j] == b;
    assert (l + r)[|l| + i] == a && (l + r)[|l| + j] == b;
  }

  /** Number of occurrences of `x` in `s`. */
  function Count(s: seq<Op>, x: Op): (c: nat)
    ensures c <= |s|
  {
    CountBelow(s, x, |s|)
  }

  /** Number of occurrences of `x` among the first `i` elements of `s`. */
  function CountBelow(s: seq<Op>, x: Op, i: nat): (c: nat)
    requires i <= |s|
    ensures c <= i
  {
    if i == 0 then 0 else CountBelow(s, x, i - 1) + (if s[i - 1] == x then 1 else 0)
  }

  lemma {:induction false} CountBelowConcat(a: seq<Op>, b: seq<Op>, x: Op, i: nat)
    requires i <= |b|
    ensures CountBelow(a + b, x, |a| + i) == CountBelow(a, x, |a|) + CountBelow(b, x, i)
  {
    if i == 0 {
      CountBelowPrefix(a, b, x, |a|);
    } else {
      CountBelowConcat(a, b, x, i - 1);
      assert (a + b)[|a| + i - 1] == b[i - 1];
    }
  }

  lemma {:induction false} CountBelowPrefix(a: seq<Op>, b: seq<Op>, x: Op, i: nat)
    requires i <= |a|
    ensures CountBelow(a + b, x, i) == CountBelow(a, x, i)
  {
    if i > 0 {
      CountBelowPrefix(a, b, x, i - 1);
      assert (a + b)[i - 1] == a[i - 1];
    }
  }

  lemma CountConcat(a: seq<Op>, b: seq<Op>, x: Op)
    ensures Count(a + b, x) == Count(a, x) + Count(b, x)
  {
    CountBelowConcat(a, b, x, |b|);
  }

  lemma CountOne(y: Op, x: Op)
    ensures Count([y], x) == if y == x then 1 else 0
  {
    assert CountBelow([y], x, 0) == 0;
  }

  lemma CountThree(a: Op, b: Op, c: Op, x: Op)
    ensures Count([a, b, c], x) == (if a == x then 1 else 0) + (if b == x then 1 else 0)
                                    + (if c == x then 1 else 0)
  {
    var s := [a, b, c];
    assert CountBelow(s, x, 1) == (if a == x then 1 else 0) by {
      assert CountBelow(s, x, 0) == 0;
    }
    assert CountBelow(s, x, 2) == CountBelow(s, x, 1) + (if b == x then 1 else 0);
  }

  lemma CountFour(a: Op, b: Op, c: Op, d: Op, x: Op)
    ensures Count([a, b, c, d], x) == (if a == x then 1 else 0) + (if b == x then 1 else 0)
                                       + (if c == x then 1 else 0) + (if d == x then 1 else 0)
  {
    CountConcat([a, b, c], [d], x);
    assert [a, b, c] + [d] == [a, b, c, d];
    CountThree(a, b, c, x);
    CountOne(d, x);
  }

  /** An element that is counted occurs at some index. */
  lemma CountWitness(s: seq<Op>, x: Op) returns (i: int)
    requires Count(s, x) > 0
    ensures 0 <= i < |s| && s[i] == x
  {
    i := CountBelowWitness(s, x, |s|);
  }

  lemma {:induction false} CountBelowWitness(s: seq<Op>, x: Op, n: nat) returns (i: int)
    requires n <= |s| && CountBelow(s, x, n) > 0
    ensures 0 <= i < n && s[i] == x
  {
    if s[n - 1] == x {
      i := n - 1;
    } else {
      i := CountBelowWitness(s, x, n - 1);
    }
  }

  /** An element at some index is counted. */
  lemma CountAt(s: seq<Op>, i: int)
    requires 0 <= i < |s|
    ensures Count(s, s[i]) > 0
  {
    CountBelowAt(s, i, |s|);
  }

  lemma {:induction false} CountBelowAt(s: seq<Op>, i: int, n: nat)
    requires 0 <= i < n <= |s|
    ensures CountBelow(s, s[i], n) > 0
  {
    if i < n - 1 {
      CountBelowAt(s, i, n - 1);
    }
  }

  /** A sequence none of whose elements is `x` does not contain it. */
  lemma CountNone(s: seq<Op>, x: Op)
    requires forall i :: 0 <= i < |s| ==> s[i] != x
    ensures Count(s, x) == 0
  {
    CountBelowNone(s, x, |s|);
  }

  lemma {:induction false} CountBelowNone(s: seq<Op>, x: Op, i: nat)
    requires i <= |s| && forall j :: 0 <= j < |s| ==> s[j] != x
    ensures CountBelow(s, x, i) == 0
  {
    if i > 0 {
      CountBelowNone(s, x, i - 1);
    }
  }

  /** Number of occurrences of `op` in the loop over species. */
  lemma {:induction false} EachSpeciesCount(n: nat, call: SpeciesCall, op: Op)
    ensures Count(EachSpecies(n, call), op) ==
              if op.OnSpecies? && op.call == call && op.species < n then 1 else 0
  {
    if n > 0 {
      EachSpeciesCount(n - 1, call, op);
      CountConcat(EachSpecies(n - 1, call), [OnSpecies(n - 1, call)], op);
      CountOne(OnSpecies(n - 1, call), op);
    }
  }

  /** Each element of a handle list is visited by the antenna loop. */
  lemma {:induction false} EachAntennaAt(antennas: seq<nat>, acall: AntennaCall, j: int)
    requires 0 <= j < |antennas|
    ensures EachAntenna(antennas, acall)[j] == OnAntenna(antennas[j], acall)
  {
    if j < |antennas| - 1 {
      EachAntennaAt(antennas[..|antennas| - 1], acall, j);
    }
  }

  // ---------------------------------------------------------------------
  // The kinds of calls each block is made of

  /** The species loop makes `call` on species below `n` only. */
  lemma {:induction false} EachSpeciesKinds(n: nat, call: SpeciesCall)
    ensures forall i :: 0 <= i < |EachSpecies(n, call)| ==>
              && EachSpecies(n, call)[i].OnSpecies?
              && EachSpecies(n, call)[i].call == call
              && EachSpecies(n, call)[i].species < n
  {
    if n > 0 {
      EachSpeciesKinds(n - 1, call);
      var r' := EachSpecies(n - 1, call);
      assert EachSpecies(n, call) == r' + [OnSpecies(n - 1, call)];
    }
  }

  /** The `i`-th write is made by the `i`-th diagnostic. */
  lemma {:induction false} DiagOpsAt(diags: seq<nat>, iteration: int)
    ensures forall i :: 0 <= i < |DiagOps(diags, iteration)| ==>
              DiagOps(diags, iteration)[i] == DiagWrite(diags[i], iteration)
  {
    if diags != [] {
      var init := diags[..|diags| - 1];
      DiagOpsAt(init, iteration);
      var r' := DiagOps(init, iteration);
      assert DiagOps(diags, iteration) == r' + [DiagWrite(diags[|diags| - 1], iteration)];
      assert forall i :: 0 <= i < |r'| ==> diags[i] == init[i];
    }
  }

  /** The external-field loop applies fields at `time` only. */
  lemma {:induction false} ExternalKinds(externals: seq<nat>, time: real)
    ensures forall i :: 0 <= i < |ExternalOps(externals, time)| ==>
              && ExternalOps(externals, time)[i].ApplyExternal?
              && ExternalOps(externals, time)[i].time == time
  {
    if externals != [] {
      ExternalKinds(externals[..|externals| - 1], time);
      var r' := ExternalOps(externals[..|externals| - 1], time);
      assert ExternalOps(externals, time) == r' + [ApplyExternal(externals[|externals| - 1], time)];
    }
  }

  /** The antenna loop makes `acall` only. */
  lemma {:induction false} EachAntennaKinds(antennas: seq<nat>, acall: AntennaCall)
    ensures forall i :: 0 <= i < |EachAntenna(antennas, acall)| ==>
              && EachAntenna(antennas, acall)[i].OnAntenna?
              && EachAntenna(antennas, acall)[i].acall == acall
  {
    if antennas != [] {
      EachAntennaKinds(antennas[..|antennas| - 1], acall);
      var r' := EachAntenna(antennas[..|antennas| - 1], acall);
      assert EachAntenna(antennas, acall) == r' + [OnAntenna(antennas[|antennas| - 1], acall)];
    }
  }

  /** The antenna advance updates velocities and half-pushes positions only. */
  lemma {:induction false} AntennaAdvanceKinds(antennas: seq<nat>, time: real, dt: real)
    ensures forall i :: 0 <= i < |AntennaAdvance(antennas, time, dt)| ==>
              && AntennaAdvance(antennas, time, dt)[i].OnAntenna?
              && (|| AntennaAdvance(antennas, time, dt)[i].acall == UpdateV(time)
                  || AntennaAdvance(antennas, time, dt)[i].acall == AntennaHalfPushX(dt))
  {
    if antennas != [] {
      var a := antennas[|antennas| - 1];
      AntennaAdvanceKinds(antennas[..|antennas| - 1], time, dt);
      var r' := AntennaAdvance(antennas[..|antennas| - 1], time, dt);
      assert AntennaAdvance(antennas, time, dt)
        == r' + [OnAntenna(a, UpdateV(time)), OnAntenna(a, AntennaHalfPushX(dt))];
    }
  }

  /** A deposition into `k` holds only the events `DepositEvent` names. */
  lemma DepositKinds(k: FieldName, nSpecies: nat, antennas: seq<nat>, filter: bool)
    requires IsDepositTarget(k)
    ensures forall i :: 0 <= i < |DepositOps(k, nSpecies, antennas, filter)| ==>
              DepositEvent(DepositOps(k, nSpecies, antennas, filter)[i], k)
  {
    EachSpeciesKinds(nSpecies, DepositTo(Accumulator(k)));
    EachAntennaKinds(antennas, AntennaDeposit(Accumulator(k)));
  }
}
