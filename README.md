# fbpic orchestration core in Dafny

This project models the part of fbpic, a spectral particle-in-cell (PIC)
code for laser-plasma physics, that drives a simulation. The model lives in
`fbpic/main.py`:

- the exchange period fixed by `Simulation.__init__`: how many time steps
  particles may travel before they must be exchanged between domains;
- the counters and lists the constructor initialises;
- `Simulation.step`, the PIC loop;
- `Simulation.deposit`, the deposition of charge or current;
- `shift_galilean_boundaries`, the shift of the grid in a Galilean frame;
- `set_moving_window`;
- the helper `adapt_to_grid`, which snaps a particle loading interval onto
  the grid.

The files are:

- `outcomes.dfy`: `Option`, `Result`, `Outcome` and the exceptions the
  source raises, named as `Failure` values.
- `real_arith.dfy`: three facts about real multiplication.
- `exchange_period.dfy`: the exchange-period formula as a total function,
  `Result<int>`, with its error paths.
- `grid_snapping.dfy`: `adapt_to_grid` on sequences of reals.
- `schedule.dfy`: the specification of the calls `step` and `deposit` make.
  Each collaborator call is an `Op` event. `IterationOps` is the event
  sequence of one pass of the loop of `step`. `RunOps` is that of `N`
  passes. `DepositOps` is that of one deposition.
- `iteration_facts.dfy`, `deposit_order.dfy`, `run_facts.dfy`: what those
  sequences guarantee. They cover how often each call occurs, which call
  precedes which, and how runs compose.
- `simulation.dfy`: the `Simulation` class and its methods, written as
  imperative Dafny.
  - Every collaborator call appends its event to a ghost `Journal`.
  - Each method is proved to append exactly the sequence given by the
    specification functions.
  - The state the simulation changes itself is modelled as fields: the
    counters, the `sorted` flags of the species, the injection counter of
    the moving window, and the bounds and points of every grid mode.

Python's `int()` truncates toward zero; `Trunc` models that. The loop
`for i_step in range(N)` runs `max(N, 0)` times. The test
`self.iteration % self.exchange_period == 0`:

- agrees with Dafny's Euclidean `%` on whether the remainder is zero, for
  every non-zero divisor;
- raises for a divisor of 0. That can happen only with a user-supplied
  period, and the model treats it as a failure of the first pass.

Four points of the code that the model follows literally:

- The period is computed with `int()` (fbpic/main.py:229), which truncates
  toward zero. For a negative quotient this differs from the floor, but
  the result then fails the `< 1` test (236) either way.
- The single-process periodic override (232-233) runs after the formula
  (225-229). A zero cell count, an empty box or a zero time step therefore
  still raises a division by zero in that configuration.
- The antenna loops of `step` (411-413, 426-427) are outside
  `if move_positions`: the antennas move whatever that flag says.
- `shift_galilean_boundaries` moves the array `z` of grid-point positions
  as well as `zmin` and `zmax` (533-535).

## Model

| member | source | states |
|---|---|---|
| ExchangePeriod.Trunc | fbpic/main.py:229 | `int()` of a float truncates toward zero: the result lies within one of its argument, on the side of zero |
| ExchangePeriod.CellsPerStep | fbpic/main.py:225 | `cells_per_step` times the cell size `(zmax - zmin) / Nz` is the distance `2 c dt`, and it is positive for a positive time step on a non-empty box |
| ExchangePeriod.ExchangePeriod | fbpic/main.py:220-242 | a user-supplied period is kept unchecked; a computed one is at least 1; the only failures are a division by zero (no cells, empty box, zero time step) and a guard region too small; one periodic process always gets 1 once the formula can be evaluated |
| ExchangePeriod.ComputedPeriodIsLargestSafe | fbpic/main.py:221-239 | outside the single periodic process, the computed period is the largest number of steps in which a particle moving at twice the speed of light crosses at most `n_guard - 3` cells; construction fails exactly when not even one step is safe |
| ExchangePeriod.WorkedInstances | fbpic/main.py:225-233 | 64 cells over 20 microns with 20 guard cells and `dt = 1e-16` give a period of 88; one periodic process whose formula gives -5 still gets 1 |
| GridSnapping.SeqMinMax | fbpic/main.py:643-644 | `x.min()` and `x.max()` are elements of `x` and bound all of its elements |
| GridSnapping.Inside | fbpic/main.py:659 | the masked selection `x[(x > lo) & (x < hi)]` keeps at most the points of `x`; `InsideSelects` states which |
| GridSnapping.InsideSelects | fbpic/main.py:659 | the boolean mask keeps exactly the grid points strictly between the bounds, and keeps increasing points increasing |
| GridSnapping.Clamp | fbpic/main.py:647-656 | each bound is moved to its admissible limit only when it lies beyond it, and is never beyond that limit afterwards |
| GridSnapping.AdaptToGrid | fbpic/main.py:643-645 | a grid without points fails in `x.min()`, a grid of one point fails in `x[1]`, and every grid of two or more points gives a result |
| GridSnapping.AdaptToGridLoadsInsidePoints | fbpic/main.py:658-667 | the count is `p_nx` per grid point inside the clamped interval; a positive count puts the bounds half a cell outside the first and the last of those points; any other count returns the clamped bounds |
| GridSnapping.AdaptToGridStaysInBox | fbpic/main.py:647-667 | the loading region never starts more than half a cell below the first grid point; on an increasing grid with `ncells_empty >= 0` it never ends more than half a cell above the last one; on an evenly spaced grid it never ends above `xmax + (0.5 - ncells_empty) dx`, which keeps the top `ncells_empty` cells free |
| GridSnapping.AdaptToGridKeepsEmptyCells | fbpic/main.py:650-665 | on an evenly spaced grid the snapped upper bound stays at or below `xmax + (0.5 - ncells_empty) dx` |
| GridSnapping.UnevenGridReachesEmptyCells | fbpic/main.py:645-665 | on the uneven grid 0, 1, 1.4, 2 with one empty cell the upper limit is 1.5 but the snapped upper bound is 1.9, because the half cell is read off the first two points |
| GridSnapping.AdaptToGridLinearInDensity | fbpic/main.py:659-667 | scaling `p_nx` by `k` scales the count by `k`; a positive `k` leaves the bounds unchanged |
| GridSnapping.AdaptToGridIdempotent | fbpic/main.py:612-667 | on an evenly spaced grid, applying `adapt_to_grid` to its own output returns the same bounds and count |
| Schedule.ParseDepositTarget | fbpic/main.py:484-511 | the dispatch of `deposit` only ever selects one of the three deposition targets |
| Schedule.DepositTargetRoundTrip | fbpic/main.py:484-511 | the dispatch accepts exactly `'rho_prev'`, `'rho_next'` and `'J'`, and each of these names selects the target that carries it |
| Schedule.DepositOps | fbpic/main.py:484-516 | a deposition makes four calls, plus one per species, one per antenna, and one more when currents are filtered |
| Schedule.Exchanges | fbpic/main.py:366 | the exchange test `iteration % exchange_period == 0 or i_step == 0`; `ExchangeTestAsInPython` ties it to Python's `%` |
| Schedule.PyMod | fbpic/main.py:366 | Python's `%` on integers: the remainder has the sign of the divisor, is smaller than it in magnitude, and differs from the dividend by a multiple of it |
| Schedule.ExchangeTestAsInPython | fbpic/main.py:366 | the exchange test holds exactly when Python's `iteration % exchange_period` is zero or the pass is the first, for either sign of the period |
| Schedule.IterationOps | fbpic/main.py:336-453 | the calls of one pass of the loop of `step`, in source order; the `IterationFacts` lemmas state what they guarantee |
| Schedule.TimeAfter | fbpic/main.py:452 | the time after `i` increments `self.time += self.dt`; `TimeAfterIsLinear` states its value |
| Schedule.RunOps | fbpic/main.py:334-453 | the calls of `N` passes, each with its counters and with the exchange forced on the first; the `RunFacts` lemmas state what they guarantee |
| DepositOrder.DepositEnds | fbpic/main.py:484-516 | a deposition starts by erasing its accumulator and ends with the spectral transform of its target, or with its filter; it filters once when `filter_currents` is set and never otherwise |
| DepositOrder.DepositTransformsOnce | fbpic/main.py:514 | a deposition transforms its own target to spectral space exactly once, and no other field |
| DepositOrder.DepositReduction | fbpic/main.py:493-514 | division by the cell volume precedes the guard-cell exchange, which precedes the spectral transform |
| DepositOrder.DepositEachSpeciesOnce | fbpic/main.py:487-502 | every species deposits exactly once per deposition |
| DepositOrder.SpeciesDepositBetween | fbpic/main.py:485-507 | every species deposits after the accumulator is erased and before the division by the cell volume |
| DepositOrder.SpeciesBeforeAntennas | fbpic/main.py:487-505 | every species deposits before every antenna |
| DepositOrder.ChargeTargetsShareAccumulation | fbpic/main.py:484-516 | `rho_prev` and `rho_next` make the same calls, event for event, up to the guard exchange of `rho` (erase `rho`, the species, the antennas, divide, exchange); they differ only in the field transformed and filtered afterwards |
| DepositOrder.CurrentLeavesChargeAlone | fbpic/main.py:497-509 | depositing `J` never erases `rho` and never divides it by the cell volume |
| DepositOrder.ChargeLeavesCurrentAlone | fbpic/main.py:484-495 | depositing either charge never erases `J` and never divides it by the cell volume |
| IterationFacts.MigrationOnlyInExchangeBlock | fbpic/main.py:366-378 | particle exchanges and injection resets occur in a pass only inside the block guarded by the exchange test |
| IterationFacts.ExchangeExactlyWhenDue | fbpic/main.py:366-374 | each species exchanges its particles exactly once, at the current time, when `iteration % exchange_period == 0 or i_step == 0`, and never otherwise |
| IterationFacts.ResetExactlyWhenDue | fbpic/main.py:366-378 | `nz_inject` is reset exactly once when the exchange test holds and a moving window is attached, and never otherwise |
| IterationFacts.GalileanShiftsPerIteration | fbpic/main.py:415-430 | a pass shifts the Galilean boundaries twice when the frame is on, and never otherwise |
| IterationFacts.FieldsPushedOnce | fbpic/main.py:444 | a pass pushes the fields exactly once, with the `use_true_rho` it was given |
| IterationFacts.TransformsOnlyInTransformBlocks | fbpic/main.py:396-442 | transforms to spectral space occur only in the three depositions and the field push |
| IterationFacts.EachFieldTransformedOnce | fbpic/main.py:396-442 | a pass transforms `rho_prev`, `J`, `rho_next`, E and B to spectral space exactly once each, and no other field |
| IterationFacts.GatheredOnce | fbpic/main.py:383-384 | every species gathers the fields exactly once per pass |
| IterationFacts.MomentaPushedOnce | fbpic/main.py:404-406 | every species has its momenta pushed once per pass when `move_momenta` is set, and never otherwise |
| IterationFacts.PositionsHalfPushedTwice | fbpic/main.py:407-424 | every species is half-pushed twice per pass when `move_positions` is set, and never otherwise |
| IterationFacts.ChargeBeforeCurrent | fbpic/main.py:396-419 | `rho_prev` is transformed before `J` |
| IterationFacts.CurrentBeforeNextCharge | fbpic/main.py:419-433 | `J` is transformed before `rho_next` |
| IterationFacts.NextChargeBeforeFieldPush | fbpic/main.py:433-444 | `rho_next` is transformed before the field push that uses it |
| IterationFacts.WindowMovesBeforeExchange | fbpic/main.py:354-359 | with a moving window, the grids move before the guard cells of E and B are exchanged |
| IterationFacts.HalfPushBeforeCurrent | fbpic/main.py:407-419 | when positions move, each species is half-pushed before the current is transformed |
| IterationFacts.HalfPushAfterCurrent | fbpic/main.py:419-424 | when positions move, each species is half-pushed again after the current is transformed |
| IterationFacts.ExchangeBeforeGather | fbpic/main.py:366-384 | on an exchange pass, each species exchanges its particles before it gathers the fields |
| IterationFacts.NoDiagnosticsInBody | fbpic/main.py:344-449 | nothing after the diagnostics loop writes a diagnostic |
| IterationFacts.DiagnosticsLead | fbpic/main.py:344-348 | a pass opens with one write per diagnostic, in list order and with the current iteration number, and writes none afterwards |
| RunFacts.RunSnoc | fbpic/main.py:334-453 | the calls of `N + 1` passes are those of `N` passes followed by pass `N`, run with the counters advanced `N` times |
| RunFacts.RunCountUniform | fbpic/main.py:334-453 | a call made `c` times by every pass, whatever its counters, is made `N * c` times by `N` passes |
| RunFacts.FieldPushesPerRun | fbpic/main.py:334-444 | `step(N)` pushes the fields `N` times |
| RunFacts.GalileanShiftsPerRun | fbpic/main.py:334-430 | `step(N)` shifts the Galilean boundaries `2 N` times when the frame is on, and never otherwise |
| RunFacts.ResetsPerRun | fbpic/main.py:334-378 | with a moving window, `step(N)` resets `nz_inject` once per pass whose exchange test holds |
| RunFacts.ExchangeIterationsCount | fbpic/main.py:366 | with a positive period, the exchanging passes are those whose iteration number is a multiple of the period, plus the first pass when its number is not a multiple |
| RunFacts.ResetsWithPeriodOne | fbpic/main.py:232-233 | one periodic process with a moving window resets `nz_inject` in every pass |
| RunFacts.TimeAfterAdd | fbpic/main.py:452 | advancing the time `a` steps, then `b` steps, is advancing it `a + b` steps |
| RunFacts.TimeAfterIsLinear | fbpic/main.py:451-453 | after `N` passes of `self.time += self.dt` the time has grown by exactly `N * dt` |
| RunFacts.IterationsSeam | fbpic/main.py:334-366 | the passes of `step(a + b)` from the `a`-th on are those of a separate `step(b)`, except that the first of them forces the exchange only in the separate call |
| RunFacts.IterationsPrefix | fbpic/main.py:334-453 | the first `a` passes of `step(a + b)` are those of `step(a)` |
| RunFacts.RunSplitsAt | fbpic/main.py:334-453 | the calls of `step(a + b)` are those of `step(a)` followed by those of the remaining passes |
| RunFacts.SplitRun | fbpic/main.py:334-453 | `step(a)` then `step(b)` make the same calls as `step(a + b)` if and only if one of them is empty, the pass at the seam exchanges anyway, or the exchange block is empty (no species and no moving window) |
| PicSimulation.Simulation.constructor | fbpic/main.py:277-290 | the counters start at zero and the lists of diagnostics, external fields and antennas start empty; the simulation starts without a moving window, as a new communicator has none |
| PicSimulation.Simulation.Create | fbpic/main.py:197-290 | construction fails exactly when the exchange-period formula fails, with its error; otherwise it stores that period, keeps the Galilean frame on only with a comoving velocity, and starts the counters and lists empty |
| PicSimulation.Simulation.SetMovingWindow | fbpic/main.py:537-572 | attaches a new window with the given velocity, the exchange period, the time step, `p_nz` and the current time; the counters and lists are unchanged |
| PicSimulation.Simulation.MoveWindowGrids | fbpic/main.py:354-356 | `move_grids` is recorded with the time step and the current time, and `nz_inject` does not decrease |
| PicSimulation.Simulation.EachSpeciesCall | fbpic/main.py:373-374 | a loop over the species makes its call on each species once, in list order |
| PicSimulation.Simulation.EachAntennaCall | fbpic/main.py:426-427 | a loop over the antennas makes its call on each antenna once, in list order |
| PicSimulation.Simulation.Accumulate | fbpic/main.py:484-509 | erase, deposit every species, deposit every antenna, divide by the volume, exchange the guard cells, all on the accumulator |
| PicSimulation.Simulation.Deposit | fbpic/main.py:466-516 | an unknown field name fails before any call, and leaves the species untouched; a known one makes exactly the calls of `DepositOps` and leaves the grids unchanged |
| PicSimulation.Simulation.DepositInto | fbpic/main.py:484-516 | the calls of a deposition into a known target are those of `DepositOps`, including the filter exactly when `filter_currents` is set |
| PicSimulation.Simulation.ShiftGalileanBoundaries | fbpic/main.py:518-535 | every mode's `zmin`, `zmax` and points move by `v_comoving * 0.5 * dt`; without a comoving velocity it fails and nothing moves |
| PicSimulation.Simulation.RunDiagnostics | fbpic/main.py:344-348 | one write per diagnostic, in list order, with the current iteration |
| PicSimulation.Simulation.PrepareExchanges | fbpic/main.py:354-359 | the grids move when a window is attached and only then, followed by the exchange of E and B; `nz_inject` does not decrease |
| PicSimulation.Simulation.ExchangeIfDue | fbpic/main.py:366-378 | when the exchange test holds, every species is exchanged and `nz_inject` is 0 afterwards; otherwise no call is made and `nz_inject` keeps its value |
| PicSimulation.Simulation.ExchangeAllParticles | fbpic/main.py:373-378 | every species is exchanged at the current time, and with a moving window `nz_inject` is 0 afterwards |
| PicSimulation.Simulation.ApplyExternalFields | fbpic/main.py:386-387 | each external field is applied once, in list order, at the current time |
| PicSimulation.Simulation.ClearSortedFlags | fbpic/main.py:391-392 | afterwards no species is marked sorted |
| PicSimulation.Simulation.GatherFields | fbpic/main.py:383-396 | gathering, external fields, clearing `sorted` and `deposit('rho_prev')`, in that order |
| PicSimulation.Simulation.AdvanceAntennas | fbpic/main.py:411-413 | each antenna updates its velocity at `time + 0.5 dt` and then half-pushes, antenna by antenna |
| PicSimulation.Simulation.HalfPushParticles | fbpic/main.py:400-413 | ionisation, then the momentum push if enabled, then the position push if enabled, then the antennas |
| PicSimulation.Simulation.ShiftIfGalilean | fbpic/main.py:415-416 | with the Galilean frame on, the grids move by half a comoving step; otherwise they do not move |
| PicSimulation.Simulation.PushToHalfStep | fbpic/main.py:400-416 | the first half push, after which the grids have moved by one Galilean shift |
| PicSimulation.Simulation.FullPushParticles | fbpic/main.py:422-427 | the second position push if enabled, then the antenna push |
| PicSimulation.Simulation.PushToFullStep | fbpic/main.py:422-430 | the second half push, after which the grids have moved by one more Galilean shift |
| PicSimulation.Simulation.ChargeAndCorrect | fbpic/main.py:433-436 | `deposit('rho_next')`, then the current correction exactly when it is asked for |
| PicSimulation.Simulation.AdvanceFields | fbpic/main.py:439-449 | damping, transforms of E and B, the field push, the divergence cleaning exactly when asked for, and the transforms back |
| PicSimulation.Simulation.PicCycle | fbpic/main.py:383-449 | the PIC loop from the gathering to the field push; the grids move only by the two Galilean shifts |
| PicSimulation.Simulation.GatherAndHalfPush | fbpic/main.py:383-416 | the gathering block, then the first half push; the grids move by one Galilean shift |
| PicSimulation.Simulation.FirstHalfCycle | fbpic/main.py:383-419 | the gathering, the first half push and `deposit('J')`, in that order; the grids move by one Galilean shift |
| PicSimulation.Simulation.CorrectAndAdvance | fbpic/main.py:433-449 | `deposit('rho_next')` with the optional current correction, then the field push; the grids do not move |
| PicSimulation.Simulation.SecondHalfCycle | fbpic/main.py:422-449 | the second half push, `deposit('rho_next')` with the optional correction, and the field push; the grids move by one Galilean shift |
| PicSimulation.Simulation.OpenIteration | fbpic/main.py:344-359 | the diagnostics, then the window move and the exchange of E and B; `nz_inject` does not decrease |
| PicSimulation.Simulation.ExchangeAndCycle | fbpic/main.py:366-449 | the particle exchange when due, then the PIC loop; `nz_inject` is 0 after an exchange and otherwise unchanged, since the PIC loop does not touch the window |
| PicSimulation.Simulation.FinishIteration | fbpic/main.py:366-453 | the rest of a pass with a non-zero period: the exchange when its test holds, the PIC loop, one more time step and one more iteration; `nz_inject` is 0 after an exchanging pass and unchanged otherwise |
| PicSimulation.Simulation.AdvanceCounters | fbpic/main.py:452-453 | the time advances by `dt` and the iteration by one; nothing else changes |
| PicSimulation.Simulation.Iterate | fbpic/main.py:336-453 | one pass makes exactly the calls of `IterationOps` and advances the counters; with a zero period it fails after the diagnostics, the window move and the exchange of E and B, before any particle is touched; with a window, `nz_inject` is 0 after an exchanging pass and does not decrease otherwise; without one, the grids move by the drift of one pass, `StepDrift` |
| PicSimulation.Simulation.RunIterations | fbpic/main.py:334-453 | `N` passes make the calls of `RunOps` and advance the counters `max(N, 0)` times; with a zero period the first pass fails |
| PicSimulation.Simulation.RunPasses | fbpic/main.py:334-453 | with a non-zero period, the loop over `range(N)` makes exactly the calls of `RunOps` for `max(N, 0)` passes, advances `iteration` by that many and `time` by that many steps, and without a window moves the grids by that many pass drifts |
| PicSimulation.Simulation.RunPass | fbpic/main.py:334-453 | pass `i` extends the calls of the first `i` passes to those of the first `i + 1` and advances the counters once |
| PicSimulation.Passes | fbpic/main.py:334 | the number of passes of `range(N)`: `N` when it is positive and none otherwise |
| PicSimulation.Simulation.Step | fbpic/main.py:324-457 | the data is staged in once before the loop and out once after it when CUDA is used, the loop makes the calls of `RunOps`, and without a moving window the grids end shifted by the Galilean drift of all passes; with a zero period the call fails in its first pass without staging out |
| PicSimulation.Simulation.RunDrift | fbpic/main.py:334-430 | over `N` passes the grids move by `N * v_comoving * dt` in the Galilean frame, and not at all without it |
| PicSimulation.DriftedIsShifted | fbpic/main.py:530-535 | `N` passes of two shifts by `h` move the grids by `2 N h` |
| PicSimulation.ShiftedAdd | fbpic/main.py:530-535 | two shifts of the grids add up to one |
| PicSimulation.ShiftMode | fbpic/main.py:533-535 | one mode's `zmin`, `zmax` and every grid point move by the same distance |

## Left out

- The progress bar, the timing and the final print of `step` (fbpic/main.py:340-341, 459-464, 574-610) are output only and are not modelled. The `show_progress` flag is not modelled either.
- `send_data_to_gpu` and `receive_data_from_gpu` are the events `StageIn` and `StageOut`. What they copy is not modelled.
- The check for `cuda_installed` (fbpic/main.py:192-195) depends on the machine. `useCuda` is the flag after that check.
- The `BoostConverter` conversion and `divide_into_domain` (fbpic/main.py:203-218) are calls into other modules. Their outputs are the inputs `Slab` and `dt` of `Create`.
- The construction of `Fields` and `Particles`, and the two `adapt_to_grid` calls of the constructor (fbpic/main.py:244-273), are not modelled in `Create`. The grid modes and species are given to it. `adapt_to_grid` itself is modelled.
- The collaborators are not modelled inside: `Fields`, `Particles`, `BoundaryCommunicator`, `MovingWindow`, the diagnostics, the external fields and the laser antennas. Each call to one of them is an event in the journal. It may change only the objects its `modifies` clause names.
- How `move_grids` moves the grids is not known to the model. For that reason the claims about grid positions in `Step` and `RunIterations` are made only without a moving window.
- The MPI exchanges are single events in the journal. Concurrency and the other processes are not modelled.
- Floating point: times, positions and the exchange-period formula use exact reals, so rounding is not modelled. `TimeAfter` adds `dt` one step at a time, as the source does.
- The loop of `shift_galilean_boundaries` runs over `range(self.fld.Nm)`. The model runs it over every grid mode in `interp`, so it assumes `Nm` equals the number of modes.
- PicSimulation.Simulation.constructor: lines 277-290 never set `self.comm.moving_win`, and the only assignment in this file is in `set_moving_window` (570). The model assumes that `BoundaryCommunicator`'s constructor starts it at `None`. That constructor is not part of this model.
- The default arguments of the source are not modelled: `step(N=1, correct_currents=True, correct_divE=False, use_true_rho=False, move_positions=True, move_momenta=True)` (292-294), `ncells_empty=0` (612) and `v=c` (537). The model takes every one of them explicitly, through `Step`'s `n` and `Flags`, `AdaptToGrid`'s `nEmpty` and `SetMovingWindow`'s `v`.
- PicSimulation.Simulation.MoveWindowGrids: `move_grids` belongs to `BoundaryCommunicator`, which is not part of this model. The clause that `nz_inject` does not decrease is taken from the comment at fbpic/main.py:376-377 (the count is incremented when `move_grids` is called); it is not derived from code. The same holds for the non-decrease that `PrepareExchanges`, `OpenIteration` and `Iterate` state for a pass without an exchange.
- PicSimulation.Simulation.SetMovingWindow: the momentum arguments `ux_m` to `uz_th` and `gamma_boost` are handed to `MovingWindow` and not modelled. Neither are the grids, communicator and species the window receives. The contract does not state the initial `nz_inject`, which `MovingWindow` sets.
- PicSimulation.Simulation.Deposit: the claim that the species are untouched is made only for an unknown name. With a known name, a species may change, because a deposition may sort its particles.
- PicSimulation.Simulation.ShiftGalileanBoundaries and the methods of `step` require `Valid()`: the grid modes are distinct objects with distinct position arrays, and the Galilean frame is on only with a comoving velocity. The source assumes the first fact without checking it. `Create` establishes `Valid()` once it knows the first fact, and fbpic/main.py:198-201 guarantee the second.
- GridSnapping.AdaptToGridIdempotent: idempotence is proved for evenly spaced grids only. On other grids the half cell `x[1] - x[0]` need not separate the points.
- The particles of a species are not modelled. Only its `sorted` flag is, because the simulation clears that flag itself.
