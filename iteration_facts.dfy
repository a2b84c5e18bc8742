/** What the sequence of calls of one PIC iteration guarantees
    (the loop body of `Simulation.step`, fbpic/main.py:336-453). */
module IterationFacts {
  import opened Schedule
  import opened DepositOrder

  // ---------------------------------------------------------------------
  // Occurrences, group by group

  lemma IterationCount(s: Setup, f: Flags, iteration: int, time: real, first: bool, x: Op)
    requires s.period != 0
    ensures Count(IterationOps(s, f, iteration, time, first), x)
            == Count(DiagOps(s.diags, iteration), x) + Count(Prelude(s, time), x)
               + Count(When(Exchanges(s.period, iteration, first), ParticleExchange(s, time)), x)
               + Count(Gathering(s, time), x) + Count(FirstHalfPush(s, f, time), x)
               + Count(DepositOps(J, s.nSpecies, s.antennas, s.filter), x)
               + Count(SecondHalfPush(s, f), x) + Count(Correction(s, f), x) + Count(FieldPush(f), x)
  {
    BodyCount(s, f, iteration, time, first, x);
    CountConcat(DiagOps(s.diags, iteration), IterationBody(s, f, iteration, time, first), x);
  }

  lemma BodyCount(s: Setup, f: Flags, iteration: int, time: real, first: bool, x: Op)
    requires s.period != 0
    ensures Count(IterationBody(s, f, iteration, time, first), x)
            == Count(Prelude(s, time), x)
               + Count(When(Exchanges(s.period, iteration, first), ParticleExchange(s, time)), x)
               + Count(Gathering(s, time), x) + Count(FirstHalfPush(s, f, time), x)
               + Count(DepositOps(J, s.nSpecies, s.antennas, s.filter), x)
               + Count(SecondHalfPush(s, f), x) + Count(Correction(s, f), x) + Count(FieldPush(f), x)
  {
    var g1 := Prelude(s, time);
    var g2 := When(Exchanges(s.period, iteration, first), ParticleExchange(s, time));
    var g3 := Gathering(s, time);
    var g4 := FirstHalfPush(s, f, time);
    var g5 := DepositOps(J, s.nSpecies, s.antennas, s.filter);
    var g6 := SecondHalfPush(s, f);
    var g7 := Correction(s, f);
    CountConcat(g1, g2, x);
    CountConcat(g1 + g2, g3, x);
    CountConcat(g1 + g2 + g3, g4, x);
    CountConcat(g1 + g2 + g3 + g4, g5, x);
    CountConcat(g1 + g2 + g3 + g4 + g5, g6, x);
    CountConcat(g1 + g2 + g3 + g4 + g5 + g6, g7, x);
    CountConcat(g1 + g2 + g3 + g4 + g5 + g6 + g7, FieldPush(f), x);
  }

  lemma ParticleExchangeCount(s: Setup, time: real, x: Op)
    ensures Count(ParticleExchange(s, time), x)
            == Count(EachSpecies(s.nSpecies, ExchangeParticles(time)), x)
               + Count(When(s.window, [ResetInjection]), x)
  {
    CountConcat(EachSpecies(s.nSpecies, ExchangeParticles(time)), When(s.window, [ResetInjection]), x);
  }

  lemma GatheringCount(s: Setup, time: real, x: Op)
    ensures Count(Gathering(s, time), x)
            == Count(EachSpecies(s.nSpecies, Gather), x) + Count(ExternalOps(s.externals, time), x)
               + Count(EachSpecies(s.nSpecies, ClearSorted), x)
               + Count(DepositOps(RhoPrev, s.nSpecies, s.antennas, s.filter), x)
  {
    var a := EachSpecies(s.nSpecies, Gather);
    var b := ExternalOps(s.externals, time);
    var c := EachSpecies(s.nSpecies, ClearSorted);
    CountConcat(a, b, x);
    CountConcat(a + b, c, x);
    CountConcat(a + b + c, DepositOps(RhoPrev, s.nSpecies, s.antennas, s.filter), x);
  }

  lemma FirstHalfPushCount(s: Setup, f: Flags, time: real, x: Op)
    ensures var n := s.nSpecies;
            Count(FirstHalfPush(s, f, time), x)
            == Count(EachSpecies(n, HandleIonization), x)
               + Count(When(f.moveMomenta, EachSpecies(n, PushP)), x)
               + Count(When(f.movePositions, EachSpecies(n, HalfPushX)), x)
               + Count(AntennaAdvance(s.antennas, time + 0.5 * s.dt, s.dt), x)
               + Count(GalileanShift(s), x)
  {
    var n := s.nSpecies;
    var a := EachSpecies(n, HandleIonization);
    var b := When(f.moveMomenta, EachSpecies(n, PushP));
    var c := When(f.movePositions, EachSpecies(n, HalfPushX));
    var d := AntennaAdvance(s.antennas, time + 0.5 * s.dt, s.dt);
    CountConcat(a, b, x);
    CountConcat(a + b, c, x);
    CountConcat(a + b + c, d, x);
    CountConcat(a + b + c + d, GalileanShift(s), x);
  }

  lemma SecondHalfPushCount(s: Setup, f: Flags, x: Op)
    ensures Count(SecondHalfPush(s, f), x)
            == Count(When(f.movePositions, EachSpecies(s.nSpecies, HalfPushX)), x)
               + Count(EachAntenna(s.antennas, AntennaHalfPushX(s.dt)), x)
               + Count(GalileanShift(s), x)
  {
    var a := When(f.movePositions, EachSpecies(s.nSpecies, HalfPushX));
    var b := EachAntenna(s.antennas, AntennaHalfPushX(s.dt));
    CountConcat(a, b, x);
    CountConcat(a + b, GalileanShift(s), x);
  }

  lemma FieldPushCount(f: Flags, x: Op)
    ensures Count(FieldPush(f), x)
            == Count([DampGuardEB, Interp2Spect(E), Interp2Spect(B), PushFields(f.useTrueRho)], x)
               + Count(When(f.correctDivE, [CorrectDivE]), x)
               + Count([Spect2Interp(E), Spect2Interp(B)], x)
  {
    var a := [DampGuardEB, Interp2Spect(E), Interp2Spect(B), PushFields(f.useTrueRho)];
    CountConcat(a, When(f.correctDivE, [CorrectDivE]), x);
    CountConcat(a + When(f.correctDivE, [CorrectDivE]), [Spect2Interp(E), Spect2Interp(B)], x);
  }

  lemma CorrectionCount(s: Setup, f: Flags, x: Op)
    ensures Count(Correction(s, f), x)
            == Count(DepositOps(RhoNext, s.nSpecies, s.antennas, s.filter), x)
               + Count(When(f.correctCurrents, [CorrectCurrents]), x)
  {
    CountConcat(DepositOps(RhoNext, s.nSpecies, s.antennas, s.filter),
                When(f.correctCurrents, [CorrectCurrents]), x);
  }

  // ---------------------------------------------------------------------
  // The kinds of event each block can hold; an event of another kind does
  // not occur in it

  /** The diagnostics only write. */
  predicate DiagEvent(x: Op)
  {
    x.DiagWrite?
  }

  /** The prelude moves the grids and exchanges E and B. */
  predicate PreludeEvent(x: Op)
  {
    x.MoveGrids? || x == ExchangeFields(EB)
  }

  /** The exchange block exchanges particles and resets the injection counter. */
  predicate MigrationEvent(x: Op)
  {
    x == ResetInjection || (x.OnSpecies? && x.call.ExchangeParticles?)
  }

  /** The gathering block gathers, applies external fields, clears `sorted` and deposits `rho_prev`. */
  predicate GatheringEvent(x: Op)
  {
    || (x.OnSpecies? && (x.call == Gather || x.call == ClearSorted))
    || x.ApplyExternal? || DepositEvent(x, RhoPrev)
  }

  /** The first half push ionises, pushes, advances the antennas and shifts the Galilean frame. */
  predicate FirstHalfPushEvent(x: Op)
  {
    || (x.OnSpecies? && (x.call == HandleIonization || x.call == PushP || x.call == HalfPushX))
    || (x.OnAntenna? && (x.acall.UpdateV? || x.acall.AntennaHalfPushX?))
    || x == ShiftGalilean
  }

  /** The current deposition. */
  predicate CurrentEvent(x: Op)
  {
    DepositEvent(x, J)
  }

  /** The second half push moves species and antennas and shifts the Galilean frame. */
  predicate SecondHalfPushEvent(x: Op)
  {
    || (x.OnSpecies? && x.call == HalfPushX)
    || (x.OnAntenna? && x.acall.AntennaHalfPushX?)
    || x == ShiftGalilean
  }

  /** The deposition of `rho_next` and the current correction. */
  predicate CorrectionEvent(x: Op)
  {
    DepositEvent(x, RhoNext) || x == CorrectCurrents
  }

  /** The field push and the transforms around it. */
  predicate FieldPushEvent(x: Op, f: Flags)
  {
    || x == DampGuardEB || x == CorrectDivE || x == PushFields(f.useTrueRho)
    || x == Interp2Spect(E) || x == Interp2Spect(B)
    || x == Spect2Interp(E) || x == Spect2Interp(B)
  }

  /** Each block holds only events of its own kind. */
  lemma PreludeKinds(s: Setup, time: real)
    ensures forall i :: 0 <= i < |Prelude(s, time)| ==> PreludeEvent(Prelude(s, time)[i])
  {
  }

  lemma ParticleExchangeKinds(s: Setup, time: real)
    ensures forall i :: 0 <= i < |ParticleExchange(s, time)| ==>
              MigrationEvent(ParticleExchange(s, time)[i])
  {
    EachSpeciesKinds(s.nSpecies, ExchangeParticles(time));
  }

  lemma GatheringKinds(s: Setup, time: real)
    ensures forall i :: 0 <= i < |Gathering(s, time)| ==> GatheringEvent(Gathering(s, time)[i])
  {
    EachSpeciesKinds(s.nSpecies, Gather);
    ExternalKinds(s.externals, time);
    EachSpeciesKinds(s.nSpecies, ClearSorted);
    DepositKinds(RhoPrev, s.nSpecies, s.antennas, s.filter);
  }

  lemma FirstHalfPushKinds(s: Setup, f: Flags, time: real)
    ensures forall i :: 0 <= i < |FirstHalfPush(s, f, time)| ==>
              FirstHalfPushEvent(FirstHalfPush(s, f, time)[i])
  {
    EachSpeciesKinds(s.nSpecies, HandleIonization);
    EachSpeciesKinds(s.nSpecies, PushP);
    EachSpeciesKinds(s.nSpecies, HalfPushX);
    AntennaAdvanceKinds(s.antennas, time + 0.5 * s.dt, s.dt);
  }

  lemma SecondHalfPushKinds(s: Setup, f: Flags)
    ensures forall i :: 0 <= i < |SecondHalfPush(s, f)| ==>
              SecondHalfPushEvent(SecondHalfPush(s, f)[i])
  {
    EachSpeciesKinds(s.nSpecies, HalfPushX);
    EachAntennaKinds(s.antennas, AntennaHalfPushX(s.dt));
  }

  lemma CorrectionKinds(s: Setup, f: Flags)
    ensures forall i :: 0 <= i < |Correction(s, f)| ==> CorrectionEvent(Correction(s, f)[i])
  {
    DepositKinds(RhoNext, s.nSpecies, s.antennas, s.filter);
  }

  lemma FieldPushKinds(f: Flags)
    ensures forall i :: 0 <= i < |FieldPush(f)| ==> FieldPushEvent(FieldPush(f)[i], f)
  {
  }

  lemma DiagAbsent(s: Setup, iteration: int, x: Op)
    requires !DiagEvent(x)
    ensures Count(DiagOps(s.diags, iteration), x) == 0
  {
    if Count(DiagOps(s.diags, iteration), x) > 0 {
      var i := CountWitness(DiagOps(s.diags, iteration), x);
      DiagOpsAt(s.diags, iteration);
    }
  }

  lemma PreludeAbsent(s: Setup, time: real, x: Op)
    requires !PreludeEvent(x)
    ensures Count(Prelude(s, time), x) == 0
  {
    if Count(Prelude(s, time), x) > 0 {
      var i := CountWitness(Prelude(s, time), x);
      PreludeKinds(s, time);
    }
  }

  lemma MigrationAbsent(s: Setup, iteration: int, time: real, first: bool, x: Op)
    requires s.period != 0
    requires !MigrationEvent(x)
    ensures Count(When(Exchanges(s.period, iteration, first), ParticleExchange(s, time)), x) == 0
  {
    if Count(When(Exchanges(s.period, iteration, first), ParticleExchange(s, time)), x) > 0 {
      var i := CountWitness(When(Exchanges(s.period, iteration, first), ParticleExchange(s, time)), x);
      ParticleExchangeKinds(s, time);
    }
  }

  lemma GatheringAbsent(s: Setup, time: real, x: Op)
    requires !GatheringEvent(x)
    ensures Count(Gathering(s, time), x) == 0
  {
    if Count(Gathering(s, time), x) > 0 {
      var i := CountWitness(Gathering(s, time), x);
      GatheringKinds(s, time);
    }
  }

  lemma FirstHalfPushAbsent(s: Setup, f: Flags, time: real, x: Op)
    requires !FirstHalfPushEvent(x)
    ensures Count(FirstHalfPush(s, f, time), x) == 0
  {
    if Count(FirstHalfPush(s, f, time), x) > 0 {
      var i := CountWitness(FirstHalfPush(s, f, time), x);
      FirstHalfPushKinds(s, f, time);
    }
  }

  lemma CurrentAbsent(s: Setup, x: Op)
    requires !CurrentEvent(x)
    ensures Count(DepositOps(J, s.nSpecies, s.antennas, s.filter), x) == 0
  {
    if Count(DepositOps(J, s.nSpecies, s.antennas, s.filter), x) > 0 {
      var i := CountWitness(DepositOps(J, s.nSpecies, s.antennas, s.filter), x);
      DepositKinds(J, s.nSpecies, s.antennas, s.filter);
    }
  }

  lemma SecondHalfPushAbsent(s: Setup, f: Flags, x: Op)
    requires !SecondHalfPushEvent(x)
    ensures Count(SecondHalfPush(s, f), x) == 0
  {
    if Count(SecondHalfPush(s, f), x) > 0 {
      var i := CountWitness(SecondHalfPush(s, f), x);
      SecondHalfPushKinds(s, f);
    }
  }

  lemma CorrectionAbsent(s: Setup, f: Flags, x: Op)
    requires !CorrectionEvent(x)
    ensures Count(Correction(s, f), x) == 0
  {
    if Count(Correction(s, f), x) > 0 {
      var i := CountWitness(Correction(s, f), x);
      CorrectionKinds(s, f);
    }
  }

  lemma FieldPushAbsent(f: Flags, x: Op)
    requires !FieldPushEvent(x, f)
    ensures Count(FieldPush(f), x) == 0
  {
    if Count(FieldPush(f), x) > 0 {
      var i := CountWitness(FieldPush(f), x);
      FieldPushKinds(f);
    }
  }

  /** Events that, by their kind, can only come from the exchange block. */
  lemma MigrationKind(f: Flags, x: Op)
    requires x == ResetInjection || (x.OnSpecies? && x.call.ExchangeParticles?)
    ensures && !DiagEvent(x) && !PreludeEvent(x) && !GatheringEvent(x) && !FirstHalfPushEvent(x)
            && !CurrentEvent(x) && !SecondHalfPushEvent(x) && !CorrectionEvent(x)
            && !FieldPushEvent(x, f)
  {
  }

  lemma PushFieldsKind(f: Flags, u: bool)
    ensures var x := PushFields(u);
            && !DiagEvent(x) && !PreludeEvent(x) && !MigrationEvent(x) && !GatheringEvent(x)
            && !FirstHalfPushEvent(x) && !CurrentEvent(x) && !SecondHalfPushEvent(x)
            && !CorrectionEvent(x)
  {
  }

  lemma ShiftKind(f: Flags)
    ensures var x := ShiftGalilean;
            && !DiagEvent(x) && !PreludeEvent(x) && !MigrationEvent(x) && !GatheringEvent(x)
            && !CurrentEvent(x) && !CorrectionEvent(x) && !FieldPushEvent(x, f)
  {
  }

  lemma TransformKind(k: FieldName)
    ensures var x := Interp2Spect(k);
            && !DiagEvent(x) && !PreludeEvent(x) && !MigrationEvent(x)
            && !FirstHalfPushEvent(x) && !SecondHalfPushEvent(x)
  {
  }

  lemma GatherKind(f: Flags, k: nat)
    ensures var x := OnSpecies(k, Gather);
            && !DiagEvent(x) && !PreludeEvent(x) && !MigrationEvent(x) && !FirstHalfPushEvent(x)
            && !CurrentEvent(x) && !SecondHalfPushEvent(x) && !CorrectionEvent(x)
            && !FieldPushEvent(x, f)
  {
  }

  lemma MomentumPushKind(f: Flags, k: nat)
    ensures var x := OnSpecies(k, PushP);
            && !DiagEvent(x) && !PreludeEvent(x) && !MigrationEvent(x) && !GatheringEvent(x)
            && !CurrentEvent(x) && !SecondHalfPushEvent(x) && !CorrectionEvent(x)
            && !FieldPushEvent(x, f)
  {
  }

  lemma PositionPushKind(f: Flags, k: nat)
    ensures var x := OnSpecies(k, HalfPushX);
            && !DiagEvent(x) && !PreludeEvent(x) && !MigrationEvent(x) && !GatheringEvent(x)
            && !CurrentEvent(x) && !CorrectionEvent(x) && !FieldPushEvent(x, f)
  {
  }

  // ---------------------------------------------------------------------
  // An event confined to some blocks occurs in the iteration as often as
  // in those blocks

  lemma OnlyInExchangeBlock(s: Setup, f: Flags, iteration: int, time: real, first: bool, x: Op)
    requires s.period != 0
    requires Count(DiagOps(s.diags, iteration), x) == 0 && Count(Prelude(s, time), x) == 0
    requires Count(Gathering(s, time), x) == 0
    requires Count(FirstHalfPush(s, f, time), x) == 0 && Count(SecondHalfPush(s, f), x) == 0
    requires Count(DepositOps(J, s.nSpecies, s.antennas, s.filter), x) == 0
    requires Count(Correction(s, f), x) == 0 && Count(FieldPush(f), x) == 0
    ensures Count(IterationOps(s, f, iteration, time, first), x)
            == Count(When(Exchanges(s.period, iteration, first), ParticleExchange(s, time)), x)
  {
    IterationCount(s, f, iteration, time, first, x);
  }

  lemma OnlyInGathering(s: Setup, f: Flags, iteration: int, time: real, first: bool, x: Op)
    requires s.period != 0
    requires Count(DiagOps(s.diags, iteration), x) == 0 && Count(Prelude(s, time), x) == 0
    requires Count(When(Exchanges(s.period, iteration, first), ParticleExchange(s, time)), x) == 0
    requires Count(FirstHalfPush(s, f, time), x) == 0 && Count(SecondHalfPush(s, f), x) == 0
    requires Count(DepositOps(J, s.nSpecies, s.antennas, s.filter), x) == 0
    requires Count(Correction(s, f), x) == 0 && Count(FieldPush(f), x) == 0
    ensures Count(IterationOps(s, f, iteration, time, first), x) == Count(Gathering(s, time), x)
  {
    IterationCount(s, f, iteration, time, first, x);
  }

  lemma OnlyInPushes(s: Setup, f: Flags, iteration: int, time: real, first: bool, x: Op)
    requires s.period != 0
    requires Count(DiagOps(s.diags, iteration), x) == 0 && Count(Prelude(s, time), x) == 0
    requires Count(When(Exchanges(s.period, iteration, first), ParticleExchange(s, time)), x) == 0
    requires Count(Gathering(s, time), x) == 0
    requires Count(DepositOps(J, s.nSpecies, s.antennas, s.filter), x) == 0
    requires Count(Correction(s, f), x) == 0 && Count(FieldPush(f), x) == 0
    ensures Count(IterationOps(s, f, iteration, time, first), x)
            == Count(FirstHalfPush(s, f, time), x) + Count(SecondHalfPush(s, f), x)
  {
    IterationCount(s, f, iteration, time, first, x);
  }

  lemma OnlyInFieldPush(s: Setup, f: Flags, iteration: int, time: real, first: bool, x: Op)
    requires s.period != 0
    requires Count(DiagOps(s.diags, iteration), x) == 0 && Count(Prelude(s, time), x) == 0
    requires Count(When(Exchanges(s.period, iteration, first), ParticleExchange(s, time)), x) == 0
    requires Count(Gathering(s, time), x) == 0
    requires Count(FirstHalfPush(s, f, time), x) == 0 && Count(SecondHalfPush(s, f), x) == 0
    requires Count(DepositOps(J, s.nSpecies, s.antennas, s.filter), x) == 0
    requires Count(Correction(s, f), x) == 0
    ensures Count(IterationOps(s, f, iteration, time, first), x) == Count(FieldPush(f), x)
  {
    IterationCount(s, f, iteration, time, first, x);
  }

  lemma OnlyInTransformBlocks(s: Setup, f: Flags, iteration: int, time: real, first: bool, x: Op)
    requires s.period != 0
    requires Count(DiagOps(s.diags, iteration), x) == 0 && Count(Prelude(s, time), x) == 0
    requires Count(When(Exchanges(s.period, iteration, first), ParticleExchange(s, time)), x) == 0
    requires Count(FirstHalfPush(s, f, time), x) == 0 && Count(SecondHalfPush(s, f), x) == 0
    ensures Count(IterationOps(s, f, iteration, time, first), x)
            == Count(Gathering(s, time), x) + Count(DepositOps(J, s.nSpecies, s.antennas, s.filter), x)
               + Count(Correction(s, f), x) + Count(FieldPush(f), x)
  {
    IterationCount(s, f, iteration, time, first, x);
  }

  // ---------------------------------------------------------------------
  // Occurrences of single events in single blocks

  /** The exchange block, present only when the exchange test holds, holds
      one exchange per species and, with a moving window, one reset. */
  lemma ExchangeBlockCount(s: Setup, iteration: int, time: real, first: bool, x: Op)
    requires s.period != 0
    ensures Count(When(Exchanges(s.period, iteration, first), ParticleExchange(s, time)), x)
            == if Exchanges(s.period, iteration, first)
               then Count(EachSpecies(s.nSpecies, ExchangeParticles(time)), x)
                    + (if s.window && x == ResetInjection then 1 else 0)
               else 0
  {
    ParticleExchangeCount(s, time, x);
    CountOne(ResetInjection, x);
  }

  lemma GalileanShiftCount(s: Setup, x: Op)
    ensures Count(GalileanShift(s), x) == if s.galilean && x == ShiftGalilean then 1 else 0
  {
    CountOne(ShiftGalilean, x);
  }

  /** Each half push shifts the Galilean frame once when it is on. */
  lemma FirstHalfPushShifts(s: Setup, f: Flags, time: real)
    ensures Count(FirstHalfPush(s, f, time), ShiftGalilean) == if s.galilean then 1 else 0
  {
    var x := ShiftGalilean;
    FirstHalfPushCount(s, f, time, x);
    EachSpeciesCount(s.nSpecies, HandleIonization, x);
    EachSpeciesCount(s.nSpecies, PushP, x);
    EachSpeciesCount(s.nSpecies, HalfPushX, x);
    AntennaAdvanceKinds(s.antennas, time + 0.5 * s.dt, s.dt);
    CountNone(AntennaAdvance(s.antennas, time + 0.5 * s.dt, s.dt), x);
    GalileanShiftCount(s, x);
  }

  lemma SecondHalfPushShifts(s: Setup, f: Flags)
    ensures Count(SecondHalfPush(s, f), ShiftGalilean) == if s.galilean then 1 else 0
  {
    var x := ShiftGalilean;
    SecondHalfPushCount(s, f, x);
    EachSpeciesCount(s.nSpecies, HalfPushX, x);
    EachAntennaKinds(s.antennas, AntennaHalfPushX(s.dt));
    CountNone(EachAntenna(s.antennas, AntennaHalfPushX(s.dt)), x);
    GalileanShiftCount(s, x);
  }

  /** In the first half push species `k` is ionised once, has its momenta
      pushed once when `move_momenta` is set and its positions half-pushed
      once when `move_positions` is set. */
  lemma FirstHalfPushSpecies(s: Setup, f: Flags, time: real, k: nat, c: SpeciesCall)
    ensures Count(FirstHalfPush(s, f, time), OnSpecies(k, c))
            == if k < s.nSpecies
               then (if c == HandleIonization then 1 else 0)
                    + (if c == PushP && f.moveMomenta then 1 else 0)
                    + (if c == HalfPushX && f.movePositions then 1 else 0)
               else 0
  {
    var x := OnSpecies(k, c);
    FirstHalfPushCount(s, f, time, x);
    EachSpeciesCount(s.nSpecies, HandleIonization, x);
    EachSpeciesCount(s.nSpecies, PushP, x);
    EachSpeciesCount(s.nSpecies, HalfPushX, x);
    AntennaAdvanceKinds(s.antennas, time + 0.5 * s.dt, s.dt);
    CountNone(AntennaAdvance(s.antennas, time + 0.5 * s.dt, s.dt), x);
    GalileanShiftCount(s, x);
  }

  /** In the second half push species `k` has its positions half-pushed
      once when `move_positions` is set, and nothing else done to it. */
  lemma SecondHalfPushSpecies(s: Setup, f: Flags, k: nat, c: SpeciesCall)
    ensures Count(SecondHalfPush(s, f), OnSpecies(k, c))
            == if k < s.nSpecies && c == HalfPushX && f.movePositions then 1 else 0
  {
    var x := OnSpecies(k, c);
    SecondHalfPushCount(s, f, x);
    EachSpeciesCount(s.nSpecies, HalfPushX, x);
    EachAntennaKinds(s.antennas, AntennaHalfPushX(s.dt));
    CountNone(EachAntenna(s.antennas, AntennaHalfPushX(s.dt)), x);
    GalileanShiftCount(s, x);
  }

  /** The gathering block gathers onto each species once. */
  lemma GatheringGathers(s: Setup, time: real, k: nat)
    ensures Count(Gathering(s, time), OnSpecies(k, Gather)) == if k < s.nSpecies then 1 else 0
  {
    var x := OnSpecies(k, Gather);
    GatheringCount(s, time, x);
    EachSpeciesCount(s.nSpecies, Gather, x);
    ExternalKinds(s.externals, time);
    CountNone(ExternalOps(s.externals, time), x);
    EachSpeciesCount(s.nSpecies, ClearSorted, x);
    DepositKinds(RhoPrev, s.nSpecies, s.antennas, s.filter);
    CountNone(DepositOps(RhoPrev, s.nSpecies, s.antennas, s.filter), x);
  }

  /** The gathering block transforms `rho_prev` once and no other field. */
  lemma GatheringTransforms(s: Setup, time: real, k: FieldName)
    ensures Count(Gathering(s, time), Interp2Spect(k)) == if k == RhoPrev then 1 else 0
  {
    var x := Interp2Spect(k);
    GatheringCount(s, time, x);
    EachSpeciesCount(s.nSpecies, Gather, x);
    ExternalKinds(s.externals, time);
    CountNone(ExternalOps(s.externals, time), x);
    EachSpeciesCount(s.nSpecies, ClearSorted, x);
    DepositTransformsOnce(RhoPrev, s.nSpecies, s.antennas, s.filter, k);
  }

  /** The correction block transforms `rho_next` once and no other field. */
  lemma CorrectionTransforms(s: Setup, f: Flags, k: FieldName)
    ensures Count(Correction(s, f), Interp2Spect(k)) == if k == RhoNext then 1 else 0
  {
    var x := Interp2Spect(k);
    CorrectionCount(s, f, x);
    DepositTransformsOnce(RhoNext, s.nSpecies, s.antennas, s.filter, k);
    CountNone(When(f.correctCurrents, [CorrectCurrents]), x);
  }

  /** The field push transforms E and B once each and no other field. */
  lemma FieldPushTransforms(f: Flags, k: FieldName)
    ensures Count(FieldPush(f), Interp2Spect(k)) == if k == E || k == B then 1 else 0
  {
    var x := Interp2Spect(k);
    FieldPushCount(f, x);
    CountFour(DampGuardEB, Interp2Spect(E), Interp2Spect(B), PushFields(f.useTrueRho), x);
    CountNone(When(f.correctDivE, [CorrectDivE]), x);
    CountNone([Spect2Interp(E), Spect2Interp(B)], x);
  }

  /** The field push calls the solver once, with `use_true_rho`. */
  lemma FieldPushSolves(f: Flags, u: bool)
    ensures Count(FieldPush(f), PushFields(u)) == if u == f.useTrueRho then 1 else 0
  {
    var x := PushFields(u);
    FieldPushCount(f, x);
    CountFour(DampGuardEB, Interp2Spect(E), Interp2Spect(B), PushFields(f.useTrueRho), x);
    CountNone(When(f.correctDivE, [CorrectDivE]), x);
    CountNone([Spect2Interp(E), Spect2Interp(B)], x);
  }

  // ---------------------------------------------------------------------
  // How often each event occurs in one iteration

  /** Particle exchanges and resets of the injection counter occur in an
      iteration as often as in its exchange block. */
  lemma MigrationOnlyInExchangeBlock(s: Setup, f: Flags, iteration: int, time: real, first: bool, x: Op)
    requires s.period != 0
    requires x == ResetInjection || (x.OnSpecies? && x.call.ExchangeParticles?)
    ensures Count(IterationOps(s, f, iteration, time, first), x)
            == Count(When(Exchanges(s.period, iteration, first), ParticleExchange(s, time)), x)
  {
    MigrationKind(f, x);
    DiagAbsent(s, iteration, x);
    PreludeAbsent(s, time, x);
    GatheringAbsent(s, time, x);
    FirstHalfPushAbsent(s, f, time, x);
    CurrentAbsent(s, x);
    SecondHalfPushAbsent(s, f, x);
    CorrectionAbsent(s, f, x);
    FieldPushAbsent(f, x);
    OnlyInExchangeBlock(s, f, iteration, time, first, x);
  }

  /** Species `k` exchanges its particles exactly once, at the iteration's
      time, when the exchange test holds, and not at all otherwise. */
  lemma ExchangeExactlyWhenDue(s: Setup, f: Flags, iteration: int, time: real, first: bool,
                               k: nat, t: real)
    requires s.period != 0 && k < s.nSpecies
    ensures Count(IterationOps(s, f, iteration, time, first), OnSpecies(k, ExchangeParticles(t)))
            == (if Exchanges(s.period, iteration, first) && t == time then 1 else 0)
  {
    var x := OnSpecies(k, ExchangeParticles(t));
    MigrationOnlyInExchangeBlock(s, f, iteration, time, first, x);
    ExchangeBlockCount(s, iteration, time, first, x);
    EachSpeciesCount(s.nSpecies, ExchangeParticles(time), x);
  }

  /** The injection counter is reset exactly once when the exchange test
      holds and a moving window is attached, and not at all otherwise. */
  lemma ResetExactlyWhenDue(s: Setup, f: Flags, iteration: int, time: real, first: bool)
    requires s.period != 0
    ensures Count(IterationOps(s, f, iteration, time, first), ResetInjection)
            == (if Exchanges(s.period, iteration, first) && s.window then 1 else 0)
  {
    var x := ResetInjection;
    MigrationOnlyInExchangeBlock(s, f, iteration, time, first, x);
    ExchangeBlockCount(s, iteration, time, first, x);
    EachSpeciesCount(s.nSpecies, ExchangeParticles(time), x);
  }

  /** With the Galilean frame on, the boundaries are shifted twice per
      iteration (once per half push of the positions); otherwise never. */
  lemma GalileanShiftsPerIteration(s: Setup, f: Flags, iteration: int, time: real, first: bool)
    requires s.period != 0
    ensures Count(IterationOps(s, f, iteration, time, first), ShiftGalilean)
            == if s.galilean then 2 else 0
  {
    var x := ShiftGalilean;
    ShiftKind(f);
    DiagAbsent(s, iteration, x);
    PreludeAbsent(s, time, x);
    MigrationAbsent(s, iteration, time, first, x);
    GatheringAbsent(s, time, x);
    CurrentAbsent(s, x);
    CorrectionAbsent(s, f, x);
    FieldPushAbsent(f, x);
    OnlyInPushes(s, f, iteration, time, first, x);
    FirstHalfPushShifts(s, f, time);
    SecondHalfPushShifts(s, f);
  }

  /** The field solver advances E and B exactly once per iteration, with
      the `use_true_rho` flag it was given. */
  lemma FieldsPushedOnce(s: Setup, f: Flags, iteration: int, time: real, first: bool, u: bool)
    requires s.period != 0
    ensures Count(IterationOps(s, f, iteration, time, first), PushFields(u))
            == if u == f.useTrueRho then 1 else 0
  {
    var x := PushFields(u);
    PushFieldsKind(f, u);
    DiagAbsent(s, iteration, x);
    PreludeAbsent(s, time, x);
    MigrationAbsent(s, iteration, time, first, x);
    GatheringAbsent(s, time, x);
    FirstHalfPushAbsent(s, f, time, x);
    CurrentAbsent(s, x);
    SecondHalfPushAbsent(s, f, x);
    CorrectionAbsent(s, f, x);
    OnlyInFieldPush(s, f, iteration, time, first, x);
    FieldPushSolves(f, u);
  }

  /** Transforms to spectral space occur only in the blocks that deposit
      or push the fields. */
  lemma TransformsOnlyInTransformBlocks(s: Setup, f: Flags, iteration: int, time: real, first: bool,
                                        k: FieldName)
    requires s.period != 0
    ensures Count(IterationOps(s, f, iteration, time, first), Interp2Spect(k))
            == Count(Gathering(s, time), Interp2Spect(k))
               + Count(DepositOps(J, s.nSpecies, s.antennas, s.filter), Interp2Spect(k))
               + Count(Correction(s, f), Interp2Spect(k)) + Count(FieldPush(f), Interp2Spect(k))
  {
    var x := Interp2Spect(k);
    TransformKind(k);
    DiagAbsent(s, iteration, x);
    PreludeAbsent(s, time, x);
    MigrationAbsent(s, iteration, time, first, x);
    FirstHalfPushAbsent(s, f, time, x);
    SecondHalfPushAbsent(s, f, x);
    OnlyInTransformBlocks(s, f, iteration, time, first, x);
  }

  /** Every iteration transforms `rho_prev`, `J`, `rho_next`, E and B to
      spectral space exactly once each, and no other field. */
  lemma EachFieldTransformedOnce(s: Setup, f: Flags, iteration: int, time: real, first: bool,
                                 k: FieldName)
    requires s.period != 0
    ensures Count(IterationOps(s, f, iteration, time, first), Interp2Spect(k))
            == if k == EB || k == Rho then 0 else 1
  {
    TransformsOnlyInTransformBlocks(s, f, iteration, time, first, k);
    TransformBlocksSum(s, f, time, k);
  }

  lemma TransformBlocksSum(s: Setup, f: Flags, time: real, k: FieldName)
    ensures Count(Gathering(s, time), Interp2Spect(k))
            + Count(DepositOps(J, s.nSpecies, s.antennas, s.filter), Interp2Spect(k))
            + Count(Correction(s, f), Interp2Spect(k)) + Count(FieldPush(f), Interp2Spect(k))
            == if k == EB || k == Rho then 0 else 1
  {
    GatheringTransforms(s, time, k);
    DepositTransformsOnce(J, s.nSpecies, s.antennas, s.filter, k);
    CorrectionTransforms(s, f, k);
    FieldPushTransforms(f, k);
  }

  /** Every species gathers the fields exactly once per iteration. */
  lemma GatheredOnce(s: Setup, f: Flags, iteration: int, time: real, first: bool, k: nat)
    requires s.period != 0
    ensures Count(IterationOps(s, f, iteration, time, first), OnSpecies(k, Gather))
            == if k < s.nSpecies then 1 else 0
  {
    var x := OnSpecies(k, Gather);
    GatherKind(f, k);
    DiagAbsent(s, iteration, x);
    PreludeAbsent(s, time, x);
    MigrationAbsent(s, iteration, time, first, x);
    FirstHalfPushAbsent(s, f, time, x);
    CurrentAbsent(s, x);
    SecondHalfPushAbsent(s, f, x);
    CorrectionAbsent(s, f, x);
    FieldPushAbsent(f, x);
    OnlyInGathering(s, f, iteration, time, first, x);
    GatheringGathers(s, time, k);
  }

  /** Every species has its momenta pushed once per iteration when
      `move_momenta` is set, and never otherwise. */
  lemma MomentaPushedOnce(s: Setup, f: Flags, iteration: int, time: real, first: bool, k: nat)
    requires s.period != 0
    ensures Count(IterationOps(s, f, iteration, time, first), OnSpecies(k, PushP))
            == if k < s.nSpecies && f.moveMomenta then 1 else 0
  {
    var x := OnSpecies(k, PushP);
    MomentumPushKind(f, k);
    DiagAbsent(s, iteration, x);
    PreludeAbsent(s, time, x);
    MigrationAbsent(s, iteration, time, first, x);
    GatheringAbsent(s, time, x);
    CurrentAbsent(s, x);
    SecondHalfPushAbsent(s, f, x);
    CorrectionAbsent(s, f, x);
    FieldPushAbsent(f, x);
    OnlyInPushes(s, f, iteration, time, first, x);
    FirstHalfPushSpecies(s, f, time, k, PushP);
    SecondHalfPushSpecies(s, f, k, PushP);
  }

  /** Every species has its positions half-pushed twice per iteration when
      `move_positions` is set, and never otherwise. */
  lemma PositionsHalfPushedTwice(s: Setup, f: Flags, iteration: int, time: real, first: bool, k: nat)
    requires s.period != 0
    ensures Count(IterationOps(s, f, iteration, time, first), OnSpecies(k, HalfPushX))
            == if k < s.nSpecies && f.movePositions then 2 else 0
  {
    var x := OnSpecies(k, HalfPushX);
    PositionPushKind(f, k);
    DiagAbsent(s, iteration, x);
    PreludeAbsent(s, time, x);
    MigrationAbsent(s, iteration, time, first, x);
    GatheringAbsent(s, time, x);
    CurrentAbsent(s, x);
    CorrectionAbsent(s, f, x);
    FieldPushAbsent(f, x);
    OnlyInPushes(s, f, iteration, time, first, x);
    FirstHalfPushSpecies(s, f, time, k, HalfPushX);
    SecondHalfPushSpecies(s, f, k, HalfPushX);
  }

  // ---------------------------------------------------------------------
  // Order of events in one iteration

  /** An order established among the blocks after the diagnostics holds in
      the whole iteration. */
  lemma PrecedesInBody(s: Setup, f: Flags, iteration: int, time: real, first: bool, a: Op, b: Op)
    requires s.period != 0
    requires Precedes(IterationBody(s, f, iteration, time, first), a, b)
    ensures Precedes(IterationOps(s, f, iteration, time, first), a, b)
  {
    PrecedesSuffix(DiagOps(s.diags, iteration), IterationBody(s, f, iteration, time, first), a, b);
  }

  /** The charge density at the start of the step is transformed before the
      current, the current before the charge density at the end of the step,
      and that before the field push that uses them. */
  lemma {:induction false} ChargeBeforeCurrent(s: Setup, f: Flags, iteration: int, time: real, first: bool)
    requires s.period != 0
    ensures Precedes(IterationOps(s, f, iteration, time, first), Interp2Spect(RhoPrev), Interp2Spect(J))
  {
    var b2 := Prelude(s, time) + When(Exchanges(s.period, iteration, first), ParticleExchange(s, time));
    var b3 := b2 + Gathering(s, time);
    var b4 := b3 + FirstHalfPush(s, f, time);
    var b5 := b4 + DepositOps(J, s.nSpecies, s.antennas, s.filter);
    var b6 := b5 + SecondHalfPush(s, f);
    var b7 := b6 + Correction(s, f);
    var a, b := Interp2Spect(RhoPrev), Interp2Spect(J);
    GatheringTransforms(s, time, RhoPrev);
    CountConcat(b2, Gathering(s, time), a);
    CountConcat(b3, FirstHalfPush(s, f, time), a);
    DepositTransformsOnce(J, s.nSpecies, s.antennas, s.filter, J);
    PrecedesAcross(b4, DepositOps(J, s.nSpecies, s.antennas, s.filter), a, b);
    PrecedesPrefix(b5, SecondHalfPush(s, f), a, b);
    PrecedesPrefix(b6, Correction(s, f), a, b);
    PrecedesPrefix(b7, FieldPush(f), a, b);
    PrecedesInBody(s, f, iteration, time, first, a, b);
  }

  lemma {:induction false} CurrentBeforeNextCharge(s: Setup, f: Flags, iteration: int, time: real, first: bool)
    requires s.period != 0
    ensures Precedes(IterationOps(s, f, iteration, time, first), Interp2Spect(J), Interp2Spect(RhoNext))
  {
    var b4 := Prelude(s, time) + When(Exchanges(s.period, iteration, first), ParticleExchange(s, time))
              + Gathering(s, time) + FirstHalfPush(s, f, time);
    var b5 := b4 + DepositOps(J, s.nSpecies, s.antennas, s.filter);
    var b6 := b5 + SecondHalfPush(s, f);
    var b7 := b6 + Correction(s, f);
    var a, b := Interp2Spect(J), Interp2Spect(RhoNext);
    DepositTransformsOnce(J, s.nSpecies, s.antennas, s.filter, J);
    CountConcat(b4, DepositOps(J, s.nSpecies, s.antennas, s.filter), a);
    CountConcat(b5, SecondHalfPush(s, f), a);
    CorrectionTransforms(s, f, RhoNext);
    PrecedesAcross(b6, Correction(s, f), a, b);
    PrecedesPrefix(b7, FieldPush(f), a, b);
    PrecedesInBody(s, f, iteration, time, first, a, b);
  }

  lemma {:induction false} NextChargeBeforeFieldPush(s: Setup, f: Flags, iteration: int, time: real, first: bool)
    requires s.period != 0
    ensures Precedes(IterationOps(s, f, iteration, time, first), Interp2Spect(RhoNext), PushFields(f.useTrueRho))
  {
    var b6 := Prelude(s, time) + When(Exchanges(s.period, iteration, first), ParticleExchange(s, time))
              + Gathering(s, time) + FirstHalfPush(s, f, time)
              + DepositOps(J, s.nSpecies, s.antennas, s.filter) + SecondHalfPush(s, f);
    var b7 := b6 + Correction(s, f);
    var a, b := Interp2Spect(RhoNext), PushFields(f.useTrueRho);
    CorrectionTransforms(s, f, RhoNext);
    CountConcat(b6, Correction(s, f), a);
    FieldPushSolves(f, f.useTrueRho);
    PrecedesAcross(b7, FieldPush(f), a, b);
    PrecedesInBody(s, f, iteration, time, first, a, b);
  }

  /** With a moving window, the grids move before the guard cells of E and
      B are exchanged. */
  lemma {:induction false} WindowMovesBeforeExchange(s: Setup, f: Flags, iteration: int, time: real, first: bool)
    requires s.period != 0 && s.window
    ensures Precedes(IterationOps(s, f, iteration, time, first), MoveGrids(s.dt, time), ExchangeFields(EB))
  {
    var b1 := Prelude(s, time);
    var b2 := b1 + When(Exchanges(s.period, iteration, first), ParticleExchange(s, time));
    var b3 := b2 + Gathering(s, time);
    var b4 := b3 + FirstHalfPush(s, f, time);
    var b5 := b4 + DepositOps(J, s.nSpecies, s.antennas, s.filter);
    var b6 := b5 + SecondHalfPush(s, f);
    var b7 := b6 + Correction(s, f);
    var a, b := MoveGrids(s.dt, time), ExchangeFields(EB);
    assert b1 == [a, b];
    PrecedesAt(b1, 0, 1);
    PrecedesPrefix(b1, When(Exchanges(s.period, iteration, first), ParticleExchange(s, time)), a, b);
    PrecedesPrefix(b2, Gathering(s, time), a, b);
    PrecedesPrefix(b3, FirstHalfPush(s, f, time), a, b);
    PrecedesPrefix(b4, DepositOps(J, s.nSpecies, s.antennas, s.filter), a, b);
    PrecedesPrefix(b5, SecondHalfPush(s, f), a, b);
    PrecedesPrefix(b6, Correction(s, f), a, b);
    PrecedesPrefix(b7, FieldPush(f), a, b);
    PrecedesInBody(s, f, iteration, time, first, a, b);
  }

  /** When positions move, each species is half-pushed once before the
      current is deposited and once after it. */
  lemma {:induction false} HalfPushBeforeCurrent(s: Setup, f: Flags, iteration: int, time: real,
                                                 first: bool, k: nat)
    requires s.period != 0 && k < s.nSpecies && f.movePositions
    ensures Precedes(IterationOps(s, f, iteration, time, first), OnSpecies(k, HalfPushX), Interp2Spect(J))
  {
    var b3 := Prelude(s, time) + When(Exchanges(s.period, iteration, first), ParticleExchange(s, time))
              + Gathering(s, time);
    var b4 := b3 + FirstHalfPush(s, f, time);
    var b5 := b4 + DepositOps(J, s.nSpecies, s.antennas, s.filter);
    var b6 := b5 + SecondHalfPush(s, f);
    var b7 := b6 + Correction(s, f);
    var a, b := OnSpecies(k, HalfPushX), Interp2Spect(J);
    FirstHalfPushSpecies(s, f, time, k, HalfPushX);
    CountConcat(b3, FirstHalfPush(s, f, time), a);
    DepositTransformsOnce(J, s.nSpecies, s.antennas, s.filter, J);
    PrecedesAcross(b4, DepositOps(J, s.nSpecies, s.antennas, s.filter), a, b);
    PrecedesPrefix(b5, SecondHalfPush(s, f), a, b);
    PrecedesPrefix(b6, Correction(s, f), a, b);
    PrecedesPrefix(b7, FieldPush(f), a, b);
    PrecedesInBody(s, f, iteration, time, first, a, b);
  }

  lemma {:induction false} HalfPushAfterCurrent(s: Setup, f: Flags, iteration: int, time: real,
                                                first: bool, k: nat)
    requires s.period != 0 && k < s.nSpecies && f.movePositions
    ensures Precedes(IterationOps(s, f, iteration, time, first), Interp2Spect(J), OnSpecies(k, HalfPushX))
  {
    var b4 := Prelude(s, time) + When(Exchanges(s.period, iteration, first), ParticleExchange(s, time))
              + Gathering(s, time) + FirstHalfPush(s, f, time);
    var b5 := b4 + DepositOps(J, s.nSpecies, s.antennas, s.filter);
    var b6 := b5 + SecondHalfPush(s, f);
    var b7 := b6 + Correction(s, f);
    var a, b := Interp2Spect(J), OnSpecies(k, HalfPushX);
    DepositTransformsOnce(J, s.nSpecies, s.antennas, s.filter, J);
    CountConcat(b4, DepositOps(J, s.nSpecies, s.antennas, s.filter), a);
    SecondHalfPushSpecies(s, f, k, HalfPushX);
    PrecedesAcross(b5, SecondHalfPush(s, f), a, b);
    PrecedesPrefix(b6, Correction(s, f), a, b);
    PrecedesPrefix(b7, FieldPush(f), a, b);
    PrecedesInBody(s, f, iteration, time, first, a, b);
  }

  /** On an exchange iteration, each species exchanges its particles before
      it gathers the fields. */
  lemma {:induction false} ExchangeBeforeGather(s: Setup, f: Flags, iteration: int, time: real,
                                                first: bool, k: nat)
    requires s.period != 0 && k < s.nSpecies && Exchanges(s.period, iteration, first)
    ensures Precedes(IterationOps(s, f, iteration, time, first),
                     OnSpecies(k, ExchangeParticles(time)), OnSpecies(k, Gather))
  {
    var b1 := Prelude(s, time);
    var b2 := b1 + When(Exchanges(s.period, iteration, first), ParticleExchange(s, time));
    var b3 := b2 + Gathering(s, time);
    var b4 := b3 + FirstHalfPush(s, f, time);
    var b5 := b4 + DepositOps(J, s.nSpecies, s.antennas, s.filter);
    var b6 := b5 + SecondHalfPush(s, f);
    var b7 := b6 + Correction(s, f);
    var a, b := OnSpecies(k, ExchangeParticles(time)), OnSpecies(k, Gather);
    ExchangeBlockCount(s, iteration, time, first, a);
    EachSpeciesCount(s.nSpecies, ExchangeParticles(time), a);
    CountConcat(b1, When(Exchanges(s.period, iteration, first), ParticleExchange(s, time)), a);
    GatheringGathers(s, time, k);
    PrecedesAcross(b2, Gathering(s, time), a, b);
    PrecedesPrefix(b3, FirstHalfPush(s, f, time), a, b);
    PrecedesPrefix(b4, DepositOps(J, s.nSpecies, s.antennas, s.filter), a, b);
    PrecedesPrefix(b5, SecondHalfPush(s, f), a, b);
    PrecedesPrefix(b6, Correction(s, f), a, b);
    PrecedesPrefix(b7, FieldPush(f), a, b);
    PrecedesInBody(s, f, iteration, time, first, a, b);
  }

  // ---------------------------------------------------------------------
  // The diagnostics

  lemma DiagKind(f: Flags, x: Op)
    requires x.DiagWrite?
    ensures && !PreludeEvent(x) && !MigrationEvent(x) && !GatheringEvent(x) && !FirstHalfPushEvent(x)
            && !CurrentEvent(x) && !SecondHalfPushEvent(x) && !CorrectionEvent(x)
            && !FieldPushEvent(x, f)
  {
  }

  lemma EmptyBody(s: Setup, f: Flags, iteration: int, time: real, first: bool, x: Op)
    requires s.period != 0
    requires Count(Prelude(s, time), x) == 0
    requires Count(When(Exchanges(s.period, iteration, first), ParticleExchange(s, time)), x) == 0
    requires Count(Gathering(s, time), x) == 0
    requires Count(FirstHalfPush(s, f, time), x) == 0 && Count(SecondHalfPush(s, f), x) == 0
    requires Count(DepositOps(J, s.nSpecies, s.antennas, s.filter), x) == 0
    requires Count(Correction(s, f), x) == 0 && Count(FieldPush(f), x) == 0
    ensures Count(IterationBody(s, f, iteration, time, first), x) == 0
  {
    BodyCount(s, f, iteration, time, first, x);
  }

  /** Only the diagnostics block writes diagnostics. */
  lemma NoDiagnosticsInBody(s: Setup, f: Flags, iteration: int, time: real, first: bool, x: Op)
    requires s.period != 0 && x.DiagWrite?
    ensures Count(IterationBody(s, f, iteration, time, first), x) == 0
  {
    DiagKind(f, x);
    PreludeAbsent(s, time, x);
    MigrationAbsent(s, iteration, time, first, x);
    GatheringAbsent(s, time, x);
    FirstHalfPushAbsent(s, f, time, x);
    CurrentAbsent(s, x);
    SecondHalfPushAbsent(s, f, x);
    CorrectionAbsent(s, f, x);
    FieldPushAbsent(f, x);
    EmptyBody(s, f, iteration, time, first, x);
  }

  /** Every iteration opens with one write per diagnostic, in list order and
      with the current iteration number, and writes none afterwards. */
  lemma DiagnosticsLead(s: Setup, f: Flags, iteration: int, time: real, first: bool)
    requires s.period != 0
    ensures var r := IterationOps(s, f, iteration, time, first);
            && |s.diags| <= |r|
            && (forall j :: 0 <= j < |s.diags| ==> r[j] == DiagWrite(s.diags[j], iteration))
            && (forall j :: |s.diags| <= j < |r| ==> !r[j].DiagWrite?)
  {
    var d := DiagOps(s.diags, iteration);
    var body := IterationBody(s, f, iteration, time, first);
    var r := IterationOps(s, f, iteration, time, first);
    DiagOpsAt(s.diags, iteration);
    forall j | |s.diags| <= j < |r|
      ensures !r[j].DiagWrite?
    {
      assert r[j] == body[j - |d|];
      CountAt(body, j - |d|);
      if r[j].DiagWrite? {
        NoDiagnosticsInBody(s, f, iteration, time, first, r[j]);
      }
    }
  }
}
