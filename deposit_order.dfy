/** What the sequence of calls of `deposit` guarantees
    (fbpic/main.py:466-516). */
module DepositOrder {
  import opened Schedule

  /** The occurrences of `x` in a deposition, part by part. */
  lemma DepositCount(k: FieldName, nSpecies: nat, antennas: seq<nat>, filter: bool, x: Op)
    requires IsDepositTarget(k)
    ensures var acc := Accumulator(k);
            Count(DepositOps(k, nSpecies, antennas, filter), x)
            == Count([Erase(acc)], x) + Count(EachSpecies(nSpecies, DepositTo(acc)), x)
               + Count(EachAntenna(antennas, AntennaDeposit(acc)), x)
               + Count([DivideByVolume(acc), ExchangeFields(acc), Interp2Spect(k)], x)
               + Count(When(filter, [FilterSpect(k)]), x)
  {
    var acc := Accumulator(k);
    var er := [Erase(acc)];
    var sps := EachSpecies(nSpecies, DepositTo(acc));
    var ants := EachAntenna(antennas, AntennaDeposit(acc));
    var tail := [DivideByVolume(acc), ExchangeFields(acc), Interp2Spect(k)];
    var filt := When(filter, [FilterSpect(k)]);
    CountConcat(er, sps, x);
    CountConcat(er + sps, ants, x);
    CountConcat(er + sps + ants, tail, x);
    CountConcat(er + sps + ants + tail, filt, x);
  }

  /** A deposition starts by erasing its accumulator and ends with the
      spectral transform of its target, or with the filter of the target;
      it filters once when `filter_currents` is set and never otherwise. */
  lemma DepositEnds(k: FieldName, nSpecies: nat, antennas: seq<nat>, filter: bool)
    requires IsDepositTarget(k)
    ensures var r := DepositOps(k, nSpecies, antennas, filter);
            && r[0] == Erase(Accumulator(k))
            && r[|r| - 1] == (if filter then FilterSpect(k) else Interp2Spect(k))
            && Count(r, FilterSpect(k)) == (if filter then 1 else 0)
  {
    var acc := Accumulator(k);
    var x := FilterSpect(k);
    DepositCount(k, nSpecies, antennas, filter, x);
    CountOne(Erase(acc), x);
    EachSpeciesKinds(nSpecies, DepositTo(acc));
    CountNone(EachSpecies(nSpecies, DepositTo(acc)), x);
    EachAntennaKinds(antennas, AntennaDeposit(acc));
    CountNone(EachAntenna(antennas, AntennaDeposit(acc)), x);
    CountThree(DivideByVolume(acc), ExchangeFields(acc), Interp2Spect(k), x);
    CountOne(FilterSpect(k), x);
  }

  /** A deposition transforms its own target to spectral space exactly once,
      and no other field. */
  lemma DepositTransformsOnce(k: FieldName, nSpecies: nat, antennas: seq<nat>, filter: bool,
                              k': FieldName)
    requires IsDepositTarget(k)
    ensures Count(DepositOps(k, nSpecies, antennas, filter), Interp2Spect(k'))
            == (if k' == k then 1 else 0)
  {
    var x := Interp2Spect(k');
    var acc := Accumulator(k);
    DepositCount(k, nSpecies, antennas, filter, x);
    CountOne(Erase(acc), x);
    EachSpeciesKinds(nSpecies, DepositTo(acc));
    CountNone(EachSpecies(nSpecies, DepositTo(acc)), x);
    EachAntennaKinds(antennas, AntennaDeposit(acc));
    CountNone(EachAntenna(antennas, AntennaDeposit(acc)), x);
    CountThree(DivideByVolume(acc), ExchangeFields(acc), Interp2Spect(k), x);
    CountOne(FilterSpect(k), x);
  }

  /** The reduction steps of a deposition come in the order division by the
      cell volume, guard-cell exchange, spectral transform. */
  lemma {:induction false} DepositReduction(k: FieldName, nSpecies: nat, antennas: seq<nat>, filter: bool)
    requires IsDepositTarget(k)
    ensures var r := DepositOps(k, nSpecies, antennas, filter);
            var acc := Accumulator(k);
            && Precedes(r, DivideByVolume(acc), ExchangeFields(acc))
            && Precedes(r, ExchangeFields(acc), Interp2Spect(k))
  {
    var acc := Accumulator(k);
    var head := [Erase(acc)] + EachSpecies(nSpecies, DepositTo(acc))
                + EachAntenna(antennas, AntennaDeposit(acc));
    var tail := [DivideByVolume(acc), ExchangeFields(acc), Interp2Spect(k)];
    var filt := When(filter, [FilterSpect(k)]);
    PrecedesAt(tail, 0, 1);
    PrecedesAt(tail, 1, 2);
    PrecedesSuffix(head, tail, DivideByVolume(acc), ExchangeFields(acc));
    PrecedesSuffix(head, tail, ExchangeFields(acc), Interp2Spect(k));
    PrecedesPrefix(head + tail, filt, DivideByVolume(acc), ExchangeFields(acc));
    PrecedesPrefix(head + tail, filt, ExchangeFields(acc), Interp2Spect(k));
  }

  /** Every species deposits exactly once. */
  lemma DepositEachSpeciesOnce(k: FieldName, nSpecies: nat, antennas: seq<nat>, filter: bool, sp: nat)
    requires IsDepositTarget(k) && sp < nSpecies
    ensures Count(DepositOps(k, nSpecies, antennas, filter), OnSpecies(sp, DepositTo(Accumulator(k)))) == 1
  {
    var acc := Accumulator(k);
    var d := OnSpecies(sp, DepositTo(acc));
    EachSpeciesCount(nSpecies, DepositTo(acc), d);
    DepositCount(k, nSpecies, antennas, filter, d);
    CountOne(Erase(acc), d);
    EachAntennaKinds(antennas, AntennaDeposit(acc));
    CountNone(EachAntenna(antennas, AntennaDeposit(acc)), d);
    CountThree(DivideByVolume(acc), ExchangeFields(acc), Interp2Spect(k), d);
  }

  /** Every species deposits after the accumulator is erased and before the
      division by the cell volume. */
  lemma {:induction false} SpeciesDepositBetween(k: FieldName, nSpecies: nat, antennas: seq<nat>,
                                                 filter: bool, sp: nat)
    requires IsDepositTarget(k) && sp < nSpecies
    ensures var r := DepositOps(k, nSpecies, antennas, filter);
            var d := OnSpecies(sp, DepositTo(Accumulator(k)));
            && Precedes(r, Erase(Accumulator(k)), d)
            && Precedes(r, d, DivideByVolume(Accumulator(k)))
  {
    var acc := Accumulator(k);
    var d := OnSpecies(sp, DepositTo(acc));
    var er := [Erase(acc)];
    var sps := EachSpecies(nSpecies, DepositTo(acc));
    var ants := EachAntenna(antennas, AntennaDeposit(acc));
    var tail := [DivideByVolume(acc), ExchangeFields(acc), Interp2Spect(k)];
    var filt := When(filter, [FilterSpect(k)]);
    EachSpeciesCount(nSpecies, DepositTo(acc), d);
    CountOne(Erase(acc), Erase(acc));
    CountThree(DivideByVolume(acc), ExchangeFields(acc), Interp2Spect(k), DivideByVolume(acc));
    PrecedesAcross(er, sps, Erase(acc), d);
    PrecedesPrefix(er + sps, ants, Erase(acc), d);
    PrecedesPrefix(er + sps + ants, tail, Erase(acc), d);
    PrecedesPrefix(er + sps + ants + tail, filt, Erase(acc), d);
    CountConcat(er, sps, d);
    CountConcat(er + sps, ants, d);
    PrecedesAcross(er + sps + ants, tail, d, DivideByVolume(acc));
    PrecedesPrefix(er + sps + ants + tail, filt, d, DivideByVolume(acc));
  }

  /** Every species deposits before every antenna. */
  lemma {:induction false} SpeciesBeforeAntennas(k: FieldName, nSpecies: nat, antennas: seq<nat>,
                                                 filter: bool, sp: nat, a: nat)
    requires IsDepositTarget(k) && sp < nSpecies && a in antennas
    ensures Precedes(DepositOps(k, nSpecies, antennas, filter),
                     OnSpecies(sp, DepositTo(Accumulator(k))), OnAntenna(a, AntennaDeposit(Accumulator(k))))
  {
    var acc := Accumulator(k);
    var d := OnSpecies(sp, DepositTo(acc));
    var an := OnAntenna(a, AntennaDeposit(acc));
    var er := [Erase(acc)];
    var sps := EachSpecies(nSpecies, DepositTo(acc));
    var ants := EachAntenna(antennas, AntennaDeposit(acc));
    var tail := [DivideByVolume(acc), ExchangeFields(acc), Interp2Spect(k)];
    var filt := When(filter, [FilterSpect(k)]);
    EachSpeciesCount(nSpecies, DepositTo(acc), d);
    CountConcat(er, sps, d);
    var j :| 0 <= j < |antennas| && antennas[j] == a;
    EachAntennaAt(antennas, AntennaDeposit(acc), j);
    CountAt(ants, j);
    PrecedesAcross(er + sps, ants, d, an);
    PrecedesPrefix(er + sps + ants, tail, d, an);
    PrecedesPrefix(er + sps + ants + tail, filt, d, an);
  }

  /** The accumulation into `rho` that both charge names run: the erase,
      the species, the antennas, the division and the guard exchange. */
  function ChargeAccumulation(nSpecies: nat, antennas: seq<nat>): seq<Op>
  {
    [Erase(Rho)] + EachSpecies(nSpecies, DepositTo(Rho))
    + EachAntenna(antennas, AntennaDeposit(Rho))
    + [DivideByVolume(Rho), ExchangeFields(Rho)]
  }

  /** A charge deposition is the shared accumulation, then its own
      transform and filter. */
  lemma ChargeDepositShape(k: FieldName, nSpecies: nat, antennas: seq<nat>, filter: bool)
    requires k == RhoPrev || k == RhoNext
    ensures DepositOps(k, nSpecies, antennas, filter)
            == ChargeAccumulation(nSpecies, antennas) + [Interp2Spect(k)]
               + When(filter, [FilterSpect(k)])
  {
  }

  /** `rho_prev` and `rho_next` run the same accumulation into `rho`, event
      for event, and differ only in the field they transform to spectral
      space and filter. */
  lemma ChargeTargetsShareAccumulation(nSpecies: nat, antennas: seq<nat>, filter: bool)
    ensures var prev := DepositOps(RhoPrev, nSpecies, antennas, filter);
            var next := DepositOps(RhoNext, nSpecies, antennas, filter);
            var m := 3 + nSpecies + |antennas|;
            && prev[..m] == next[..m]
            && prev[0] == Erase(Rho)
            && prev[m] == Interp2Spect(RhoPrev) && next[m] == Interp2Spect(RhoNext)
            && prev[m + 1..] == When(filter, [FilterSpect(RhoPrev)])
            && next[m + 1..] == When(filter, [FilterSpect(RhoNext)])
  {
    var c := ChargeAccumulation(nSpecies, antennas);
    assert |c| == 3 + nSpecies + |antennas|;
    ChargeDepositShape(RhoPrev, nSpecies, antennas, filter);
    ChargeDepositShape(RhoNext, nSpecies, antennas, filter);
    SplitAfter(c, Interp2Spect(RhoPrev), When(filter, [FilterSpect(RhoPrev)]));
    SplitAfter(c, Interp2Spect(RhoNext), When(filter, [FilterSpect(RhoNext)]));
  }

  /** The parts of `a + [x] + b`. */
  lemma SplitAfter(a: seq<Op>, x: Op, b: seq<Op>)
    ensures var s := a + [x] + b;
            s[..|a|] == a && s[|a|] == x && s[|a| + 1..] == b
  {
  }

  /** The current deposition never erases or divides `rho`. */
  lemma CurrentLeavesChargeAlone(nSpecies: nat, antennas: seq<nat>, filter: bool, x: Op)
    requires x == Erase(Rho) || x == DivideByVolume(Rho)
    ensures Count(DepositOps(J, nSpecies, antennas, filter), x) == 0
  {
    EachSpeciesKinds(nSpecies, DepositTo(J));
    EachAntennaKinds(antennas, AntennaDeposit(J));
    CountNone(EachSpecies(nSpecies, DepositTo(J)), x);
    CountNone(EachAntenna(antennas, AntennaDeposit(J)), x);
    DepositCount(J, nSpecies, antennas, filter, x);
    CountOne(Erase(J), x);
    CountThree(DivideByVolume(J), ExchangeFields(J), Interp2Spect(J), x);
    CountOne(FilterSpect(J), x);
  }

  /** A charge deposition never erases or divides `J`. */
  lemma ChargeLeavesCurrentAlone(k: FieldName, nSpecies: nat, antennas: seq<nat>, filter: bool,
                                 x: Op)
    requires k == RhoPrev || k == RhoNext
    requires x == Erase(J) || x == DivideByVolume(J)
    ensures Count(DepositOps(k, nSpecies, antennas, filter), x) == 0
  {
    EachSpeciesKinds(nSpecies, DepositTo(Rho));
    EachAntennaKinds(antennas, AntennaDeposit(Rho));
    CountNone(EachSpecies(nSpecies, DepositTo(Rho)), x);
    CountNone(EachAntenna(antennas, AntennaDeposit(Rho)), x);
    DepositCount(k, nSpecies, antennas, filter, x);
    CountOne(Erase(Rho), x);
    CountThree(DivideByVolume(Rho), ExchangeFields(Rho), Interp2Spect(k), x);
    CountOne(FilterSpect(k), x);
  }
}
