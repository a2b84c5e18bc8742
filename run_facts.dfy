/** What a whole call of `step` guarantees (fbpic/main.py:335-458): the
    outer loop `for i_step in range(N)` repeats one PIC iteration with
    the counters advanced by one iteration and one time step each time. */
module RunFacts {
  import opened Schedule
  import opened IterationFacts

  // ---------------------------------------------------------------------
  // Flattening, independent of what an iteration does

  /** The sum of a sequence of integers. */
  function Sum(g: seq<int>): int
  {
    if |g| == 0 then 0 else Sum(g[..|g| - 1]) + g[|g| - 1]
  }

  /** Flattening distributes over concatenation. */
  lemma {:induction false} FlattenAppend(xs: seq<seq<Op>>, ys: seq<seq<Op>>)
    ensures Flatten(xs + ys) == Flatten(xs) + Flatten(ys)
  {
    if |ys| == 0 {
      assert xs + ys == xs;
    } else {
      var ys' := ys[..|ys| - 1];
      assert (xs + ys)[..|xs + ys| - 1] == xs + ys';
      FlattenAppend(xs, ys');
    }
  }

  /** The first element of a flattened sequence comes first. */
  lemma {:induction false} FlattenFront(xs: seq<seq<Op>>)
    requires |xs| > 0
    ensures Flatten(xs) == xs[0] + Flatten(xs[1..])
  {
    var n := |xs| - 1;
    if n == 0 {
      assert xs[1..] == [];
    } else {
      var init := xs[..n];
      FlattenFront(init);
      assert init[1..] == xs[1..][..n - 1];
      assert Flatten(xs[1..]) == Flatten(init[1..]) + xs[n];
    }
  }

  /** The number of occurrences in a flattened sequence is the sum of the
      numbers of occurrences in its parts. */
  lemma {:induction false} FlattenCount(xs: seq<seq<Op>>, x: Op, g: seq<int>)
    requires |g| == |xs|
    requires forall i :: 0 <= i < |xs| ==> Count(xs[i], x) == g[i]
    ensures Count(Flatten(xs), x) == Sum(g)
  {
    if |xs| > 0 {
      var n := |xs| - 1;
      FlattenCount(xs[..n], x, g[..n]);
      CountConcat(Flatten(xs[..n]), xs[n], x);
    }
  }

  /** When every part holds `c` occurrences, `n` parts hold `n * c`. */
  lemma {:induction false} SumConstant(g: seq<int>, c: int)
    requires forall i :: 0 <= i < |g| ==> g[i] == c
    ensures Sum(g) == |g| * c
  {
    if |g| > 0 {
      SumConstant(g[..|g| - 1], c);
      assert (|g| - 1) * c + c == |g| * c;
    }
  }

  /** Two sequences of parts that agree after their first part flatten to
      the same sequence exactly when their first parts agree. */
  lemma SameTail(ys: seq<seq<Op>>, zs: seq<seq<Op>>)
    requires |ys| > 0 && |ys| == |zs| && ys[1..] == zs[1..]
    ensures Flatten(ys) == Flatten(zs) <==> ys[0] == zs[0]
  {
    FlattenFront(ys);
    FlattenFront(zs);
    if Flatten(ys) == Flatten(zs) {
      var t := Flatten(ys[1..]);
      assert |ys[0]| == |zs[0]|;
      assert ys[0] == (ys[0] + t)[..|ys[0]|];
    }
  }

  /** Sequences of parts that agree from the second part on have equal
      tails. */
  lemma TailsAgree(ys: seq<seq<Op>>, zs: seq<seq<Op>>)
    requires |ys| == |zs| > 0
    requires forall i :: 1 <= i < |ys| ==> ys[i] == zs[i]
    ensures ys[1..] == zs[1..]
  {
    assert forall j :: 0 <= j < |ys| - 1 ==> ys[1..][j] == ys[j + 1] && zs[1..][j] == zs[j + 1];
  }

  // ---------------------------------------------------------------------
  // Counts over a run

  /** Appending one more iteration to a run appends its calls: the journal
      of `step(n + 1)` is the journal of `step(n)` followed by iteration `n`. */
  lemma RunSnoc(s: Setup, f: Flags, iteration: int, time: real, n: nat)
    requires s.period != 0
    ensures RunOps(s, f, iteration, time, n + 1)
            == RunOps(s, f, iteration, time, n)
               + IterationOps(s, f, iteration + n, TimeAfter(time, s.dt, n), n == 0)
  {
    var xs := Iterations(s, f, iteration, time, n + 1);
    assert xs[..n] == Iterations(s, f, iteration, time, n);
  }

  /** When every iteration makes a call `c` times, whatever its counters,
      a run of `n` iterations makes it `n * c` times. */
  lemma RunCountUniform(s: Setup, f: Flags, iteration: int, time: real, n: nat, x: Op, c: int)
    requires s.period != 0
    requires forall it, t, first :: Count(IterationOps(s, f, it, t, first), x) == c
    ensures Count(RunOps(s, f, iteration, time, n), x) == n * c
  {
    var g := seq(n, i => c);
    var xs := Iterations(s, f, iteration, time, n);
    forall i | 0 <= i < n
      ensures Count(xs[i], x) == g[i]
    {
      assert Count(IterationOps(s, f, iteration + i, TimeAfter(time, s.dt, i), i == 0), x) == c;
    }
    FlattenCount(xs, x, g);
    SumConstant(g, c);
  }

  /** Every iteration pushes the fields once, whatever its counters. */
  lemma FieldPushesAlways(s: Setup, f: Flags)
    requires s.period != 0
    ensures forall it, t, first :: Count(IterationOps(s, f, it, t, first), PushFields(f.useTrueRho)) == 1
  {
    forall it, t, first
      ensures Count(IterationOps(s, f, it, t, first), PushFields(f.useTrueRho)) == 1
    {
      FieldsPushedOnce(s, f, it, t, first, f.useTrueRho);
    }
  }

  /** A run of `N` iterations pushes the fields `N` times. */
  lemma FieldPushesPerRun(s: Setup, f: Flags, iteration: int, time: real, n: nat)
    requires s.period != 0
    ensures Count(RunOps(s, f, iteration, time, n), PushFields(f.useTrueRho)) == n
  {
    FieldPushesAlways(s, f);
    RunCountUniform(s, f, iteration, time, n, PushFields(f.useTrueRho), 1);
  }

  /** Every iteration shifts the Galilean boundaries twice when the
      Galilean frame is on and never otherwise, whatever its counters. */
  lemma GalileanShiftsAlways(s: Setup, f: Flags)
    requires s.period != 0
    ensures forall it, t, first :: Count(IterationOps(s, f, it, t, first), ShiftGalilean)
                                   == if s.galilean then 2 else 0
  {
    forall it, t, first
      ensures Count(IterationOps(s, f, it, t, first), ShiftGalilean) == if s.galilean then 2 else 0
    {
      GalileanShiftsPerIteration(s, f, it, t, first);
    }
  }

  /** A run of `N` iterations shifts the Galilean boundaries `2 N` times when
      the Galilean frame is on, and never otherwise. */
  lemma GalileanShiftsPerRun(s: Setup, f: Flags, iteration: int, time: real, n: nat)
    requires s.period != 0
    ensures Count(RunOps(s, f, iteration, time, n), ShiftGalilean) == if s.galilean then 2 * n else 0
  {
    GalileanShiftsAlways(s, f);
    RunCountUniform(s, f, iteration, time, n, ShiftGalilean, if s.galilean then 2 else 0);
  }

  // ---------------------------------------------------------------------
  // How often particles are exchanged

  /** One for each iteration of a run that exchanges particles. */
  function ExchangeIterations(period: int, iteration: int, n: nat): (g: seq<int>)
    requires period != 0
    ensures |g| == n
    ensures forall i :: 0 <= i < n ==> g[i] == if Exchanges(period, iteration + i, i == 0) then 1 else 0
  {
    seq(n, i => if Exchanges(period, iteration + i, i == 0) then 1 else 0)
  }

  /** With a moving window, the injection counter is reset once in every
      iteration of the run that exchanges particles. */
  lemma ResetsPerRun(s: Setup, f: Flags, iteration: int, time: real, n: nat)
    requires s.period != 0 && s.window
    ensures Count(RunOps(s, f, iteration, time, n), ResetInjection)
            == Sum(ExchangeIterations(s.period, iteration, n))
  {
    var xs := Iterations(s, f, iteration, time, n);
    var g := ExchangeIterations(s.period, iteration, n);
    forall i | 0 <= i < n
      ensures Count(xs[i], ResetInjection) == g[i]
    {
      ResetExactlyWhenDue(s, f, iteration + i, TimeAfter(time, s.dt, i), i == 0);
    }
    FlattenCount(xs, ResetInjection, g);
  }

  /** The number of multiples of `p` among `lo .. lo + n - 1`, in closed form. */
  function MultiplesIn(lo: int, n: nat, p: int): int
    requires p > 0
  {
    (lo + n - 1) / p - (lo - 1) / p
  }

  /** A non-zero multiple of a positive `p` is at least `p` away from zero:
      `p * d >= p` for `d >= 1` and `p * d <= -p` for `d <= -1`. */
  lemma MulBounds(p: int, d: int)
    requires p > 0
    ensures d >= 1 ==> p * d >= p
    ensures d <= -1 ==> p * d <= -p
  {
  }

  /** Euclidean division is determined by quotient and remainder. */
  lemma FloorDivUnique(x: int, p: int, q: int, r: int)
    requires p > 0 && 0 <= r < p && x == p * q + r
    ensures x / p == q
  {
    var q0 := x / p;
    assert p * q - p * q0 == p * (q - q0);
    MulBounds(p, q - q0);
  }

  /** Extending the range by one more value adds one exactly when that
      value is a multiple. */
  lemma MultiplesStep(lo: int, n: nat, p: int)
    requires p > 0
    ensures MultiplesIn(lo, n + 1, p) == MultiplesIn(lo, n, p) + (if (lo + n) % p == 0 then 1 else 0)
  {
    var x := lo + n;
    var q, r := x / p, x % p;
    if r == 0 {
      FloorDivUnique(x - 1, p, q - 1, p - 1);
    } else {
      FloorDivUnique(x - 1, p, q, r - 1);
    }
  }

  /** The exchange iterations of a run with a positive period: one per
      multiple of the period among its iteration numbers, plus the first
      iteration when its number is not a multiple (the exchange forced at
      `i_step == 0`). */
  lemma {:induction false} ExchangeIterationsCount(period: int, iteration: int, n: nat)
    requires period > 0
    ensures Sum(ExchangeIterations(period, iteration, n))
            == MultiplesIn(iteration, n, period) + (if n > 0 && iteration % period != 0 then 1 else 0)
  {
    if n > 0 {
      var g := ExchangeIterations(period, iteration, n);
      assert g[..n - 1] == ExchangeIterations(period, iteration, n - 1);
      ExchangeIterationsCount(period, iteration, n - 1);
      MultiplesStep(iteration, n - 1, period);
    }
  }

  /** With an exchange period of 1 (one periodic process) every iteration
      resets the injection counter. */
  lemma ResetsWithPeriodOne(s: Setup, f: Flags, iteration: int, time: real, n: nat)
    requires s.period == 1 && s.window
    ensures Count(RunOps(s, f, iteration, time, n), ResetInjection) == n
  {
    ResetsPerRun(s, f, iteration, time, n);
    ExchangeIterationsCount(1, iteration, n);
    assert (iteration + n - 1) / 1 == iteration + n - 1 && (iteration - 1) / 1 == iteration - 1;
  }

  // ---------------------------------------------------------------------
  // Splitting a run into two calls of `step`

  /** Advancing the time `a` steps and then `b` steps is advancing it
      `a + b` steps. */
  lemma {:induction false} TimeAfterAdd(time: real, dt: real, a: nat, b: nat)
    ensures TimeAfter(TimeAfter(time, dt, a), dt, b) == TimeAfter(time, dt, a + b)
  {
    if b > 0 {
      TimeAfterAdd(time, dt, a, b - 1);
    }
  }

  /** `n` increments `self.time += self.dt` advance the time by exactly
      `n * dt`. */
  lemma {:induction false} TimeAfterIsLinear(time: real, dt: real, n: nat)
    ensures TimeAfter(time, dt, n) == time + n as real * dt
  {
    if n > 0 {
      var m: nat := n - 1;
      TimeAfterIsLinear(time, dt, m);
      assert n as real * dt == m as real * dt + dt;
    }
  }

  /** The first iteration of a call makes the same calls as the iteration
      `step` would run at that point of a longer call exactly when that
      iteration exchanges anyway or the exchange block is empty. */
  lemma FirstIterationSame(s: Setup, f: Flags, iteration: int, time: real)
    requires s.period != 0
    ensures IterationOps(s, f, iteration, time, true) == IterationOps(s, f, iteration, time, false)
            <==> Exchanges(s.period, iteration, false) || (s.nSpecies == 0 && !s.window)
  {
    if !Exchanges(s.period, iteration, false) && !(s.nSpecies == 0 && !s.window) {
      assert |IterationOps(s, f, iteration, time, true)| != |IterationOps(s, f, iteration, time, false)|;
    } else if !Exchanges(s.period, iteration, false) {
      assert ParticleExchange(s, time) == [];
    }
  }

  /** The iterations of `step(a + b)` from the `a`-th on are those of a
      separate `step(b)` started where `step(a)` stopped, except for the
      first of them, whose exchange is forced only in the separate call. */
  lemma {:induction false} IterationsSeam(s: Setup, f: Flags, iteration: int, time: real, a: nat, b: nat)
    requires s.period != 0 && b > 0
    ensures var tail := Iterations(s, f, iteration, time, a + b)[a..];
            var right := Iterations(s, f, iteration + a, TimeAfter(time, s.dt, a), b);
            && |tail| == |right| && tail[1..] == right[1..]
            && tail[0] == IterationOps(s, f, iteration + a, TimeAfter(time, s.dt, a), a == 0)
            && right[0] == IterationOps(s, f, iteration + a, TimeAfter(time, s.dt, a), true)
  {
    var tail := Iterations(s, f, iteration, time, a + b)[a..];
    var right := Iterations(s, f, iteration + a, TimeAfter(time, s.dt, a), b);
    forall i | 1 <= i < b
      ensures tail[i] == right[i]
    {
      SeamElement(s, f, iteration, time, a, b, i);
    }
    TailsAgree(tail, right);
    SameIteration(s, f, iteration + (0 + a), TimeAfter(time, s.dt, 0 + a), 0 + a == 0,
                  iteration + a, TimeAfter(time, s.dt, a), a == 0);
  }

  /** Past the seam, iteration `i` of the separate call is iteration
      `a + i` of the longer one. */
  lemma {:induction false} SeamElement(s: Setup, f: Flags, iteration: int, time: real, a: nat, b: nat, i: nat)
    requires s.period != 0 && 1 <= i < b
    ensures Iterations(s, f, iteration, time, a + b)[i + a]
            == Iterations(s, f, iteration + a, TimeAfter(time, s.dt, a), b)[i]
  {
    TimeAfterAdd(time, s.dt, a, i);
    SameIteration(s, f, iteration + (i + a), TimeAfter(time, s.dt, i + a), i + a == 0,
                  iteration + a + i, TimeAfter(TimeAfter(time, s.dt, a), s.dt, i), i == 0);
  }

  /** Iterations with the same counters make the same calls. */
  lemma SameIteration(s: Setup, f: Flags, it: int, t: real, first: bool,
                      it': int, t': real, first': bool)
    requires s.period != 0 && it == it' && t == t' && first == first'
    ensures IterationOps(s, f, it, t, first) == IterationOps(s, f, it', t', first')
  {
  }

  /** The first `a` iterations of a longer run are those of `step(a)`. */
  lemma IterationsPrefix(s: Setup, f: Flags, iteration: int, time: real, a: nat, b: nat)
    requires s.period != 0
    ensures Iterations(s, f, iteration, time, a + b)[..a] == Iterations(s, f, iteration, time, a)
  {
    var whole := Iterations(s, f, iteration, time, a + b);
    var left := Iterations(s, f, iteration, time, a);
    forall i | 0 <= i < a
      ensures whole[..a][i] == left[i]
    {
      assert whole[i] == IterationOps(s, f, iteration + i, TimeAfter(time, s.dt, i), i == 0);
    }
  }

  /** Flattening a sequence cut in two flattens the two pieces. */
  lemma FlattenSplitAt(xs: seq<seq<Op>>, a: nat)
    requires a <= |xs|
    ensures Flatten(xs) == Flatten(xs[..a]) + Flatten(xs[a..])
  {
    assert xs == xs[..a] + xs[a..];
    FlattenAppend(xs[..a], xs[a..]);
  }

  /** A run is its first `a` iterations followed by the remaining ones. */
  lemma RunSplitsAt(s: Setup, f: Flags, iteration: int, time: real, a: nat, b: nat)
    requires s.period != 0
    ensures RunOps(s, f, iteration, time, a + b)
            == RunOps(s, f, iteration, time, a) + Flatten(Iterations(s, f, iteration, time, a + b)[a..])
  {
    IterationsPrefix(s, f, iteration, time, a, b);
    FlattenSplitAt(Iterations(s, f, iteration, time, a + b), a);
  }

  /** A common prefix can be cancelled from an equation between sequences. */
  lemma AppendCancel(x: seq<Op>, y: seq<Op>, z: seq<Op>)
    ensures x + y == x + z <==> y == z
  {
    if x + y == x + z {
      assert y == (x + y)[|x|..];
      assert z == (x + z)[|x|..];
    }
  }

  /** At the seam, the rest of the longer run and the separate second call
      make the same calls exactly when the seam iteration exchanges anyway
      or the exchange block is empty. */
  lemma SeamCondition(s: Setup, f: Flags, iteration: int, time: real, a: nat, b: nat)
    requires s.period != 0 && a > 0 && b > 0
    ensures Flatten(Iterations(s, f, iteration + a, TimeAfter(time, s.dt, a), b))
            == Flatten(Iterations(s, f, iteration, time, a + b)[a..])
            <==> Exchanges(s.period, iteration + a, false) || (s.nSpecies == 0 && !s.window)
  {
    IterationsSeam(s, f, iteration, time, a, b);
    SameTail(Iterations(s, f, iteration + a, TimeAfter(time, s.dt, a), b),
             Iterations(s, f, iteration, time, a + b)[a..]);
    FirstIterationSame(s, f, iteration + a, TimeAfter(time, s.dt, a));
  }

  /** Two calls `step(a)` and `step(b)` make the same calls as one call
      `step(a + b)` exactly when one of them is empty, when the iteration at
      the seam exchanges anyway, or when the exchange block is empty (no
      species and no moving window). */
  lemma SplitRun(s: Setup, f: Flags, iteration: int, time: real, a: nat, b: nat)
    requires s.period != 0
    ensures RunOps(s, f, iteration, time, a) + RunOps(s, f, iteration + a, TimeAfter(time, s.dt, a), b)
            == RunOps(s, f, iteration, time, a + b)
            <==> (a == 0 || b == 0 || Exchanges(s.period, iteration + a, false)
                  || (s.nSpecies == 0 && !s.window))
  {
    var t := TimeAfter(time, s.dt, a);
    var tail := Iterations(s, f, iteration, time, a + b)[a..];
    var right := Iterations(s, f, iteration + a, t, b);
    RunSplitsAt(s, f, iteration, time, a, b);
    AppendCancel(RunOps(s, f, iteration, time, a), Flatten(right), Flatten(tail));
    if b == 0 {
      assert tail == [] && right == [];
    } else if a == 0 {
      assert tail == right;
    } else {
      SeamCondition(s, f, iteration, time, a, b);
    }
  }
}
