/** The uniform generators, the Gaussian cache and the call accounting of
    class ranbase (baserandom.cpp).  The two uniform generators are ran1 and
    ran2 of section 7.1 of "Numerical Recipes in C" (2nd edition); the Gaussian
    transform is gasdev of section 7.2.

    The engine state is first described by values (ShortEngine, LongEngine)
    and the functions ShortDraw and LongDraw, which say what one call does;
    class RanBase then holds that state in fields and arrays, and its methods
    are proved to follow those functions. */
module BaseRandom {
  import opened Lcg
  import opened Wrappers

  // Constants of the short-period generator (ran1).
  const IA: int := 16807
  const IM: int := 2147483647
  const IQ: int := 127773
  const IR: int := 2836
  const NTAB: int := 32
  const NDIV: int := 1 + (IM - 1) / NTAB

  // Constants of the long-period generator (ran2).
  const IM1: int := 2147483563
  const IM2: int := 2147483399
  const IMM1: int := IM1 - 1
  const IA1: int := 40014
  const IA2: int := 40692
  const IQ1: int := 53668
  const IQ2: int := 52774
  const IR1: int := 12211
  const IR2: int := 3791
  const NDIV1: int := 1 + IMM1 / NTAB

  /** The cap on returned uniforms, 1 - 1.2e-7. */
  const EPS: real := 0.00000012
  const RNMX: real := 1.0 - EPS

  /** Draws of the short generator after which its period counts as used up. */
  const SHORT_PERIOD: int := 100000000

  /** Number of steps of the warm-up loop that rebuilds a shuffle table. */
  const WARMUP: int := NTAB + 8

  const SHORT: Lcg := Lcg(IA, IQ, IR, IM)
  const LONG1: Lcg := Lcg(IA1, IQ1, IR1, IM1)
  const LONG2: Lcg := Lcg(IA2, IQ2, IR2, IM2)

  /** The fatal conditions of ranbase, which the source reports before exit(0),
      and the exhausted rejection budget of the bounded Gaussian loop. */
  datatype RanError = NoGenerator | UnknownChoice | RejectionBudgetExhausted

  lemma GeneratorsWellFormed()
    ensures SHORT.WellFormed() && LONG1.WellFormed() && LONG2.WellFormed()
    ensures NDIV == 67108864 && NDIV1 == 67108862
  {
  }

  /** The seed a re-initialisation starts from: max(1, -idum). */
  function Reseed(idum: int): (seed: int)
    ensures seed >= 1 && (idum <= -1 ==> seed == -idum) && (idum >= 0 ==> seed == 1)
  {
    if -idum < 1 then 1 else -idum
  }

  /** The uniform returned for the integer word w of a generator of modulus
      im: AM*w with AM = 1/im, capped at RNMX. */
  function Scale(w: int, im: int): (u: real)
    requires im > 0
    ensures 1 <= w < im ==> 0.0 < u <= RNMX && u < 1.0
    ensures u <= RNMX
  {
    var temp := (1.0 / im as real) * w as real;
    if temp > RNMX then RNMX else temp
  }

  // ---------------------------------------------------------------------
  // Short-period generator (ran_short)
  // ---------------------------------------------------------------------

  /** The state ran_short keeps between calls: the seed idum_internal[0], and
      its function-level statics iy and iv[NTAB]. */
  datatype ShortEngine = ShortEngine(idum: int, iy: int, iv: seq<int>)

  /** Every state reachable from the program start: a seed the caller set
      within (-IM, IM), words in [0, IM-1], and, once iy is non-zero, a table
      of words in [1, IM-1]. */
  predicate ShortValid(e: ShortEngine) {
    && |e.iv| == NTAB && -IM < e.idum < IM && 0 <= e.iy < IM
    && (forall i :: 0 <= i < NTAB ==> 0 <= e.iv[i] < IM)
    && (e.iy != 0 ==> forall i :: 0 <= i < NTAB ==> 1 <= e.iv[i])
  }

  /** A state ready for a draw: seed, index word and table all in [1, IM-1]. */
  predicate ShortPrimed(e: ShortEngine) {
    && |e.iv| == NTAB && 1 <= e.idum < IM && 1 <= e.iy < IM
    && (forall i :: 0 <= i < NTAB ==> 1 <= e.iv[i] < IM)
  }

  /** The table the warm-up loop leaves behind: slot j holds the seed stepped
      WARMUP - j times, so the last 32 of the 40 steps fill iv[31] down to iv[0]. */
  function Table(g: Lcg, seed: int): (iv: seq<int>)
    requires g.WellFormed()
  {
    seq(NTAB, j requires 0 <= j < NTAB => Iter(g, seed, WARMUP - j))
  }

  /** The warm-up loop of ran_short and ran_long: 40 steps of generator g
      from seed, writing iv[j] on the steps with j < NTAB. */
  method WarmUp(g: Lcg, seed: int, iv: array<int>) returns (idum: int)
    requires g.WellFormed() && iv.Length == NTAB
    modifies iv
    ensures iv[..] == Table(g, seed)
    ensures idum == Iter(g, seed, WARMUP) == iv[0]
  {
    idum := seed;
    var j := NTAB + 7;
    while j >= 0
      invariant -1 <= j <= NTAB + 7
      invariant idum == Iter(g, seed, NTAB + 7 - j)
      invariant forall i :: j < i < NTAB ==> iv[i] == Iter(g, seed, WARMUP - i)
    {
      idum := Step(g, idum);
      if j < NTAB {
        iv[j] := idum;
      }
      j := j - 1;
    }
    assert iv[..] == Table(g, seed);
  }

  /** ran_short re-initialises when the seed is not positive or iy is still 0. */
  predicate ShortNeedsReseed(e: ShortEngine) {
    e.idum <= 0 || e.iy == 0
  }

  /** The state after the re-initialisation branch of ran_short (or the state
      itself when that branch is not taken). */
  function ShortRefill(e: ShortEngine): (f: ShortEngine)
    requires ShortValid(e)
    ensures ShortPrimed(f)
  {
    if ShortNeedsReseed(e) then
      var seed := Reseed(e.idum);
      GeneratorsWellFormed();
      IterInRange(SHORT, seed, WARMUP, -977, 5790);
      forall j | 0 <= j < NTAB
        ensures 1 <= Table(SHORT, seed)[j] < IM
      {
        IterInRange(SHORT, seed, WARMUP - j, -977, 5790);
      }
      ShortEngine(Iter(SHORT, seed, WARMUP), Table(SHORT, seed)[0], Table(SHORT, seed))
    else
      e
  }

  /** The new state and the integer word of one ran_short call. */
  function ShortDraw(e: ShortEngine): (r: (ShortEngine, int))
    requires ShortValid(e)
    ensures ShortValid(r.0) && ShortPrimed(r.0)
    ensures 1 <= r.1 < IM
  {
    var f := ShortRefill(e);
    GeneratorsWellFormed();
    StepNonZero(SHORT, f.idum, -977, 5790);
    var next := Step(SHORT, f.idum);
    var j := f.iy / NDIV;
    (ShortEngine(next, f.iv[j], f.iv[j := next]), f.iv[j])
  }

  // ---------------------------------------------------------------------
  // Long-period generator (ran_long)
  // ---------------------------------------------------------------------

  /** The state ran_long keeps between calls: the seed idum_internal[1] and
      its statics idum2, iy and iv[NTAB]. */
  datatype LongEngine = LongEngine(idum: int, idum2: int, iy: int, iv: seq<int>)

  /** Every state reachable from the program start.  idum2 may exceed IM2
      right after a re-initialisation, which copies the first seed into it. */
  predicate LongValid(e: LongEngine) {
    && |e.iv| == NTAB && -IM1 < e.idum < IM1 && 0 <= e.idum2 < IM1
    && 0 <= e.iy <= IMM1
    && (forall i :: 0 <= i < NTAB ==> 0 <= e.iv[i] <= IMM1)
  }

  /** The state after the re-initialisation branch of ran_long, taken when the
      seed is not positive; idum2 starts from the same seed as idum. */
  function LongRefill(e: LongEngine): (f: LongEngine)
    requires LongValid(e)
    ensures LongValid(f) && 1 <= f.idum < IM1
  {
    if e.idum <= 0 then
      var seed := Reseed(e.idum);
      GeneratorsWellFormed();
      IterInRange(LONG1, seed, WARMUP, -372, 1219);
      forall j | 0 <= j < NTAB
        ensures 1 <= Table(LONG1, seed)[j] < IM1
      {
        IterInRange(LONG1, seed, WARMUP - j, -372, 1219);
      }
      LongEngine(Iter(LONG1, seed, WARMUP), seed, Table(LONG1, seed)[0], Table(LONG1, seed))
    else
      e
  }

  /** Combination iv[j] - idum2, wrapped by IMM1 when below 1. */
  function Combine(t: int, y2: int): (iy: int)
  {
    var y := t - y2;
    if y < 1 then y + IMM1 else y
  }

  /** The new state and the integer word of one ran_long call. */
  function LongDraw(e: LongEngine): (r: (LongEngine, int))
    requires LongValid(e)
    ensures LongValid(r.0)
    ensures 1 <= r.1 <= IMM1
  {
    var f := LongRefill(e);
    GeneratorsWellFormed();
    StepNonZero(LONG1, f.idum, -372, 1219);
    StepIsModMul(LONG2, f.idum2);
    var next := Step(LONG1, f.idum);
    var next2 := Step(LONG2, f.idum2);
    var j := f.iy / NDIV1;
    var iy := Combine(f.iv[j], next2);
    (LongEngine(next, next2, iy, f.iv[j := next]), iy)
  }

  // ---------------------------------------------------------------------
  // Both generators, dispatch and the polar Gaussian transform
  // ---------------------------------------------------------------------

  datatype Engines = Engines(short: ShortEngine, long: LongEngine)

  predicate EnginesValid(e: Engines) {
    ShortValid(e.short) && LongValid(e.long)
  }

  /** ran(rc) for rc != 0: rc == 1 draws from the short generator, every
      other value from the long one. */
  function UniformDraw(rc: int, e: Engines): (r: (Engines, real))
    requires EnginesValid(e)
    ensures EnginesValid(r.0)
    ensures 0.0 < r.1 < 1.0
  {
    if rc == 1 then
      var (s, w) := ShortDraw(e.short);
      (e.(short := s), Scale(w, IM))
    else
      var (l, w) := LongDraw(e.long);
      (e.(long := l), Scale(w, IM1))
  }

  /** The squared radius v1^2 + v2^2 of a point of the square. */
  function RadiusSquared(v1: real, v2: real): (rsq: real)
    ensures rsq >= 0.0
  {
    v1 * v1 + v2 * v2
  }

  /** One attempt of the do-while loop of ran_gauss: two uniforms from the
      selected generator, mapped to v1 = 2*u1 - 1 and v2 = 2*u2 - 1. */
  function PolarPair(rc: int, e: Engines): (r: (Engines, real, real))
    requires EnginesValid(e)
    ensures EnginesValid(r.0)
    ensures -1.0 < r.1 < 1.0 && -1.0 < r.2 < 1.0
  {
    var (e1, u1) := UniformDraw(rc, e);
    var (e2, u2) := UniformDraw(rc, e1);
    (e2, 2.0 * u1 - 1.0, 2.0 * u2 - 1.0)
  }

  // ---------------------------------------------------------------------
  // Properties of one draw
  // ---------------------------------------------------------------------

  /** Re-initialisation of ran_short: 40 warm-up steps from max(1, -idum),
      i.e. the seed times IA^40 modulo IM; slot j of the table holds the seed
      times IA^(40-j), and iy starts as iv[0], the last value produced.
      Without re-initialisation the state is left alone. */
  lemma ShortReseedWarmup(e: ShortEngine)
    requires ShortValid(e)
    ensures var f := ShortRefill(e); var seed := Reseed(e.idum);
      ShortNeedsReseed(e) ==>
        && f.idum == (Pow(IA, WARMUP) * seed) % IM
        && f.iy == f.iv[0] == f.idum
        && forall j :: 0 <= j < NTAB ==> f.iv[j] == (Pow(IA, WARMUP - j) * seed) % IM
    ensures !ShortNeedsReseed(e) ==> ShortRefill(e) == e
  {
    if ShortNeedsReseed(e) {
      var seed := Reseed(e.idum);
      GeneratorsWellFormed();
      IterIsModPow(SHORT, seed, WARMUP);
      forall j | 0 <= j < NTAB
        ensures Table(SHORT, seed)[j] == (Pow(IA, WARMUP - j) * seed) % IM
      {
        IterIsModPow(SHORT, seed, WARMUP - j);
      }
    }
  }

  /** One ran_short draw: the table index j = iy/NDIV is a slot of the
      table; the seed advances to IA*idum mod IM; the word drawn is the old
      iv[j], which also becomes iy; iv[j] is overwritten with the new seed and
      the other 31 slots keep their values. */
  lemma ShortDrawOverwritesOneSlot(e: ShortEngine)
    requires ShortValid(e)
    ensures var f := ShortRefill(e); var j := f.iy / NDIV; var r := ShortDraw(e);
      && 0 <= j < NTAB
      && r.0.idum == (IA * f.idum) % IM
      && r.1 == f.iv[j] && r.0.iy == r.1
      && r.0.iv[j] == r.0.idum
      && forall i :: 0 <= i < NTAB && i != j ==> r.0.iv[i] == f.iv[i]
  {
    var f := ShortRefill(e);
    GeneratorsWellFormed();
    StepIsModMul(SHORT, f.idum);
  }

  /** Re-initialisation of ran_long: idum2 takes the new seed max(1, -idum)
      before the 40 warm-up steps of the first generator fill the table. */
  lemma LongReseedWarmup(e: LongEngine)
    requires LongValid(e)
    ensures var f := LongRefill(e); var seed := Reseed(e.idum);
      e.idum <= 0 ==>
        && f.idum2 == seed
        && f.idum == (Pow(IA1, WARMUP) * seed) % IM1
        && f.iy == f.iv[0] == f.idum
        && forall j :: 0 <= j < NTAB ==> f.iv[j] == (Pow(IA1, WARMUP - j) * seed) % IM1
    ensures e.idum > 0 ==> LongRefill(e) == e
  {
    if e.idum <= 0 {
      var seed := Reseed(e.idum);
      GeneratorsWellFormed();
      IterIsModPow(LONG1, seed, WARMUP);
      forall j | 0 <= j < NTAB
        ensures Table(LONG1, seed)[j] == (Pow(IA1, WARMUP - j) * seed) % IM1
      {
        IterIsModPow(LONG1, seed, WARMUP - j);
      }
    }
  }

  /** One ran_long draw: both congruential generators advance by their own
      multiplier and modulus; j = iy/NDIV1 is a slot; the word is
      iv[j] - idum2 brought into [1, IMM1] by adding IMM1 at most once; only
      iv[j] changes, to the first generator's new value. */
  lemma LongDrawCombines(e: LongEngine)
    requires LongValid(e)
    ensures var f := LongRefill(e); var j := f.iy / NDIV1; var r := LongDraw(e);
      && 0 <= j < NTAB
      && r.0.idum == (IA1 * f.idum) % IM1
      && r.0.idum2 == (IA2 * f.idum2) % IM2
      && r.0.iy == r.1 && 1 <= r.1 <= IMM1
      && (r.1 == f.iv[j] - r.0.idum2 || r.1 == f.iv[j] - r.0.idum2 + IMM1)
      && r.0.iv[j] == r.0.idum
      && forall i :: 0 <= i < NTAB && i != j ==> r.0.iv[i] == f.iv[i]
  {
    var f := LongRefill(e);
    GeneratorsWellFormed();
    StepIsModMul(LONG1, f.idum);
    StepIsModMul(LONG2, f.idum2);
  }

  /** A normal deviate from one coordinate v of an accepted point with
      squared radius rsq: v times the polar factor sqrt(-2 ln rsq / rsq). */
  function PolarNormal(v: real, rsq: real, factor: real -> real): real
  {
    v * factor(rsq)
  }

  // ---------------------------------------------------------------------
  // The object
  // ---------------------------------------------------------------------

  /** Class ranbase: its public fields idum_internal[2], rcall_internal[3] and
      rchoice_internal, together with the function-level statics of
      ran_short (iy, iv), ran_long (idum2, iy, iv) and ran_gauss (iset, gset).
      The source keeps those statics once per process; here they are fields
      of the one object the program creates. */
  class RanBase {
    var idumShort: int   // idum_internal[0]
    var idumLong: int    // idum_internal[1]
    var callsShort: nat  // rcall_internal[0]
    var callsLong: nat   // rcall_internal[1]
    var callsGauss: nat  // rcall_internal[2]
    var choice: int      // rchoice_internal: 0 unset, 1 short, 2 long

    var iyShort: int
    const ivShort: array<int>

    var idum2: int
    var iyLong: int
    const ivLong: array<int>

    var gaussFlag: int   // iset of ran_gauss: 1 when gset holds a cached normal
    var gset: real

    ghost predicate Valid()
      reads this, ivShort, ivLong
    {
      && ivShort.Length == NTAB && ivLong.Length == NTAB && ivShort != ivLong
      && ShortValid(ShortState()) && LongValid(LongState())
      && 0 <= choice <= 2 && (gaussFlag == 0 || gaussFlag == 1)
    }

    ghost function ShortState(): ShortEngine
      reads this`idumShort, this`iyShort, ivShort
    {
      ShortEngine(idumShort, iyShort, ivShort[..])
    }

    ghost function LongState(): LongEngine
      reads this`idumLong, this`idum2, this`iyLong, ivLong
    {
      LongEngine(idumLong, idum2, iyLong, ivLong[..])
    }

    ghost function State(): Engines
      reads this`idumShort, this`iyShort, ivShort, this`idumLong, this`idum2, this`iyLong, ivLong
    {
      Engines(ShortState(), LongState())
    }

    /** The object as the program creates it: rchoice_internal is 0, the
        statics hold their static initial values (iy = 0, a zero table,
        idum2 = 123456789, gaussFlag = 0), and the seeds and call counters, which
        the source leaves uninitialised, are whatever the parameters say. */
    constructor (shortSeed: int, longSeed: int, shortCalls: nat, longCalls: nat, gaussCalls: nat)
      requires -IM < shortSeed < IM && -IM1 < longSeed < IM1
      ensures Valid() && fresh(ivShort) && fresh(ivLong)
      ensures choice == 0 && gaussFlag == 0 && gset == 0.0
      ensures ShortState() == ShortEngine(shortSeed, 0, seq(NTAB, _ => 0))
      ensures LongState() == LongEngine(longSeed, 123456789, 0, seq(NTAB, _ => 0))
      ensures callsShort == shortCalls && callsLong == longCalls && callsGauss == gaussCalls
    {
      idumShort, idumLong := shortSeed, longSeed;
      callsShort, callsLong, callsGauss := shortCalls, longCalls, gaussCalls;
      choice := 0;
      iyShort := 0;
      ivShort := new int[NTAB](_ => 0);
      idum2 := 123456789;
      iyLong := 0;
      ivLong := new int[NTAB](_ => 0);
      gaussFlag, gset := 0, 0.0;
    }

    /** initialize_random_generators(rc): rc 1 or 2 selects the generator,
        zeroes the three counters and sets both seeds to -1; any other rc is
        fatal (the source exits), and nothing changes. */
    method InitializeRandomGenerators(rc: int) returns (ok: bool)
      requires Valid()
      modifies this`choice, this`idumShort, this`idumLong, this`callsShort, this`callsLong, this`callsGauss
      ensures Valid()
      ensures ok <==> rc == 1 || rc == 2
      ensures ok ==> choice == rc && idumShort == -1 && idumLong == -1
      ensures ok ==> callsShort == 0 && callsLong == 0 && callsGauss == 0
      ensures !ok ==> unchanged(this)
    {
      if rc == 1 {
        choice := 1;
      } else if rc == 2 {
        choice := 2;
      } else {
        return false;
      }
      callsShort, idumShort := 0, -1;
      callsLong, idumLong := 0, -1;
      callsGauss := 0;
      ok := true;
    }

    /** get_num_calls: the three counters, and the warning flag that the
        source prints when the short generator has reached its period. */
    method GetNumCalls() returns (shortCalls: nat, longCalls: nat, gaussCalls: nat, exhausted: bool)
      ensures shortCalls == callsShort && longCalls == callsLong && gaussCalls == callsGauss
      ensures exhausted <==> callsShort >= SHORT_PERIOD
    {
      shortCalls, longCalls, gaussCalls := callsShort, callsLong, callsGauss;
      exhausted := callsShort >= SHORT_PERIOD;
    }

    /** The re-initialisation branch of ran_short, taken when the seed is not
        positive or iy is 0: the seed becomes max(1, -seed) and the warm-up
        loop refills the table in place. */
    method ReseedShort()
      requires Valid()
      modifies this`idumShort, this`iyShort, ivShort
      ensures Valid()
      ensures ShortState() == ShortRefill(old(ShortState()))
    {
      GeneratorsWellFormed();
      ghost var e := ShortState();
      var idum := idumShort;
      if idum <= 0 || iyShort == 0 {
        idum := if -idum < 1 then 1 else -idum;
        idum := WarmUp(SHORT, idum, ivShort);
        iyShort := ivShort[0];
        idumShort := idum;
        assert ShortState() == ShortRefill(e);
      }
    }

    /** ran_short: one draw of the short-period generator. */
    method RanShort() returns (u: real)
      requires Valid()
      modifies this`idumShort, this`iyShort, this`callsShort, ivShort
      ensures Valid()
      ensures ShortState() == ShortDraw(old(ShortState())).0
      ensures u == Scale(ShortDraw(old(ShortState())).1, IM)
      ensures callsShort == old(callsShort) + 1
    {
      GeneratorsWellFormed();
      ghost var e := ShortState();
      callsShort := callsShort + 1;
      ReseedShort();
      ShortDrawOverwritesOneSlot(e);
      var idum := idumShort;
      idum := Step(SHORT, idum);
      var j := iyShort / NDIV;
      iyShort := ivShort[j];
      ivShort[j] := idum;
      idumShort := idum;
      assert ShortState() == ShortDraw(e).0;
      u := Scale(iyShort, IM);
    }

    /** The re-initialisation branch of ran_long: a non-positive seed is
        replaced by max(1, -seed), idum2 takes that seed, and the warm-up
        loop refills the table in place. */
    method ReseedLong()
      requires Valid()
      modifies this`idumLong, this`idum2, this`iyLong, ivLong
      ensures Valid()
      ensures LongState() == LongRefill(old(LongState()))
    {
      GeneratorsWellFormed();
      ghost var e := LongState();
      var idum := idumLong;
      if idum <= 0 {
        idum := if -idum < 1 then 1 else -idum;
        idum2 := idum;
        idum := WarmUp(LONG1, idum, ivLong);
        iyLong := ivLong[0];
        idumLong := idum;
        assert LongState() == LongRefill(e);
      }
    }

    /** ran_long: one draw of the long-period generator. */
    method RanLong() returns (u: real)
      requires Valid()
      modifies this`idumLong, this`idum2, this`iyLong, this`callsLong, ivLong
      ensures Valid()
      ensures LongState() == LongDraw(old(LongState())).0
      ensures u == Scale(LongDraw(old(LongState())).1, IM1)
      ensures callsLong == old(callsLong) + 1
    {
      GeneratorsWellFormed();
      ghost var e := LongState();
      callsLong := callsLong + 1;
      ReseedLong();
      LongDrawCombines(e);
      var idum := idumLong;
      idum := Step(LONG1, idum);
      idum2 := Step(LONG2, idum2);
      var j := iyLong / NDIV1;
      iyLong := ivLong[j] - idum2;
      ivLong[j] := idum;
      if iyLong < 1 {
        iyLong := iyLong + IMM1;
      }
      idumLong := idum;
      assert LongState() == LongDraw(e).0;
      u := Scale(iyLong, IM1);
    }

    /** ran(rc): rc == 0 is fatal (no generator selected), rc == 1 draws
        from ran_short and every other value from ran_long. */
    method Ran(rc: int) returns (r: Result<real, RanError>)
      requires Valid()
      modifies this`idumShort, this`iyShort, this`callsShort, ivShort
      modifies this`idumLong, this`idum2, this`iyLong, this`callsLong, ivLong
      ensures Valid()
      ensures rc == 0 ==> r == Failure(NoGenerator) && unchanged(this, ivShort, ivLong)
      ensures rc != 0 ==> r == Success(UniformDraw(rc, old(State())).1)
      ensures rc != 0 ==> State() == UniformDraw(rc, old(State())).0
      ensures rc == 1 ==> callsShort == old(callsShort) + 1 && callsLong == old(callsLong)
      ensures rc != 0 && rc != 1 ==> callsLong == old(callsLong) + 1 && callsShort == old(callsShort)
    {
      if rc == 0 {
        r := Failure(NoGenerator);
      } else if rc == 1 {
        var u := RanShort();
        r := Success(u);
      } else {
        var u := RanLong();
        r := Success(u);
      }
    }

    /** One pass of the do-while loop of ran_gauss: two uniforms from
        ran(rchoice_internal) mapped onto the square (-1, 1)^2, their squared
        radius, and the loop test, which accepts exactly when 0 < rsq < 1. */
    method PolarAttempt() returns (v1: real, v2: real, rsq: real, accepted: bool)
      requires Valid() && choice != 0
      modifies this`idumShort, this`iyShort, this`callsShort, ivShort
      modifies this`idumLong, this`idum2, this`iyLong, this`callsLong, ivLong
      ensures Valid()
      ensures (State(), v1, v2) == PolarPair(choice, old(State()))
      ensures rsq == RadiusSquared(v1, v2) && (accepted <==> 0.0 < rsq < 1.0)
      ensures choice == 1 ==> callsShort == old(callsShort) + 2 && callsLong == old(callsLong)
      ensures choice != 1 ==> callsLong == old(callsLong) + 2 && callsShort == old(callsShort)
    {
      ghost var before := State();
      var d1 := Ran(choice);
      var d2 := Ran(choice);
      v1 := 2.0 * d1.value - 1.0;
      v2 := 2.0 * d2.value - 1.0;
      rsq := RadiusSquared(v1, v2);
      accepted := !(rsq >= 1.0 || rsq == 0.0);
    }

    /** The do-while loop of ran_gauss, cut off after `fuel` attempts. */
    method PolarLoop(fuel: nat) returns (accepted: bool, v1: real, v2: real, rsq: real, ghost pairs: nat, ghost last: Engines)
      requires Valid() && choice != 0
      modifies this`idumShort, this`iyShort, this`callsShort, ivShort
      modifies this`idumLong, this`idum2, this`iyLong, this`callsLong, ivLong
      ensures Valid()
      ensures pairs <= fuel && (accepted ==> 1 <= pairs) && (!accepted ==> pairs == fuel)
      ensures accepted ==> EnginesValid(last) && (State(), v1, v2) == PolarPair(choice, last)
      ensures accepted ==> rsq == RadiusSquared(v1, v2) && 0.0 < rsq < 1.0
      ensures choice == 1 ==> callsShort == old(callsShort) + 2 * pairs && callsLong == old(callsLong)
      ensures choice != 1 ==> callsLong == old(callsLong) + 2 * pairs && callsShort == old(callsShort)
    {
      var left: nat := fuel;
      pairs := 0;
      last := State();
      accepted := false;
      v1, v2, rsq := 0.0, 0.0, 0.0;
      while !accepted && left > 0
        invariant Valid()
        invariant left <= fuel && pairs == fuel - left
        invariant accepted ==> 1 <= pairs && EnginesValid(last) && (State(), v1, v2) == PolarPair(choice, last)
        invariant accepted ==> rsq == RadiusSquared(v1, v2) && 0.0 < rsq < 1.0
        invariant choice == 1 ==> callsShort == old(callsShort) + 2 * pairs && callsLong == old(callsLong)
        invariant choice != 1 ==> callsLong == old(callsLong) + 2 * pairs && callsShort == old(callsShort)
        decreases left
      {
        last := State();
        v1, v2, rsq, accepted := PolarAttempt();
        left, pairs := left - 1, pairs + 1;
      }
    }

    /** The end of ran_gauss once a point is accepted: fac is the polar
        factor of rsq; v1*fac is cached and v2*fac returned. */
    method CachePair(polarFactor: real -> real, v1: real, v2: real, rsq: real) returns (normal: real)
      modifies this`gset, this`gaussFlag
      ensures gset == PolarNormal(v1, rsq, polarFactor) && gaussFlag == 1
      ensures normal == PolarNormal(v2, rsq, polarFactor)
    {
      var fac := polarFactor(rsq);
      gset := v1 * fac;
      gaussFlag := 1;
      normal := v2 * fac;
    }

    /** ran_gauss: the polar method with a one-value cache.  Every call counts
        once.  With a cached value (iset == 1) it is returned and the cache is
        cleared, with no uniform drawn.  Otherwise pairs of uniforms from
        ran(rchoice_internal) are drawn until 0 < v1^2 + v2^2 < 1 (at most
        `fuel` pairs), one normal is cached and the other returned; both are
        the factor sqrt(-2 ln rsq / rsq), passed in as `polarFactor`, times v1
        and v2. */
    method RanGauss(polarFactor: real -> real, fuel: nat)
      returns (r: Result<real, RanError>, ghost pairs: nat, ghost v1: real, ghost v2: real, ghost last: Engines)
      requires Valid()
      modifies this`gaussFlag, this`gset, this`callsGauss
      modifies this`idumShort, this`iyShort, this`callsShort, ivShort
      modifies this`idumLong, this`idum2, this`iyLong, this`callsLong, ivLong
      ensures Valid()
      ensures callsGauss == old(callsGauss) + 1
      ensures old(gaussFlag) == 1 ==>
        && r == Success(old(gset)) && gaussFlag == 0 && gset == old(gset)
        && State() == old(State()) && callsShort == old(callsShort) && callsLong == old(callsLong)
      ensures old(gaussFlag) == 0 && choice == 0 ==>
        && r == Failure(NoGenerator) && gaussFlag == 0 && gset == old(gset)
        && State() == old(State()) && callsShort == old(callsShort) && callsLong == old(callsLong)
      ensures old(gaussFlag) == 0 && choice != 0 ==>
        && pairs <= fuel
        && (choice == 1 ==> callsShort == old(callsShort) + 2 * pairs && callsLong == old(callsLong))
        && (choice != 1 ==> callsLong == old(callsLong) + 2 * pairs && callsShort == old(callsShort))
        && (r.Success? ==>
              var rsq := RadiusSquared(v1, v2);
              && 1 <= pairs && 0.0 < rsq < 1.0
              && EnginesValid(last) && (State(), v1, v2) == PolarPair(choice, last)
              && r.value == PolarNormal(v2, rsq, polarFactor)
              && gset == PolarNormal(v1, rsq, polarFactor) && gaussFlag == 1)
        && (r.Failure? ==>
              r.error == RejectionBudgetExhausted && pairs == fuel && gaussFlag == 0 && gset == old(gset))
    {
      pairs, v1, v2, last := 0, 0.0, 0.0, State();
      callsGauss := callsGauss + 1;
      if gaussFlag == 0 {
        if choice == 0 {
          r := Failure(NoGenerator);
          return;
        }
        var accepted, u1, u2, rsq;
        accepted, u1, u2, rsq, pairs, last := PolarLoop(fuel);
        v1, v2 := u1, u2;
        if !accepted {
          r := Failure(RejectionBudgetExhausted);
          return;
        }
        var normal := CachePair(polarFactor, u1, u2, rsq);
        r := Success(normal);
      } else {
        gaussFlag := 0;
        r := Success(gset);
      }
    }
  }
}
