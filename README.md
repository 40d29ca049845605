# rec_gyro_calib in Dafny

A model of the computational core of rec_gyro_calib, a gyroscope calibration
program. The program finds the static period at the start of a recording,
takes the gyroscope offset as the per-axis mean over that period, and
studies how fast recursive mean and variance estimates converge on
synthetic uniform and Gaussian noise. The model covers four C++ files:

- `baserandom.cpp`, class `ranbase`. Two uniform generators: `ran_short`
  (ran1 of section 7.1 of "Numerical Recipes in C", 2nd edition) and
  `ran_long` (ran2, the same section). The model also has the dispatcher
  `ran`, the polar Gaussian transform `ran_gauss` (gasdev, section 7.2), the
  initialisation and the call counters. Modules `Lcg` and `BaseRandom`.
  - Each draw is first given as a function on values (`ShortDraw`,
    `LongDraw`, `UniformDraw`, `PolarPair`).
  - Class `BaseRandom.RanBase` holds the same state in fields and arrays.
    Its methods are proved to follow those functions.
  - The function-level statics of the source (`iy`, `iv[32]`, `idum2`,
    `iset`, `gset`) are fields of the object.
- `recstats.cpp`, class `recstat`. The running mean and the recursive
  variance (`mean`, `var`), their nested four-slot update (`seq_update`),
  and the argument of the acceptance probability. Module `RecStats`.
  - `mean` and `var` update a scalar passed by reference; each is modelled
    as the function that returns the new value.
  - `seq_update` is a method that updates its array in place.
- `math.cpp`, class `mathb`: the interval test `check_bounds` and the
  bisection `locate`. Module `MathB`; `Locate` is a method with the
  source's loop.
- `expdata.cpp`, class `expdata`: `set_static_int` and `static_calibration`.
  Module `Calibration`, class `ExpData`.

The main results:

- Schrage's step computes `(a*z) mod m` exactly, without overflow. It never
  leaves `[1, m-1]`. The warm-up table holds the seed times `a^(40-j)`.
- The long generator's output word lies in `[1, IMM1]`. Every uniform lies
  in `(0, 1)`.
- The recursive variance equals the sample variance `sum (x_i - mean)^2 / (n-1)`.
  It is never negative.
- The four slots of `seq_update` hold the mean and sample variance of the
  values, and the mean and sample variance of the series of running means.
- `locate` brackets `x` between `xs[j]` and `xs[j+1]` on ascending and on
  descending tables. The inner entries need not be monotone for this.
- `static_calibration` produces the per-axis means of samples `0..static_int`.

Properties of the code that its comments and names do not make plain:

- The recurrence of `var` is exactly the sample variance of the values fed
  so far (`RecStats.MeanVarIsSampleVariance`).
- The variance of the running means is 0 only at `n == 1`. At `n == 2` it
  is `(x2 - x1)^2 / 8` (`RecStats.SecondUpdate`). So the acceptance
  probability is undefined only after the first update, or when later
  values keep the variance of the means at 0.
- On a descending table, `locate` returns the `j` with
  `xx[j] > x >= xx[j+1]`. That is the mirror image of the ascending case
  `xx[j] <= x < xx[j+1]`; the boundary falls on the other side
  (`MathB.LocateDescending`).
- After re-initialisation, `ran_long` copies the first seed into `idum2`.
  That seed may exceed the second modulus `IM2`. Schrage's step is still
  exact there, with a result in `[0, IM2-1]`, and the combined word stays
  in `[1, IMM1]`.

Doubles are modelled as unbounded reals, and `long` as unbounded integers.
All intermediate values of the generators are proved to stay below the
modulus, so no 32-bit `long` overflows.

## Model

| member | source | states |
|---|---|---|
| Lcg.SchrageSplit | baserandom.cpp:67-69 | With `k = z div q` and `u = z mod q`, `a*z == k*m + (a*u - r*k)`, and both products lie in `[0, m)` |
| Lcg.StepIsModMul | baserandom.cpp:67-69 | Schrage's step equals `(a*z) mod m` for every `z` in the exact range. The result lies in `[0, m)`. Neither product reaches `m` |
| Lcg.StepNonZero | baserandom.cpp:67-69 | With `a` and `r` coprime, a step from `[1, m-1]` lands in `[1, m-1]` again |
| Lcg.IterInRange | baserandom.cpp:59-64 | Any number of steps from `[1, m-1]` stays in `[1, m-1]` |
| Lcg.IterIsModPow | baserandom.cpp:59-64 | `n` steps from `z` give `(a^n * z) mod m` |
| BaseRandom.GeneratorsWellFormed | baserandom.cpp:24-30 | The constants of all three generators satisfy `m == a*q + r` with `r < q`. `NDIV` and `NDIV1` have their stated values |
| BaseRandom.Reseed | baserandom.cpp:57-58 | The restart seed is `-idum` for a negative `idum`, and 1 otherwise |
| BaseRandom.Scale | baserandom.cpp:74-75 | `AM*w` capped at `RNMX`. A word in `[1, m-1]` maps into `(0, RNMX]`, strictly below 1 |
| BaseRandom.WarmUp | baserandom.cpp:59-65 | The 40-step loop leaves slot `j` holding the seed stepped `40 - j` times. It returns the 40th value, which is `iv[0]` |
| BaseRandom.ShortRefill | baserandom.cpp:56-66 | Re-initialisation leaves seed, `iy` and every table slot in `[1, IM-1]` |
| BaseRandom.ShortDraw | baserandom.cpp:54-73 | A `ran_short` step keeps the state valid and primed. The word lies in `[1, IM-1]` |
| BaseRandom.ShortReseedWarmup | baserandom.cpp:56-65 | A reseed starts from `max(1, -idum)`. It sets `idum` to `seed*IA^40 mod IM`, slot `j` to `seed*IA^(40-j) mod IM`, and `iy = iv[0]`. Without a reseed nothing changes |
| BaseRandom.ShortDrawOverwritesOneSlot | baserandom.cpp:67-72 | `j = iy/NDIV` is in `[0, 31]`. `idum` becomes `IA*idum mod IM`. The word drawn is the old `iv[j]`, which also becomes `iy`. Only `iv[j]` changes, to the new `idum` |
| BaseRandom.LongRefill | baserandom.cpp:129-142 | Re-initialisation of `ran_long` leaves a valid state with `idum` in `[1, IM1-1]` |
| BaseRandom.LongDraw | baserandom.cpp:144-153 | A `ran_long` step keeps the state valid. The word lies in `[1, IMM1]` |
| BaseRandom.LongReseedWarmup | baserandom.cpp:129-141 | A reseed sets `idum2` to the seed `max(1, -idum)`. It fills the table with `seed*IA1^(40-j) mod IM1`, and `iy = iv[0]`. A positive seed skips the reseed |
| BaseRandom.LongDrawCombines | baserandom.cpp:144-153 | Both generators advance by their own multiplier modulo their own modulus. `j` is in `[0, 31]`. The word is `iv[j] - idum2`, plus `IMM1` when below 1, and lies in `[1, IMM1]`. Only `iv[j]` changes |
| BaseRandom.UniformDraw | baserandom.cpp:247-250 | `ran(rc)` for `rc != 0` returns a uniform in `(0, 1)` and leaves both engines valid |
| BaseRandom.RadiusSquared | baserandom.cpp:272 | `v1^2 + v2^2` is non-negative |
| BaseRandom.PolarPair | baserandom.cpp:270-271 | One attempt draws two uniforms in turn and maps them to `v1`, `v2` in `(-1, 1)` |
| BaseRandom.RanBase.constructor | baserandom.h:36-39 | A fresh object: no generator chosen, zero statics, `idum2 = 123456789`, empty Gaussian cache |
| BaseRandom.RanBase.InitializeRandomGenerators | baserandom.cpp:190-209 | `rc` of 1 or 2 selects the generator, zeroes the three counters and sets both seeds to -1. Any other `rc` fails and changes nothing |
| BaseRandom.RanBase.GetNumCalls | baserandom.cpp:223-227 | Reports the three counters. The exhaustion warning fires exactly when `rcall[0] >= 10^8` |
| BaseRandom.RanBase.ReseedShort | baserandom.cpp:56-66 | The re-initialisation branch of `ran_short` changes the state as `ShortRefill` says |
| BaseRandom.RanBase.RanShort | baserandom.cpp:54-75 | The new state is `ShortDraw(old state)` and the result is its word scaled. The short counter increases by one |
| BaseRandom.RanBase.ReseedLong | baserandom.cpp:129-142 | The re-initialisation branch of `ran_long` changes the state as `LongRefill` says |
| BaseRandom.RanBase.RanLong | baserandom.cpp:127-156 | The new state is `LongDraw(old state)` and the result is its word scaled. The long counter increases by one |
| BaseRandom.RanBase.Ran | baserandom.cpp:244-250 | `rc == 0` fails and changes nothing. Any other `rc` follows `UniformDraw` and counts one call: `rc == 1` on the short generator, otherwise on the long one |
| BaseRandom.RanBase.PolarAttempt | baserandom.cpp:270-273 | One attempt follows `PolarPair`. It accepts exactly when `0 < rsq < 1` and adds 2 to the selected generator's counter |
| BaseRandom.RanBase.PolarLoop | baserandom.cpp:269-273 | Attempts until one is accepted, at most `fuel` of them. The accepted pair follows `PolarPair` from the state before its attempt. The counter grows by 2 per attempt |
| BaseRandom.RanBase.CachePair | baserandom.cpp:274-277 | Caches `v1*fac`, sets the flag, and returns `v2*fac` |
| BaseRandom.RanBase.RanGauss | baserandom.cpp:267-281 | With a cached value: returns it, clears the flag, draws nothing. Otherwise: two uniforms per attempt until `0 < rsq < 1`; the accepted pair and the state after it are `PolarPair` of the engine state before the accepted attempt; one normal is cached, the other returned. No generator: fails. The Gaussian counter always increases by one |
| RecStats.MeanStep | recstats.cpp:36-41 | `mean` with `n == 1` returns `x`, whatever the prior mean |
| RecStats.VarStep | recstats.cpp:58-72 | The recurrence is 0 for `n <= 1`. At `n == 2` it ignores the prior value (`2*(x-mm)^2`). It keeps a non-negative variance non-negative |
| RecStats.MeanStepExtends | recstats.cpp:41 | Feeding one value into the mean of `n` values gives the mean of the `n+1` values |
| RecStats.VarStepAlgebra | recstats.cpp:66-70 | One `var` step carries the invariant `(n-1)*var == sum of squares - sum^2/n` from `n-1` values to `n` |
| RecStats.MeanVarSums | recstats.cpp:36-72 | After `x1..xn`, the running mean is `sum/n`, whatever the prior. `(n-1)*var == q - s^2/n` |
| RecStats.MeanVarIsSampleVariance | recstats.cpp:36-72 | After `n` values, the running mean is their average. The running variance is 0 for `n == 1` and their sample variance for `n >= 2` |
| RecStats.MeanVarNonNegative | recstats.cpp:60-70 | The running variance is non-negative after at least one value, whatever the prior |
| RecStats.SeqStep | recstats.cpp:89-92 | The four slots are updated in source order, each read after the earlier slots were updated |
| RecStats.SeqUpdate | recstats.cpp:89-92 | The first four array slots become `SeqStep` of their old values. Nothing else in the array changes |
| RecStats.FeedIsNested | recstats.cpp:89-92 | After the values `xs`, slots 0 and 1 are the running mean and variance of `xs`. Slots 2 and 3 are those of the series of running means |
| RecStats.FeedStatistics | recstats.cpp:89-92 | After `n >= 1` values, slots 0 and 2 are the means of the values and of the running means. Slots 1 and 3 are their sample variances (0 after one value), both non-negative |
| RecStats.ConstantStream | recstats.cpp:89-92 | A constant stream `c` leaves the slots at `[c, 0, c, 0]` after every update |
| RecStats.SecondUpdate | recstats.cpp:89-92 | After two values, the variance of the means is `(x2-x1)^2/8` |
| RecStats.AcceptProbability | recstats.cpp:107 | Defined exactly when `stat[3] > 0`. Then it is `erf(f*stat[2]/sqrt(2*stat[3]))` |
| RecStats.FirstUpdateUndefined | recstats.cpp:107 | After the first update the argument is undefined, whatever the slots held |
| RecStats.ConstantStreamUndefined | recstats.cpp:107 | A constant stream never gives a defined argument |
| MathB.UnitSign | math.cpp:39-42 | `d/|d|` with the divisor 1 at 0 is the sign of `d`: -1, 0 or 1 |
| MathB.CheckBounds | math.cpp:39-45 | Returns 0 or 1. It returns 1 exactly when `x` lies in the closed interval between `x1` and `x2`, in either order |
| MathB.Bisect | math.cpp:77-84 | The bisection loop ends on an index in `[jl, ju)` |
| MathB.LocateIndex | math.cpp:67-90 | `x` outside the table's end values gives 0, and `x == xx[0]` gives 0 |
| MathB.Locate | math.cpp:67-90 | The loop computes `LocateIndex` of `xx[0..n)` and only reads the table |
| MathB.BisectBrackets | math.cpp:77-84 | On any table, the returned `j` is either 0 or a probe that sent the search up, and `j+1` is either `n` or a probe that sent it down |
| MathB.LocateAscending | math.cpp:67-90 | Ascending ends, `x` strictly inside: `0 <= j <= n-2` and `xx[j] <= x < xx[j+1]` |
| MathB.LocateDescending | math.cpp:67-90 | Descending ends, `x` strictly inside: `0 <= j <= n-2` and `xx[j] > x >= xx[j+1]` |
| MathB.LocateRange | math.cpp:67-90 | The result is an index of the table, at most `n-2` when `n >= 2`. `x == xx[n-1] != xx[0]` gives `n-2` |
| Calibration.MeanStepAxis | expdata.cpp:119 | Feeding sample `i` into axis `k`'s mean of samples `0..i-1`, with index `i+1`, gives the mean of samples `0..i`. At `i == 0` the prior does not matter |
| Calibration.StaticMeans | expdata.cpp:114-124 | The nested loops give each `gyro_off` axis the mean of that axis over the samples, whatever `ma[]` held |
| Calibration.ExpData.constructor | expdata.cpp:74-75 | `global_times` holds the time of every sample, and `data_size` counts the samples |
| Calibration.ExpData.SetStaticInt | expdata.cpp:91 | `static_int` becomes `locate(static_time, global_times, data_size)`, in `[0, data_size-1]` (at most `data_size-2` when there are two or more samples). Nothing else changes |
| Calibration.ExpData.StaticCalibration | expdata.cpp:108-124 | `static_int == 0` is an error and nothing changes. Otherwise `gyro_off` is the per-axis mean of samples `0..static_int`, and only `gyro_off` changes |

## Left out

- Reading the data files (`expdata::read_data`), the driver `main.cpp`, and every `printf`. The samples are given to the `ExpData` constructor, and the model keeps only the loop that copies their times into `global_times`.
- `exit(0)` on a fatal condition is modelled as an error result (`Failure`, or `ok == false`); the process does not stop. The state is left as the source leaves it at the `exit`: unchanged, except that `ran_gauss` with no generator has already counted the call (baserandom.cpp:267 runs before `ran` exits at baserandom.cpp:244-246), so `BaseRandom.RanBase.RanGauss` still increments `callsGauss`.
- IEEE double rounding: all doubles are reals, so the cap at `RNMX` and the `rsq` tests are exact.
- `Calibration.ExpData.SetStaticInt` requires at least one sample, because the source then reads `global_times[-1]`. `MathB.Locate` requires `1 <= n <= length` for the same reason.
- The statistical quality of the generators (periods, uniformity, independence) and the distribution of the Gaussian deviates are not stated.
- `sqrt`, `log` and `erf` are not modelled. `RecStats.AcceptProbability` takes `erf` and `sqrt` as parameters (with `sqrt` positive on positive numbers). `ran_gauss` takes the factor `sqrt(-2 ln rsq / rsq)` as the parameter `polarFactor`.
- The seeds and counters of a fresh `ranbase` object are uninitialised in the source and are constructor parameters here. So is the uninitialised `gyro_off`; the uninitialised `ma[]` of `static_calibration` is the parameter `ma0`.
- The statics of the source are per process; here they are fields of the object. Thread safety and several objects sharing one set of statics are not modelled.
- BaseRandom.RanBase.PolarLoop: bounded by `fuel` attempts, because the unbounded `do ... while` loop of `ran_gauss` need not terminate. The accepted pair is tied to `PolarPair` from the state before the accepted attempt. The engine state after all the rejected attempts is not stated as a function of the initial state.
- BaseRandom.RanBase.RanGauss: the fresh branch inherits the `fuel` bound of `PolarLoop`. Running out of it is a `RejectionBudgetExhausted` failure, which the source does not have. Like `PolarLoop`, it ties the accepted pair to `PolarPair` of the state before the accepted attempt, but does not state that state as a function of the initial one.
- RecStats.AcceptProbability: returns `Failure` when `stat[3] <= 0`. In the source, IEEE division then gives `erf(+inf) = 1`, `erf(-inf) = -1`, or NaN for `0/0`, and main.cpp:92-93 and main.cpp:170-172 read that value right after the first update. Infinities and NaN are not modelled.
