# accel — a verified model of the step counter's numeric core

accel.c counts walking steps in a recording of 3-axis accelerometer samples. It
sums the samples to find the direction of gravity and projects every sample
onto that direction, which gives a vertical acceleration signal. It then cleans
that signal with an order-8 (4th order Butterworth, 1-3 Hz at 20 Hz)
transposed direct form II bandpass, and counts steps with a two-state
hysteresis machine that needs a swing above `hi` followed by a swing below
`lo`.

This project models that core in Dafny, over exact `real` arithmetic:

- `VectorMath` (vector_math.dfy): the `struct vec3` value, the accumulating
  `sum` loop (as a method proved against the fold `SumOf`), `scale` and `dot`,
  and their algebra: the sum is additive over concatenation, `scale` is
  linear in the vector and in the factor, and `dot` is bilinear and
  symmetric.
- `Filter` (filter.dfy): one `tdf2` step as an in-place method over the state
  array, proved equal to `Step`, a specification function on the old state as a
  whole. `Run` chains steps over a signal, and the `filter` driver is an
  in-place loop proved equal to `Run` from the preset state. Proved about `Run`:
  - causality and per-sample output
  - concatenation
  - order 0 is stateless
  - cells from `ord` on are never touched
  - superposition (linearity)
  - the preset state is the exact steady state for a constant input of 1.0
- `StepCounter` (step_counter.dfy): `count_steps` as a loop proved equal to
  `Steps`, the two-state machine folded over the signal. `Steps` is proved
  equal to `Cycles`, an independent search-based count of completed high/low
  excursions. From that come the `size / 2` bound, the "positive if and only
  if a high sample is later followed by a low sample" characterisation, and
  the concrete cases.
- `Pipeline` (pipeline.dfy): the projection loop of `main` and its relation
  to the gravity sum. It also covers an end-to-end fact about a recording of
  identical samples.

## Model

| member | source | states |
|---|---|---|
| VectorMath.SumOf | accel.c:42-51 | the fold the `sum` loop computes: the zero vector for no input, the vector itself for one input, and otherwise the sum of all but the last plus the last |
| VectorMath.Scale | accel.c:59-66 | `scale` multiplies every component by a; scaling by 1 is the identity and scaling by 0 gives the zero vector |
| VectorMath.Dot | accel.c:78-83 | `dot` is the sum of the componentwise products; a vector's dot product with itself is never negative |
| VectorMath.Sum | accel.c:42-51 | the loop returns the componentwise sum of the first n vectors (the fold `SumOf`), and the zero vector when n is 0 |
| VectorMath.SumAppend | accel.c:42-51 | the sum of a concatenation is the sum of the two parts added componentwise |
| VectorMath.SumCons | accel.c:42-51 | adding the first vector last gives the same sum: the accumulation order does not matter |
| VectorMath.SumScale | accel.c:42-51 | summing vectors each scaled by a is scaling the sum by a |
| VectorMath.ScaleAdd | accel.c:59-66 | scaling distributes over vector addition |
| VectorMath.ScaleAddFactor | accel.c:59-66 | scale(v, a + c) == scale(v, a) + scale(v, c): scaling is linear in the factor |
| VectorMath.ScaleScale | accel.c:59-66 | scale(scale(v, a), c) == scale(v, a * c) |
| VectorMath.DotScaleLeft | accel.c:78-83 | dot(scale(v, a), w) == a * dot(v, w) |
| VectorMath.DotScaleRight | accel.c:78-83 | dot(v, scale(w, a)) == a * dot(v, w) |
| VectorMath.DotAddLeft | accel.c:78-83 | dot is additive in its first argument |
| VectorMath.DotAddRight | accel.c:78-83 | dot is additive in its second argument |
| VectorMath.DotSymmetric | accel.c:78-83 | dot(v, w) == dot(w, v) |
| Filter.Step | accel.c:88-97 | the specification of one `tdf2` step on the old state as a whole: the output, and a new state of the same length as the old |
| Filter.Run | accel.c:105-107 | `tdf2` chained over a signal from a starting state: one output per input, in input order, and a final state of the same length |
| Filter.StepCells | accel.c:88-97 | one step: order 0 returns b[0]*x and keeps the state; otherwise y == b[0]*x + z0[0], z[i-1] == b[i]*x + z0[i] - a[i]*y for 1 <= i < ord with z0 the state before the step, z[ord-1] == b[ord]*x - a[ord]*y, and cells from ord on are kept |
| Filter.Tdf2 | accel.c:88-97 | the in-place ascending update of z returns the output and leaves exactly the state of `Step` on the old state, so each z[i-1] reads z[i] before it is overwritten |
| Filter.StepAdditive | accel.c:88-97 | one step is linear: stepping the sum of two states on the sum of two inputs gives the sum of the outputs and of the new states |
| Filter.RunFilter | accel.c:105-107 | the driver loop writes the outputs of `Run` over x[..size] to y[..size], leaves z in the state `Run` ends in, leaves y past size and (when x and y differ) x unchanged; x and y may be one array |
| Filter.Filter | accel.c:101-108 | `filter` writes exactly the size outputs of the order-8 bandpass run from the preset state, changes nothing else in y, and leaves a distinct input array unchanged |
| Filter.RunOutputAt | accel.c:105-107 | output i of a run is the step on input i from the state left by inputs 0..i-1 |
| Filter.RunPrefix | accel.c:105-107 | a run is causal: its first k outputs are those of the run on the first k inputs |
| Filter.RunAppend | accel.c:105-107 | running over xs then over ws from the state xs left is running over xs + ws |
| Filter.RunOrderZero | accel.c:89 | with order 0 every output is b[0] times its input and the state never changes |
| Filter.RunKeepsTail | accel.c:91-96 | no run changes the state cells from ord on |
| Filter.RunAdditive | accel.c:101-108 | superposition: the run on summed inputs from summed states is the sum of the two runs, outputs and final state |
| Filter.PresetIsSteadyState | accel.c:102-104 | with the bandpass tables, one step on input 1.0 from the preset state outputs 0.0 and returns to the preset |
| Filter.ConstantOneFiltersToZero | accel.c:101-108 | from the preset, any constant signal of 1.0 filters to all zeros and leaves the preset state |
| StepCounter.Next | accel.c:122-132 | one round of the `switch`: the count grows, by exactly one, if and only if the state is DOWN and the sample is below lo; the state changes if and only if UP sees a sample above hi or DOWN sees one below lo |
| StepCounter.Steps | accel.c:111-136 | the count the machine reaches from UP with count 0 over the whole signal; never more than the number of samples |
| StepCounter.Run | accel.c:120-133 | the machine folded over the samples: the count never decreases and grows by at most one per sample |
| StepCounter.CountSteps | accel.c:111-136 | the loop returns the count of the two-state machine over x[..size], which lies between 0 and size / 2 |
| StepCounter.UpIgnoresLow | accel.c:123-125 | in state UP, samples at or below hi change neither state nor count |
| StepCounter.DownIgnoresHigh | accel.c:126-131 | in state DOWN, samples at or above lo change neither state nor count |
| StepCounter.UpCountsCycles | accel.c:120-133 | started in UP, the machine counts the completed cycles of the search-based reference count |
| StepCounter.DownCountsCycles | accel.c:120-133 | started in DOWN, the machine counts the completed cycles that follow an already seen high sample |
| StepCounter.StepsMatchCycles | accel.c:111-136 | `count_steps` equals the number of completed high-then-low cycles found by searching |
| StepCounter.CyclesBound | accel.c:120-133 | every completed cycle uses at least two samples: 2 * cycles <= length |
| StepCounter.AfterHighBound | accel.c:126-131 | after a high sample, 2 * cycles <= length + 1 |
| StepCounter.StepsBound | accel.c:120-133 | the count never exceeds half the number of samples |
| StepCounter.StepsPositiveIff | accel.c:120-133 | at least one step is counted if and only if some sample above hi is followed later by a sample below lo |
| StepCounter.NoHighNoSteps | accel.c:123-125 | no sample strictly above hi means a count of 0 |
| StepCounter.NoLowNoSteps | accel.c:126-131 | no sample strictly below lo means a count of 0, however often hi is crossed |
| StepCounter.OneCycle | accel.c:122-131 | with hi > 0 > lo, the signal [0, hi+1, lo-1] counts exactly one step |
| StepCounter.TrailingHighAddsNothing | accel.c:123-125 | when lo <= hi, a final sample above hi does not change the count |
| Pipeline.Project | accel.c:178-181 | the vertical signal: one sample per input vector, sample i being dot(data[i], g) |
| Pipeline.ProjectOnto | accel.c:178-181 | the loop sets vert[i] == dot(data[i], g) for every i < data_len, in order, and leaves the rest of vert unchanged |
| Pipeline.ProjectAppend | accel.c:178-181 | projecting a concatenation is concatenating the projections |
| Pipeline.ProjectTotal | accel.c:171-181 | the projected signal sums to the dot product of the gravity sum with g |
| Pipeline.ProjectScaled | accel.c:174-181 | with g = scale(s, a), each vertical sample is a times the sample's dot product with s |
| Pipeline.SumOfCopies | accel.c:42-51 | the sum of n copies of v is v scaled by n |
| Pipeline.SumOfUnits | accel.c:42-51 | n samples (1, 0, 0) sum to (n, 0, 0) |
| Pipeline.UnitDirection | accel.c:174 | scale((m, 0, 0), 1/m) is (1, 0, 0) for m > 0 |
| Pipeline.DotOnAxis | accel.c:78-83 | the dot product of (k, 0, 0) with itself is k * k |
| Pipeline.ConstantProjection | accel.c:171-181 | n > 0 samples (1, 0, 0) sum to (n, 0, 0); normalised by m == n as `main` does, the gravity direction is (1, 0, 0), and every sample projects onto it as 1.0 |
| Pipeline.SilenceCountsNothing | accel.c:191-194 | with the thresholds rms * 0.5 and -(rms * 0.5) for rms >= 0, an all-zero signal counts no step |
| Pipeline.ConstantRecording | accel.c:171-194 | for n > 0 samples (1, 0, 0) and m == n: gravity sum (n, 0, 0) whose squared magnitude is m * m, gravity direction scale(s, 1/m) == (1, 0, 0), vertical signal all 1.0, filtered signal all 0.0, and no step counted for any rms >= 0 |

## Left out

- `_getline`, the `open`/`read` calls and the header skip in `main`: byte-by-byte I/O through system calls.
- `parse_vec3`: a wrapper over `strtok_r` and `atof`, whose behaviour is not visible.
- `mag`, `rms` and the gravity normalisation `scale(s, 1/m)`: they need `sqrt`. `1/m` is unguarded when the sum is the zero vector, and `rms` divides by `size` when it is 0. `Pipeline.ProjectScaled` takes the factor a as a parameter instead. `Pipeline.SilenceCountsNothing` and `Pipeline.ConstantRecording` take rms as a parameter, with rms >= 0.
- `printf`/`puts` output, the `argc` check and the `MAX_VECTORS`/`MAX_LINE_SIZE` buffer limits in `main`.
- IEEE double arithmetic: every `double` is a `real`. Rounding is not modelled, so bit-exact outputs of the bandpass tables are not claimed. The exact steady state of the preset holds over reals, not necessarily in doubles.
- Pipeline.ConstantRecording: "filtered signal all 0.0, no step counted" holds over reals only. In doubles, sums such as b[2] + z[2] may miss the preset by a rounding error, so the filtered signal is a tiny leftover rather than zero. The thresholds are half its rms, so they shrink with it, and the C program may then count steps on a constant recording.
- Pipeline.ConstantRecording, Pipeline.ConstantProjection: the magnitude m comes in as a parameter equal to n, since `mag` needs `sqrt`; the contract states that m * m is the sum's dot product with itself. An empty recording (n == 0) is excluded because `main` then divides by m == 0.
- Filter.Tdf2: `a` and `b` are `const double *` in the source and are passed as sequence values. "a and b are unchanged" therefore holds by construction rather than by a frame condition.
- VectorMath.Sum, StepCounter.CountSteps, Filter.Filter: a negative `int` count is not modelled (the count is a `nat`). In C, `sum` and `count_steps` would then run past the array, and `filter` would write nothing.
- Filter.Filter: the C version's pointer walk over `x` and `y` is modelled by indexing. When `x` and `y` are the same array the input is overwritten; the contract then promises only the outputs.
