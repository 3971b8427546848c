# Particle spawner of workshop 01

A model of the particle spawner in the first graphics workshop
(`workshop01/workshop01.cpp`) of Reedbeta's gfx-workshops. The program keeps
a fixed array of `num_particles` particle records and uses it as a ring
buffer. Once per frame, `generate_particles(timestep)` adds
`particles_per_second * timestep` to a fractional emission accumulator and
spawns the whole part of it, keeping the fraction for the next frame. Each
new particle is written over the slot at the cursor `next_particle_index`,
which then advances modulo the capacity, so the oldest particle is always
the one overwritten. Its velocity, angle, spin, size exponent and age come
from six successive calls of `random_in_range`. That function is
Marsaglia's xorshift32 generator (shifts 13, 17, 5; seed `0xf2eec0de`),
mapped linearly into `[min, max)`.

The project has four modules:

- `Xorshift` (`xorshift.dfy`): the generator over `bv32`, its inverse step,
  the state after `n` steps, the mapping into a range, and the class `Rng`
  holding the static `rng_state`. It also models the single-precision
  conversion of the state, which is the subject of the finding below.
- `Emitter` (`emission.dfy`): the accumulator arithmetic of one call and
  of a run of calls.
- `ParticlePool` (`particle_pool.dfy`): the particle record and the ring
  buffer as a specification function (`WriteRing`). The class
  `ParticlePool` holds the array, the cursor and the accumulator.
  `GenerateParticles` and its spawn loop are proved against that
  specification. Two client scenarios are included.
- `Arith` (`arith.dfy`): the uniqueness of Euclidean quotient and
  remainder, shared by the float rounding and the cursor arithmetic.

Floats are modelled as reals. The capacity is a constructor parameter; it
is 1000 in the program.

## Model

| member | source | states |
|---|---|---|
| Xorshift.Step | workshop01/workshop01.cpp:282-284 | defines one update of `rng_state` as the three sub-steps in order; StepBijective, StepInjective and StepZeroIffZero carry its properties |
| Xorshift.Unstep | workshop01/workshop01.cpp:282-284 | defines the inverse update, the sub-steps undone in reverse order; StepBijective proves it inverts Step on both sides |
| Xorshift.StepN | workshop01/workshop01.cpp:281-284 | defines the state after `n` calls; StepNAdd, StepNNonzero and SeededStatesNonzero carry its properties |
| Xorshift.StepBijective | workshop01/workshop01.cpp:282-284 | each xorshift step is undone by `Unstep`, and `Unstep` is undone by the step, so the step is a bijection on 32-bit states |
| Xorshift.StepInjective | workshop01/workshop01.cpp:282-284 | two states give the same next state exactly when they are equal |
| Xorshift.StepZeroIffZero | workshop01/workshop01.cpp:282-284 | the next state is zero exactly when the state is zero |
| Xorshift.ShiftLeft13Inverse | workshop01/workshop01.cpp:282 | the sub-step `s ^= s << 13` is undone by `UnshiftLeft13`, and vice versa |
| Xorshift.ShiftRight17Involution | workshop01/workshop01.cpp:283 | the sub-step `s ^= s >> 17` is its own inverse |
| Xorshift.ShiftLeft5Inverse | workshop01/workshop01.cpp:284 | the sub-step `s ^= s << 5` is undone by `UnshiftLeft5`, and vice versa |
| Xorshift.StepNAdd | workshop01/workshop01.cpp:281-284 | `a` steps followed by `b` steps are `a + b` steps: the state sequence depends only on the seed and the number of calls |
| Xorshift.StepNNonzero | workshop01/workshop01.cpp:282-284 | after any number of steps the state is zero exactly when it started at zero |
| Xorshift.SeededStatesNonzero | workshop01/workshop01.cpp:281-284 | from the seed `0xf2eec0de`, the generator never reaches the stuck state 0 |
| Xorshift.Unit | workshop01/workshop01.cpp:285 | the exact `rng_state / 2^32` lies in `[0, 1)` and is positive for a nonzero state |
| Xorshift.ScaledWidth | workshop01/workshop01.cpp:286 | a positive width scaled by a fraction in `[0, 1)` lies in `[0, width)`; a zero width gives 0 |
| Xorshift.InRange | workshop01/workshop01.cpp:285-286 | the mapped value lies in `[min, max)` when `min < max`, and is `min` when they are equal |
| Xorshift.Rng.constructor | workshop01/workshop01.cpp:281 | a new generator holds the seed `0xf2eec0de` |
| Xorshift.Rng.RandomInRange | workshop01/workshop01.cpp:278-287 | one call advances the state by exactly one xorshift step and returns the new state mapped into the range, so the result lies in `[min, max)` |
| Xorshift.Draws | workshop01/workshop01.cpp:278-287 | successive calls give one result per requested range |
| Xorshift.DrawAt | workshop01/workshop01.cpp:278-287 | the `j`-th of successive calls maps the state after `j + 1` steps into the `j`-th range |
| Xorshift.Ulp | workshop01/workshop01.cpp:285 | the float spacing at `x` is a power of two with `x < 2^24 * u`; it is 1 below `2^24`, and above it the leading bit of `x` is at least `2^23 * u`, so `u` is the smallest such power |
| Xorshift.RoundToMultiple | workshop01/workshop01.cpp:285 | the result is one of the two multiples of `u` around `x`, within half a spacing of `x`, and on a tie the even multiple (round to nearest, ties to even) |
| Xorshift.RoundToFloat | workshop01/workshop01.cpp:285 | `float(x)` is a multiple of the float spacing at `x`, within half a spacing of `x` |
| Xorshift.UnitAsWritten | workshop01/workshop01.cpp:285 | defines `random_0_to_1` as computed in single precision; UnitAsWrittenIsOneIff and UnitAsWrittenAtMostOne carry its properties |
| Xorshift.InRangeAsWritten | workshop01/workshop01.cpp:285-286 | defines `random_in_range` as computed; InRangeAsWrittenReachesMax carries its property |
| Xorshift.UlpInTopBinade | workshop01/workshop01.cpp:285 | from `2^31` to `2^32` floats are 256 apart |
| Xorshift.SmallIntegersExact | workshop01/workshop01.cpp:285 | every integer below `2^24` converts to `float` exactly |
| Xorshift.TopIntegersRoundUp | workshop01/workshop01.cpp:285 | every 32-bit value from `0xffffff80` up converts to `2^32`; `0xffffff80` is a tie broken towards the even multiple |
| Xorshift.LowerIntegersRoundBelow | workshop01/workshop01.cpp:285 | every value below `0xffffff80` converts to less than `2^32` |
| Xorshift.RoundsToTopIff | workshop01/workshop01.cpp:285 | a 32-bit value converts to `2^32` exactly when it is at least `0xffffff80`, and never to more |
| Xorshift.UnitAsWrittenIsOneIff | workshop01/workshop01.cpp:285 | the single-precision `random_0_to_1` is 1.0 exactly for the states from `0xffffff80` up |
| Xorshift.UnitAsWrittenAtMostOne | workshop01/workshop01.cpp:285 | the single-precision `random_0_to_1` lies in `[0, 1]` |
| Xorshift.InRangeAsWrittenReachesMax | workshop01/workshop01.cpp:285-286 | for the states from `0xffffff80` up, `random_in_range` as computed returns `max`, while the exact InRange stays below `max` |
| Xorshift.UnitAsWrittenReachesOne | workshop01/workshop01.cpp:285-286 | for state `0xffffffff` the single-precision `random_0_to_1` is exactly 1.0, while the exact value is below 1 |
| Emitter.Emission.Spawned | workshop01/workshop01.cpp:301 | defines the number of loop turns for a count: the count when positive, otherwise none; ForwardTimeCountsSpawned and NoTimeNoParticles carry its properties |
| Emitter.Emit | workshop01/workshop01.cpp:295-298 | the count is the floor of the accumulated amount; count plus the new accumulator equals the old accumulator plus `rate * dt`; the new accumulator lies in `[0, 1)` |
| Emitter.NoTimeNoParticles | workshop01/workshop01.cpp:296-301 | with a fractional accumulator, a timestep of zero or less spawns nothing, and a zero timestep leaves the accumulator unchanged |
| Emitter.ForwardTimeCountsSpawned | workshop01/workshop01.cpp:296-301 | a non-negative timestep never gives a negative count, so the loop runs exactly `count` times |
| Emitter.TwoCallsAtFiftyPerSecond | workshop01/workshop01.cpp:295-298 | at 0.01 s per call from an empty accumulator: the first call spawns 0 and keeps 0.5, the second spawns 1 and keeps 0 |
| Emitter.OneParticlePerCall | workshop01/workshop01.cpp:295-298 | at 0.02 s per call from an empty accumulator, one call spawns exactly one particle and keeps 0 |
| Emitter.Duration | workshop01/workshop01.cpp:296 | the total of a run of non-negative timesteps is non-negative; RunConservesParticles relates it to the particles spawned |
| Emitter.Run | workshop01/workshop01.cpp:291-301 | a run of calls never spawns a negative number of particles, and a non-empty run leaves the accumulator in `[0, 1)` |
| Emitter.RunConservesParticles | workshop01/workshop01.cpp:292-298 | over any run of non-negative timesteps, the particles spawned plus the leftover fraction equal the starting accumulator plus 50 times the total time |
| Emitter.RunCountIsFloor | workshop01/workshop01.cpp:292-298 | the particles spawned over a run are the floor of the starting accumulator plus 50 times the total time |
| Emitter.AddUp | workshop01/workshop01.cpp:296-298 | the amounts of one call and of the run after it add up to the amount of the whole run |
| ParticlePool.Advance | workshop01/workshop01.cpp:316 | the advanced cursor is a valid slot |
| ParticlePool.AdvanceIsMod | workshop01/workshop01.cpp:316 | advancing the cursor is `(c + 1) % n` |
| ParticlePool.Slot | workshop01/workshop01.cpp:316 | the cursor after `i` advances is a valid slot |
| ParticlePool.SlotIsMod | workshop01/workshop01.cpp:316 | after `i` advances the cursor is `(c + i) % n` |
| ParticlePool.SlotAdd | workshop01/workshop01.cpp:316 | `a` advances followed by `b` advances are `a + b` advances |
| ParticlePool.WriteRing | workshop01/workshop01.cpp:301-317 | writing into the ring never changes the number of slots |
| ParticlePool.WriteRingAppend | workshop01/workshop01.cpp:304-316 | one more particle is written at the slot after the previous ones, and nothing else changes |
| ParticlePool.WriteRingLatest | workshop01/workshop01.cpp:304-316 | a slot holds the last particle written to it: among any `n` most recent writes, the `i`-th survives at slot `(c + i) % n` |
| ParticlePool.WriteRingUntouched | workshop01/workshop01.cpp:304-316 | a slot that none of the writes reaches keeps its old particle |
| ParticlePool.WriteRingUntouchedOffset | workshop01/workshop01.cpp:304-316 | fewer writes than the distance from the cursor to slot `j` leave slot `j` unchanged |
| ParticlePool.WriteRingConcat | workshop01/workshop01.cpp:289-317 | two successive batches of writes, the second starting where the first left the cursor, are one batch of their concatenation |
| ParticlePool.FiveWritesOnFourSlots | workshop01/workshop01.cpp:301-317 | five writes into four slots from slot 0 leave the fifth particle in slot 0 and the second to fourth in slots 1 to 3 |
| ParticlePool.ModOffset | workshop01/workshop01.cpp:316 | within one lap, the cursor reaches slot `j` after exactly `(j - c) % n` advances |
| ParticlePool.ModDistinct | workshop01/workshop01.cpp:316 | fewer than `n` advances never visit the same slot twice |
| ParticlePool.SpawnRanges | workshop01/workshop01.cpp:307-311 | defines the six `random_in_range` bounds of the initialiser in order; SpawnFields and SpawnInRanges carry their use |
| ParticlePool.Spawn | workshop01/workshop01.cpp:304-312 | defines the particle the initialiser builds from six successive draws; SpawnFields and SpawnInRanges carry its properties |
| ParticlePool.SpawnInRanges | workshop01/workshop01.cpp:304-312 | a spawned particle is at the origin, with velocity x in `[-12, 12)`, velocity y in `[24, 48)`, angle in `[0, two_pi)`, spin in `[-5, 5)`, size exponent in `[-2, 0.5)` and, for a positive timestep, age in `[0, timestep)` |
| ParticlePool.SpawnFields | workshop01/workshop01.cpp:304-312 | each field of a spawned particle is its own range mapped from the state after 1 to 6 draws, in the record's order |
| ParticlePool.Spawns | workshop01/workshop01.cpp:301-312 | a batch for `k` particles has `k` particles |
| ParticlePool.SpawnsAt | workshop01/workshop01.cpp:301-312 | the `i`-th particle of a batch is built from the six draws after `6 * i` earlier ones |
| ParticlePool.ParticlePool.constructor | workshop01/workshop01.cpp:48-49 | a new pool has `n` zeroed slots (the array at lines 48-49), the cursor at 0 and an empty accumulator (the statics at lines 291-292) |
| ParticlePool.ParticlePool.GenerateParticles | workshop01/workshop01.cpp:289-318 | the accumulator becomes the fraction left by `Emit`; the cursor moves on by the number spawned, modulo the capacity; the generator takes six steps per particle; the array becomes the ring-buffer write of exactly those particles |
| ParticlePool.ParticlePool.SpawnBatch | workshop01/workshop01.cpp:301-317 | `k` turns of the loop write the batch of `k` spawned particles into the ring from the cursor, and nothing else |
| ParticlePool.ParticlePool.SpawnAtCursor | workshop01/workshop01.cpp:304-316 | one turn writes the new particle at the cursor only, and moves the cursor to `(next + 1) % capacity` |
| ParticlePool.NewParticle | workshop01/workshop01.cpp:304-312 | the particle initialiser makes six draws in the record's order and gives exactly `Spawn` of the state before them |
| ParticlePool.SpawnLoopStep | workshop01/workshop01.cpp:301-317 | one more turn of the loop appends one particle to the batch, written at the next slot, after six more steps of the generator |
| ParticlePool.CallAtFiftyHertz | workshop01/workshop01.cpp:289-318 | a call with a 0.02 s timestep on an empty accumulator writes exactly one particle at the cursor and moves the cursor one slot on |
| ParticlePool.FiveCallsOnFourSlots | workshop01/workshop01.cpp:289-318 | five such calls on a four-slot pool move the cursor to 1, 2, 3, 0, 1, and slot 0 ends up holding the fifth particle |

## Left out

- `simulate_particles`, `render`, the shaders, buffers, window and event loop, and `main`'s frame timing are not part of this model. The timestep is a parameter.
- Floating point: the accumulator, ranges and particle fields are exact reals. Rounding is modelled only for the conversion of the generator state (see Findings).
- The particle size is kept as its exponent, because `exp2` has no counterpart over reals.
- The capacity is a parameter of the pool, not the constant 1000.
- Emitter.Emit: the conversion `int(floor(...))` is exact. An accumulator beyond the range of `int` (undefined in C++) is not modelled.
- Emitter.Run: the rate is fixed at `particles_per_second` (50), as in the program.
- Xorshift.Rng.RandomInRange: returns the exact real value, not the single-precision one whose top states round up to `max`.

## Findings

| source | as written | input that shows it | evidently intended | confidence | as-written member | corrected member |
|---|---|---|---|---|---|---|
| workshop01/workshop01.cpp:285 | `float(rng_state)` rounds to 24 significant bits, so states from `0xffffff80` up round to `2^32`. Then `random_0_to_1` is 1.0 and `random_in_range` returns `max` | `rng_state == 0xffffffff` after the step (any state from `0xffffff80` up) | `random_0_to_1` in `[0, 1)`, so the result stays in `[min, max)` | not executed | Xorshift.InRangeAsWrittenReachesMax | Xorshift.InRange |
