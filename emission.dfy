/** The emission accumulator of `generate_particles`: a fractional particle
    count carried from call to call so that, over time, the number of
    particles spawned follows the emission rate although each call can only
    spawn whole particles. The accumulator, the rate and the timestep are
    `float` in the program; here they are `real`, the exact values that the
    single-precision arithmetic approximates. */
module Emitter {

  /** `particles_per_second`. */
  const ParticlesPerSecond: real := 50.0

  /** What one call decides: how many particles to generate (the result of
      `int(floor(...))`, negative for a negative timestep) and the
      accumulator it leaves behind. */
  datatype Emission = Emission(count: int, accumulator: real)
  {
    /** The number of iterations of the spawn loop: a count of zero or less
        spawns nothing. */
    function Spawned(): nat
    {
      if count > 0 then count else 0
    }
  }

  /** `acc += rate * dt; count = int(floor(acc)); acc -= count`. */
  function Emit(acc: real, rate: real, dt: real): (e: Emission)
    ensures e.count as real <= acc + rate * dt < e.count as real + 1.0
    ensures e.count as real + e.accumulator == acc + rate * dt
    ensures 0.0 <= e.accumulator < 1.0
  {
    var total := acc + rate * dt;
    Emission(total.Floor, total - total.Floor as real)
  }

  /** A timestep of zero or less spawns nothing, as long as the accumulator
      holds a fraction and the rate is not negative. A zero timestep leaves
      the accumulator as it was. */
  lemma NoTimeNoParticles(acc: real, rate: real, dt: real)
    requires 0.0 <= acc < 1.0 && 0.0 <= rate && dt <= 0.0
    ensures Emit(acc, rate, dt).count <= 0
    ensures Emit(acc, rate, dt).Spawned() == 0
    ensures dt == 0.0 ==> Emit(acc, rate, dt) == Emission(0, acc)
  {
    assert rate * dt <= 0.0 by {
      assert rate * dt == -(rate * -dt);
      assert 0.0 <= rate * -dt;
    }
  }

  /** A non-negative timestep at a non-negative rate never gives a negative
      count, so the count is exactly the number of particles spawned. */
  lemma ForwardTimeCountsSpawned(acc: real, rate: real, dt: real)
    requires 0.0 <= acc && 0.0 <= rate && 0.0 <= dt
    ensures Emit(acc, rate, dt).count >= 0
    ensures Emit(acc, rate, dt).Spawned() == Emit(acc, rate, dt).count
  {
    assert 0.0 <= rate * dt;
  }

  /** At 50 particles per second and 0.01 s per call, starting from an empty
      accumulator: the first call spawns nothing and leaves half a particle,
      the second spawns one particle and leaves the accumulator empty. */
  lemma TwoCallsAtFiftyPerSecond()
    ensures Emit(0.0, ParticlesPerSecond, 0.01) == Emission(0, 0.5)
    ensures Emit(0.5, ParticlesPerSecond, 0.01) == Emission(1, 0.0)
  {
    assert ParticlesPerSecond * 0.01 == 0.5;
    assert (0.5).Floor == 0;
    assert (1.0).Floor == 1;
  }

  /** At 50 particles per second and 0.02 s per call, a call that starts
      from an empty accumulator spawns exactly one particle and leaves the
      accumulator empty. */
  lemma OneParticlePerCall()
    ensures Emit(0.0, ParticlesPerSecond, 0.02) == Emission(1, 0.0)
  {
    assert ParticlesPerSecond * 0.02 == 1.0;
    assert (1.0).Floor == 1;
  }

  // ---------------------------------------------------------------------
  // Many calls

  /** The total length of a run of timesteps. */
  function Duration(dts: seq<real>): (d: real)
    ensures (forall i :: 0 <= i < |dts| ==> 0.0 <= dts[i]) ==> 0.0 <= d
  {
    if dts == [] then 0.0 else dts[0] + Duration(dts[1..])
  }

  /** Successive calls at `ParticlesPerSecond` with the timesteps `dts`,
      starting from the accumulator `acc`: the total number of particles spawned and the
      accumulator left at the end. */
  function Run(acc: real, dts: seq<real>): (r: Emission)
    ensures 0 <= r.count
    ensures dts != [] ==> 0.0 <= r.accumulator < 1.0
    ensures dts == [] ==> r == Emission(0, acc)
    decreases |dts|
  {
    if dts == [] then Emission(0, acc)
    else
      var e := Emit(acc, ParticlesPerSecond, dts[0]);
      var rest := Run(e.accumulator, dts[1..]);
      Emission(e.Spawned() + rest.count, rest.accumulator)
  }

  /** Nothing is lost to rounding: over any run of non-negative timesteps
      the particles spawned plus the accumulator left over equal the
      starting accumulator plus 50 times the total time. */
  lemma {:induction false} RunConservesParticles(acc: real, dts: seq<real>)
    requires 0.0 <= acc < 1.0
    requires forall i :: 0 <= i < |dts| ==> 0.0 <= dts[i]
    ensures Run(acc, dts).count as real + Run(acc, dts).accumulator
         == acc + ParticlesPerSecond * Duration(dts)
    decreases |dts|
  {
    if dts != [] {
      var e := Emit(acc, ParticlesPerSecond, dts[0]);
      var rest := Run(e.accumulator, dts[1..]);
      assert Run(acc, dts) == Emission(e.count + rest.count, rest.accumulator) by {
        ForwardTimeCountsSpawned(acc, ParticlesPerSecond, dts[0]);
      }
      assert rest.count as real + rest.accumulator
          == e.accumulator + ParticlesPerSecond * Duration(dts[1..]) by {
        RunConservesParticles(e.accumulator, dts[1..]);
      }
      AddUp(acc, ParticlesPerSecond, dts[0], Duration(dts[1..]), Duration(dts), e, rest);
    } else {
      assert ParticlesPerSecond * Duration(dts) == 0.0;
    }
  }

  /** So the number of particles spawned over a run is the floor of the
      starting accumulator plus 50 times the total time. */
  lemma RunCountIsFloor(acc: real, dts: seq<real>)
    requires 0.0 <= acc < 1.0
    requires forall i :: 0 <= i < |dts| ==> 0.0 <= dts[i]
    ensures Run(acc, dts).count == (acc + ParticlesPerSecond * Duration(dts)).Floor
  {
    var r := Run(acc, dts);
    RunConservesParticles(acc, dts);
    FloorOfWholeAndFraction(r.count, r.accumulator, acc + ParticlesPerSecond * Duration(dts));
  }

  /** One call followed by the rest of a run: what the call keeps back is
      what the rest starts from, so the amounts add up. */
  lemma AddUp(acc: real, rate: real, dt: real, rest: real, total: real, e: Emission, r: Emission)
    requires total == dt + rest
    requires e.count as real + e.accumulator == acc + rate * dt
    requires r.count as real + r.accumulator == e.accumulator + rate * rest
    ensures (e.count + r.count) as real + r.accumulator == acc + rate * total
  {
    assert rate * total == rate * dt + rate * rest;
  }

  /** A whole number plus a fraction in `[0, 1)` has that whole number as
      its floor. */
  lemma FloorOfWholeAndFraction(n: int, f: real, x: real)
    requires n as real + f == x && 0.0 <= f < 1.0
    ensures x.Floor == n
  {
  }
}
