/** The particle pool and its spawner, `generate_particles`: a fixed array of
    particle records used as a ring buffer. Each call works out from the
    emission accumulator how many particles to create, writes each new
    particle over the slot at the cursor and advances the cursor modulo the
    capacity, so the oldest particle is always the one replaced. The capacity
    is `num_particles` (1000) in the program and a constructor parameter
    here. */
module ParticlePool {
  import opened Xorshift
  import opened Emitter
  import opened Arith

  /** `two_pi`, the upper end of the spawn angle range. */
  const TwoPi: real := 6.283185308

  datatype Vec2 = Vec2(x: real, y: real)

  /** The `size` field. A spawned particle's size is `exp2` of a random
      exponent; the exponent is kept, because `exp2` has no counterpart over
      `real`. A slot that was never written holds the zero size. */
  datatype Size = ZeroSize | Exp2(exponent: real)

  /** `particle_data`. */
  datatype Particle = Particle(
    position: Vec2,
    velocity: Vec2,
    angle: real,
    spin: real,
    size: Size,
    age: real)

  /** The zero-initialised record every slot holds at start-up. */
  const Blank := Particle(Vec2(0.0, 0.0), Vec2(0.0, 0.0), 0.0, 0.0, ZeroSize, 0.0)

  // ---------------------------------------------------------------------
  // The ring buffer, as a function of the slots and the particles written

  /** The cursor one slot on from `c` in a ring of `n` slots: the next
      slot, or slot 0 after the last one. */
  function Advance(c: nat, n: nat): (j: nat)
    requires c < n
    ensures j < n
  {
    if c + 1 < n then c + 1 else 0
  }

  /** The cursor after `i` advances from slot `c`: the slot the `i`-th write
      (counting from 0) lands on when writing starts at slot `c`. */
  function Slot(c: nat, i: nat, n: nat): (j: nat)
    requires c < n
    ensures j < n
  {
    if i == 0 then c else Advance(Slot(c, i - 1, n), n)
  }

  /** Advancing the cursor is adding one modulo the ring size. */
  lemma AdvanceIsMod(c: nat, n: nat)
    requires c < n
    ensures Advance(c, n) == (c + 1) % n
  {
    if c + 1 < n {
      DivModUnique(c + 1, n, 0, c + 1);
    } else {
      DivModUnique(c + 1, n, 1, 0);
    }
  }

  /** After `i` advances from `c` the cursor is at `(c + i) mod n`. */
  lemma {:induction false} SlotIsMod(c: nat, i: nat, n: nat)
    requires c < n
    ensures Slot(c, i, n) == (c + i) % n
  {
    if i == 0 {
      DivModUnique(c, n, 0, c);
    } else {
      SlotIsMod(c, i - 1, n);
      AdvanceIsMod(Slot(c, i - 1, n), n);
      ModOfMod(c + i - 1, 1, n);
    }
  }

  /** Advancing `a` times and then `b` times is advancing `a + b` times. */
  lemma {:induction false} SlotAdd(c: nat, a: nat, b: nat, n: nat)
    requires c < n
    ensures Slot(Slot(c, a, n), b, n) == Slot(c, a + b, n)
  {
    if b > 0 {
      SlotAdd(c, a, b - 1, n);
    }
  }

  /** The slots after writing `ps` in order, the first at slot `c` and each
      next one at the slot after the previous, wrapping at the end. */
  function WriteRing<T>(slots: seq<T>, c: nat, ps: seq<T>): (r: seq<T>)
    requires c < |slots|
    ensures |r| == |slots|
    decreases |ps|
  {
    if ps == [] then slots
    else WriteRing(slots, c, ps[..|ps| - 1])[Slot(c, |ps| - 1, |slots|) := ps[|ps| - 1]]
  }

  /** Writing one more particle changes exactly the slot after the last one
      written. */
  lemma WriteRingAppend<T>(slots: seq<T>, c: nat, ps: seq<T>, p: T)
    requires c < |slots|
    ensures WriteRing(slots, c, ps + [p]) == WriteRing(slots, c, ps)[Slot(c, |ps|, |slots|) := p]
  {
    assert (ps + [p])[..|ps|] == ps;
  }

  /** Each of the last `N` particles written sits at its slot
      `(c + i) mod N`: a later write to the same slot would be at least `N`
      writes later. When more than `N` particles are written, this says each
      slot holds the last particle written to it. */
  lemma {:induction false} WriteRingLatest<T>(slots: seq<T>, c: nat, ps: seq<T>, i: nat)
    requires c < |slots| && i < |ps| && |ps| <= i + |slots|
    ensures WriteRing(slots, c, ps)[Slot(c, i, |slots|)] == ps[i]
    decreases |ps|
  {
    var n, k := |slots|, |ps|;
    if i < k - 1 {
      WriteRingLatest(slots, c, ps[..k - 1], i);
      SlotIsMod(c, i, n);
      SlotIsMod(c, k - 1, n);
      ModDistinct(c, i, k - 1, n);
    }
  }

  /** A slot that none of the writes lands on keeps its old content: only
      the written slots change. */
  lemma {:induction false} WriteRingUntouched<T>(slots: seq<T>, c: nat, ps: seq<T>, j: nat)
    requires c < |slots| && j < |slots|
    requires forall i :: 0 <= i < |ps| ==> Slot(c, i, |slots|) != j
    ensures WriteRing(slots, c, ps)[j] == slots[j]
    decreases |ps|
  {
    if ps != [] {
      WriteRingUntouched(slots, c, ps[..|ps| - 1], j);
    }
  }

  /** Fewer than `N` writes touch exactly the slots `c, c+1, ..., c+k-1`
      (mod `N`): every other slot lies at an offset of `k` or more from `c`
      and keeps its content. */
  lemma WriteRingUntouchedOffset<T>(slots: seq<T>, c: nat, ps: seq<T>, j: nat)
    requires c < |slots| && j < |slots|
    requires |ps| <= (j - c) % |slots|
    ensures WriteRing(slots, c, ps)[j] == slots[j]
  {
    var n := |slots|;
    forall i | 0 <= i < |ps|
      ensures Slot(c, i, n) != j
    {
      ModOffset(c, i, j, n);
    }
    WriteRingUntouched(slots, c, ps, j);
  }

  /** Writing `ps` and then `qs` from where the cursor was left is writing
      `ps + qs` at once: batches of spawns over successive calls compose
      into one run around the ring. */
  lemma {:induction false} WriteRingConcat<T>(slots: seq<T>, c: nat, ps: seq<T>, qs: seq<T>)
    requires c < |slots|
    ensures WriteRing(WriteRing(slots, c, ps), Slot(c, |ps|, |slots|), qs)
         == WriteRing(slots, c, ps + qs)
    decreases |qs|
  {
    var n := |slots|;
    if qs == [] {
      assert ps + qs == ps;
    } else {
      var m := |qs|;
      var front, last := qs[..m - 1], qs[m - 1];
      var mid, c' := WriteRing(slots, c, ps), Slot(c, |ps|, n);
      SlotAdd(c, |ps|, m - 1, n);
      calc {
        WriteRing(mid, c', qs);
        { assert qs == front + [last];
          WriteRingAppend(mid, c', front, last); }
        WriteRing(mid, c', front)[Slot(c', |front|, n) := last];
        { WriteRingConcat(slots, c, ps, front); }
        WriteRing(slots, c, ps + front)[Slot(c, |ps + front|, n) := last];
        { assert ps + qs == (ps + front) + [last];
          WriteRingAppend(slots, c, ps + front, last); }
        WriteRing(slots, c, ps + qs);
      }
    }
  }

  /** With four slots and five particles written from slot 0, the slots hold
      the fifth, second, third and fourth particle: slot 0 was overwritten
      by the fifth write. */
  lemma FiveWritesOnFourSlots<T>(slots: seq<T>, a: T, b: T, c: T, d: T, e: T)
    requires |slots| == 4
    ensures WriteRing(slots, 0, [a, b, c, d, e]) == [e, b, c, d]
  {
    var ps := [a, b, c, d, e];
    var r := WriteRing(slots, 0, ps);
    WriteRingLatest(slots, 0, ps, 1);
    WriteRingLatest(slots, 0, ps, 2);
    WriteRingLatest(slots, 0, ps, 3);
    WriteRingLatest(slots, 0, ps, 4);
    assert r[0] == e && r[1] == b && r[2] == c && r[3] == d;
  }

  // ---------------------------------------------------------------------
  // Modular arithmetic on the cursor

  /** Reducing before adding does not change the result modulo `n`. */
  lemma ModOfMod(a: int, m: int, n: int)
    requires 0 < n
    ensures (a % n + m) % n == (a + m) % n
  {
    var b := a % n + m;
    DivModUnique(b, n, b / n, b % n);
    assert a + m == n * (a / n + b / n) + b % n;
    DivModUnique(a + m, n, a / n + b / n, b % n);
  }

  /** `i` steps from `c`, fewer than `n` of them, land on the slot `j`
      exactly when `i` is the offset of `j` from `c`. */
  lemma ModOffset(c: nat, i: nat, j: nat, n: nat)
    requires c < n && j < n && i < n
    ensures Slot(c, i, n) == j <==> i == (j - c) % n
  {
    SlotIsMod(c, i, n);
    if c + i < n {
      DivModUnique(c + i, n, 0, c + i);
    } else {
      DivModUnique(c + i, n, 1, c + i - n);
    }
    if c <= j {
      DivModUnique(j - c, n, 0, j - c);
    } else {
      DivModUnique(j - c, n, -1, j - c + n);
    }
  }

  /** Fewer than `n` steps apart, two cursor positions differ. */
  lemma ModDistinct(c: int, i: int, j: int, n: int)
    requires 0 < n && 0 <= i < j < i + n
    ensures (c + i) % n != (c + j) % n
  {
    var x := c + i;
    var q, r := x / n, x % n;
    if r + (j - i) < n {
      DivModUnique(c + j, n, q, r + (j - i));
    } else {
      DivModUnique(c + j, n, q + 1, r + (j - i) - n);
    }
  }

  // ---------------------------------------------------------------------
  // The particles one call creates

  /** The ranges of the six calls of `random_in_range` that build a
      particle, in the order of the record's initialiser: velocity x, velocity
      y, angle, spin, size exponent and age. */
  function SpawnRanges(dt: real): seq<Range>
  {
    [Range(-12.0, 12.0), Range(24.0, 48.0), Range(0.0, TwoPi),
     Range(-5.0, 5.0), Range(-2.0, 0.5), Range(0.0, dt)]
  }

  /** The particle built from the six successive draws after the generator
      state `t`; the position is the origin. */
  function Spawn(t: bv32, dt: real): Particle
  {
    var d := Draws(t, SpawnRanges(dt));
    Particle(Vec2(0.0, 0.0), Vec2(d[0], d[1]), d[2], d[3], Exp2(d[4]), d[5])
  }

  /** A spawned particle starts at the origin, with velocity x in
      `[-12, 12)`, velocity y in `[24, 48)`, angle in `[0, two_pi)`, spin in
      `[-5, 5)`, size exponent in `[-2, 0.5)` and, for a positive timestep,
      age in `[0, dt)`. */
  lemma SpawnInRanges(t: bv32, dt: real)
    ensures var p := Spawn(t, dt);
      && p.position == Vec2(0.0, 0.0)
      && -12.0 <= p.velocity.x < 12.0 && 24.0 <= p.velocity.y < 48.0
      && 0.0 <= p.angle < TwoPi && -5.0 <= p.spin < 5.0
      && p.size.Exp2? && -2.0 <= p.size.exponent < 0.5
      && (0.0 < dt ==> 0.0 <= p.age < dt)
  {
    SpawnFields(t, dt);
  }

  /** The `k` particles one call creates from generator state `s`: the
      `i`-th is built from the six draws after `6 * i` earlier ones. */
  function Spawns(s: bv32, dt: real, k: nat): (ps: seq<Particle>)
    ensures |ps| == k
  {
    if k == 0 then [] else Spawns(s, dt, k - 1) + [Spawn(StepN(s, 6 * (k - 1)), dt)]
  }

  /** The `i`-th particle of a batch is built from the six draws after the
      `6 * i` draws made for the particles before it: it does not depend on
      how many particles follow it in the batch. */
  lemma {:induction false} SpawnsAt(s: bv32, dt: real, k: nat, i: nat)
    requires i < k
    ensures Spawns(s, dt, k)[i] == Spawn(StepN(s, 6 * i), dt)
  {
    if i < k - 1 {
      SpawnsAt(s, dt, k - 1, i);
    }
  }

  // ---------------------------------------------------------------------
  // The pool

  /** The global `particles` array together with the two statics of
      `generate_particles`: the cursor `next_particle_index` and the
      emission accumulator. */
  class ParticlePool {
    const capacity: nat
    const particles: array<Particle>
    var next: nat
    var accumulator: real

    ghost predicate Valid()
      reads this
    {
      0 < capacity && particles.Length == capacity
      && next < capacity
      && 0.0 <= accumulator < 1.0
    }

    /** A pool of `n` zeroed slots, the cursor at slot 0 and no fraction of a
        particle accumulated. */
    constructor (n: nat)
      requires 0 < n
      ensures Valid() && capacity == n && fresh(particles)
      ensures particles[..] == seq(n, _ => Blank)
      ensures next == 0 && accumulator == 0.0
    {
      capacity := n;
      particles := new Particle[n](_ => Blank);
      next := 0;
      accumulator := 0.0;
    }

    /** `generate_particles(timestep)`: adds `50 * dt` to the accumulator,
        spawns the whole part of it and keeps the fraction; each spawned
        particle takes six draws from `rng`, is written at the cursor, and
        the cursor moves one slot on, wrapping at the end of the array. */
    method GenerateParticles(dt: real, rng: Rng)
      requires Valid()
      modifies this`next, this`accumulator, particles, rng
      ensures Valid()
      ensures var e := Emit(old(accumulator), ParticlesPerSecond, dt);
              var k := e.Spawned();
              && accumulator == e.accumulator
              && next == Slot(old(next), k, capacity)
              && rng.state == StepN(old(rng.state), 6 * k)
              && particles[..] == WriteRing(old(particles[..]), old(next), Spawns(old(rng.state), dt, k))
    {
      var e := Emit(accumulator, ParticlesPerSecond, dt);
      accumulator := e.accumulator;
      SpawnBatch(e.Spawned(), dt, rng);
    }

    /** The spawn loop of `generate_particles`: `k` turns, each writing one
        new particle at the cursor. */
    method SpawnBatch(k: nat, dt: real, rng: Rng)
      requires Valid()
      modifies this`next, particles, rng
      ensures Valid()
      ensures next == Slot(old(next), k, capacity)
      ensures rng.state == StepN(old(rng.state), 6 * k)
      ensures particles[..] == WriteRing(old(particles[..]), old(next), Spawns(old(rng.state), dt, k))
    {
      ghost var slots0, c0, s0 := particles[..], next, rng.state;
      var i := 0;
      while i < k
        invariant 0 <= i <= k
        invariant Valid()
        invariant next == Slot(c0, i, capacity)
        invariant rng.state == StepN(s0, 6 * i)
        invariant particles[..] == WriteRing(slots0, c0, Spawns(s0, dt, i))
      {
        SpawnLoopStep(slots0, c0, s0, dt, i);
        SpawnAtCursor(dt, rng);
        i := i + 1;
      }
    }

    /** One turn of the spawn loop: a particle built from the next six draws
        of `rng` is written over the slot at the cursor, and the cursor moves
        one slot on, back to 0 after the last slot. */
    method SpawnAtCursor(dt: real, rng: Rng)
      requires Valid()
      modifies this`next, particles, rng
      ensures Valid() && accumulator == old(accumulator)
      ensures next == Advance(old(next), capacity)
      ensures rng.state == StepN(old(rng.state), 6)
      ensures particles[..] == old(particles[..])[old(next) := Spawn(old(rng.state), dt)]
    {
      var p := NewParticle(dt, rng);
      particles[next] := p;
      next := (next + 1) % capacity;
      AdvanceIsMod(old(next), capacity);
    }
  }

  /** The record initialiser of the spawn loop: six calls of
      `random_in_range`, evaluated left to right, give the new particle. */
  method NewParticle(dt: real, rng: Rng) returns (p: Particle)
    modifies rng
    ensures p == Spawn(old(rng.state), dt)
    ensures rng.state == StepN(old(rng.state), 6)
  {
    ghost var t := rng.state;
    var vx := rng.RandomInRange(-12.0, 12.0);
    assert rng.state == StepN(t, 1);
    var vy := rng.RandomInRange(24.0, 48.0);
    assert rng.state == StepN(t, 2);
    var angle := rng.RandomInRange(0.0, TwoPi);
    assert rng.state == StepN(t, 3);
    var spin := rng.RandomInRange(-5.0, 5.0);
    assert rng.state == StepN(t, 4);
    var sizeExponent := rng.RandomInRange(-2.0, 0.5);
    assert rng.state == StepN(t, 5);
    var age := rng.RandomInRange(0.0, dt);
    assert rng.state == StepN(t, 6);
    p := Particle(Vec2(0.0, 0.0), Vec2(vx, vy), angle, spin, Exp2(sizeExponent), age);
    SpawnFields(t, dt);
  }

  /** The fields of a spawned particle are the six draws after `t`, one
      range each. */
  lemma SpawnFields(t: bv32, dt: real)
    ensures var p := Spawn(t, dt);
      && p.velocity == Vec2(InRange(-12.0, 12.0, StepN(t, 1)), InRange(24.0, 48.0, StepN(t, 2)))
      && p.angle == InRange(0.0, TwoPi, StepN(t, 3))
      && p.spin == InRange(-5.0, 5.0, StepN(t, 4))
      && p.size == Exp2(InRange(-2.0, 0.5, StepN(t, 5)))
      && p.age == InRange(0.0, dt, StepN(t, 6))
      && p.position == Vec2(0.0, 0.0)
  {
    var rs := SpawnRanges(dt);
    DrawAt(t, rs, 0);
    DrawAt(t, rs, 1);
    DrawAt(t, rs, 2);
    DrawAt(t, rs, 3);
    DrawAt(t, rs, 4);
    DrawAt(t, rs, 5);
  }

  /** One more turn of the spawn loop: one more particle, built from the
      next six draws, written at the slot after the last one, and the cursor
      one slot further on. */
  lemma SpawnLoopStep(slots: seq<Particle>, c: nat, s: bv32, dt: real, i: nat)
    requires c < |slots|
    ensures StepN(StepN(s, 6 * i), 6) == StepN(s, 6 * (i + 1))
    ensures WriteRing(slots, c, Spawns(s, dt, i + 1))
         == WriteRing(slots, c, Spawns(s, dt, i))[Slot(c, i, |slots|) := Spawn(StepN(s, 6 * i), dt)]
  {
    StepNAdd(s, 6 * i, 6);
    WriteRingAppend(slots, c, Spawns(s, dt, i), Spawn(StepN(s, 6 * i), dt));
  }

  /** One call of `generate_particles` with a 0.02 s timestep on an empty
      accumulator: exactly one particle is written, at the cursor. */
  method CallAtFiftyHertz(pool: ParticlePool, rng: Rng)
    requires pool.Valid() && pool.accumulator == 0.0
    modifies pool`next, pool`accumulator, pool.particles, rng
    ensures pool.Valid() && pool.accumulator == 0.0
    ensures pool.next == Advance(old(pool.next), pool.capacity)
    ensures rng.state == StepN(old(rng.state), 6)
    ensures pool.particles[..] == old(pool.particles[..])[old(pool.next) := Spawn(old(rng.state), 0.02)]
  {
    ghost var t := rng.state;
    OneParticlePerCall();
    pool.GenerateParticles(0.02, rng);
    assert Spawns(t, 0.02, 1) == [] + [Spawn(t, 0.02)];
  }

  /** Five calls at 50 particles per second and 0.02 s each, on a pool of
      four slots: each call spawns one particle, the cursor goes 1, 2, 3,
      0, 1, and slot 0 ends up holding the fifth particle, built from the
      draws after 24 earlier ones. */
  method FiveCallsOnFourSlots(rng: Rng) returns (cursors: seq<nat>, slot0: Particle)
    modifies rng
    ensures cursors == [1, 2, 3, 0, 1]
    ensures slot0 == Spawn(StepN(old(rng.state), 24), 0.02)
  {
    ghost var s := rng.state;
    var pool := new ParticlePool(4);
    cursors := [];
    var call := 0;
    while call < 5
      invariant 0 <= call <= 5 && pool.Valid() && pool.capacity == 4
      invariant pool.accumulator == 0.0 && pool.next == call % 4
      invariant rng.state == StepN(s, 6 * call)
      invariant cursors == [1, 2, 3, 0, 1][..call]
      invariant call > 0 ==> pool.particles[(call - 1) % 4] == Spawn(StepN(s, 6 * (call - 1)), 0.02)
    {
      StepNAdd(s, 6 * call, 6);
      CallAtFiftyHertz(pool, rng);
      cursors := cursors + [pool.next];
      call := call + 1;
    }
    slot0 := pool.particles[0];
  }
}
