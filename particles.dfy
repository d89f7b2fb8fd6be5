/** The integer part of the particle engine of the sketch: a particle's kind and
    lifespan, its per-frame update, and the pools that grow by pushing fresh
    particles and shrink by the reverse splice loop. Position, velocity,
    acceleration and colour are floating point or random and are not modelled. */
module Particles {

  /** The three ways a particle is launched (constructor flags `explode`, `rise`). */
  datatype Kind = Ambient | Explosive | Rising

  const InitialLifespan: int := 255
  const Decay: int := 4

  /** The kind chosen by the constructor: `explode` is tested before `rise`. */
  function KindOf(explode: bool, rise: bool): (k: Kind)
    ensures k == Explosive <==> explode
    ensures k == Rising <==> !explode && rise
    ensures k == Ambient <==> !explode && !rise
  {
    if explode then Explosive else if rise then Rising else Ambient
  }

  class Particle {
    const kind: Kind
    var lifespan: int

    constructor (explode: bool, rise: bool)
      ensures kind == KindOf(explode, rise)
      ensures lifespan == InitialLifespan
    {
      kind := KindOf(explode, rise);
      lifespan := InitialLifespan;
    }

    /** Dead once the lifespan has gone below zero; a new particle is alive. */
    predicate IsDead()
      reads this
      ensures lifespan == InitialLifespan ==> !IsDead()
    {
      lifespan < 0
    }

    /** One simulation step; only the lifespan is observable here. */
    method Update()
      modifies this
      ensures lifespan == LifespanAfter(old(lifespan), 1)
    {
      lifespan := lifespan - Decay;
    }
  }

  /** The lifespan after `k` updates starting from `start`. */
  function LifespanAfter(start: int, k: nat): int
  {
    if k == 0 then start else LifespanAfter(start, k - 1) - Decay
  }

  lemma {:induction false} LifespanAfterUpdates(start: int, k: nat)
    ensures LifespanAfter(start, k) == start - 4 * k
  {
    if k > 0 {
      LifespanAfterUpdates(start, k - 1);
    }
  }

  /** A fresh particle is alive after each of its first 63 updates and dead
      after the 64th, whatever kind it has. */
  lemma LifetimeIs63Updates(k: nat)
    ensures LifespanAfter(InitialLifespan, k) < 0 <==> k >= 64
  {
    LifespanAfterUpdates(InitialLifespan, k);
  }

  /** No particle occurs twice in a pool (each is created by `new` and pushed once). */
  predicate Distinct(s: seq<Particle>) {
    forall i, j :: 0 <= i < j < |s| ==> s[i] != s[j]
  }

  /** The particles of `s` that are not dead, in their order in `s`. */
  function Survivors(s: seq<Particle>): seq<Particle>
    reads s
  {
    if s == [] then []
    else (if s[0].IsDead() then [] else [s[0]]) + Survivors(s[1..])
  }

  /** `a` is `b` with some elements left out and the rest in their order. */
  predicate Subsequence<T(==)>(a: seq<T>, b: seq<T>)
    decreases |b|
  {
    if a == [] then true
    else if b == [] then false
    else (a[0] == b[0] && Subsequence(a[1..], b[1..])) || Subsequence(a, b[1..])
  }

  /** Culling keeps a particle iff it is in the pool and not dead. */
  lemma {:induction false} SurvivorsMembership(s: seq<Particle>, p: Particle)
    ensures p in Survivors(s) <==> p in s && !p.IsDead()
  {
    if s != [] {
      SurvivorsMembership(s[1..], p);
      assert s == [s[0]] + s[1..];
    }
  }

  /** Culling keeps the survivors in their original relative order. */
  lemma {:induction false} SurvivorsInOrder(s: seq<Particle>)
    ensures Subsequence(Survivors(s), s)
  {
    if s != [] {
      SurvivorsInOrder(s[1..]);
      if !s[0].IsDead() {
        assert Survivors(s)[1..] == Survivors(s[1..]);
      } else {
        assert Survivors(s) == Survivors(s[1..]);
        SubsequenceOfTail(Survivors(s[1..]), s);
      }
    }
  }

  lemma {:induction false} SubsequenceOfTail<T>(a: seq<T>, b: seq<T>)
    requires b != []
    requires Subsequence(a, b[1..])
    ensures Subsequence(a, b)
  {
  }

  /** Every survivor is alive and the pool only shrinks. */
  lemma {:induction false} SurvivorsAlive(s: seq<Particle>)
    ensures |Survivors(s)| <= |s|
    ensures forall i :: 0 <= i < |Survivors(s)| ==> !Survivors(s)[i].IsDead()
  {
    if s != [] {
      SurvivorsAlive(s[1..]);
    }
  }

  /** One frame of a pool: every particle is updated once, from the back of the
      pool to the front, and a particle found dead is spliced out at its index. */
  method UpdateAndCull(pool: seq<Particle>) returns (kept: seq<Particle>)
    requires Distinct(pool)
    modifies pool
    ensures forall i :: 0 <= i < |pool| ==> pool[i].lifespan == old(pool[i].lifespan) - Decay
    ensures kept == Survivors(pool)
  {
    kept := pool;
    var i := |pool|;
    while i > 0
      invariant 0 <= i <= |pool|
      invariant kept == pool[..i] + Survivors(pool[i..])
      invariant forall j :: 0 <= j < i ==> pool[j].lifespan == old(pool[j].lifespan)
      invariant forall j :: i <= j < |pool| ==> pool[j].lifespan == old(pool[j].lifespan) - Decay
    {
      i := i - 1;
      DistinctTail(pool, i);
      label before:
      kept := UpdateAt(pool, i, kept);
      forall j | 0 <= j < i
        ensures pool[j].lifespan == old@before(pool[j].lifespan)
      {
        assert pool[j] != pool[i];
      }
    }
    assert pool[0..] == pool;
  }

  /** The body of the cull loop at index `i`: update `kept[i]` and splice it out
      if it is now dead. */
  method UpdateAt(pool: seq<Particle>, i: nat, kept: seq<Particle>) returns (kept': seq<Particle>)
    requires i < |pool| && pool[i] !in pool[i + 1..]
    requires kept == pool[..i + 1] + Survivors(pool[i + 1..])
    modifies pool[i]
    ensures pool[i].lifespan == old(pool[i].lifespan) - Decay
    ensures kept' == pool[..i] + Survivors(pool[i..])
  {
    var p := kept[i];
    ghost var rest := pool[i + 1..];
    ghost var restKept := Survivors(rest);
    assert kept == pool[..i] + [p] + restKept by {
      assert pool[..i + 1] == pool[..i] + [p];
    }
    p.Update();
    assert Survivors(rest) == restKept;
    SurvivorsCons(pool, i);
    SpliceStep(pool[..i], p, restKept, kept, p.IsDead(), Survivors(pool[i..]));
    if p.IsDead() {
      kept' := kept[..i] + kept[i + 1..];
    } else {
      kept' := kept;
    }
  }

  /** Culling the pool from index i on: the particle at i, if alive, then the
      survivors after it. */
  lemma SurvivorsCons(pool: seq<Particle>, i: nat)
    requires i < |pool|
    ensures Survivors(pool[i..]) == (if pool[i].IsDead() then [] else [pool[i]]) + Survivors(pool[i + 1..])
  {
    assert pool[i..][1..] == pool[i + 1..];
  }

  lemma DistinctTail(pool: seq<Particle>, i: nat)
    requires Distinct(pool) && i < |pool|
    ensures pool[i] !in pool[i + 1..]
  {
    var rest := pool[i + 1..];
    forall k | 0 <= k < |rest|
      ensures rest[k] != pool[i]
    {
      assert rest[k] == pool[i + 1 + k];
    }
  }

  /** Splicing out index |prefix| of prefix + [p] + rest leaves prefix + rest. */
  lemma SpliceStep<T>(prefix: seq<T>, p: T, rest: seq<T>, kept: seq<T>, drop: bool, tail: seq<T>)
    requires kept == prefix + [p] + rest
    requires tail == (if drop then [] else [p]) + rest
    ensures (if drop then kept[..|prefix|] + kept[|prefix| + 1..] else kept) == prefix + tail
  {
    if drop {
      assert kept[..|prefix|] == prefix;
      assert kept[|prefix| + 1..] == rest;
    }
  }

  /** Pushes `count` fresh particles built with the given flags. */
  method PushNew(pool: seq<Particle>, count: nat, explode: bool, rise: bool)
    returns (grown: seq<Particle>, ghost born: seq<Particle>)
    ensures grown == pool + born && |born| == count
    ensures Distinct(born)
    ensures forall i :: 0 <= i < |born| ==> fresh(born[i])
    ensures forall i :: 0 <= i < |born| ==>
              born[i].kind == KindOf(explode, rise) && born[i].lifespan == InitialLifespan
  {
    grown, born := pool, [];
    for n := 0 to count
      invariant grown == pool + born && |born| == n
      invariant Distinct(born)
      invariant forall i :: 0 <= i < |born| ==> fresh(born[i])
      invariant forall i :: 0 <= i < |born| ==>
                  born[i].kind == KindOf(explode, rise) && born[i].lifespan == InitialLifespan
    {
      var p := new Particle(explode, rise);
      grown, born := grown + [p], born + [p];
    }
  }
}
