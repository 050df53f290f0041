/** The particle pool of the cursor trail: a fixed stock of particles that `spawn`
    moves from `pool` to `active` and the frame loop moves back once their life is
    used up. Only the bookkeeping is modelled; a particle is just its age and its
    lifetime, in milliseconds. */
module Particles {

  /** `Math.max(min, Math.min(max, v))`. */
  function Clamp(v: real, min: real, max: real): (r: real)
    ensures min <= max ==> min <= r <= max
    ensures min <= v <= max ==> r == v
    ensures v < min ==> r == min
    ensures min <= max < v ==> r == max
  {
    var m := if max < v then max else v;
    if min < m then m else min
  }

  /** The size of the stock. */
  const Max: nat := 980

  /** The shortest and the longest lifetime `spawn` gives a particle. */
  const MinLife: real := 420.0
  const MaxLife: real := 1250.0

  /** A particle: the time it has been alive and the time it may live. */
  datatype Particle = Particle(life: real, max: real)

  /** A particle as `make` creates it. */
  const Fresh: Particle := Particle(0.0, 0.0)

  /** A particle one frame of `dt` milliseconds older. */
  function Age(p: Particle, dt: real): Particle {
    p.(life := p.life + dt)
  }

  /** The particle has lived its lifetime. */
  predicate Dead(p: Particle) {
    p.life >= p.max
  }

  /** The source tests `life / max >= 1`, which for a positive lifetime is `Dead`. */
  lemma {:induction false} DeadByRatio(p: Particle)
    requires p.max > 0.0
    ensures p.life / p.max >= 1.0 <==> Dead(p)
  {
    assert p.life == (p.life / p.max) * p.max;
  }

  /** The particles of `s` alive after one more frame, aged, in order. */
  function Survivors(s: seq<Particle>, dt: real): seq<Particle> {
    if s == [] then []
    else
      var p := Age(s[0], dt);
      (if Dead(p) then [] else [p]) + Survivors(s[1..], dt)
  }

  /** The particles of `s` that die in that frame, aged, in order. */
  function Expired(s: seq<Particle>, dt: real): seq<Particle> {
    if s == [] then []
    else
      var p := Age(s[0], dt);
      (if Dead(p) then [p] else []) + Expired(s[1..], dt)
  }

  /** A frame splits the active particles: every one of them, aged by `dt`, ends up
      among the survivors if it is still alive and among the expired otherwise. */
  lemma {:induction false} CullPartition(s: seq<Particle>, dt: real)
    ensures |Survivors(s, dt)| + |Expired(s, dt)| == |s|
    ensures forall p :: p in Survivors(s, dt) <==> !Dead(p) && exists q | q in s :: p == Age(q, dt)
    ensures forall p :: p in Expired(s, dt) <==> Dead(p) && exists q | q in s :: p == Age(q, dt)
  {
    if s != [] {
      CullPartition(s[1..], dt);
      assert forall q :: q in s <==> q == s[0] || q in s[1..];
    }
  }

  /** Unfolding `Survivors` and `Expired` at position `i`. */
  lemma {:induction false} CullAt(s: seq<Particle>, i: nat, dt: real)
    requires i < |s|
    ensures var p := Age(s[i], dt);
      && Survivors(s[i..], dt) == (if Dead(p) then [] else [p]) + Survivors(s[i + 1..], dt)
      && Expired(s[i..], dt) == (if Dead(p) then [p] else []) + Expired(s[i + 1..], dt)
  {
    assert s[i..][1..] == s[i + 1..];
  }

  /** Every particle of `s` has a lifetime of at least `MinLife`. */
  predicate Lifetimes(s: seq<Particle>) {
    forall j | 0 <= j < |s| :: MinLife <= s[j].max
  }

  /** The cull of the particle at `n - 1` when it has died: the last active particle
      takes its place and the list loses its last element. */
  lemma {:induction false} RemoveStep(act: seq<Particle>, a0: seq<Particle>, n: nat, dt: real)
    requires 0 < n <= |act| && n <= |a0| && act[..n] == a0[..n] && Lifetimes(act)
    requires multiset(act[n..]) == multiset(Survivors(a0[n..], dt))
    requires Dead(Age(a0[n - 1], dt))
    ensures var t := act[n - 1 := act[|act| - 1]][..|act| - 1];
      && t[..n - 1] == a0[..n - 1] && Lifetimes(t)
      && multiset(t[n - 1..]) == multiset(Survivors(a0[n - 1..], dt))
  {
    var i := n - 1;
    SwapRemove(act, i);
    PrefixOfPrefix(act, a0, i, n);
    CullAt(a0, i, dt);
  }

  lemma {:induction false} PrefixOfPrefix(a: seq<Particle>, b: seq<Particle>, i: nat, n: nat)
    requires i <= n <= |a| && n <= |b| && a[..n] == b[..n]
    ensures a[..i] == b[..i]
  {
    assert a[..i] == a[..n][..i];
    assert b[..i] == b[..n][..i];
  }

  /** Putting the last element in place of element `i` and dropping the last leaves
      the elements before `i` where they were and the others in some order. */
  lemma {:induction false} SwapRemove(s: seq<Particle>, i: nat)
    requires i < |s| && Lifetimes(s)
    ensures var t := s[i := s[|s| - 1]][..|s| - 1];
      && |t| == |s| - 1 && t[..i] == s[..i] && Lifetimes(t)
      && multiset(t[i..]) == multiset(s[i + 1..])
  {
    var t := s[i := s[|s| - 1]][..|s| - 1];
    assert t[..i] == s[..i];
    if i < |s| - 1 {
      assert t[i..] == [s[|s| - 1]] + s[i + 1..|s| - 1];
      assert s[i + 1..] == s[i + 1..|s| - 1] + [s[|s| - 1]];
    }
    assert forall j | 0 <= j < |t| :: t[j] == s[j] || t[j] == s[|s| - 1];
  }

  /** The cull of the particle at `n - 1` when it lives on: it is replaced by its
      older self. */
  lemma {:induction false} KeepStep(act: seq<Particle>, a0: seq<Particle>, n: nat, dt: real)
    requires 0 < n <= |act| && n <= |a0| && act[..n] == a0[..n] && Lifetimes(act)
    requires multiset(act[n..]) == multiset(Survivors(a0[n..], dt))
    requires !Dead(Age(a0[n - 1], dt))
    ensures var t := act[n - 1 := Age(act[n - 1], dt)];
      && t[..n - 1] == a0[..n - 1] && Lifetimes(t)
      && multiset(t[n - 1..]) == multiset(Survivors(a0[n - 1..], dt))
      && Expired(a0[n - 1..], dt) == Expired(a0[n..], dt)
  {
    var i := n - 1;
    var t := act[i := Age(act[i], dt)];
    assert act[i] == act[..n][i] == a0[i];
    PrefixOfPrefix(act, a0, i, n);
    assert t[..i] == act[..i];
    assert t[n..] == act[n..];
    assert t[i..] == [Age(a0[i], dt)] + act[n..];
    CullAt(a0, i, dt);
  }

  /** The pool gains the particle that died at `n - 1`. */
  lemma {:induction false} ReturnStep(pool: seq<Particle>, p0: seq<Particle>, a0: seq<Particle>, n: nat, dt: real)
    requires |p0| <= |pool| && pool[..|p0|] == p0 && 0 < n <= |a0|
    requires multiset(pool[|p0|..]) == multiset(Expired(a0[n..], dt))
    requires Dead(Age(a0[n - 1], dt))
    ensures var q := pool + [Age(a0[n - 1], dt)];
      && q[..|p0|] == p0 && multiset(q[|p0|..]) == multiset(Expired(a0[n - 1..], dt))
  {
    var q := pool + [Age(a0[n - 1], dt)];
    assert q[..|p0|] == pool[..|p0|];
    assert q[|p0|..] == pool[|p0|..] + [Age(a0[n - 1], dt)];
    CullAt(a0, n - 1, dt);
  }

  /** The state of the cull loop of `draw` with `n` particles still to visit: those
      are untouched, the visited ones are the survivors of their part of `a0`, and the
      pool is its old self `p0` followed by the particles that expired so far. */
  predicate CullState(act: seq<Particle>, pl: seq<Particle>, a0: seq<Particle>, p0: seq<Particle>,
                      n: nat, dt: real)
  {
    && n <= |act| && n <= |a0| && act[..n] == a0[..n] && Lifetimes(act)
    && multiset(act[n..]) == multiset(Survivors(a0[n..], dt))
    && |p0| <= |pl| && pl[..|p0|] == p0
    && multiset(pl[|p0|..]) == multiset(Expired(a0[n..], dt))
  }

  /** A dead particle is swapped out of the active list and into the pool. */
  lemma {:induction false} DeadStep(act: seq<Particle>, pl: seq<Particle>, a0: seq<Particle>, p0: seq<Particle>,
                 n: nat, dt: real)
    requires CullState(act, pl, a0, p0, n, dt) && 0 < n
    requires Dead(Age(act[n - 1], dt))
    ensures act[n - 1] == a0[n - 1]
    ensures CullState(act[n - 1 := act[|act| - 1]][..|act| - 1], pl + [Age(act[n - 1], dt)],
                      a0, p0, n - 1, dt)
  {
    assert act[n - 1] == act[..n][n - 1] == a0[n - 1];
    RemoveStep(act, a0, n, dt);
    ReturnStep(pl, p0, a0, n, dt);
  }

  /** A live particle is aged where it stands. */
  lemma {:induction false} LiveStep(act: seq<Particle>, pl: seq<Particle>, a0: seq<Particle>, p0: seq<Particle>,
                 n: nat, dt: real)
    requires CullState(act, pl, a0, p0, n, dt) && 0 < n
    requires !Dead(Age(act[n - 1], dt))
    ensures CullState(act[n - 1 := Age(act[n - 1], dt)], pl, a0, p0, n - 1, dt)
  {
    assert act[n - 1] == act[..n][n - 1] == a0[n - 1];
    KeepStep(act, a0, n, dt);
  }

  /** Once every particle is visited, the lists are the cull of the whole of `a0`. */
  lemma {:induction false} CullDone(act: seq<Particle>, pl: seq<Particle>, a0: seq<Particle>, p0: seq<Particle>, dt: real)
    requires CullState(act, pl, a0, p0, 0, dt)
    ensures multiset(act) == multiset(Survivors(a0, dt))
    ensures multiset(pl[|p0|..]) == multiset(Expired(a0, dt))
  {
    assert a0[0..] == a0 && act[0..] == act;
  }

  /** Before the first visit nothing has changed. */
  lemma {:induction false} CullStart(act: seq<Particle>, pl: seq<Particle>, dt: real)
    requires Lifetimes(act)
    ensures CullState(act, pl, act, pl, |act|, dt)
  {
    assert act[|act|..] == [] && pl[|pl|..] == [];
  }

  /** `Math.round(dist * 0.62)` trail steps, clamped to 6..44: the number of
      particles a mouse move asks for. */
  function SpawnCount(dist: real): (n: nat)
    ensures 6 <= n <= 44
  {
    var c := Clamp((dist * 0.62 + 0.5).Floor as real, 6.0, 44.0);
    c.Floor
  }

  /** The particles a move starts: the `i`-th gets lifetime `lifetime(i)` clamped to
      420..1250, where `lifetime(i)` stands for `520 + dist * 7 + rand(-120, 220)`. */
  function Born(lifetime: nat -> real, k: nat): (r: seq<Particle>)
    ensures |r| == k
    ensures forall i | 0 <= i < k :: r[i] == Particle(0.0, Clamp(lifetime(i), MinLife, MaxLife))
  {
    seq(k, i requires 0 <= i => Particle(0.0, Clamp(lifetime(i), MinLife, MaxLife)))
  }

  /** The frame length `tick` passes on: the time since the last frame, or 0 for the
      first one, clamped to 8..34 ms. */
  function FrameDelta(now: real, lastT: real): (dt: real)
    ensures 8.0 <= dt <= 34.0
    ensures lastT == 0.0 ==> dt == 8.0
    ensures lastT != 0.0 && 8.0 <= now - lastT <= 34.0 ==> dt == now - lastT
  {
    var last := if lastT == 0.0 then now else lastT;
    Clamp(now - last, 8.0, 34.0)
  }

  /** The mouse position the next move is measured from. */
  class Trail {
    var oldX: real
    var oldY: real

    constructor (x: real, y: real)
      ensures oldX == x && oldY == y
    {
      oldX, oldY := x, y;
    }
  }

  class Swarm {
    var pool: seq<Particle>
    var active: seq<Particle>

    /** Every particle is in exactly one of the two lists, and every active one has
        the lifetime `spawn` gave it. */
    predicate Valid()
      reads this
    {
      && |pool| + |active| == Max
      && Lifetimes(active)
    }

    /** The stock of `MAX` fresh particles, none of them active. */
    constructor ()
      ensures Valid()
      ensures pool == seq(Max, _ => Fresh) && active == []
    {
      var stock: seq<Particle> := [];
      for i := 0 to Max
        invariant stock == seq(i, _ => Fresh)
      {
        stock := stock + [Fresh];
      }
      pool := stock;
      active := [];
    }

    /** `spawn`: the last particle of the pool, reborn with the given lifetime, joins
        the active ones; with an empty pool nothing happens. */
    method Spawn(lifetime: real)
      requires Valid()
      modifies this
      ensures Valid()
      ensures old(pool) == [] ==> pool == old(pool) && active == old(active)
      ensures old(pool) != [] ==>
        && pool == old(pool)[..|old(pool)| - 1]
        && active == old(active) + [Particle(0.0, Clamp(lifetime, MinLife, MaxLife))]
    {
      if |pool| == 0 {
        return;
      }
      var p := pool[|pool| - 1];
      pool := pool[..|pool| - 1];
      p := p.(life := 0.0, max := Clamp(lifetime, MinLife, MaxLife));
      active := active + [p];
    }

    /** `updateTrail` for a move to `(x, y)` over `dist` pixels: a move of at most
        0.01 px starts nothing; a longer one asks for `SpawnCount(dist)` particles, of
        which the pool gives as many as it has. Either way the trail continues from
        `(x, y)`. `dist` stands for the `Math.hypot` of the step, which is never
        negative. */
    method Move(trail: Trail, x: real, y: real, dist: real, lifetime: nat -> real)
      requires Valid()
      requires dist >= 0.0
      modifies this, trail
      ensures Valid()
      ensures trail.oldX == x && trail.oldY == y
      ensures dist <= 0.01 ==> pool == old(pool) && active == old(active)
      ensures dist > 0.01 ==>
        var k := if SpawnCount(dist) < |old(pool)| then SpawnCount(dist) else |old(pool)|;
        && pool == old(pool)[..|old(pool)| - k]
        && active == old(active) + Born(lifetime, k)
    {
      if dist <= 0.01 {
        trail.oldX, trail.oldY := x, y;
        return;
      }
      var perMouse := SpawnCount(dist);
      ghost var k := 0;
      for i := 0 to perMouse
        invariant Valid()
        invariant k == if i < |old(pool)| then i else |old(pool)|
        invariant pool == old(pool)[..|old(pool)| - k]
        invariant active == old(active) + Born(lifetime, k)
      {
        Spawn(lifetime(i));
        if k < |old(pool)| {
          k := k + 1;
        }
      }
      trail.oldX, trail.oldY := x, y;
    }

    /** The bookkeeping of `draw`: from the last active particle to the first, each
        grows `dt` older, and one that has lived its lifetime takes the place of the
        last one, which is dropped, and goes back to the pool. The pool keeps what it
        had and gains the expired particles; the active list keeps the survivors. */
    method Draw(dt: real)
      requires Valid()
      modifies this
      ensures Valid()
      ensures |old(pool)| <= |pool| && pool[..|old(pool)|] == old(pool)
      ensures multiset(pool[|old(pool)|..]) == multiset(Expired(old(active), dt))
      ensures multiset(active) == multiset(Survivors(old(active), dt))
    {
      ghost var a0 := active;
      ghost var p0 := pool;
      var act, pl := active, pool;
      var n: nat := |act|;
      CullStart(act, pl, dt);
      while n > 0
        invariant |pl| + |act| == Max
        invariant CullState(act, pl, a0, p0, n, dt)
        decreases n
      {
        var i := n - 1;
        var p := act[i];
        p := p.(life := p.life + dt);
        assert p == Age(act[i], dt);
        DeadByRatio(p);
        var k := p.life / p.max;
        if k >= 1.0 {
          DeadStep(act, pl, a0, p0, n, dt);
          act := act[i := act[|act| - 1]][..|act| - 1];
          pl := pl + [p];
        } else {
          LiveStep(act, pl, a0, p0, n, dt);
          act := act[i := p];
        }
        n := i;
      }
      CullDone(act, pl, a0, p0, dt);
      active, pool := act, pl;
    }
  }
}
