/** The two collision tests of a frame: laser against asteroid and ship
    against asteroid. Distances are compared squared, which avoids the square
    root and agrees with comparing the distance itself (SquaredTestAgrees). */
module Collision {
  import opened Entities

  function Sq(v: real): real { v * v }

  /** A laser, treated as a point, hits an asteroid when it is strictly
      closer to the asteroid's centre than the asteroid's radius. */
  predicate Hits(l: Laser, a: Asteroid)
  {
    Sq(l.x - a.x) + Sq(l.y - a.y) < Sq(a.size as real)
  }

  /** The ship collides with an asteroid when their centres are strictly
      closer than the sum of their radii. */
  predicate Collides(s: Ship, a: Asteroid)
  {
    Sq(s.x - a.x) + Sq(s.y - a.y) < Sq(s.size + a.size as real)
  }

  /** For a non-negative distance d and radius, d < radius exactly when
      d*d < radius*radius: the squared tests above are the source's tests. */
  lemma SquaredTestAgrees(d: real, radius: real)
    requires 0.0 <= d && 0.0 <= radius
    ensures d < radius <==> Sq(d) < Sq(radius)
  {
    // radius^2 - d^2 factors as (radius - d) * (radius + d), whose sign is
    // that of radius - d whenever radius + d is positive.
    var gap, sum := radius - d, radius + d;
    assert gap * sum == Sq(radius) - Sq(d);
    if d < radius {
      assert 0.0 < gap * sum;
    } else if 0.0 < sum {
      assert gap * sum <= 0.0;
    }
  }

  /** The asteroid a laser destroys: scanning from the last asteroid down,
      the first one it hits, i.e. the hit asteroid with the highest index. */
  function LastHit(l: Laser, rocks: seq<Asteroid>): (r: Option<nat>)
    ensures r.None? <==> forall k :: 0 <= k < |rocks| ==> !Hits(l, rocks[k])
    ensures r.Some? ==> r.value < |rocks| && Hits(l, rocks[r.value]) &&
                        forall k :: r.value < k < |rocks| ==> !Hits(l, rocks[k])
    decreases |rocks|
  {
    if rocks == [] then None
    else if Hits(l, rocks[|rocks| - 1]) then Some(|rocks| - 1)
    else LastHit(l, rocks[..|rocks| - 1])
  }

  /** The inner collision loop of the laser pass: j counts down from the
      last asteroid and stops at the first hit; -1 when nothing is hit. */
  method FindHit(l: Laser, rocks: seq<Asteroid>) returns (j: int)
    ensures -1 <= j < |rocks|
    ensures if j < 0 then LastHit(l, rocks) == None else LastHit(l, rocks) == Some(j as nat)
  {
    j := |rocks| - 1;
    while j >= 0
      invariant -1 <= j < |rocks|
      invariant forall k :: j < k < |rocks| ==> !Hits(l, rocks[k])
    {
      if Hits(l, rocks[j]) {
        return;
      }
      j := j - 1;
    }
  }

  /** The game-over loop: every asteroid is tested against the ship (the
      loop has no early exit); the game is over when any of them collides. */
  method ShipHit(s: Ship, rocks: seq<Asteroid>) returns (hit: bool)
    ensures hit <==> exists k :: 0 <= k < |rocks| && Collides(s, rocks[k])
  {
    hit := false;
    var i := 0;
    while i < |rocks|
      invariant 0 <= i <= |rocks|
      invariant hit <==> exists k :: 0 <= k < i && Collides(s, rocks[k])
    {
      if Collides(s, rocks[i]) {
        hit := true;
      }
      i := i + 1;
    }
  }
}
