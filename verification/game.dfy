/** The game's mutable state and the frame update that changes it: the ship,
    the asteroid and laser lists (sequence fields, reassigned with the
    spliced or extended sequence as the frame runs) and the score. */
module Game {
  import opened Entities
  import opened Motion
  import opened Collision
  import opened Spawning
  import opened LaserPass

  class GameState {
    /** The canvas size. */
    const width: real
    const height: real
    var ship: Ship
    var asteroids: seq<Asteroid>
    var lasers: seq<Laser>
    var score: nat

    /** Between frames: the ship keeps its constants, a non-negative speed
        and a place on the field widened by its radius; every asteroid keeps
        its size range, its speed and a place on the field widened by its
        radius; every laser keeps its speed and some life. */
    ghost predicate Valid()
      reads this
    {
      0.0 <= width && 0.0 <= height &&
      ShipOk(ship, width, height) &&
      AllAsteroidsOk(asteroids, width, height) &&
      AllLasersOk(lasers)
    }

    /** The state at page load: the ship at rest in the centre, heading 0,
        AsteroidCount asteroids spawned in turn, no lasers, score 0. */
    constructor (width: real, height: real, rng: nat -> Draw)
      requires 0.0 <= width && 0.0 <= height
      requires forall n: nat :: ValidDraw(rng(n))
      ensures Valid()
      ensures this.width == width && this.height == height
      ensures ship == Ship(width / 2.0, height / 2.0, 0.0, 0.0, Thrust, RotationSpeed, ShipSize)
      ensures |asteroids| == AsteroidCount
      ensures forall k :: 0 <= k < AsteroidCount ==> asteroids[k] == Spawn(rng(k), width, height)
      ensures lasers == [] && score == 0
    {
      this.width := width;
      this.height := height;
      ship := Ship(width / 2.0, height / 2.0, 0.0, 0.0, Thrust, RotationSpeed, ShipSize);
      asteroids := [];
      lasers := [];
      score := 0;
      new;
      var i := 0;
      while i < AsteroidCount
        invariant 0 <= i <= AsteroidCount
        invariant Valid()
        invariant ship == Ship(width / 2.0, height / 2.0, 0.0, 0.0, Thrust, RotationSpeed, ShipSize)
        invariant lasers == [] && score == 0
        invariant |asteroids| == i
        invariant forall k :: 0 <= k < i ==> asteroids[k] == Spawn(rng(k), width, height)
      {
        CreateAsteroid(rng(i));
        i := i + 1;
      }
    }

    /** createAsteroid: pushes exactly one asteroid, built from one draw. */
    method CreateAsteroid(d: Draw)
      requires Valid() && ValidDraw(d)
      modifies this`asteroids
      ensures Valid()
      ensures asteroids == old(asteroids) + [Spawn(d, width, height)]
    {
      asteroids := asteroids + [Spawn(d, width, height)];
    }

    /** shootLaser: pushes exactly one laser at the ship's nose. */
    method ShootLaser(trig: Trig)
      requires Valid()
      modifies this`lasers
      ensures Valid()
      ensures lasers == old(lasers) + [Fire(ship, trig)]
    {
      lasers := lasers + [Fire(ship, trig)];
    }

    /** The ship part of update: the control step, moving along the
        heading, and the screen wrap. */
    method SteerShip(keys: Keys, trig: Trig)
      requires Valid()
      modifies this`ship
      ensures Valid()
      ensures ship == StepShip(old(ship), keys, width, height, trig)
    {
      ControlShip(keys);
      ship := ship.(x := ship.x + trig.dx(ship.speed, ship.angle));
      ship := ship.(y := ship.y + trig.dy(ship.speed, ship.angle));
      WrapShip();
    }

    /** Thrust or drag on the speed, then the two turn keys on the angle. */
    method ControlShip(keys: Keys)
      modifies this`ship
      ensures ship == old(ship).(speed := ControlSpeed(old(ship.speed), old(ship.thrust), keys.up),
                                 angle := Turn(old(ship.angle), old(ship.rotationSpeed), keys.left, keys.right))
    {
      if keys.up {
        ship := ship.(speed := ship.speed + ship.thrust);
      } else {
        ship := ship.(speed := ship.speed * Drag);
      }
      if keys.left {
        ship := ship.(angle := ship.angle - ship.rotationSpeed);
      }
      if keys.right {
        ship := ship.(angle := ship.angle + ship.rotationSpeed);
      }
    }

    /** The four guarded wrap assignments for the ship. */
    method WrapShip()
      modifies this`ship
      ensures ship == old(ship).(x := Wrap(old(ship.x), width, old(ship.size)),
                                 y := Wrap(old(ship.y), height, old(ship.size)))
    {
      if ship.x < 0.0 - ship.size { ship := ship.(x := width + ship.size); }
      if ship.x > width + ship.size { ship := ship.(x := 0.0 - ship.size); }
      if ship.y < 0.0 - ship.size { ship := ship.(y := height + ship.size); }
      if ship.y > height + ship.size { ship := ship.(y := 0.0 - ship.size); }
    }

    /** The asteroid part of update: each asteroid, in place, moves along its
        heading and wraps. */
    method MoveAsteroids(trig: Trig)
      requires Valid()
      modifies this`asteroids
      ensures Valid()
      ensures asteroids == Drift(old(asteroids), width, height, trig)
    {
      var k := 0;
      while k < |asteroids|
        invariant 0 <= k <= |asteroids| == |old(asteroids)|
        invariant forall m :: 0 <= m < k ==>
                    asteroids[m] == MoveAsteroid(old(asteroids)[m], width, height, trig)
        invariant forall m :: k <= m < |asteroids| ==> asteroids[m] == old(asteroids)[m]
      {
        var a := StepAsteroid(asteroids[k], trig);
        asteroids := asteroids[k := a];
        k := k + 1;
      }
    }

    /** The forEach body for one asteroid: it moves along its heading, then
        the four guarded assignments wrap it. */
    method StepAsteroid(a: Asteroid, trig: Trig) returns (r: Asteroid)
      ensures r == MoveAsteroid(a, width, height, trig)
    {
      r := a.(x := a.x + trig.dx(a.speed, a.angle));
      r := r.(y := r.y + trig.dy(r.speed, r.angle));
      ghost var moved := r;
      if r.x < 0.0 - r.size as real { r := r.(x := width + r.size as real); }
      if r.x > width + r.size as real { r := r.(x := 0.0 - r.size as real); }
      if r.y < 0.0 - r.size as real { r := r.(y := height + r.size as real); }
      if r.y > height + r.size as real { r := r.(y := 0.0 - r.size as real); }
      assert r == moved.(x := Wrap(moved.x, width, r.size as real),
                         y := Wrap(moved.y, height, r.size as real));
    }

    /** The laser part of update: i counts down over the lasers and each
        turn of the loop is VisitLaser. Splicing at i only shifts lasers
        already visited, so the unvisited prefix stays as it was. */
    method MoveLasers(trig: Trig, rng: nat -> Draw)
      requires Valid()
      requires forall n: nat :: ValidDraw(rng(n))
      modifies this`lasers, this`asteroids, this`score
      ensures Valid()
      ensures var r := Pass(old(lasers), PassState([], old(asteroids), 0), Env(width, height, trig, rng));
              lasers == r.lasers && asteroids == r.asteroids && score == old(score) + r.hits
    {
      ghost var env := Env(width, height, trig, rng);
      ghost var target := Pass(lasers, PassState([], asteroids, 0), env);
      var score0 := score;
      var i := |lasers| - 1;
      assert lasers[..i + 1] == lasers && lasers[i + 1..] == [];
      while i >= 0
        invariant -1 <= i < |lasers|
        invariant lasers[..i + 1] == old(lasers)[..i + 1]
        invariant score0 <= score
        invariant Valid()
        invariant target == Pass(lasers[..i + 1], PassState(lasers[i + 1..], asteroids, score - score0), env)
        decreases i
      {
        ghost var pending := lasers[..i + 1];
        VisitLaser(i, trig, rng, score0);
        assert pending[..i] == lasers[..i];
        i := i - 1;
      }
      assert lasers[..0] == [] && lasers[0..] == lasers;
    }

    /** One turn of the laser loop, at index i: the laser is advanced and
        aged in place, spliced out when culled, and otherwise tested against
        the asteroids from the last down; on the first hit the asteroid and
        the laser are spliced out, the score goes up by one and a new
        asteroid is pushed. The hits of this frame so far are score - score0. */
    method VisitLaser(i: nat, trig: Trig, rng: nat -> Draw, score0: nat)
      requires Valid() && i < |lasers| && score0 <= score
      requires forall n: nat :: ValidDraw(rng(n))
      modifies this`lasers, this`asteroids, this`score
      ensures Valid() && score0 <= score
      ensures i <= |lasers| && lasers[..i] == old(lasers[..i])
      ensures PassState(lasers[i..], asteroids, score - score0) ==
              Visit(Advance(old(lasers[i]), trig),
                    PassState(old(lasers[i + 1..]), old(asteroids), old(score) - score0),
                    Env(width, height, trig, rng))
    {
      lasers := lasers[i := Advance(lasers[i], trig)];
      if Culled(lasers[i], width, height) {
        lasers := Splice(lasers, i);
      } else {
        var j := FindHit(lasers[i], asteroids);
        if j >= 0 {
          var draw := rng(score - score0);
          asteroids := Splice(asteroids, j);
          lasers := Splice(lasers, i);
          score := score + 1;
          CreateAsteroid(draw);
        }
      }
    }

    /** One frame of update: ship, asteroids, lasers, then the game-over
        test against every asteroid, including those spawned this frame. */
    method Update(keys: Keys, trig: Trig, rng: nat -> Draw) returns (gameOver: bool)
      requires Valid()
      requires forall n: nat :: ValidDraw(rng(n))
      modifies this`ship, this`lasers, this`asteroids, this`score
      ensures Valid()
      ensures ship == StepShip(old(ship), keys, width, height, trig)
      ensures var r := Pass(old(lasers), PassState([], Drift(old(asteroids), width, height, trig), 0),
                            Env(width, height, trig, rng));
              lasers == r.lasers && asteroids == r.asteroids && score == old(score) + r.hits
      ensures |asteroids| == old(|asteroids|)
      ensures |lasers| + (score - old(score)) <= old(|lasers|)
      ensures forall m :: 0 <= m < |lasers| ==>
                (exists k :: 0 <= k < |old(lasers)| && lasers[m] == Advance(old(lasers)[k], trig)) &&
                0 < lasers[m].life && 0.0 <= lasers[m].x <= width && 0.0 <= lasers[m].y <= height
      ensures gameOver <==> exists k :: 0 <= k < |asteroids| && Collides(ship, asteroids[k])
    {
      ghost var env := Env(width, height, trig, rng);
      SteerShip(keys, trig);
      MoveAsteroids(trig);
      ghost var drifted := asteroids;
      MoveLasers(trig, rng);
      ghost var start := PassState([], drifted, 0);
      PassKeepsPopulation(old(lasers), start, env);
      PassOutcome(old(lasers), start, env);
      KeptLasersInField(old(lasers), start, env);
      KeptLasersAdvanced(old(lasers), start, env);
      gameOver := ShipHit(ship, asteroids);
    }
  }
}
