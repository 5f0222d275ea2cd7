/** The records of the asteroid game's simulation state, its tuning constants
    and the invariants every record keeps between two frames. */
module Entities {

  datatype Option<T> = None | Some(value: T)

  /** Speed added per frame while the thrust key is held. */
  const Thrust: real := 0.05
  /** Angle (radians) turned per frame while a turn key is held. */
  const RotationSpeed: real := 0.05
  /** The ship's collision radius. */
  const ShipSize: real := 20.0
  /** Factor applied to the ship's speed on a frame without thrust. */
  const Drag: real := 0.98
  /** Speed every asteroid is given when it is spawned. */
  const AsteroidSpeed: real := 1.0
  /** Number of asteroids spawned when the game starts. */
  const AsteroidCount: nat := 5
  /** Asteroid radii are MinAsteroidSize + floor(roll * AsteroidSizeSpan). */
  const MinAsteroidSize: int := 20
  const AsteroidSizeSpan: int := 30
  /** A laser's fixed speed and its lifetime in frames. */
  const LaserSpeed: real := 5.0
  const LaserLife: int := 100

  datatype Ship = Ship(x: real, y: real, angle: real, speed: real,
                       thrust: real, rotationSpeed: real, size: real)

  datatype Asteroid = Asteroid(x: real, y: real, angle: real, size: int, speed: real)

  datatype Laser = Laser(x: real, y: real, angle: real, speed: real, life: int)

  /** The keys read by one frame: ArrowUp (thrust), ArrowLeft and ArrowRight. */
  datatype Keys = Keys(up: bool, left: bool, right: bool)

  /** The host's trigonometry, as the two components of a step of length r
      along heading theta: dx(r, theta) = r * cos(theta) and
      dy(r, theta) = r * sin(theta). */
  datatype Trig = Trig(dx: (real, real) -> real, dy: (real, real) -> real)

  /** The values one spawn draws from the random source, in the order the
      spawner draws them: the size roll, the side roll, the height roll, and
      the heading (already scaled to radians). */
  datatype Draw = Draw(sizeRoll: real, sideRoll: real, yRoll: real, heading: real)

  /** What one frame sees of the outside world: the canvas size, the
      trigonometric functions and the stream of random draws. */
  datatype Env = Env(width: real, height: real, trig: Trig, rng: nat -> Draw)

  /** Every roll of a uniform random source lies in [0, 1). */
  predicate ValidDraw(d: Draw)
  {
    0.0 <= d.sizeRoll < 1.0 && 0.0 <= d.sideRoll < 1.0 && 0.0 <= d.yRoll < 1.0
  }

  ghost predicate ValidEnv(env: Env)
  {
    0.0 <= env.width && 0.0 <= env.height &&
    forall n: nat :: ValidDraw(env.rng(n))
  }

  /** v lies on an axis of length extent widened by margin on both ends. */
  predicate InBox(v: real, extent: real, margin: real)
  {
    -margin <= v <= extent + margin
  }

  predicate ShipOk(s: Ship, width: real, height: real)
  {
    0.0 <= s.speed && s.thrust == Thrust && s.rotationSpeed == RotationSpeed &&
    s.size == ShipSize && InBox(s.x, width, s.size) && InBox(s.y, height, s.size)
  }

  predicate AsteroidOk(a: Asteroid, width: real, height: real)
  {
    MinAsteroidSize <= a.size < MinAsteroidSize + AsteroidSizeSpan &&
    a.speed == AsteroidSpeed &&
    InBox(a.x, width, a.size as real) && InBox(a.y, height, a.size as real)
  }

  predicate LaserOk(l: Laser)
  {
    0 < l.life <= LaserLife && l.speed == LaserSpeed
  }

  predicate AllAsteroidsOk(rocks: seq<Asteroid>, width: real, height: real)
  {
    forall k :: 0 <= k < |rocks| ==> AsteroidOk(rocks[k], width, height)
  }

  predicate AllLasersOk(lasers: seq<Laser>)
  {
    forall k :: 0 <= k < |lasers| ==> LaserOk(lasers[k])
  }
}
