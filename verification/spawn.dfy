/** The two spawners: a new asteroid just off the left or right edge, and a
    laser fired from the ship's nose. */
module Spawning {
  import opened Entities

  /** The asteroid createAsteroid builds from one draw of the random source. */
  function Spawn(d: Draw, width: real, height: real): (a: Asteroid)
    ensures ValidDraw(d) ==> MinAsteroidSize <= a.size < MinAsteroidSize + AsteroidSizeSpan
    ensures a.x == if d.sideRoll < 0.5 then -(a.size as real) else width + a.size as real
    ensures ValidDraw(d) && 0.0 <= height ==> 0.0 <= a.y <= height
    ensures a.angle == d.heading && a.speed == AsteroidSpeed
    ensures ValidDraw(d) && 0.0 <= width && 0.0 <= height ==> AsteroidOk(a, width, height)
  {
    var size := SizeFromRoll(d.sizeRoll);
    var x := if d.sideRoll < 0.5 then 0.0 - size as real else width + size as real;
    Asteroid(x, ScaleRoll(d.yRoll, height), d.heading, size, AsteroidSpeed)
  }

  /** floor(roll * 30) + 20: a roll in [0, 1) gives a radius in 20..49. */
  function SizeFromRoll(roll: real): (size: int)
    ensures 0.0 <= roll < 1.0 ==> MinAsteroidSize <= size < MinAsteroidSize + AsteroidSizeSpan
  {
    var scaled := roll * AsteroidSizeSpan as real;
    assert 0.0 <= roll < 1.0 ==> 0.0 <= scaled < AsteroidSizeSpan as real;
    scaled.Floor + MinAsteroidSize
  }

  /** roll * extent: a roll in [0, 1) scaled by a non-negative extent stays
      within [0, extent]. */
  function ScaleRoll(roll: real, extent: real): (r: real)
    ensures 0.0 <= roll <= 1.0 && 0.0 <= extent ==> 0.0 <= r <= extent
  {
    ProductSign(roll, extent);
    ProductSign(1.0 - roll, extent);
    roll * extent
  }

  /** The product of two non-negative reals is non-negative. */
  lemma ProductSign(a: real, b: real)
    ensures 0.0 <= a && 0.0 <= b ==> 0.0 <= a * b
  {
  }

  /** The laser shootLaser builds: at the ship's nose, along its heading,
      with the fixed laser speed and a full lifetime. */
  function Fire(s: Ship, trig: Trig): (l: Laser)
    ensures l.x == s.x + trig.dx(s.size, s.angle) && l.y == s.y + trig.dy(s.size, s.angle)
    ensures l.angle == s.angle && l.speed == LaserSpeed && l.life == LaserLife
    ensures LaserOk(l)
  {
    Laser(s.x + trig.dx(s.size, s.angle), s.y + trig.dy(s.size, s.angle),
          s.angle, LaserSpeed, LaserLife)
  }
}
