/** Per-frame motion of the ship and the asteroids: the thrust/drag and turn
    controls, forward movement along the heading, and the screen wrap. */
module Motion {
  import opened Entities

  /** One axis of the screen wrap: an entity that has left the axis by more
      than its margin on one end reappears just beyond the other end. */
  function Wrap(v: real, extent: real, margin: real): (r: real)
    ensures -margin <= extent + margin ==> InBox(r, extent, margin)
    ensures InBox(v, extent, margin) ==> r == v
    ensures v < -margin ==> r == extent + margin
    ensures extent + margin < v && -margin <= v ==> r == -margin
  {
    var v' := if v < -margin then extent + margin else v;
    if v' > extent + margin then -margin else v'
  }

  /** Wrapping a position a second time changes nothing. */
  lemma WrapIdempotent(v: real, extent: real, margin: real)
    requires -margin <= extent + margin
    ensures Wrap(Wrap(v, extent, margin), extent, margin) == Wrap(v, extent, margin)
  {
  }

  /** The ship's new speed: thrust adds, otherwise drag shrinks it. */
  function ControlSpeed(speed: real, thrust: real, thrusting: bool): (r: real)
    ensures thrusting ==> r == speed + thrust
    ensures 0.0 <= speed && 0.0 <= thrust ==> 0.0 <= r
    ensures !thrusting && 0.0 < speed ==> 0.0 < r < speed
    ensures !thrusting && speed == 0.0 ==> r == 0.0
  {
    if thrusting then speed + thrust else speed * Drag
  }

  /** The ship's new heading: left turns back, right turns forward. */
  function Turn(angle: real, rotationSpeed: real, left: bool, right: bool): (r: real)
    ensures left == right ==> r == angle
    ensures left && !right ==> r == angle - rotationSpeed
    ensures right && !left ==> r == angle + rotationSpeed
  {
    var a := if left then angle - rotationSpeed else angle;
    if right then a + rotationSpeed else a
  }

  /** The ship after one frame's control step, movement and wrap. */
  function StepShip(s: Ship, keys: Keys, width: real, height: real, trig: Trig): (r: Ship)
    ensures r.speed == ControlSpeed(s.speed, s.thrust, keys.up)
    ensures r.angle == Turn(s.angle, s.rotationSpeed, keys.left, keys.right)
    ensures r.thrust == s.thrust && r.rotationSpeed == s.rotationSpeed && r.size == s.size
    ensures r.x == Wrap(s.x + trig.dx(r.speed, r.angle), width, s.size)
    ensures r.y == Wrap(s.y + trig.dy(r.speed, r.angle), height, s.size)
    ensures 0.0 <= width && 0.0 <= height && ShipOk(s, width, height) ==> ShipOk(r, width, height)
  {
    var steered := s.(speed := ControlSpeed(s.speed, s.thrust, keys.up),
                      angle := Turn(s.angle, s.rotationSpeed, keys.left, keys.right));
    var moved := steered.(x := steered.x + trig.dx(steered.speed, steered.angle),
                          y := steered.y + trig.dy(steered.speed, steered.angle));
    moved.(x := Wrap(moved.x, width, moved.size), y := Wrap(moved.y, height, moved.size))
  }

  /** An asteroid after one frame: it keeps heading, size and speed, and its
      wrapped position stays on the widened field. */
  function MoveAsteroid(a: Asteroid, width: real, height: real, trig: Trig): (r: Asteroid)
    ensures r.angle == a.angle && r.size == a.size && r.speed == a.speed
    ensures r.x == Wrap(a.x + trig.dx(a.speed, a.angle), width, a.size as real)
    ensures r.y == Wrap(a.y + trig.dy(a.speed, a.angle), height, a.size as real)
    ensures 0 <= a.size && 0.0 <= width ==> InBox(r.x, width, a.size as real)
    ensures 0 <= a.size && 0.0 <= height ==> InBox(r.y, height, a.size as real)
    ensures 0.0 <= width && 0.0 <= height && AsteroidOk(a, width, height) ==> AsteroidOk(r, width, height)
  {
    var moved := a.(x := a.x + trig.dx(a.speed, a.angle), y := a.y + trig.dy(a.speed, a.angle));
    moved.(x := Wrap(moved.x, width, a.size as real), y := Wrap(moved.y, height, a.size as real))
  }

  /** Every asteroid moved once, in place. */
  function Drift(rocks: seq<Asteroid>, width: real, height: real, trig: Trig): (r: seq<Asteroid>)
    ensures |r| == |rocks|
    ensures 0.0 <= width && 0.0 <= height && AllAsteroidsOk(rocks, width, height) ==>
              AllAsteroidsOk(r, width, height)
  {
    seq(|rocks|, k requires 0 <= k < |rocks| => MoveAsteroid(rocks[k], width, height, trig))
  }

  function Pow(b: real, k: nat): real
  {
    if k == 0 then 1.0 else b * Pow(b, k - 1)
  }

  /** The ship's speed after k frames without thrust. */
  function Coast(speed: real, k: nat): real
  {
    if k == 0 then speed else ControlSpeed(Coast(speed, k - 1), Thrust, false)
  }

  /** Drag is geometric: k frames without thrust scale the speed by Drag^k. */
  lemma {:induction false} CoastIsGeometric(speed: real, k: nat)
    ensures Coast(speed, k) == speed * Pow(Drag, k)
  {
    if k > 0 {
      CoastIsGeometric(speed, k - 1);
    }
  }

  /** Without thrust a moving ship slows down on every frame and, in exact
      arithmetic, never comes to a stop. */
  lemma {:induction false} CoastNeverStops(speed: real, k: nat)
    requires 0.0 < speed
    ensures 0.0 < Coast(speed, k + 1) < Coast(speed, k) <= speed
  {
    if k > 0 {
      CoastNeverStops(speed, k - 1);
    }
  }
}
