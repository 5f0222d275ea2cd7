# Asteroid blaster — a verified model of the frame update

This project models the simulation core of a small browser asteroid game
(`code.js`). A ship is steered with the arrow keys: up thrusts, left and
right turn. Asteroids drift across a wrapping field. Lasers fired from the
ship's nose fly for a limited time, and a laser that hits an asteroid
destroys it. The game adds one to the score and spawns a replacement
asteroid. The game ends when the ship touches an asteroid.

The model is organised like the script:

- `entities.dfy` (module `Entities`) holds the records: ship, asteroid,
  laser, the keys read by a frame, the random draws and the host's
  trigonometry. It also holds the tuning constants and the per-record
  invariants kept between frames.
- `motion.dfy` (module `Motion`) covers ship thrust, drag and turning,
  moving along a heading, and the screen wrap.
- `spawn.dfy` (module `Spawning`) covers `createAsteroid` and `shootLaser`
  as functions of one random draw and of the ship.
- `collision.dfy` (module `Collision`) holds the laser/asteroid and
  ship/asteroid tests and the two scanning loops.
- `laser_pass.dfy` (module `LaserPass`) specifies the laser loop of
  `update()` as a recursive function. Lasers are taken from the last to the
  first, and each one is culled, kept, or traded for the asteroid it
  destroys. The lemmas state what the whole pass does.
- `game.dfy` (module `Game`) holds class `GameState`. Its fields are the
  ship, the asteroid list, the laser list and the score. The two lists are
  sequence values (`seq<Asteroid>`, `seq<Laser>`): where the source splices
  or pushes on its arrays, the methods assign the spliced or extended
  sequence back to the field. The methods follow `update()` with the same
  loops and in the same order. Each method is proved against the
  specification functions above.

Outside inputs are parameters:

- A frame's key state is a `Keys` value.
- `Math.cos` and `Math.sin` always appear as `r * cos(θ)` and
  `r * sin(θ)`. Here `r` is a speed, or in `shootLaser` the ship's size.
  They enter as the two functions of a `Trig` value,
  `dx(r, θ) = r·cos θ` and `dy(r, θ) = r·sin θ`.
- `Math.random` becomes a stream `rng: nat -> Draw`. Each `Draw` holds the
  size roll, the side roll, the height roll and the heading that one
  `createAsteroid` call takes. The k-th asteroid spawned in a frame uses
  draw k, and the start of the game uses draws 0 to 4.

## Model

| member | source | states |
|---|---|---|
| Motion.Wrap | code.js:76-79 | Only a coordinate that has left the field by more than the margin is moved. Below the field it lands at the far end (extent + margin), above it at -margin. A coordinate on the widened field is unchanged, and the result always lies on the widened field. |
| Motion.WrapIdempotent | code.js:76-79 | Wrapping an already wrapped coordinate changes nothing. |
| Motion.ControlSpeed | code.js:59-63 | With thrust the speed grows by exactly the thrust. Without it, a positive speed strictly decreases and stays positive, and zero stays zero. A non-negative speed never turns negative. |
| Motion.Turn | code.js:65-70 | Left subtracts the rotation speed and right adds it. Both keys held, or none, leave the angle unchanged. |
| Motion.StepShip | code.js:59-79 | The ship's new speed and angle are those of the control step. Its thrust, rotation speed and size are unchanged. Its new position is the old one moved by dx/dy of the new speed and new angle, then wrapped with the ship's size as margin. The ship invariant is preserved: constants as set, non-negative speed, position on the field widened by its radius. |
| Motion.MoveAsteroid | code.js:82-91 | An asteroid keeps its heading, size and speed. Its new position is the old one moved by dx/dy of its speed and heading, then wrapped with its radius as margin. That position lies on the field widened by the radius, so the asteroid invariant is preserved. |
| Motion.Drift | code.js:82-91 | Moving every asteroid keeps their number and keeps every one well formed. |
| Motion.CoastIsGeometric | code.js:62 | k frames without thrust scale the speed by 0.98^k. |
| Motion.CoastNeverStops | code.js:62 | Without thrust a moving ship slows down on every frame but never reaches zero speed. |
| Spawning.Spawn | code.js:22-27 | A spawned asteroid starts at x = -size when the side roll is below 0.5 and at x = width + size otherwise. Its heading is the drawn one and its speed is the asteroid speed. For rolls in [0, 1) its radius is in 20..49, its y lies in [0, height], and it satisfies the asteroid invariant. |
| Spawning.SizeFromRoll | code.js:23 | floor(roll·30) + 20 lies in 20..49 for every roll in [0, 1): a radius of 50 never occurs. |
| Spawning.ScaleRoll | code.js:25 | roll·height lies in [0, height] for a roll in [0, 1). |
| Spawning.Fire | code.js:193-199 | A fired laser starts at the ship's nose: the ship's position moved by dx/dy of the ship's size and angle. It has the ship's angle, speed 5 and life 100, so it satisfies the laser invariant. |
| Collision.SquaredTestAgrees | code.js:107-111 | For a non-negative distance and radius, distance < radius holds exactly when distance² < radius². The square-root-free tests are therefore the source's tests. |
| Collision.LastHit | code.js:106-113 | A laser hits an asteroid (`Collision.Hits`, code.js:107-111) when its squared distance to the centre is strictly below the squared radius. LastHit is None exactly when the laser hits no asteroid. Otherwise the result is a valid index of an asteroid the laser strictly hits, and no asteroid above that index is hit. |
| Collision.FindHit | code.js:106-120 | The countdown loop with its break returns -1 exactly when LastHit finds nothing. Otherwise it returns the index LastHit picks. |
| Collision.ShipHit | code.js:125-135 | The loop has no early exit. Its result is true exactly when some asteroid collides with the ship (`Collision.Collides`, code.js:126-130): their squared centre distance is strictly below the squared sum of the radii. |
| LaserPass.Advance | code.js:96-98 | A moved laser has its position shifted by dx/dy of its own speed and heading. It is exactly one frame older and keeps its heading and speed. |
| LaserPass.Visit | code.js:100-119 | One turn of the laser loop keeps the asteroid count. A culled laser (`LaserPass.Culled`, code.js:100: x < 0, x > width, y < 0, y > height or life ≤ 0) changes nothing. A kept laser goes in front of the kept lasers, asteroids untouched, and it hit nothing. Otherwise hits go up by exactly one, the laser is not kept, and it hit an asteroid. |
| LaserPass.VisitRemovesLastHit | code.js:106-116 | When a visit scores, the asteroid removed is the one LastHit picks, i.e. the hit asteroid with the highest index. The asteroids below it keep their places, those above it move down by one, and the asteroid spawned from draw number `hits` is added at the end. |
| LaserPass.Survivors | code.js:100-103 | The lasers that outlive culling number exactly the pending lasers minus the culled ones, and none of them is out of the field or expired. |
| LaserPass.SurvivorsAreAdvanced | code.js:96-103 | Every survivor is one of the given lasers advanced by one frame: moved along its heading, with its life cut by exactly one. |
| LaserPass.PassKeepsPopulation | code.js:113-116 | After the whole pass the asteroid count is what it was: each hit removes one asteroid and spawns one. |
| LaserPass.PassKeepsEarlier | code.js:95-121 | The pass never takes back a hit. It only adds lasers in front of those already kept, leaving them unchanged. |
| LaserPass.PassOutcome | code.js:95-121 | `LaserPass.Pass` (code.js:95-121) is the laser loop: one Visit per laser, from the last laser to the first. Every laser is visited once and is culled, kept, or removed with exactly one asteroid. The kept lasers are, in order, a subsequence of the Survivors. The Survivors left out number exactly the hits, so each laser destroys at most one asteroid and the score rises by the number of lasers lost to hits. |
| LaserPass.PassWithoutHits | code.js:95-121 | A pass that scores nothing keeps exactly the Survivors, in order, and leaves the asteroids as they were. |
| LaserPass.PassKeepsWellFormed | code.js:95-121 | The pass keeps every laser alive with speed 5 and life at most 100. Every asteroid, including new spawns, keeps its size range, speed and place on the widened field. |
| LaserPass.KeptLasersInField | code.js:100-103 | Every laser the pass keeps has life left and lies within [0, width] × [0, height]. |
| LaserPass.KeptLasersAdvanced | code.js:96-103 | Every laser the pass keeps is one of the pending lasers advanced by one frame, so its life was cut by exactly one. |
| Game.GameState.constructor | code.js:5-33 | The game starts with the ship at rest in the centre, heading 0, with thrust 0.05, rotation speed 0.05 and size 20. It has five asteroids, the k-th spawned from draw k, no lasers and score 0, and the state invariant holds. |
| Game.GameState.CreateAsteroid | code.js:22-28 | Exactly one asteroid, spawned from the draw, is appended to the asteroid list. The invariant is kept. |
| Game.GameState.ShootLaser | code.js:192-200 | Exactly one laser, fired from the current ship, is appended to the laser list. The invariant is kept. |
| Game.GameState.SteerShip | code.js:59-79 | The ship after the in-place control, move and wrap statements is StepShip of the old ship. |
| Game.GameState.ControlShip | code.js:59-70 | After the thrust and turn statements the ship's speed is ControlSpeed and its angle is Turn of the old values, and nothing else changed. |
| Game.GameState.WrapShip | code.js:76-79 | The four guarded assignments set x and y to Wrap of the old coordinates. |
| Game.GameState.MoveAsteroids | code.js:82-91 | The forEach, one asteroid at a time, turns the asteroid list into Drift of the old one. |
| Game.GameState.StepAsteroid | code.js:83-90 | The statements of the forEach body compute MoveAsteroid of the asteroid. |
| Game.GameState.VisitLaser | code.js:96-120 | One iteration at index i removes lasers and asteroids with `LaserPass.Splice` (the one-element `splice(i, 1)` of code.js:101, 113 and 114), and leaves the unvisited lasers below i as they were. The lasers from i on, the asteroids and the hits so far are Visit applied to the advanced laser. |
| Game.GameState.MoveLasers | code.js:95-121 | The splicing loop leaves lasers, asteroids and score exactly as Pass describes. The state invariant is kept. |
| Game.GameState.Update | code.js:57-136 | One frame leaves the ship at StepShip of the old ship. Lasers, asteroids and score are the Pass over the drifted asteroids. The asteroid count is unchanged, and the lasers lost to hits equal the score gained. Every remaining laser is one of the old lasers advanced by one frame, is alive and lies inside the field. Game over is reported exactly when the moved ship collides with some asteroid, new spawns included. |

## Left out

- Drawing (`draw`), the animation loop (`gameLoop`, `requestAnimationFrame`) and the canvas are outside the model.
- The DOM key listeners and the `keys` map are outside the model. A frame receives its key state as a `Keys` value. A space-bar press is a separate call to `ShootLaser`.
- `alert` and `document.location.reload` are outside the model. `Update` returns whether the game is over. The source's collision loop has no `break`, so it raises one alert per colliding asteroid before the reload; the model records only whether there was at least one.
- `Math.random` is not modelled. Randomness enters as the stream of `Draw` values, and the heading in a draw is taken already scaled by 2π, so `Math.PI` does not appear.
- `Math.cos` and `Math.sin` are not modelled. They enter as the displacement functions `dx` and `dy`, and no trigonometric identity is assumed about them.
- `Math.sqrt` is not modelled. Distances are compared squared, which `Collision.SquaredTestAgrees` shows is the same test for non-negative radii.
- IEEE-754 double rounding is not modelled. Coordinates, speeds and angles are exact reals, so `Motion.CoastNeverStops` proves that the coasting speed falls on every frame. With doubles the speed never reaches zero either, but it stops falling near 1e-322 (24 · 2⁻¹⁰⁷⁴), where rounding to nearest gives back the same value.
- Array identity and aliasing are not modelled. The asteroid and laser lists are sequence values that the methods reassign, not shared arrays; the source relies on neither identity nor aliasing.
