# Asteroids game logic in Dafny

This project models the game-logic layer of `bundle.js`, a browser Asteroids
clone. The game keeps five global records and updates them once per frame:

- the rocket ship;
- the asteroid belt;
- the laser flow and its shoot permission;
- the interaction detector (explosion countdown and respawn blinker);
- the level.

The model covers:

- the toroidal screen wrap and the circle collision lookup;
- the ship's rotation, motion, thrust and friction;
- the mode state machine: exploding, then respawn, then blinking (invulnerable), then vulnerable;
- asteroid creation, splitting and drifting;
- the laser flow: shooting, moving, measuring, automatic re-arming, the range filter, and the hit pass with its explosion countdown;
- level advance and the level banner.

Layout:

- `Geometry`: points, the squared-distance test, the screen wrap.
- `Entities`: constants, the entity records, the random-draw conversions, the mode predicates.
- `Belt`: asteroid creation, collision lookup, destruction, spawn sampling.
- `Lasers`: per-laser steps, the range filter, the hit pass.
- `RocketShip`: the ship's motion.
- `Modes`: the detector state machine.
- `LevelText`: the banner text.
- `GameLogic`: the whole state and one frame of `update()`, as pure steps.
- `Game`: a class whose fields are the five records. Its methods update them in place, with the loops of the source, and each is proved to produce the state the matching `GameLogic` step describes.

Random draws, the thrust acceleration and the laser's nose point and velocity are parameters. In the source these are `Math.random()` and cos/sin expressions.

In these places the game behaves differently from what a reader might expect; the model follows the code as written:

- The cap test admits a shot while at most LASER_MAX_AMOUNT lasers exist, so 11 lasers can be in flight (`bundle.js:531`).
- Releasing the shoot key only denies shooting. Re-arming is automatic, once every laser has travelled more than BASE_SIZE since it was fired (a hit laser stands still but keeps adding to that distance) (`bundle.js:480-488`).
- An asteroid has one jaggedness offset per vertex (`bundle.js:298-300`).
- The speed of a new asteroid is shifted by the level number, not scaled by it (`bundle.js:293-294`).

Behaviour of the code that the model keeps, each with a lemma that exhibits it:

- The hit pass splices during a forward loop, so the laser after a removed one is skipped that frame (`Lasers.SpliceSkipsNextLaser`).
- A laser whose countdown ends this frame has already run its collision test, and still destroys what it touches (`Lasers.ExpiringLaserStillDestructs`).
- Hit lasers stay where they were hit but keep accumulating distance, so they can leave by range before their countdown ends (`Lasers.HitLaserLeavesByRange`).
- `Entities.IsBlinkerOff` uses the remainder modulo 2. JavaScript's `%` truncates and Dafny's is Euclidean, but both give a non-zero remainder for exactly the odd numbers, and the blink count is never negative. While blinking, the ship is hidden during every other run of 9 ticks (`Modes.BlinkerVisibility`).

## Model

| member | source | states |
|---|---|---|
| Geometry.DistanceBelowMatchesDistance | bundle.js:778-780 | for any non-negative d whose square is the squared distance, the squared comparison agrees with `distance < bound` |
| Geometry.HandleEdgeOfScreen | bundle.js:756-768 | the result lies in [-r, W+r] x [-r, H+r]; a point already there is unchanged; each axis already in range is kept; a coordinate below -r re-enters at the far edge (W+r or H+r), and one past the far edge re-enters at -r |
| Geometry.HandleEdgeOfScreenIdempotent | bundle.js:756-768 | wrapping a wrapped point changes nothing |
| Geometry.WrapPastRightEdge | bundle.js:757-760 | a circle past the right edge re-enters at x = -r with y kept |
| Entities.RandomInt | bundle.js:770-772 | the result is an integer in [floor(min), max); it is floor(min) when min = max |
| Entities.RandomSign | bundle.js:774-776 | the result is n for draws below 0.5 and -n otherwise |
| Entities.VerticesNumber | bundle.js:304-306 | every vertex count is between 5 and 15 |
| Entities.JaggednessValue | bundle.js:308-310 | every offset lies in [1 - JAGGEDNESS, 1 + JAGGEDNESS) |
| Belt.RandomSpeed | bundle.js:293-294 | a velocity component is plus or minus (a speed in [4, 40) plus the level number) |
| Belt.RandomAsteroid | bundle.js:287-302 | the asteroid has the given centre and radius, 5 to 15 vertices with one offset per vertex (each the draw's jaggedness), an angle in [0, 360), and speeds in range on both axes |
| Belt.CreateRandomAsteroid | bundle.js:287-302 | the loop that pushes one offset per vertex builds exactly RandomAsteroid |
| Belt.Drifted | bundle.js:322-328 | only the centre changes, to position + velocity/FPS passed through the screen wrap: unchanged if on screen, re-entering at the opposite edge if it left |
| Belt.DriftedBelt | bundle.js:321-330 | no asteroid is added, removed or reordered; each has drifted; tier radius and shape are kept |
| Belt.FindCollisionAsteroidIndex | bundle.js:375-384 | -1 iff no asteroid's centre is closer than the sum of the radii; otherwise the smallest such index |
| Belt.Fragment | bundle.js:336-342 | a fragment has half the parent's radius, a well-formed shape, and its centre within the parent's radius on each axis |
| Belt.Fragments | bundle.js:335-344 | DESTRUCT_NUMBER (2) fragments when the radius is at least BASE_SIZE, none below |
| Belt.Destructed | bundle.js:332-346 | the length changes by +1 or -1; the other asteroids keep their values and order; the appended ones have half the radius |
| Belt.DestructedKeepsAsteroidsOk | bundle.js:332-346 | the tiers are 60, then 30, then 15, then nothing; shapes stay well formed |
| Belt.DestructedPotential | bundle.js:332-346 | each destruction lowers the number of destructions the belt still needs by exactly one |
| Belt.FragmentsPotential | bundle.js:335-344 | the fragments need one destruction fewer than their parent |
| Belt.BeltPotentialZero | bundle.js:551 | a belt needs no more destructions exactly when it is empty |
| Belt.LargeAsteroidHitsToClear | bundle.js:332-346 | a large asteroid takes 7 destructions to clear |
| Belt.CandidatePoint | bundle.js:785 | a candidate has integer coordinates in [0, W] x [0, H] |
| Belt.SpawnPoint | bundle.js:782-788 | the accepted point is at least 6 * BASE_SIZE from the ship and on the canvas; None iff every drawn candidate is too close |
| Belt.FirstClearIs | bundle.js:782-788 | the accepted point is the first clear candidate: after candidates that were all too close, a clear one is the result |
| Belt.GetRandomPointExcludingRadiusZone | bundle.js:782-788 | the rejection loop returns exactly SpawnPoint |
| Belt.NewBelt | bundle.js:279-285 | a new belt has n asteroids, each of radius 2 * BASE_SIZE, well formed, on the canvas and clear of the ship |
| Lasers.NewLaser | bundle.js:426-444 | a new laser starts at the nose with distance 0, time 0 and not hit |
| Lasers.MoveLaser | bundle.js:456-466 | a hit laser does not move; otherwise only its centre changes, to position + velocity passed through the screen wrap (re-entering at the opposite edge if it left), and it ends on screen |
| Lasers.Travelled | bundle.js:470-477 | only the distance changes; it grows by the length of the velocity and never decreases |
| Lasers.MovedLasers | bundle.js:455-467 | every laser is moved, none added or removed |
| Lasers.TravelledLasers | bundle.js:469-478 | every laser, hit or not, accumulates distance; none decreases |
| Lasers.KeptInRange | bundle.js:490-499 | the filter never adds lasers |
| Lasers.KeptInRangeSnoc | bundle.js:492-497 | one step of the filter loop appends the laser exactly when it is in range |
| Lasers.KeptInRangeExactly | bundle.js:490-499 | the filter keeps exactly the lasers that have travelled less than LASER_DISTANCE * W, each as many times as it occurs, in their original order |
| Lasers.HitLaserLeavesByRange | bundle.js:455-499 | a hit laser is not moved, its distance still grows by its speed, and once that reaches LASER_DISTANCE * W it is filtered out |
| Lasers.HitLasers | bundle.js:505-518 | visiting index i removes at most one laser and leaves the lasers before i untouched |
| Lasers.HitStep | bundle.js:502-518 | the same, for one loop iteration including the destruction, which lowers the belt's remaining destructions |
| Lasers.HitsFrom | bundle.js:501-520 | the pass from index i never adds a laser, leaves the lasers before i untouched, and never grows the destructions the belt needs |
| Lasers.HitStepEffect | bundle.js:502-518 | case by case: a colliding laser becomes hit with time 3 and the found asteroid is destructed; a hit laser counts down and is spliced out at 0; a flying laser that touches nothing is left alone |
| Lasers.HitStepKeepsOk | bundle.js:502-518 | one step keeps every laser's countdown in range and the belt well formed |
| Lasers.HitsFromKeepsOk | bundle.js:501-520 | the whole pass keeps every laser consistent, never adds a laser, and never increases the destructions the belt needs |
| Lasers.LaserSplitsLargeAsteroid | bundle.js:501-520 | a laser at the centre of a large asteroid leaves two half-size fragments and starts its 3-tick explosion |
| Lasers.SpliceSkipsNextLaser | bundle.js:508-511 | of two lasers at the end of their countdown, only the first is removed in one pass |
| Lasers.ExpiringLaserStillDestructs | bundle.js:504-518 | a laser removed this frame still destructs the asteroid it touches |
| RocketShip.BaseRocketShip | bundle.js:198-207 | the ship starts at the canvas centre (W/2, H/2), equally far from opposite corners, pointing up, at rest, not turning or thrusting, with radius BASE_SIZE/2 |
| RocketShip.Rotated | bundle.js:229-231 | only the angle changes, by the turn increment |
| RocketShip.Moved | bundle.js:233-238 | only the centre changes, by the velocity |
| RocketShip.Decayed | bundle.js:250-251 | friction shrinks each velocity component towards zero without changing its sign, and never stops a moving ship |
| RocketShip.FrictionNeverStops | bundle.js:240-253 | after any number of frictional ticks a moving ship still moves, no faster than before |
| RocketShip.Thrusted | bundle.js:240-253 | only the velocity changes: zero while exploding, plus the acceleration while thrusting, otherwise the friction decay of the old velocity (no faster on either axis) |
| RocketShip.ShipPosition | bundle.js:222-227 | the angle advances by the turn rate; the ship moves by its old velocity through the screen wrap: unwrapped if that keeps it on screen, otherwise re-entering at the opposite edge, and always on screen; the new velocity is Thrusted's; radius, turn rate and thrust flag are kept; it is stopped while exploding |
| Modes.FreshDetector | bundle.js:348-353 | a fresh detector is in range, not exploding, and starts blinking visibly |
| Modes.ExplosionStartsOnlyOnCollision | bundle.js:355-373 | an explosion starts only from the vulnerable mode and only on a collision; it lasts while its countdown is above 0 |
| Modes.NextDetector | bundle.js:355-401 | an explosion ends only in a respawn; an explosion starts only for a vulnerable ship on a collision; the blink count never goes up but by a respawn; the countdowns stay within 0..9, 1..9 and 0..10 |
| Modes.BlinkerVisibility | bundle.js:403-413 | during the 90 ticks after a respawn the ship is in blinker mode, not in explosion mode, and isBlinkerOff holds exactly in the odd-numbered runs of 9 ticks |
| Modes.BlinkingAfterRespawn | bundle.js:395-401 | for 90 ticks after a respawn the ship blinks whatever it touches; the blinker state follows a closed form |
| Modes.VulnerableAfterBlinking | bundle.js:355-363 | after the 10 blinks, the next collision makes the ship explode |
| Modes.ExplosionCountsDown | bundle.js:386-389 | an exploding ship counts down by one per tick |
| Modes.ExplosionEndsInRespawn | bundle.js:386-393 | explosionTime + 1 ticks after an explosion starts, the detector is fresh again |
| LevelText.Decimal | bundle.js:559 | the number prints as decimal digits with no leading zero |
| LevelText.DecimalRoundTrip | bundle.js:559 | reading the digits back gives the number |
| LevelText.LevelBanner | bundle.js:558-560 | the banner is longer than "LEVEL " |
| LevelText.LevelBannerShowsLevel | bundle.js:558-560 | the banner is "LEVEL " followed by the one-based level number |
| GameLogic.FirstLevel | bundle.js:534-541 | the first level is number 0, shows "LEVEL 1", fully opaque |
| GameLogic.StartState | bundle.js:147-153 | a new game keeps every invariant: the base ship at the canvas centre, one large asteroid clear of it, no lasers, shooting allowed, a fresh detector and the first level (number 0, fully opaque) |
| GameLogic.LevelCreated | bundle.js:550-556 | an empty belt raises the level by one, resets the opacity, and spawns ASTEROIDS_NUMBER + level large asteroids clear of the ship; a non-empty belt changes nothing; the belt is never left empty |
| GameLogic.LevelMessageUpdated | bundle.js:558-560 | only the message changes, to the banner of the current level |
| GameLogic.AsteroidsMoved | bundle.js:321-330 | only the asteroids' centres change, each as Drifted says: it ends on screen, unwrapped if its next position is on screen, otherwise re-entering at the opposite edge; no asteroid is added or removed |
| GameLogic.ShipPositioned | bundle.js:222-227 | only the ship changes; its angle advances by the turn rate; it moves by its old velocity through the screen wrap, unwrapped if that keeps it on screen and otherwise re-entering at the opposite edge; its new velocity is Thrusted's for the current mode, so it is stopped while exploding |
| GameLogic.ShipHitIndex | bundle.js:365-369 | -1 iff the ship touches no asteroid |
| GameLogic.ModesUpdated | bundle.js:355-373 | the belt changes only when a vulnerable ship collides, and then the first asteroid touched is destructed and the ship explodes; the ship changes only by the respawn, and an explosion whose countdown is at 0 always respawns the ship at the base position with a fresh detector |
| GameLogic.LasersUpdated | bundle.js:446-453 | only the flow, the belt and the shoot permission change; no laser is added, permission is never withdrawn, and the belt's remaining destructions never grow |
| GameLogic.LasersUpdatedKeepsOk | bundle.js:446-453 | the laser phase keeps every invariant, never adds lasers, and never grows the belt's remaining destructions |
| GameLogic.TickKeepsOk | bundle.js:155-162 | a frame keeps the invariants: ship on screen, tier-sized asteroids, consistent lasers, at most 11 lasers, counters in range, banner matching the level |
| GameLogic.Tick | bundle.js:155-162 | a frame raises the level by one exactly when it starts with an empty belt; it never adds a laser and never withdraws the shoot permission |
| GameLogic.LaserShot | bundle.js:419-424 | one fresh laser is appended and shooting is denied exactly when isCanShoot holds; otherwise nothing changes |
| GameLogic.LaserShotKeepsOk | bundle.js:530-532 | shooting keeps the invariants, including the bound of LASER_MAX_AMOUNT + 1 lasers |
| GameLogic.EleventhLaser | bundle.js:530-532 | with 10 lasers in flight the gun still fires an eleventh |
| Game.Game.constructor | bundle.js:147-153 | a new game is in the start state and valid |
| Game.Game.InitRocketShipBaseInstance | bundle.js:198-207 | only the ship changes, to the base ship |
| Game.Game.RotateRocketShip | bundle.js:229-231 | only the ship changes, as Rotated says |
| Game.Game.MoveRocketShip | bundle.js:233-238 | only the ship changes, as Moved says |
| Game.Game.ThrustRocketShip | bundle.js:240-253 | only the ship changes, as Thrusted says for the current mode |
| Game.Game.HandleRocketShipPosition | bundle.js:222-227 | the state becomes ShipPositioned of the old state |
| Game.Game.TurnRocketShipLeft | bundle.js:255-257 | only the turn rate changes, to +12 degrees per tick; the game is valid afterwards exactly when it was before |
| Game.Game.TurnRocketShipRight | bundle.js:259-261 | only the turn rate changes, to -12 degrees per tick; the game is valid afterwards exactly when it was before |
| Game.Game.ResetRocketShipRotationIncrement | bundle.js:263-265 | only the turn rate changes, to 0; the game is valid afterwards exactly when it was before |
| Game.Game.SetRocketShipThrust | bundle.js:267-273 | only the thrust flag changes; the game is valid afterwards exactly when it was before |
| Game.Game.InitAsteroidsBeltInstance | bundle.js:279-285 | only the belt changes, to NewBelt for the ship's position and the level |
| Game.Game.MoveAsteroids | bundle.js:321-330 | only the belt changes, every asteroid drifted |
| Game.Game.DestructAsteroid | bundle.js:332-346 | only the belt changes, to Destructed of the old belt |
| Game.Game.InitInteractDetectorInstance | bundle.js:348-353 | only the detector changes, to a fresh one |
| Game.Game.HandleExplosionMode | bundle.js:386-393 | the detector takes its step; the ship is replaced by the base ship only when the countdown was at 0 |
| Game.Game.HandleBlinkerMode | bundle.js:395-401 | only the detector changes, by its blinker step |
| Game.Game.DetectRocketShipCollision | bundle.js:365-373 | a vulnerable ship's collision sets the explosion and destructs the first asteroid touched |
| Game.Game.UpdateModesLogic | bundle.js:355-363 | the state becomes ModesUpdated of the old state |
| Game.Game.InitLasersFlowInstance | bundle.js:415-417 | the flow is emptied and shooting allowed |
| Game.Game.ShootLaser | bundle.js:419-424 | the state becomes LaserShot of the old state, and a valid game stays valid |
| Game.Game.AllowShooting | bundle.js:522-524 | only the shoot permission changes, to true; the game is valid afterwards exactly when it was before |
| Game.Game.DenyShooting | bundle.js:526-528 | only the shoot permission changes, to false; the game is valid afterwards exactly when it was before |
| Game.Game.MoveLasers | bundle.js:455-467 | only the flow changes, to MovedLasers of the old flow |
| Game.Game.CalculateLasersDistance | bundle.js:469-478 | only the flow changes, to TravelledLasers of the old flow |
| Game.Game.HandleAllowShooting | bundle.js:480-488 | shooting becomes allowed iff every laser has distance > BASE_SIZE; otherwise the permission is left alone |
| Game.Game.FilterLasersExisting | bundle.js:490-499 | only the flow changes, to the in-range lasers in order |
| Game.Game.CountDownLaser | bundle.js:505-518 | only the flow changes, as HitLasers says |
| Game.Game.HandleLasersHits | bundle.js:501-520 | the flow and the belt become the result of the hit pass from index 0 |
| Game.Game.InitLevelInstance | bundle.js:534-541 | only the level changes, to the first level |
| Game.Game.HandlerNewLevelCreation | bundle.js:550-556 | the state becomes LevelCreated of the old state |
| Game.Game.UpdateLevelMessage | bundle.js:558-560 | the state becomes LevelMessageUpdated of the old state |
| Game.Game.Update | bundle.js:155-162 | one frame produces Tick of the old state and keeps the game valid |

## Left out

- Rendering: every `draw*` function, `drawTestElements` and the canvas context. This is output only.
- Keyboard wiring, `window.onload` and the `setInterval` scheduling. The key handlers' effects are the intent methods of `Game.Game`.
- Trigonometry and `convertToRadians`. Angles are kept in degrees (a turn rate of 360/30 = 12 degrees per tick). The thrust acceleration, and the laser's nose point and velocity from `createLaser`, are parameters.
- `Math.random()`: every draw is a parameter in [0, 1).
- `Belt.SpawnPoint`: the rejection loop may draw forever. It is modelled over a finite list of candidates. Creating a belt requires that each list holds a clear candidate, which is the condition under which the source's loop ends.
- `updateOpacity`: the fade of the level banner. It is cosmetic, and only the reset of the opacity to 1 on a new level is modelled.
- Floating point: positions, velocities and distances are exact reals. `getDistanceBetweenPoints` is replaced by a comparison of squares, shown equivalent for any non-negative distance. The laser's per-tick `Math.sqrt` is a `speed` field, the length of its constant velocity.
- Object identity: records are values. The source never shares one point between two entities, so no aliasing is lost.
