/** The asteroid belt: building random asteroids, the circle collision lookup,
    splitting an asteroid into fragments, and sampling spawn points outside
    the clearance zone around the ship. */
module Belt {
  import opened Util
  import opened Geometry
  import opened Entities

  /** The random draws `createRandomAsteroid` consumes: vertex count, angle,
      the two speed magnitudes and signs, and one draw per vertex offset. */
  datatype AsteroidDraws = AsteroidDraws(vertices: Unit, angle: Unit,
                                         speedX: Unit, signX: Unit,
                                         speedY: Unit, signY: Unit,
                                         jaggedness: nat -> Unit)

  /** The draws of one fragment made by `destructAsteroid`: its signed offset
      from the parent's centre on each axis, and its shape. */
  datatype SplitDraws = SplitDraws(offsetX: Unit, signX: Unit,
                                   offsetY: Unit, signY: Unit,
                                   shape: AsteroidDraws)

  /** The draws of one `destructAsteroid` call, fragment by fragment. */
  type DestructDraws = nat -> SplitDraws

  /** The draws of one belt asteroid: the rejection loop's candidate points
      (pairs of draws for x and y) and the asteroid's shape. */
  datatype SpawnDraws = SpawnDraws(candidates: seq<(Unit, Unit)>, shape: AsteroidDraws)

  /** One velocity component: a speed in [4, 40) shifted by the level number,
      with a random sign. */
  function RandomSpeed(levelNumber: int, speed: Unit, sign: Unit): (v: int)
    ensures v == RandomInt(AsteroidsMinSpeed, AsteroidsMaxSpeed, speed) + levelNumber ||
            v == -(RandomInt(AsteroidsMinSpeed, AsteroidsMaxSpeed, speed) + levelNumber)
  {
    RandomSign(RandomInt(AsteroidsMinSpeed, AsteroidsMaxSpeed, speed) + levelNumber, sign)
  }

  /** The asteroid `createRandomAsteroid(center, radius)` builds from `d` while
      the level number is `levelNumber`. */
  function RandomAsteroid(center: Point, radius: real, levelNumber: int, d: AsteroidDraws): (a: Asteroid)
    ensures a.center == center && a.radius == radius
    ensures WellShaped(a)
    ensures forall i :: 0 <= i < |a.offsets| ==> a.offsets[i] == JaggednessValue(d.jaggedness(i))
    ensures SpeedOk(a.direction.x, levelNumber) && SpeedOk(a.direction.y, levelNumber)
  {
    var n := VerticesNumber(d.vertices);
    var offsets := seq(n, i requires 0 <= i < n => JaggednessValue(d.jaggedness(i)));
    assert forall i :: 0 <= i < n ==> offsets[i] == JaggednessValue(d.jaggedness(i));
    assert 0.0.Floor == 0;
    Asteroid(center, radius, n, RandomInt(0.0, RocketShipTurnAngle, d.angle),
             Point(RandomSpeed(levelNumber, d.speedX, d.signX) as real,
                   RandomSpeed(levelNumber, d.speedY, d.signY) as real),
             offsets)
  }

  /** A velocity component of a new asteroid: plus or minus a speed in
      [4 + level, 40 + level). */
  predicate SpeedOk(v: real, levelNumber: int)
  {
    var lo, hi := (AsteroidsMinSpeed.Floor + levelNumber) as real, AsteroidsMaxSpeed + levelNumber as real;
    (lo <= v < hi) || (lo <= -v < hi)
  }

  /** `createRandomAsteroid`, with its loop that pushes one jaggedness offset
      per vertex. */
  method CreateRandomAsteroid(center: Point, radius: real, levelNumber: int, d: AsteroidDraws)
    returns (a: Asteroid)
    ensures a == RandomAsteroid(center, radius, levelNumber, d)
  {
    var n := VerticesNumber(d.vertices);
    a := Asteroid(center, radius, n, RandomInt(0.0, RocketShipTurnAngle, d.angle),
                  Point(RandomSpeed(levelNumber, d.speedX, d.signX) as real,
                        RandomSpeed(levelNumber, d.speedY, d.signY) as real),
                  []);
    var i := 0;
    while i < n
      invariant 0 <= i <= n
      invariant a == RandomAsteroid(center, radius, levelNumber, d).(offsets := a.offsets)
      invariant |a.offsets| == i
      invariant forall j :: 0 <= j < i ==> a.offsets[j] == JaggednessValue(d.jaggedness(j))
    {
      a := a.(offsets := a.offsets + [JaggednessValue(d.jaggedness(i))]);
      i := i + 1;
    }
  }

  /** One asteroid of `moveAsteroids`: it advances by its velocity over FPS
      (the velocity is in pixels per second) and wraps. */
  function Drifted(a: Asteroid, width: real, height: real): (r: Asteroid)
    ensures r == a.(center := r.center)
    ensures 0.0 <= a.radius && 0.0 <= width && 0.0 <= height ==> InScreen(r.center, a.radius, width, height)
    ensures var ahead := Point(a.center.x + a.direction.x / FPS, a.center.y + a.direction.y / FPS);
      InScreen(ahead, a.radius, width, height) ==> r.center == ahead
    ensures r.center == HandleEdgeOfScreen(Point(a.center.x + a.direction.x / FPS, a.center.y + a.direction.y / FPS), a.radius, width, height)
  {
    var ahead := Point(a.center.x + a.direction.x / FPS, a.center.y + a.direction.y / FPS);
    a.(center := HandleEdgeOfScreen(ahead, a.radius, width, height))
  }

  /** The belt after `moveAsteroids`: every asteroid drifted, none added,
      removed or reordered, and every shape and radius kept. */
  function DriftedBelt(belt: seq<Asteroid>, width: real, height: real): (r: seq<Asteroid>)
    ensures |r| == |belt|
    ensures forall i :: 0 <= i < |belt| ==> r[i] == Drifted(belt[i], width, height)
    ensures (forall a :: a in belt ==> AsteroidOk(a)) ==> forall a :: a in r ==> AsteroidOk(a)
  {
    var r := seq(|belt|, i requires 0 <= i < |belt| => Drifted(belt[i], width, height));
    assert forall i :: 0 <= i < |belt| ==> r[i] == Drifted(belt[i], width, height);
    assert forall a :: a in r ==> exists i :: 0 <= i < |belt| && a == Drifted(belt[i], width, height);
    assert forall i :: 0 <= i < |belt| ==> belt[i] in belt;
    r
  }

  /** The circle test of `findCollisionAsteroidIndex`: centre distance below
      the sum of the radii. */
  predicate Hits(a: Asteroid, point: Point, radius: real)
  {
    DistanceBelow(point, a.center, radius + a.radius)
  }

  /** `findCollisionAsteroidIndex(point, radius)`: the first asteroid of the
      belt that the circle overlaps, or -1. */
  function FindCollisionAsteroidIndex(belt: seq<Asteroid>, point: Point, radius: real): (k: int)
    ensures k == -1 <==> forall j :: 0 <= j < |belt| ==> !Hits(belt[j], point, radius)
    ensures k != -1 ==> 0 <= k < |belt| && Hits(belt[k], point, radius)
    ensures k != -1 ==> forall j :: 0 <= j < k ==> !Hits(belt[j], point, radius)
  {
    FirstIndex(belt, a => Hits(a, point, radius), 0)
  }

  /** The fragment `destructAsteroid` makes from `parent` with draws `s`: half
      the radius, centred at a random integer offset below the parent's
      radius on each axis. */
  function Fragment(parent: Asteroid, levelNumber: int, s: SplitDraws): (f: Asteroid)
    ensures f.radius == parent.radius / 2.0 && WellShaped(f)
    ensures 0.0 < parent.radius ==>
      Abs(f.center.x - parent.center.x) < parent.radius && Abs(f.center.y - parent.center.y) < parent.radius
  {
    var dx := RandomSign(RandomInt(0.0, parent.radius, s.offsetX), s.signX);
    var dy := RandomSign(RandomInt(0.0, parent.radius, s.offsetY), s.signY);
    assert 0.0.Floor == 0;
    RandomAsteroid(Point(parent.center.x + dx as real, parent.center.y + dy as real),
                   parent.radius / 2.0, levelNumber, s.shape)
  }

  /** The asteroids `destructAsteroid` pushes for `parent`: DestructNumber
      half-size fragments while the radius is at least BaseSize, none below. */
  function Fragments(parent: Asteroid, levelNumber: int, d: DestructDraws): (r: seq<Asteroid>)
    ensures parent.radius >= BaseSize ==> |r| == DestructNumber
    ensures parent.radius < BaseSize ==> r == []
    ensures forall f :: f in r ==> f.radius == parent.radius / 2.0 && WellShaped(f)
    ensures forall f :: f in r ==>
      Abs(f.center.x - parent.center.x) < parent.radius && Abs(f.center.y - parent.center.y) < parent.radius
  {
    if parent.radius >= BaseSize then
      var r := seq(DestructNumber, i requires 0 <= i < DestructNumber => Fragment(parent, levelNumber, d(i)));
      assert forall f :: f in r ==> exists i :: 0 <= i < DestructNumber && f == Fragment(parent, levelNumber, d(i));
      r
    else []
  }

  /** `destructAsteroid(index)`: the fragments are pushed, then the asteroid at
      `index` is spliced out. */
  function Destructed(belt: seq<Asteroid>, index: int, levelNumber: int, d: DestructDraws): (r: seq<Asteroid>)
    requires 0 <= index < |belt|
    ensures |r| == |belt| - 1 + (if belt[index].radius >= BaseSize then DestructNumber else 0)
    ensures r[..|belt| - 1] == belt[..index] + belt[index + 1..]
    ensures forall j :: |belt| - 1 <= j < |r| ==> r[j].radius == belt[index].radius / 2.0
  {
    belt[..index] + belt[index + 1..] + Fragments(belt[index], levelNumber, d)
  }

  /** Destruction keeps every radius a tier radius and every shape well formed:
      60 splits into 30s, 30 into 15s, 15 into nothing. */
  lemma DestructedKeepsAsteroidsOk(belt: seq<Asteroid>, index: int, levelNumber: int, d: DestructDraws)
    requires 0 <= index < |belt|
    requires forall a :: a in belt ==> AsteroidOk(a)
    ensures forall a :: a in Destructed(belt, index, levelNumber, d) ==> AsteroidOk(a)
  {
    var r := Destructed(belt, index, levelNumber, d);
    var frags := Fragments(belt[index], levelNumber, d);
    assert r == belt[..index] + belt[index + 1..] + frags;
    forall a | a in r ensures AsteroidOk(a) {
      if a in frags {
        var p := belt[index].radius;
        assert belt[index] in belt;
        assert p >= BaseSize && IsTierRadius(p);
        assert p == LargeRadius || p == LargeRadius / 2.0;
        assert a.radius == p / 2.0;
      } else {
        assert a in belt[..index] || a in belt[index + 1..];
      }
    }
  }

  /** How many destructions an asteroid of this radius and all its fragments
      take to disappear: 1 for itself plus those of its fragments. */
  function HitsToClear(radius: real): (n: nat)
    decreases radius.Floor
  {
    if radius >= BaseSize then 1 + DestructNumber * HitsToClear(radius / 2.0) else 1
  }

  /** The destructions a whole belt takes to be cleared. */
  function BeltPotential(belt: seq<Asteroid>): nat
  {
    if belt == [] then 0 else HitsToClear(belt[0].radius) + BeltPotential(belt[1..])
  }

  lemma {:induction false} BeltPotentialAppend(a: seq<Asteroid>, b: seq<Asteroid>)
    ensures BeltPotential(a + b) == BeltPotential(a) + BeltPotential(b)
  {
    if a != [] {
      assert (a + b)[0] == a[0];
      assert (a + b)[1..] == a[1..] + b;
      BeltPotentialAppend(a[1..], b);
    } else {
      assert a + b == b;
    }
  }

  /** A belt needs no destruction exactly when it is empty; this is the
      level-advance signal. */
  lemma BeltPotentialZero(belt: seq<Asteroid>)
    ensures BeltPotential(belt) == 0 <==> belt == []
  {
  }

  /** Every destruction brings the belt exactly one step closer to empty, so a
      belt is cleared after exactly BeltPotential(belt) destructions, whatever
      the random draws. */
  lemma DestructedPotential(belt: seq<Asteroid>, index: int, levelNumber: int, d: DestructDraws)
    requires 0 <= index < |belt|
    ensures BeltPotential(Destructed(belt, index, levelNumber, d)) == BeltPotential(belt) - 1
  {
    var a := belt[index];
    BeltPotentialAt(belt, index);
    FragmentsPotential(a, levelNumber, d);
    BeltPotentialAppend(belt[..index] + belt[index + 1..], Fragments(a, levelNumber, d));
  }

  /** The potential of a belt is that of the asteroid at `index` plus that of
      the others. */
  lemma BeltPotentialAt(belt: seq<Asteroid>, index: int)
    requires 0 <= index < |belt|
    ensures BeltPotential(belt) == HitsToClear(belt[index].radius) + BeltPotential(belt[..index] + belt[index + 1..])
  {
    var a, before, after := belt[index], belt[..index], belt[index + 1..];
    assert belt == before + ([a] + after);
    BeltPotentialAppend(before, [a] + after);
    BeltPotentialAppend([a], after);
    BeltPotentialAppend(before, after);
    assert BeltPotential([a]) == HitsToClear(a.radius) by {
      assert [a][1..] == [];
    }
  }

  /** The fragments of an asteroid need one destruction fewer than it. */
  lemma FragmentsPotential(a: Asteroid, levelNumber: int, d: DestructDraws)
    ensures BeltPotential(Fragments(a, levelNumber, d)) == HitsToClear(a.radius) - 1
  {
    var frags := Fragments(a, levelNumber, d);
    if a.radius >= BaseSize {
      assert frags == [frags[0]] + [frags[1]];
      BeltPotentialAppend([frags[0]], [frags[1]]);
      assert frags[0] in frags && frags[1] in frags;
    }
  }

  /** A large asteroid takes seven destructions: itself, two medium, four small. */
  lemma LargeAsteroidHitsToClear()
    ensures HitsToClear(LargeRadius) == 7
  {
    assert HitsToClear(LargeRadius / 4.0) == 1;
    assert HitsToClear(LargeRadius / 2.0) == 3;
  }

  /** A candidate of `getRandomPointExcludingRadiusZone`: integer coordinates
      drawn from [0, width] x [0, height]. */
  function CandidatePoint(c: (Unit, Unit), width: nat, height: nat): (p: Point)
    ensures 0.0 <= p.x <= width as real && 0.0 <= p.y <= height as real
    ensures p.x == p.x.Floor as real && p.y == p.y.Floor as real
  {
    var x, y := RandomInt(0.0, width as real + 1.0, c.0), RandomInt(0.0, height as real + 1.0, c.1);
    assert 0.0.Floor == 0;
    assert x <= width && y <= height;
    Point(x as real, y as real)
  }

  /** A point the rejection loop accepts: not closer than ClearanceRadius to
      the ship. */
  predicate ClearOfShip(ship: Point, p: Point)
  {
    !DistanceBelow(ship, p, ClearanceRadius)
  }

  /** The point the do-while loop of `getRandomPointExcludingRadiusZone`
      returns when its draws are `candidates`: the first clear one; None when
      every candidate lies in the zone (the source would keep drawing). */
  function SpawnPoint(ship: Point, candidates: seq<(Unit, Unit)>, width: nat, height: nat): (r: Option<Point>)
    ensures r.None? <==> forall j :: 0 <= j < |candidates| ==> !ClearOfShip(ship, CandidatePoint(candidates[j], width, height))
    ensures r.Some? ==> ClearOfShip(ship, r.value)
    ensures r.Some? ==> 0.0 <= r.value.x <= width as real && 0.0 <= r.value.y <= height as real
  {
    var k := FirstIndex(candidates, c => ClearOfShip(ship, CandidatePoint(c, width, height)), 0);
    if k == -1 then None else Some(CandidatePoint(candidates[k], width, height))
  }

  /** `getRandomPointExcludingRadiusZone(ship)`: draw candidates until one is
      clear of the ship. */
  method GetRandomPointExcludingRadiusZone(ship: Point, candidates: seq<(Unit, Unit)>, width: nat, height: nat)
    returns (r: Option<Point>)
    ensures r == SpawnPoint(ship, candidates, width, height)
  {
    var i := 0;
    while i < |candidates|
      invariant 0 <= i <= |candidates|
      invariant forall j :: 0 <= j < i ==> !ClearOfShip(ship, CandidatePoint(candidates[j], width, height))
    {
      var p := CandidatePoint(candidates[i], width, height);
      if ClearOfShip(ship, p) {
        FirstClearIs(ship, candidates, width, height, i);
        return Some(p);
      }
      i := i + 1;
    }
    return None;
  }

  /** The rejection loop accepts the first clear candidate: one that is clear
      after candidates that were all too close is the loop's result. */
  lemma FirstClearIs(ship: Point, candidates: seq<(Unit, Unit)>, width: nat, height: nat, i: nat)
    requires i < |candidates| && ClearOfShip(ship, CandidatePoint(candidates[i], width, height))
    requires forall j :: 0 <= j < i ==> !ClearOfShip(ship, CandidatePoint(candidates[j], width, height))
    ensures SpawnPoint(ship, candidates, width, height) == Some(CandidatePoint(candidates[i], width, height))
  {
  }

  /** The rejection loop ends for each of the first `n` asteroids. */
  predicate SpawnsReady(ship: Point, spawn: nat -> SpawnDraws, n: int, width: nat, height: nat)
  {
    forall i: nat :: i < n ==> SpawnPoint(ship, spawn(i).candidates, width, height).Some?
  }

  /** The belt `initAsteroidsBeltInstance(n)` builds: n large, well-shaped
      asteroids, each at the point its rejection loop chose, so on the canvas
      and at least ClearanceRadius away from the ship. */
  function NewBelt(n: nat, ship: Point, levelNumber: int, spawn: nat -> SpawnDraws, width: nat, height: nat): (belt: seq<Asteroid>)
    requires SpawnsReady(ship, spawn, n, width, height)
    ensures |belt| == n
    ensures forall i :: 0 <= i < n ==>
      belt[i].radius == LargeRadius && AsteroidOk(belt[i]) && ClearOfShip(ship, belt[i].center) &&
      0.0 <= belt[i].center.x <= width as real && 0.0 <= belt[i].center.y <= height as real
  {
    seq(n, i requires 0 <= i < n =>
      RandomAsteroid(SpawnPoint(ship, spawn(i).candidates, width, height).value, LargeRadius, levelNumber, spawn(i).shape))
  }

  /** The `i`-th asteroid of a new belt is the one its own draws build. */
  lemma NewBeltAt(n: nat, ship: Point, levelNumber: int, spawn: nat -> SpawnDraws, width: nat, height: nat, i: nat)
    requires SpawnsReady(ship, spawn, n, width, height) && i < n
    ensures SpawnPoint(ship, spawn(i).candidates, width, height).Some?
    ensures NewBelt(n, ship, levelNumber, spawn, width, height)[i] ==
      RandomAsteroid(SpawnPoint(ship, spawn(i).candidates, width, height).value, LargeRadius, levelNumber, spawn(i).shape)
  {
  }
}
