/** The laser flow: creating, moving and ageing lasers, the range filter and
    the hit pass that turns a laser into a short explosion and destructs the
    asteroid it touches. */
module Lasers {
  import opened Geometry
  import opened Entities
  import opened Belt

  /** `createLaser(rocketShip)`: a fresh laser at the ship's nose. The nose
      point and the velocity are cos/sin expressions of the ship's angle and
      are given; `speed` is the velocity's length. */
  function NewLaser(nose: Point, direction: Point, speed: real): (l: Laser)
    ensures l.center == nose && l.direction == direction
    ensures l.distance == 0.0 && l.time == 0 && !l.isHit
    ensures 0.0 <= speed && speed * speed == NormSq(direction) ==> LaserOk(l)
  {
    Laser(nose, LaserRadius, direction, speed, 0.0, 0, false)
  }

  /** One laser of `moveLasers`: a flying laser advances by its velocity and
      wraps; a hit laser stays where it exploded. */
  function MoveLaser(l: Laser, width: real, height: real): (r: Laser)
    ensures l.isHit ==> r == l
    ensures r == l.(center := r.center)
    ensures !l.isHit && 0.0 <= l.radius && 0.0 <= width && 0.0 <= height ==>
      InScreen(r.center, l.radius, width, height)
    ensures !l.isHit ==>
      var ahead := Point(l.center.x + l.direction.x, l.center.y + l.direction.y);
      InScreen(ahead, l.radius, width, height) ==> r.center == ahead
    ensures !l.isHit ==>
      r.center == HandleEdgeOfScreen(Point(l.center.x + l.direction.x, l.center.y + l.direction.y), l.radius, width, height)
  {
    if l.isHit then l
    else
      var ahead := Point(l.center.x + l.direction.x, l.center.y + l.direction.y);
      l.(center := HandleEdgeOfScreen(ahead, l.radius, width, height))
  }

  /** One laser of `calculateLasersDistance`: the distance travelled grows by
      the length of the velocity, whether or not the laser is hit. */
  function Travelled(l: Laser): (r: Laser)
    ensures r == l.(distance := r.distance)
    ensures LaserOk(l) ==> LaserOk(r) && l.distance <= r.distance
    ensures LaserOk(l) ==>
      var step := r.distance - l.distance;
      0.0 <= step && step * step == NormSq(l.direction)
  {
    l.(distance := l.distance + l.speed)
  }

  /** The lasers after `moveLasers`: each moved in place, none added or removed. */
  function MovedLasers(lasers: seq<Laser>, width: real, height: real): (r: seq<Laser>)
    ensures |r| == |lasers|
    ensures forall i :: 0 <= i < |lasers| ==> r[i] == MoveLaser(lasers[i], width, height)
    ensures (forall l :: l in lasers ==> LaserOk(l)) ==> forall l :: l in r ==> LaserOk(l)
  {
    var r := seq(|lasers|, i requires 0 <= i < |lasers| => MoveLaser(lasers[i], width, height));
    assert forall i :: 0 <= i < |lasers| ==> r[i] == MoveLaser(lasers[i], width, height);
    assert forall l :: l in r ==> exists i :: 0 <= i < |lasers| && l == MoveLaser(lasers[i], width, height);
    assert forall i :: 0 <= i < |lasers| ==> lasers[i] in lasers;
    r
  }

  /** The lasers after `calculateLasersDistance`: each one's distance grown by
      its speed, hit or not. */
  function TravelledLasers(lasers: seq<Laser>): (r: seq<Laser>)
    ensures |r| == |lasers|
    ensures forall i :: 0 <= i < |lasers| ==> r[i] == Travelled(lasers[i])
    ensures (forall l :: l in lasers ==> LaserOk(l)) ==>
      (forall l :: l in r ==> LaserOk(l)) &&
      forall i :: 0 <= i < |lasers| ==> lasers[i].distance <= r[i].distance
  {
    var r := seq(|lasers|, i requires 0 <= i < |lasers| => Travelled(lasers[i]));
    assert forall i :: 0 <= i < |lasers| ==> r[i] == Travelled(lasers[i]);
    assert forall l :: l in r ==> exists i :: 0 <= i < |lasers| && l == Travelled(lasers[i]);
    assert forall i :: 0 <= i < |lasers| ==> lasers[i] in lasers;
    r
  }

  /** The condition under which `handleAllowShooting` re-arms the gun: every
      laser has travelled more than BaseSize since it was fired (true of no
      lasers); a hit laser keeps travelling in this sense though it stands still. */
  predicate AllPastBase(lasers: seq<Laser>)
  {
    forall i :: 0 <= i < |lasers| ==> lasers[i].distance > BaseSize
  }

  /** A laser `filterLasersExisting` keeps: it has travelled less than
      LaserDistance times the canvas width since it was fired. */
  predicate InRange(l: Laser, width: real)
  {
    l.distance < LaserDistance * width
  }

  /** `filterLasersExisting`'s result: the in-range lasers, in order. */
  function KeptInRange(lasers: seq<Laser>, width: real): (r: seq<Laser>)
    ensures |r| <= |lasers|
  {
    if lasers == [] then []
    else (if InRange(lasers[0], width) then [lasers[0]] else []) + KeptInRange(lasers[1..], width)
  }

  /** Filtering a sequence extended by one laser extends the filtered
      sequence by that laser if it is in range: the step of the source's loop. */
  lemma {:induction false} KeptInRangeSnoc(lasers: seq<Laser>, l: Laser, width: real)
    ensures KeptInRange(lasers + [l], width) == KeptInRange(lasers, width) + (if InRange(l, width) then [l] else [])
  {
    if lasers == [] {
      assert lasers + [l] == [l];
      assert [l][1..] == [];
    } else {
      assert (lasers + [l])[0] == lasers[0];
      assert (lasers + [l])[1..] == lasers[1..] + [l];
      KeptInRangeSnoc(lasers[1..], l, width);
    }
  }

  /** `r` is `s` with some elements left out, the others in their order. */
  predicate IsSubsequence(r: seq<Laser>, s: seq<Laser>)
    decreases |s|
  {
    if r == [] then true
    else if s == [] then false
    else (r[0] == s[0] && IsSubsequence(r[1..], s[1..])) || IsSubsequence(r, s[1..])
  }

  /** The filter keeps exactly the in-range lasers, each as often as it
      occurs, in their original order. */
  lemma {:induction false} KeptInRangeExactly(lasers: seq<Laser>, width: real)
    ensures forall l :: l in KeptInRange(lasers, width) <==> l in lasers && InRange(l, width)
    ensures forall l :: multiset(KeptInRange(lasers, width))[l] == if InRange(l, width) then multiset(lasers)[l] else 0
    ensures IsSubsequence(KeptInRange(lasers, width), lasers)
  {
    if lasers != [] {
      KeptInRangeExactly(lasers[1..], width);
      var rest := KeptInRange(lasers[1..], width);
      assert lasers == [lasers[0]] + lasers[1..];
      if InRange(lasers[0], width) {
        assert KeptInRange(lasers, width) == [lasers[0]] + rest;
        assert ([lasers[0]] + rest)[1..] == rest;
      } else {
        assert KeptInRange(lasers, width) == rest;
        SubsequenceDropsHead(rest, lasers);
      }
    }
  }

  lemma SubsequenceDropsHead(r: seq<Laser>, s: seq<Laser>)
    requires s != [] && IsSubsequence(r, s[1..])
    ensures IsSubsequence(r, s)
  {
  }

  /** A hit laser stays where it was hit, yet `calculateLasersDistance` still
      adds its speed to its distance, so the range filter can drop it before
      its explosion countdown has ended. */
  lemma HitLaserLeavesByRange(lasers: seq<Laser>, i: int, width: real, height: real)
    requires 0 <= i < |lasers| && lasers[i].isHit
    requires lasers[i].distance + lasers[i].speed >= LaserDistance * width
    ensures var measured := TravelledLasers(MovedLasers(lasers, width, height));
      measured[i] == lasers[i].(distance := lasers[i].distance + lasers[i].speed) &&
      measured[i] !in KeptInRange(measured, width)
  {
    var measured := TravelledLasers(MovedLasers(lasers, width, height));
    KeptInRangeExactly(measured, width);
  }

  /** The flow after the laser at index `i` is visited by `handleLasersHits`:
      a hit laser counts down and is spliced out when it reaches 0; a
      colliding laser becomes hit with a fresh countdown, which is lost if it
      was just spliced out. */
  function HitLasers(lasers: seq<Laser>, i: nat, collides: bool): (r: seq<Laser>)
    requires i < |lasers|
    ensures |lasers| - 1 <= |r| <= |lasers|
    ensures r[..i] == lasers[..i]
  {
    var laser := lasers[i];
    var counted := if laser.isHit then laser.(time := laser.time - 1) else laser;
    var removed := laser.isHit && counted.time == 0;
    var marked := if collides then counted.(isHit := true, time := ExplodeLaserTicks) else counted;
    if removed then lasers[..i] + lasers[i + 1..] else lasers[i := marked]
  }

  /** The loop body of `handleLasersHits` for index `i`: the collision test
      runs first, whatever the laser's state, and the asteroid found is
      destructed whatever happens to the laser. */
  function HitStep(lasers: seq<Laser>, belt: seq<Asteroid>, i: nat, levelNumber: int, d: DestructDraws)
    : (r: (seq<Laser>, seq<Asteroid>))
    requires i < |lasers|
    ensures |lasers| - 1 <= |r.0| <= |lasers|
    ensures r.0[..i] == lasers[..i]
    ensures BeltPotential(r.1) <= BeltPotential(belt)
  {
    var k := FindCollisionAsteroidIndex(belt, lasers[i].center, lasers[i].radius);
    if k == -1 then (HitLasers(lasers, i, false), belt)
    else
      DestructedPotential(belt, k, levelNumber, d);
      (HitLasers(lasers, i, true), Destructed(belt, k, levelNumber, d))
  }

  /** `handleLasersHits` from index `i` on. After a splice the index still
      advances, so the laser that moved into slot `i` is skipped this tick.
      `draws(i)` are the draws of the destruction made at index `i`. The pass
      never adds a laser, leaves the lasers before `i` alone, and never grows
      the destructions the belt still needs. */
  function HitsFrom(lasers: seq<Laser>, belt: seq<Asteroid>, i: nat, levelNumber: int,
                    draws: nat -> DestructDraws): (r: (seq<Laser>, seq<Asteroid>))
    decreases |lasers| - i
    ensures |r.0| <= |lasers|
    ensures i <= |lasers| ==> i <= |r.0| && r.0[..i] == lasers[..i]
    ensures BeltPotential(r.1) <= BeltPotential(belt)
  {
    if i >= |lasers| then (lasers, belt)
    else
      var next := HitStep(lasers, belt, i, levelNumber, draws(i));
      HitsFrom(next.0, next.1, i + 1, levelNumber, draws)
  }

  /** One iteration of the hit pass. */
  lemma HitsFromStep(lasers: seq<Laser>, belt: seq<Asteroid>, i: nat, levelNumber: int,
                     draws: nat -> DestructDraws)
    requires i < |lasers|
    ensures var next := HitStep(lasers, belt, i, levelNumber, draws(i));
      HitsFrom(lasers, belt, i, levelNumber, draws) == HitsFrom(next.0, next.1, i + 1, levelNumber, draws)
  {
  }

  /** What the hit pass does at one index, case by case. */
  lemma HitStepEffect(lasers: seq<Laser>, belt: seq<Asteroid>, i: nat, levelNumber: int, d: DestructDraws)
    requires i < |lasers|
    ensures var l, r := lasers[i], HitStep(lasers, belt, i, levelNumber, d);
      var k := FindCollisionAsteroidIndex(belt, l.center, l.radius);
      (k == -1 ==> r.1 == belt) &&
      (k != -1 ==> r.1 == Destructed(belt, k, levelNumber, d)) &&
      (l.isHit && l.time == 1 ==> r.0 == lasers[..i] + lasers[i + 1..]) &&
      (!(l.isHit && l.time == 1) && k != -1 ==> r.0 == lasers[i := l.(isHit := true, time := ExplodeLaserTicks)]) &&
      (l.isHit && l.time != 1 && k == -1 ==> r.0 == lasers[i := l.(time := l.time - 1)]) &&
      (!l.isHit && k == -1 ==> r.0 == lasers)
  {
  }

  lemma HitStepKeepsOk(lasers: seq<Laser>, belt: seq<Asteroid>, i: nat, levelNumber: int, d: DestructDraws)
    requires i < |lasers|
    requires forall l :: l in lasers ==> LaserOk(l)
    requires forall a :: a in belt ==> AsteroidOk(a)
    ensures var r := HitStep(lasers, belt, i, levelNumber, d);
      (forall l :: l in r.0 ==> LaserOk(l)) && (forall a :: a in r.1 ==> AsteroidOk(a)) &&
      BeltPotential(r.1) <= BeltPotential(belt)
  {
    var laser := lasers[i];
    var k := FindCollisionAsteroidIndex(belt, laser.center, laser.radius);
    var r := HitStep(lasers, belt, i, levelNumber, d);
    assert laser in lasers;
    if k != -1 {
      DestructedKeepsAsteroidsOk(belt, k, levelNumber, d);
      DestructedPotential(belt, k, levelNumber, d);
    }
    if laser.isHit && laser.time - 1 == 0 {
      forall l | l in r.0 ensures LaserOk(l) {
        assert l in lasers[..i] || l in lasers[i + 1..];
      }
    }
  }

  /** The hit pass keeps every laser's countdown within [1, ExplodeLaserTicks]
      while hit (0 otherwise), keeps the belt made of tier-sized well-shaped
      asteroids, never adds a laser and never grows the destructions the belt
      still needs. */
  lemma {:induction false} HitsFromKeepsOk(lasers: seq<Laser>, belt: seq<Asteroid>, i: nat, levelNumber: int,
                                           draws: nat -> DestructDraws)
    requires forall l :: l in lasers ==> LaserOk(l)
    requires forall a :: a in belt ==> AsteroidOk(a)
    decreases |lasers| - i
    ensures var r := HitsFrom(lasers, belt, i, levelNumber, draws);
      (forall l :: l in r.0 ==> LaserOk(l)) && (forall a :: a in r.1 ==> AsteroidOk(a)) &&
      |r.0| <= |lasers| && BeltPotential(r.1) <= BeltPotential(belt)
  {
    if i < |lasers| {
      var next := HitStep(lasers, belt, i, levelNumber, draws(i));
      HitStepKeepsOk(lasers, belt, i, levelNumber, draws(i));
      HitsFromKeepsOk(next.0, next.1, i + 1, levelNumber, draws);
    }
  }

  /** A flying laser at the centre of a large asteroid: after one pass the
      asteroid is replaced by two half-size fragments and the laser is in its
      explosion countdown. */
  lemma LaserSplitsLargeAsteroid(l: Laser, a: Asteroid, levelNumber: int, draws: nat -> DestructDraws)
    requires LaserOk(l) && !l.isHit
    requires a.radius == LargeRadius && l.center == a.center
    ensures var r := HitsFrom([l], [a], 0, levelNumber, draws);
      r.0 == [l.(isHit := true, time := ExplodeLaserTicks)] &&
      |r.1| == 2 && r.1[0].radius == LargeRadius / 2.0 && r.1[1].radius == LargeRadius / 2.0
  {
    assert Hits(a, l.center, l.radius);
    var k := FindCollisionAsteroidIndex([a], l.center, l.radius);
    assert k == 0;
    var next := HitStep([l], [a], 0, levelNumber, draws(0));
    assert next.0 == [l.(isHit := true, time := ExplodeLaserTicks)];
    assert next.1 == Destructed([a], 0, levelNumber, draws(0));
  }

  /** The splice during the forward loop skips the next laser: of two lasers
      at the end of their countdown, only the first is removed in this pass,
      and the second keeps its countdown untouched. */
  lemma SpliceSkipsNextLaser(first: Laser, second: Laser, levelNumber: int, draws: nat -> DestructDraws)
    requires first.isHit && first.time == 1 && second.isHit && second.time == 1
    ensures HitsFrom([first, second], [], 0, levelNumber, draws) == ([second], [])
  {
    var next := HitStep([first, second], [], 0, levelNumber, draws(0));
    assert next.0 == [second];
  }

  /** A laser whose countdown ends in this pass is removed, yet its collision
      test has already run and the asteroid it touches is still destructed. */
  lemma ExpiringLaserStillDestructs(l: Laser, belt: seq<Asteroid>, levelNumber: int, d: DestructDraws)
    requires l.isHit && l.time == 1
    requires FindCollisionAsteroidIndex(belt, l.center, l.radius) != -1
    ensures var k := FindCollisionAsteroidIndex(belt, l.center, l.radius);
      HitStep([l], belt, 0, levelNumber, d) == ([], Destructed(belt, k, levelNumber, d))
  {
  }
}
