/** The ship's mode state machine kept in `interactDetector`: exploding
    (countdown, then respawn), blinking after a respawn (invulnerable), and
    vulnerable (a collision starts an explosion). */
module Modes {
  import opened Entities

  /** `initInteractDetectorInstance()`: not exploding, a full explosion
      countdown ready, and a full run of blinks. */
  function FreshDetector(): (d: Detector)
    ensures DetectorOk(d) && IsBlinkerMode(d) && !IsBlinkerOff(d)
  {
    Detector(ExplodeShipTicks, false, BlinkerTicks, BlinkerCount)
  }

  /** The detector after one `updateModesLogic()`. `collides` says whether the
      ship touches an asteroid; it is consulted only when the ship is neither
      exploding nor blinking. An explosion is left only by a respawn, the
      blink count never goes up but by a respawn, and the counters stay in
      range. */
  function NextDetector(d: Detector, collides: bool): (r: Detector)
    ensures d.isExploding && !r.isExploding ==> r == FreshDetector()
    ensures r.blinkerNumber <= d.blinkerNumber || r == FreshDetector()
    ensures !d.isExploding && r.isExploding ==> collides && d.blinkerNumber <= 0
    ensures DetectorOk(d) ==> DetectorOk(r)
  {
    if IsExplosionMode(d) then
      if d.explosionTime > 0 then d.(explosionTime := d.explosionTime - 1) else FreshDetector()
    else if IsBlinkerMode(d) then
      var t := d.blinkerTime - 1;
      if t == 0 then d.(blinkerTime := BlinkerTicks, blinkerNumber := d.blinkerNumber - 1)
      else d.(blinkerTime := t)
    else if collides then d.(isExploding := true)
    else d
  }

  /** The ship's explosion starts only from the vulnerable mode and only on a
      collision; an exploding ship stays exploding until its countdown has
      run out, and then it respawns. */
  lemma ExplosionStartsOnlyOnCollision(d: Detector, collides: bool)
    ensures !d.isExploding ==>
      (NextDetector(d, collides).isExploding <==> collides && !IsBlinkerMode(d))
    ensures d.isExploding ==>
      (NextDetector(d, collides).isExploding <==> d.explosionTime > 0)
  {
  }

  /** The detector after one `updateModesLogic()` per entry of `hits`. */
  function Run(d: Detector, hits: seq<bool>): Detector
  {
    if hits == [] then d else NextDetector(Run(d, hits[..|hits| - 1]), hits[|hits| - 1])
  }

  /** After a respawn the ship blinks for BlinkerCount blinks of BlinkerTicks
      ticks each, whatever it touches meanwhile: during those ticks it is never
      exploding, and the blinker counts down in closed form. */
  lemma {:induction false} BlinkingAfterRespawn(hits: seq<bool>)
    requires |hits| <= BlinkerTicks * BlinkerCount
    ensures Run(FreshDetector(), hits) ==
      Detector(ExplodeShipTicks, false, BlinkerTicks - |hits| % BlinkerTicks, BlinkerCount - |hits| / BlinkerTicks)
  {
    if hits != [] {
      var n := |hits| - 1;
      BlinkingAfterRespawn(hits[..n]);
      assert n % BlinkerTicks == BlinkerTicks - 1 ==> (n + 1) % BlinkerTicks == 0 && (n + 1) / BlinkerTicks == n / BlinkerTicks + 1;
      assert n % BlinkerTicks != BlinkerTicks - 1 ==> (n + 1) % BlinkerTicks == n % BlinkerTicks + 1 && (n + 1) / BlinkerTicks == n / BlinkerTicks;
    }
  }

  /** While it blinks after a respawn the ship is hidden during every other
      blink: `isBlinkerOff()` holds exactly in the odd-numbered runs of
      BlinkerTicks ticks, starting visible. */
  lemma BlinkerVisibility(hits: seq<bool>)
    requires |hits| < BlinkerTicks * BlinkerCount
    ensures IsBlinkerMode(Run(FreshDetector(), hits)) && !IsExplosionMode(Run(FreshDetector(), hits))
    ensures IsBlinkerOff(Run(FreshDetector(), hits)) <==> (|hits| / BlinkerTicks) % 2 == 1
  {
    BlinkingAfterRespawn(hits);
    var q := |hits| / BlinkerTicks;
    assert 0 <= q < BlinkerCount;
    assert Run(FreshDetector(), hits).blinkerNumber == BlinkerCount - q;
    OddCountdown(q);
  }

  lemma OddCountdown(q: int)
    requires 0 <= q < BlinkerCount
    ensures (BlinkerCount - q) % 2 != 0 <==> q % 2 == 1
  {
  }

  /** Once the blinks are over the ship is vulnerable: the next collision
      makes it explode. */
  lemma VulnerableAfterBlinking(hits: seq<bool>)
    requires |hits| == BlinkerTicks * BlinkerCount
    ensures !IsBlinkerMode(Run(FreshDetector(), hits))
    ensures NextDetector(Run(FreshDetector(), hits), true).isExploding
  {
    BlinkingAfterRespawn(hits);
  }

  /** An exploding ship counts its explosion down by one per tick. */
  lemma {:induction false} ExplosionCountsDown(d: Detector, hits: seq<bool>)
    requires d.isExploding && |hits| <= d.explosionTime
    ensures Run(d, hits) == d.(explosionTime := d.explosionTime - |hits|)
  {
    if hits != [] {
      ExplosionCountsDown(d, hits[..|hits| - 1]);
    }
  }

  /** The tick after the countdown reaches 0 the ship respawns with a fresh
      detector: an explosion lasts explosionTime + 1 ticks. */
  lemma ExplosionEndsInRespawn(d: Detector, hits: seq<bool>)
    requires d.isExploding && 0 <= d.explosionTime && |hits| == d.explosionTime + 1
    ensures Run(d, hits) == FreshDetector()
  {
    ExplosionCountsDown(d, hits[..|hits| - 1]);
  }
}
