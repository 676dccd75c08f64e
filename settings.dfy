/** The game's settings object (settings.py): fixed constants set once at
    construction, and the dynamic part (fleet direction, alien point value)
    that a new game resets and each level-up escalates. The floating-point
    speeds and their speed-up factor are not part of this model. */
module Configuration {

  /** Python's `int()` applied to a float: truncation toward zero. */
  function Truncate(r: real): (i: int)
    ensures 0.0 <= r ==> 0 <= i && i as real <= r < i as real + 1.0
    ensures r < 0.0 ==> i <= 0 && i as real - 1.0 < r <= i as real
  {
    if 0.0 <= r then r.Floor else -((-r).Floor)
  }

  /** The point value after one level-up: `int(alien_points * score_scale)`. */
  function ScaledPoints(points: int, scale: real): int {
    Truncate(points as real * scale)
  }

  /** With the configured score scale of 1.5, escalation is the integer
      computation (3 * p) div 2. */
  lemma ScaledPointsAtScoreScale(p: nat)
    ensures ScaledPoints(p, 1.5) == (3 * p) / 2
  {
    var q := (3 * p) / 2;
    assert 3 * p == 2 * q || 3 * p == 2 * q + 1;
    assert q as real <= p as real * 1.5 < q as real + 1.0;
  }

  /** Point values never drop at a level-up, and rise strictly once they are
      at least 2. */
  lemma ScaledPointsGrow(p: nat)
    ensures p <= ScaledPoints(p, 1.5)
    ensures 2 <= p ==> p < ScaledPoints(p, 1.5)
  {
    ScaledPointsAtScoreScale(p);
  }

  /** Starting from the reset value 20, successive levels are worth
      20, 30, 45, 67 and 100 points per alien. */
  lemma PointsProgression()
    ensures ScaledPoints(20, 1.5) == 30
    ensures ScaledPoints(30, 1.5) == 45
    ensures ScaledPoints(45, 1.5) == 67
    ensures ScaledPoints(67, 1.5) == 100
  {
    ScaledPointsAtScoreScale(20);
    ScaledPointsAtScoreScale(30);
    ScaledPointsAtScoreScale(45);
    ScaledPointsAtScoreScale(67);
  }

  class Settings {
    // screen
    var screenWidth: nat
    var screenHeight: nat
    // ship
    var shipLimit: int
    // bullets
    var bulletWidth: nat
    var bulletHeight: nat
    var bulletsAllowed: int
    // aliens: the drop on reaching an edge, and 1 for right, -1 for left
    var fleetDropSpeed: int
    var fleetDirection: int
    // scoring
    var scoreScale: real
    var alienPoints: int

    /** What the rest of the game relies on: the fleet direction is a sign,
        and nothing scoring or counting lives can go negative. */
    ghost predicate Valid()
      reads this
    {
      (fleetDirection == 1 || fleetDirection == -1) &&
      0 <= alienPoints && 0.0 <= scoreScale && 0 <= shipLimit
    }

    constructor ()
      ensures Valid()
      ensures screenWidth == 1200 && screenHeight == 800
      ensures shipLimit == 1
      ensures bulletWidth == 3000 && bulletHeight == 15 && bulletsAllowed == 3
      ensures fleetDropSpeed == 100 && scoreScale == 1.5
      ensures fleetDirection == 1 && alienPoints == 20
    {
      screenWidth := 1200;
      screenHeight := 800;
      shipLimit := 1;
      bulletWidth := 3000;
      bulletHeight := 15;
      bulletsAllowed := 3;
      fleetDropSpeed := 100;
      fleetDirection := 1;
      scoreScale := 1.5;
      new;
      InitializeDynamicSettings();
    }

    /** Resets the settings that change during a game. The new values do not
        depend on the old ones, so a second call changes nothing more. */
    method InitializeDynamicSettings()
      modifies this`fleetDirection, this`alienPoints
      ensures fleetDirection == 1 && alienPoints == 20
      ensures 0.0 <= scoreScale && 0 <= shipLimit ==> Valid()
    {
      fleetDirection := 1;
      alienPoints := 20;
    }

    /** A level-up: the point value is multiplied by the score scale and
        truncated; nothing else modelled here changes. */
    method IncreaseSpeed()
      requires Valid()
      modifies this`alienPoints
      ensures Valid()
      ensures alienPoints == ScaledPoints(old(alienPoints), scoreScale)
    {
      alienPoints := ScaledPoints(alienPoints, scoreScale);
    }
  }
}
