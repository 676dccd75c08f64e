/** The game object (alien_invasion.py): the bullets and the fleet it owns,
    the statistics it updates, and the per-frame steps of its main loop. */
module Game {
  import opened Rects
  import opened Configuration
  import opened Aliens
  import opened Fleet
  import opened Bullets

  datatype Key = RightKey | LeftKey | QKey | SpaceKey | OtherKey

  /** An input event; for a mouse click, whether it fell inside the Play
      button (the button's hit test is not part of this model). */
  datatype Event = QuitEvent | KeyDown(key: Key) | KeyUp(key: Key) | MouseDown(onPlayButton: bool)

  /** The events that end the process (`sys.exit`). */
  predicate IsQuit(e: Event) {
    e == QuitEvent || e == KeyDown(QKey)
  }

  /** How many events are handled before the process ends: the index of the
      first quitting event, or all of them when none quits. */
  function QuitAt(events: seq<Event>): (n: nat)
    ensures n <= |events|
    ensures forall k :: 0 <= k < n ==> !IsQuit(events[k])
    ensures n < |events| ==> IsQuit(events[n])
    decreases |events|
  {
    if events == [] || IsQuit(events[0]) then 0 else 1 + QuitAt(events[1..])
  }

  /** The movement flag for `key` after `events`, starting from `flag`: a
      press of the key sets it, a release clears it, every other event
      leaves it. */
  function Held(events: seq<Event>, key: Key, flag: bool): bool
    decreases |events|
  {
    if events == [] then flag else Move(Held(events[..|events| - 1], key, flag), events[|events| - 1], key)
  }

  /** The movement flag for `key` after one event. */
  function Move(flag: bool, e: Event, key: Key): bool {
    if e == KeyDown(key) then true else if e == KeyUp(key) then false else flag
  }

  /** Handling one more event of `events` moves the flag once. */
  lemma HeldSnoc(events: seq<Event>, key: Key, flag: bool, i: nat)
    requires i < |events|
    ensures Held(events[..i + 1], key, flag) == Move(Held(events[..i], key, flag), events[i], key)
  {
    assert events[..i + 1][..i] == events[..i];
  }

  /** The flag follows the last press or release of its key, and keeps its
      starting value when there is none. */
  lemma {:induction false} HeldFollowsLastMove(events: seq<Event>, key: Key, flag: bool, k: nat)
    requires k < |events|
    requires forall j :: k < j < |events| ==> events[j] != KeyDown(key) && events[j] != KeyUp(key)
    ensures events[k] == KeyDown(key) ==> Held(events, key, flag)
    ensures events[k] == KeyUp(key) ==> !Held(events, key, flag)
    decreases |events|
  {
    if k < |events| - 1 {
      var init := events[..|events| - 1];
      HeldFollowsLastMove(init, key, flag, k);
    }
  }

  lemma {:induction false} HeldWithoutMoves(events: seq<Event>, key: Key, flag: bool)
    requires forall j :: 0 <= j < |events| ==> events[j] != KeyDown(key) && events[j] != KeyUp(key)
    ensures Held(events, key, flag) == flag
    decreases |events|
  {
    if events != [] {
      HeldWithoutMoves(events[..|events| - 1], key, flag);
    }
  }

  /** The number of presses of the space bar among `events`. */
  function Presses(events: seq<Event>): nat
    decreases |events|
  {
    if events == [] then 0
    else Presses(events[..|events| - 1]) + (if events[|events| - 1] == KeyDown(SpaceKey) then 1 else 0)
  }

  /** The bullets after the space presses of `events` while a game runs:
      each press adds `shot` when fewer than `cap` are live. */
  function Volley(bullets: seq<Rect>, events: seq<Event>, cap: int, shot: Rect): seq<Rect>
    decreases |events|
  {
    if events == [] then bullets else Fire(Volley(bullets, events[..|events| - 1], cap, shot), events[|events| - 1], cap, shot)
  }

  /** The bullets after one event of a running game. */
  function Fire(bullets: seq<Rect>, e: Event, cap: int, shot: Rect): seq<Rect> {
    if e == KeyDown(SpaceKey) && |bullets| < cap then bullets + [shot] else bullets
  }

  /** Firing keeps the bullets already live and adds one bullet per press
      until `cap` are live, every one of them `shot`. */
  lemma {:induction false} VolleyCount(bullets: seq<Rect>, events: seq<Event>, cap: int, shot: Rect)
    requires |bullets| <= cap
    ensures var r := Volley(bullets, events, cap, shot);
            |r| == (if |bullets| + Presses(events) <= cap then |bullets| + Presses(events) else cap) &&
            r[..|bullets|] == bullets &&
            forall k :: |bullets| <= k < |r| ==> r[k] == shot
    decreases |events|
  {
    if events != [] {
      VolleyCount(bullets, events[..|events| - 1], cap, shot);
    }
  }

  /** The rectangles of `aliens`, in order. */
  function RectsOf(aliens: seq<Alien>): (r: seq<Rect>)
    reads aliens
    ensures |r| == |aliens|
  {
    seq(|aliens|, i reads aliens requires 0 <= i < |aliens| => aliens[i].rect)
  }

  lemma RectsOfSnoc(aliens: seq<Alien>, a: Alien)
    ensures RectsOf(aliens + [a]) == RectsOf(aliens) + [a.rect]
  {
  }

  /** A prefix grows by the element after it. */
  lemma GrowPrefix<T>(s: seq<T>, i: nat)
    requires i < |s|
    ensures s[..i + 1] == s[..i] + [s[i]]
  {
  }

  lemma RectsOfPrefix(aliens: seq<Alien>, j: nat)
    requires j < |aliens|
    ensures RectsOf(aliens[..j + 1]) == RectsOf(aliens[..j]) + [aliens[j].rect]
  {
    GrowPrefix(aliens, j);
    RectsOfSnoc(aliens[..j], aliens[j]);
  }

  /** Sprite groups hold each sprite once. */
  predicate Distinct(aliens: seq<Alien>) {
    forall i, j :: 0 <= i < j < |aliens| ==> aliens[i] != aliens[j]
  }

  lemma DistinctSnoc(aliens: seq<Alien>, a: Alien)
    requires Distinct(aliens) && a !in aliens
    ensures Distinct(aliens + [a])
  {
    var all := aliens + [a];
    forall i, j | 0 <= i < j < |all| ensures all[i] != all[j] {
      if j == |aliens| {
        assert all[i] == aliens[i];
      }
    }
  }

  /** Walking a group of distinct aliens, a selection `kept` of those before
      position `j` stays a selection of distinct aliens whether or not the
      alien at `j` joins it. */
  lemma KeepStep(group: seq<Alien>, j: nat, kept: seq<Alien>)
    requires Distinct(group) && j < |group|
    requires Distinct(kept) && multiset(kept) <= multiset(group[..j])
    ensures multiset(kept) <= multiset(group[..j + 1])
    ensures Distinct(kept + [group[j]]) && multiset(kept + [group[j]]) <= multiset(group[..j + 1])
  {
    GrowPrefix(group, j);
    assert group[j] !in kept by {
      forall k | 0 <= k < j ensures group[..j][k] != group[j] {
      }
      assert group[j] !in multiset(group[..j]);
    }
    DistinctSnoc(kept, group[j]);
  }

  /** The aliens of `group` that `bullet` does not overlap, in order: what
      one bullet leaves of the group. */
  method SpareAliens(bullet: Rect, group: seq<Alien>) returns (kept: seq<Alien>)
    requires Distinct(group)
    ensures RectsOf(kept) == Apart(bullet, RectsOf(group))
    ensures Distinct(kept) && multiset(kept) <= multiset(group)
  {
    kept := [];
    var j := 0;
    while j < |group|
      invariant 0 <= j <= |group|
      invariant RectsOf(kept) == Apart(bullet, RectsOf(group[..j]))
      invariant Distinct(kept) && multiset(kept) <= multiset(group[..j])
    {
      RectsOfPrefix(group, j);
      ApartSnoc(bullet, RectsOf(group[..j]), group[j].rect);
      KeepStep(group, j, kept);
      if !Overlaps(bullet, group[j].rect) {
        RectsOfSnoc(kept, group[j]);
        kept := kept + [group[j]];
      }
      j := j + 1;
    }
    assert group[..j] == group;
  }

  /** The pruning loop of `_update_bullets`: walks a copy of the group and
      removes each bullet whose bottom has reached the top of the screen. */
  method Prune(bullets: seq<Rect>) returns (kept: seq<Rect>)
    ensures kept == OnScreen(bullets)
    ensures |kept| <= |bullets|
  {
    kept := [];
    var i := 0;
    while i < |bullets|
      invariant 0 <= i <= |bullets|
      invariant kept == OnScreen(bullets[..i])
    {
      assert bullets[..i + 1][..i] == bullets[..i];
      if bullets[i].Bottom() <= 0 {
        // removed from the group
      } else {
        kept := kept + [bullets[i]];
      }
      i := i + 1;
    }
    assert bullets[..i] == bullets;
    OnScreenExactly(bullets);
  }

  /** `groupcollide(bullets, aliens, True, True)` on the alien objects:
      each bullet in turn takes every still-present alien it overlaps, and
      is dropped if it took any. Returns the bullets and aliens left and,
      per bullet that hit, how many aliens it took. */
  method GroupCollide(bullets: seq<Rect>, aliens: seq<Alien>)
      returns (survivors: seq<Rect>, remaining: seq<Alien>, hits: seq<nat>)
    requires Distinct(aliens)
    ensures Distinct(remaining) && multiset(remaining) <= multiset(aliens)
    ensures Sweep(bullets, RectsOf(aliens)) == Outcome(survivors, RectsOf(remaining), hits)
  {
    survivors, remaining, hits := [], aliens, [];
    ghost var fleet := RectsOf(aliens);
    var i := 0;
    while i < |bullets|
      invariant 0 <= i <= |bullets|
      invariant Sweep(bullets[..i], fleet) == Outcome(survivors, RectsOf(remaining), hits)
      invariant Distinct(remaining) && multiset(remaining) <= multiset(aliens)
    {
      var bullet := bullets[i];
      var kept := SpareAliens(bullet, remaining);
      SweepAdvance(bullets, i, fleet, Outcome(survivors, RectsOf(remaining), hits), RectsOf(kept));
      if |kept| < |remaining| {
        var taken: nat := |remaining| - |kept|;
        hits := hits + [taken];
        remaining := kept;
      } else {
        survivors := survivors + [bullet];
      }
      i := i + 1;
    }
    assert bullets[..i] == bullets;
  }

  /** The points earned for `hits`: `points` for each alien of each
      collision entry, added entry by entry. */
  function Award(points: int, hits: seq<nat>): int
    decreases |hits|
  {
    if hits == [] then 0 else Award(points, hits[..|hits| - 1]) + points * hits[|hits| - 1]
  }

  /** Entry by entry, the award is the point value times the number of
      aliens hit. */
  lemma {:induction false} AwardIsProduct(points: int, hits: seq<nat>)
    ensures Award(points, hits) == points * Sum(hits)
  {
    if hits != [] {
      var init, last := hits[..|hits| - 1], hits[|hits| - 1];
      AwardIsProduct(points, init);
      assert points * (Sum(init) + last) == points * Sum(init) + points * last;
    }
  }

  /** The fleet direction after `_check_fleet_edges`: reversed when some
      alien is at a side edge. */
  function Heading(fleet: seq<Rect>, screen: Rect, direction: int): int {
    if AnyAtEdge(fleet, screen) then -direction else direction
  }

  /** The fleet after `_check_fleet_edges` and one step of every alien:
      dropped first when some alien was at a side edge, then moved `speed`
      pixels in the new direction. */
  function March(fleet: seq<Rect>, screen: Rect, direction: int, drop: int, speed: int): seq<Rect> {
    var turned := if AnyAtEdge(fleet, screen) then Dropped(fleet, drop) else fleet;
    Shifted(turned, speed * Heading(fleet, screen, direction))
  }

  /** The step across never brings a fleet to the bottom or takes it away:
      after a march the fleet is at the bottom exactly when it was before
      the step, after its drop if it turned. */
  lemma MarchBottom(fleet: seq<Rect>, screen: Rect, direction: int, drop: int, speed: int)
    ensures AnyAtBottom(March(fleet, screen, direction, drop, speed), screen) ==
            AnyAtBottom(if AnyAtEdge(fleet, screen) then Dropped(fleet, drop) else fleet, screen)
  {
    var turned := if AnyAtEdge(fleet, screen) then Dropped(fleet, drop) else fleet;
    ShiftedKeepsBottom(turned, speed * Heading(fleet, screen, direction), screen);
  }

  /** The part of the game state that the gameplay steps read and write:
      the bullets, the fleet's rectangles, the statistics, and the dynamic
      settings. */
  datatype Status = Status(bullets: seq<Rect>, fleet: seq<Rect>, score: int, level: int,
                           shipsLeft: int, active: bool, direction: int, points: int)

  /** What the gameplay steps depend on besides the game state: the screen,
      the alien images, the ship's rectangle, the fleet's drop speed, the
      score scale, the number of ships per game, the number of bullets
      allowed and the bullet's size. */
  datatype Config = Config(screen: Rect, images: seq<Size>, ship: Rect, drop: int, scale: real,
                           shipLimit: int, bulletsAllowed: int, bulletWidth: nat, bulletHeight: nat)

  /** One image per colour, none of zero size (`_create_fleet` divides by
      the alien's width and height). */
  predicate ImagesFit(images: seq<Size>) {
    |images| == |Colors| &&
    forall i :: 0 <= i < |images| ==> 0 < images[i].width && 0 < images[i].height
  }

  /** The fleet `_create_fleet` lays out at `level`. */
  function FleetAt(c: Config, level: int): seq<Rect>
    requires ImagesFit(c.images)
  {
    Layout(c.screen.width, c.screen.height, c.images[ColorIndex(level)], c.ship.height)
  }

  /** The state of a game just started with Play: reset settings and
      statistics, running, with a fresh fleet and no bullets. */
  function Started(c: Config): Status
    requires ImagesFit(c.images)
  {
    Status([], FleetAt(c, 1), 0, 1, c.shipLimit, true, 1, 20)
  }

  /** The collision check applied to `s`: the hits are scored, and a
      cleared fleet is replaced by a fresh one at the next level, with no
      bullets left and a higher point value. */
  function Collided(c: Config, s: Status): Status
    requires ImagesFit(c.images)
  {
    var scored := Scored(s);
    if scored.fleet != [] then scored
    else scored.(bullets := [], fleet := FleetAt(c, s.level + 1), level := s.level + 1,
                 points := ScaledPoints(s.points, c.scale))
  }

  /** The hits in `s` removed and scored: the aliens a bullet touches leave
      with it, and each scores the point value. */
  function Scored(s: Status): Status {
    var o := Sweep(s.bullets, s.fleet);
    s.(bullets := o.bullets, fleet := o.aliens, score := s.score + s.points * (|s.fleet| - |o.aliens|))
  }

  /** The removals that `groupcollide` reports for `s`, with the score
      raised by the award for its entries (none at all when there are no
      entries), make up `Scored(s)`. */
  lemma ScoredAfterKill(s: Status, bullets: seq<Rect>, fleet: seq<Rect>, hits: seq<nat>, score: int)
    requires Sweep(s.bullets, s.fleet) == Outcome(bullets, fleet, hits)
    requires Sum(hits) == |s.fleet| - |fleet|
    requires score == s.score + (if hits == [] then 0 else Award(s.points, hits))
    ensures Scored(s) == s.(bullets := bullets, fleet := fleet, score := score)
    ensures 0 <= s.points ==> s.score <= score
  {
    AwardIsProduct(s.points, hits);
    if 0 <= s.points {
      MulLeft(s.points, 0, Sum(hits));
    }
  }

  /** A ship hit in `s`: with a ship to spare, one is lost and the round
      restarts with a fresh fleet and no bullets; with none, the game ends
      and nothing else changes. */
  function HitShip(c: Config, s: Status): Status
    requires ImagesFit(c.images)
  {
    if 0 < s.shipsLeft then s.(shipsLeft := s.shipsLeft - 1, bullets := [], fleet := FleetAt(c, s.level))
    else s.(active := false)
  }

  /** `_update_aliens` applied to `s`: the fleet turns if some alien is at
      a side edge and steps `speed`; if the stepped fleet then touches the
      ship or reaches the bottom, exactly one ship hit follows. */
  function Marched(c: Config, s: Status, speed: int): Status
    requires ImagesFit(c.images)
  {
    var fleet := March(s.fleet, c.screen, s.direction, c.drop, speed);
    var stepped := s.(fleet := fleet, direction := Heading(s.fleet, c.screen, s.direction));
    if !AnyOverlaps(c.ship, fleet) && !AnyAtBottom(fleet, c.screen) then stepped
    else HitShip(c, stepped)
  }

  /** The gameplay half of a frame of a running game applied to `s`: the
      bullets rise by `rise` and those off the screen are pruned, then the
      collision check, then the fleet's march. */
  function Frame(c: Config, s: Status, rise: int, speed: int): Status
    requires ImagesFit(c.images)
  {
    Marched(c, Collided(c, s.(bullets := OnScreen(Raised(s.bullets, rise)))), speed)
  }

  /** One pass of `run_game`'s loop from `g` when no event quits: the
      events, then the gameplay half of the frame if a game is running. */
  function GameFrame(c: Config, g: Status, events: seq<Event>, rise: int, speed: int): Status
    requires ImagesFit(c.images)
  {
    var handled := AfterEvents(c, g, events);
    if handled.active then Frame(c, handled, rise, speed) else handled
  }

  /** A pass of a running game: the presses fire, then the frame is played. */
  lemma FrameWhileRunning(c: Config, g: Status, events: seq<Event>, rise: int, speed: int)
    requires ImagesFit(c.images) && g.active
    ensures GameFrame(c, g, events, rise, speed) ==
            Frame(c, g.(bullets := Volley(g.bullets, events, c.bulletsAllowed, Shot(c))), rise, speed)
  {
    EventsWhileRunning(c, g, events);
  }

  /** A pass of a stopped game without a click on Play changes nothing. */
  lemma FrameWhileStopped(c: Config, g: Status, events: seq<Event>, rise: int, speed: int)
    requires ImagesFit(c.images) && !g.active && ClickAt(events) == |events|
    ensures GameFrame(c, g, events, rise, speed) == g
  {
    EventsWhileStopped(c, g, events);
  }

  /** A pass of a stopped game with a click on Play: a new game starts, the
      presses after the click fire into it, and its first frame is played. */
  lemma FrameAfterClick(c: Config, g: Status, events: seq<Event>, rise: int, speed: int)
    requires ImagesFit(c.images) && !g.active && ClickAt(events) < |events|
    ensures GameFrame(c, g, events, rise, speed) ==
            Frame(c, Started(c).(bullets := Volley([], events[ClickAt(events) + 1..], c.bulletsAllowed, Shot(c))),
                  rise, speed)
  {
    EventsAfterClick(c, g, events);
  }

  /** Unless Play starts a new game, a pass never lowers the score or the
      level. */
  lemma FrameKeepsProgress(c: Config, g: Status, events: seq<Event>, rise: int, speed: int)
    requires ImagesFit(c.images) && 0 <= g.points && (g.active || ClickAt(events) == |events|)
    ensures g.score <= GameFrame(c, g, events, rise, speed).score
    ensures g.level <= GameFrame(c, g, events, rise, speed).level
  {
    if g.active {
      FrameWhileRunning(c, g, events, rise, speed);
      FrameProgress(c, g.(bullets := Volley(g.bullets, events, c.bulletsAllowed, Shot(c))), rise, speed);
    } else {
      FrameWhileStopped(c, g, events, rise, speed);
    }
  }

  /** The collision check never lowers the score or the level. */
  lemma CollidedProgress(c: Config, s: Status)
    requires ImagesFit(c.images) && 0 <= s.points
    ensures s.score <= Collided(c, s).score && s.level <= Collided(c, s).level
  {
    var o := Sweep(s.bullets, s.fleet);
    SweepAccounting(s.bullets, s.fleet);
    MulLeft(s.points, 0, |s.fleet| - |o.aliens|);
    assert Collided(c, s).score == Scored(s).score;
  }

  /** The fleet's march leaves the score, the level and the point value
      alone. */
  lemma MarchedKeepsScore(c: Config, s: Status, speed: int)
    requires ImagesFit(c.images)
    ensures Marched(c, s, speed).score == s.score && Marched(c, s, speed).level == s.level
    ensures Marched(c, s, speed).points == s.points
  {
  }

  /** A frame never lowers the score or the level. */
  lemma FrameProgress(c: Config, s: Status, rise: int, speed: int)
    requires ImagesFit(c.images) && 0 <= s.points
    ensures s.score <= Frame(c, s, rise, speed).score && s.level <= Frame(c, s, rise, speed).level
  {
    var onScreen := s.(bullets := OnScreen(Raised(s.bullets, rise)));
    CollidedProgress(c, onScreen);
    MarchedKeepsScore(c, Collided(c, onScreen), speed);
  }

  /** The index of the first click on Play among `events`, or all of them
      when there is none. */
  function ClickAt(events: seq<Event>): (n: nat)
    ensures n <= |events|
    ensures forall k :: 0 <= k < n ==> events[k] != MouseDown(true)
    ensures n < |events| ==> events[n] == MouseDown(true)
    decreases |events|
  {
    if events == [] || events[0] == MouseDown(true) then 0 else 1 + ClickAt(events[1..])
  }

  /** The first click is the one `ClickAt` finds. */
  lemma ClickAtIsFirst(events: seq<Event>, n: nat)
    requires n <= |events|
    requires forall k :: 0 <= k < n ==> events[k] != MouseDown(true)
    requires n < |events| ==> events[n] == MouseDown(true)
    ensures ClickAt(events) == n
  {
  }

  /** A bullet fired in configuration `c`: bullet-sized, with its top
      centred on the ship's. */
  function Shot(c: Config): Rect {
    AtMidTop(c.ship, c.bulletWidth, c.bulletHeight)
  }

  /** What one event does to the game state `g`: a press of the space bar
      in a running game fires while fewer than the allowed bullets are live,
      a click on Play starts a new game while none runs, and every other
      event leaves the state alone. */
  function OnEvent(c: Config, g: Status, e: Event): Status
    requires ImagesFit(c.images)
  {
    if e == KeyDown(SpaceKey) && g.active && |g.bullets| < c.bulletsAllowed then
      g.(bullets := g.bullets + [Shot(c)])
    else if e == MouseDown(true) && !g.active then
      Started(c)
    else
      g
  }

  /** The game state after `events`, handled in order from `g`. */
  function AfterEvents(c: Config, g: Status, events: seq<Event>): Status
    requires ImagesFit(c.images)
    decreases |events|
  {
    if events == [] then g else OnEvent(c, AfterEvents(c, g, events[..|events| - 1]), events[|events| - 1])
  }

  /** Handling one more event of `events`. */
  lemma AfterEventsSnoc(c: Config, g: Status, events: seq<Event>, i: nat)
    requires ImagesFit(c.images) && i < |events|
    ensures AfterEvents(c, g, events[..i + 1]) == OnEvent(c, AfterEvents(c, g, events[..i]), events[i])
  {
    assert events[..i + 1][..i] == events[..i];
  }

  /** In a running game the events only fire bullets, one per press while
      there is room. */
  lemma {:induction false} EventsWhileRunning(c: Config, g: Status, events: seq<Event>)
    requires ImagesFit(c.images) && g.active
    ensures AfterEvents(c, g, events) == g.(bullets := Volley(g.bullets, events, c.bulletsAllowed, Shot(c)))
    decreases |events|
  {
    if events != [] {
      EventsWhileRunning(c, g, events[..|events| - 1]);
    }
  }

  /** In a stopped game, events without a click on Play change nothing. */
  lemma {:induction false} EventsWhileStopped(c: Config, g: Status, events: seq<Event>)
    requires ImagesFit(c.images) && !g.active && ClickAt(events) == |events|
    ensures AfterEvents(c, g, events) == g
    decreases |events|
  {
    if events != [] {
      var init := events[..|events| - 1];
      ClickAtIsFirst(init, |init|);
      EventsWhileStopped(c, g, init);
    }
  }

  /** In a stopped game, the first click on Play starts a new game, and the
      presses after it fire into that game. */
  lemma {:induction false} EventsAfterClick(c: Config, g: Status, events: seq<Event>)
    requires ImagesFit(c.images) && !g.active && ClickAt(events) < |events|
    ensures AfterEvents(c, g, events) ==
            Started(c).(bullets := Volley([], events[ClickAt(events) + 1..], c.bulletsAllowed, Shot(c)))
    decreases |events|
  {
    var init, n := events[..|events| - 1], ClickAt(events);
    if n == |init| {
      ClickAtIsFirst(init, |init|);
      EventsWhileStopped(c, g, init);
      assert events[n + 1..] == [];
    } else {
      ClickAtIsFirst(init, n);
      EventsAfterClick(c, g, init);
      var after := events[n + 1..];
      assert |after| == |events| - n - 1 && |after| > 0;
      assert after[..|after| - 1] == init[n + 1..];
      assert after[|after| - 1] == events[|events| - 1];
    }
  }

  /** The statistics object. game_stats.py is not part of this model; the
      reset is assumed: no score, level 1, the configured number of ships;
      a game starts inactive. */
  class GameStats {
    const settings: Settings
    var score: int
    var level: int
    var shipsLeft: int
    var gameActive: bool

    constructor (settings: Settings)
      ensures this.settings == settings
      ensures score == 0 && level == 1 && shipsLeft == settings.shipLimit && !gameActive
    {
      this.settings := settings;
      score, level, shipsLeft := 0, 1, settings.shipLimit;
      gameActive := false;
    }

    method ResetStats()
      modifies this`score, this`level, this`shipsLeft
      ensures score == 0 && level == 1 && shipsLeft == settings.shipLimit
    {
      score, level, shipsLeft := 0, 1, settings.shipLimit;
    }
  }

  class AlienInvasion {
    const settings: Settings
    const stats: GameStats
    /** The display surface's rectangle, sized from the settings. */
    const screen: Rect
    /** The size of each colour's alien image. */
    const images: seq<Size>
    /** The ship's rectangle; moving and re-centring the ship is not part
        of this model. */
    var shipRect: Rect
    var movingRight: bool
    var movingLeft: bool
    var bullets: seq<Rect>
    var aliens: seq<Alien>

    /** One image per colour, none of zero size. */
    ghost predicate ImagesOk() {
      ImagesFit(images)
    }

    ghost predicate Valid()
      reads this, settings, stats, aliens
    {
      ImagesOk() && settings.Valid() && stats.settings == settings &&
      screen == Rect(0, 0, settings.screenWidth, settings.screenHeight) &&
      0 <= stats.shipsLeft && 0 <= stats.score &&
      |bullets| <= settings.bulletsAllowed &&
      Distinct(aliens) &&
      forall a :: a in aliens ==> a.settings == settings && a.screen == screen && a.Valid()
    }

    /** The rectangles of the fleet, in the order the aliens were added. */
    function FleetRects(): seq<Rect>
      reads this`aliens, aliens
    {
      RectsOf(aliens)
    }

    /** The size of the image that an alien created now would load. */
    function AlienSize(): Size
      reads stats`level
      requires ImagesOk()
    {
      images[ColorIndex(stats.level)]
    }

    /** The settings and the ship the gameplay steps depend on. */
    ghost function Cfg(): Config
      reads this`shipRect, settings`fleetDropSpeed, settings`scoreScale, settings`shipLimit,
            settings`bulletsAllowed, settings`bulletWidth, settings`bulletHeight
    {
      Config(screen, images, shipRect, settings.fleetDropSpeed, settings.scoreScale, settings.shipLimit,
             settings.bulletsAllowed, settings.bulletWidth, settings.bulletHeight)
    }

    /** The fleet `_create_fleet` lays out in the current state. */
    ghost function FreshFleet(): seq<Rect>
      reads this`shipRect, settings`fleetDropSpeed, settings`scoreScale, settings`shipLimit,
            settings`bulletsAllowed, settings`bulletWidth, settings`bulletHeight, stats`level
      requires ImagesOk()
    {
      FleetAt(Cfg(), stats.level)
    }

    /** `bullets` is what firing made of `bullets0`: one more bullet when
        there was room and the game was active, otherwise no change. */
    ghost predicate FiredFrom(bullets0: seq<Rect>)
      reads this, settings, stats
    {
      bullets == if |bullets0| < settings.bulletsAllowed && stats.gameActive
                 then bullets0 + [Shot(Cfg())] else bullets0
    }

    /** The current game state as a value. */
    ghost function Now(): Status
      reads this, settings, stats, aliens
    {
      Status(bullets, FleetRects(), stats.score, stats.level, stats.shipsLeft, stats.gameActive,
             settings.fleetDirection, settings.alienPoints)
    }

    /** The state after a ship hit, given the lives, active flag, bullets and
        fleet before it. */
    ghost predicate AfterShipHit(shipsLeft0: int, active0: bool, bullets0: seq<Rect>, fleet0: seq<Rect>)
      reads this, settings, stats, aliens
      requires ImagesOk()
    {
      if 0 < shipsLeft0 then
        stats.shipsLeft == shipsLeft0 - 1 && stats.gameActive == active0 &&
        bullets == [] && FleetRects() == FreshFleet()
      else
        stats.shipsLeft == shipsLeft0 && !stats.gameActive &&
        bullets == bullets0 && FleetRects() == fleet0
    }

    constructor (images: seq<Size>, shipRect: Rect)
      requires |images| == |Colors|
      requires forall i :: 0 <= i < |images| ==> 0 < images[i].width && 0 < images[i].height
      ensures Valid() && fresh(settings) && fresh(stats)
      ensures settings.screenWidth == 1200 && settings.screenHeight == 800
      ensures settings.shipLimit == 1 && settings.bulletsAllowed == 3
      ensures settings.bulletWidth == 3000 && settings.bulletHeight == 15
      ensures settings.fleetDropSpeed == 100 && settings.scoreScale == 1.5
      ensures settings.fleetDirection == 1 && settings.alienPoints == 20
      ensures stats.score == 0 && stats.level == 1 && stats.shipsLeft == settings.shipLimit
      ensures !stats.gameActive
      ensures this.images == images && this.shipRect == shipRect
      ensures !movingRight && !movingLeft
      ensures bullets == [] && FleetRects() == FreshFleet()
    {
      var s := new Settings();
      settings := s;
      screen := Rect(0, 0, s.screenWidth, s.screenHeight);
      stats := new GameStats(s);
      this.images := images;
      this.shipRect := shipRect;
      movingRight, movingLeft := false, false;
      bullets := [];
      aliens := [];
      new;
      CreateFleet();
    }

    /** `_fire_bullet`. */
    method FireBullet()
      requires Valid()
      modifies this`bullets
      ensures Valid()
      ensures FiredFrom(old(bullets))
    {
      if |bullets| < settings.bulletsAllowed && stats.gameActive {
        var newBullet := AtMidTop(shipRect, settings.bulletWidth, settings.bulletHeight);
        bullets := bullets + [newBullet];
      }
    }

    /** `_update_bullets`: every bullet moves up by `rise` (the bullet speed
        is not part of this model), the bullets that left the screen are
        removed, then the collision check runs. */
    method UpdateBullets(rise: int)
      requires Valid()
      modifies this`bullets, this`aliens, stats`score, stats`level, settings`alienPoints
      ensures Valid()
      ensures forall a :: a in aliens ==> a in old(aliens) || fresh(a)
      ensures Now() == Collided(Cfg(), old(Now()).(bullets := OnScreen(Raised(old(bullets), rise))))
    {
      ghost var c := Cfg();
      ghost var pruned := Now().(bullets := OnScreen(Raised(bullets, rise)));
      bullets := Raised(bullets, rise);
      bullets := Prune(bullets);
      assert Now() == pruned;
      CheckBulletAlienCollisions();
      assert Cfg() == c;
    }

    /** `_check_bullet_alien_collisions`. */
    method CheckBulletAlienCollisions()
      requires Valid()
      modifies this`bullets, this`aliens, stats`score, stats`level, settings`alienPoints
      ensures Valid()
      ensures forall a :: a in aliens ==> a in old(aliens) || fresh(a)
      ensures Now() == Collided(Cfg(), old(Now()))
    {
      ScoreCollisions();
      if aliens == [] {
        StartNextLevel();
      }
    }

    /** The first half of `_check_bullet_alien_collisions`: the collided
        bullets and aliens leave, and each hit alien scores. */
    method ScoreCollisions()
      requires Valid()
      modifies this`bullets, this`aliens, stats`score
      ensures Valid()
      ensures forall a :: a in aliens ==> a in old(aliens)
      ensures Now() == Scored(old(Now()))
    {
      ghost var s0 := Now();
      var hits := KillCollided();
      assert Now() == s0.(bullets := bullets, fleet := FleetRects());
      if hits != [] {
        AddPoints(hits);
        // the score display and the high score are not part of this model
      }
      ScoredAfterKill(s0, bullets, FleetRects(), hits, stats.score);
    }

    /** The `groupcollide` call with both kill flags set: the bullets and
        aliens that collided leave their groups; the result holds, per
        bullet that hit, how many aliens it took. */
    method KillCollided() returns (hits: seq<nat>)
      requires Valid()
      modifies this`bullets, this`aliens
      ensures Valid()
      ensures forall a :: a in aliens ==> a in old(aliens)
      ensures Sweep(old(bullets), old(FleetRects())) == Outcome(bullets, FleetRects(), hits)
      ensures Sum(hits) == |old(FleetRects())| - |FleetRects()|
    {
      var survivors, remaining;
      survivors, remaining, hits := GroupCollide(bullets, aliens);
      forall a | a in remaining ensures a in aliens {
        assert a in multiset(remaining);
      }
      SweepAccounting(bullets, FleetRects());
      bullets, aliens := survivors, remaining;
    }

    /** The end of `_check_bullet_alien_collisions` once the fleet is gone:
        the bullets are cleared, the level rises, a new fleet is created and
        the point value escalates. */
    method StartNextLevel()
      requires Valid()
      modifies this`bullets, this`aliens, stats`level, settings`alienPoints
      ensures Valid()
      ensures forall a :: a in aliens ==> a in old(aliens) || fresh(a)
      ensures bullets == [] && stats.level == old(stats.level) + 1
      ensures FleetRects() == old(FleetRects()) + FreshFleet()
      ensures settings.alienPoints == ScaledPoints(old(settings.alienPoints), settings.scoreScale)
    {
      bullets := [];
      stats.level := stats.level + 1;
      // the level background is not part of this model
      CreateFleet();
      settings.IncreaseSpeed();
      // the level display is not part of this model
    }

    /** The scoring loop of `_check_bullet_alien_collisions`: for each entry
        of the collisions dictionary, the point value per alien it holds. */
    method AddPoints(hits: seq<nat>)
      modifies stats`score
      ensures stats.score == old(stats.score) + Award(settings.alienPoints, hits)
    {
      var k := 0;
      assert hits[..0] == [];
      while k < |hits|
        invariant 0 <= k <= |hits|
        invariant stats.score == old(stats.score) + Award(settings.alienPoints, hits[..k])
      {
        assert hits[..k + 1][..k] == hits[..k];
        stats.score := stats.score + settings.alienPoints * hits[k];
        k := k + 1;
      }
      assert hits[..k] == hits;
    }

    /** `_update_aliens`: the edge check, one step of every alien, then the
        two ways the ship can be hit. At most one ship is lost per call: a
        fleet spawned after a hit is clear of the bottom. */
    method UpdateAliens(speed: int)
      requires Valid()
      modifies this`aliens, this`bullets, (set a | a in aliens), settings`fleetDirection, stats`shipsLeft, stats`gameActive
      ensures Valid()
      ensures Now() == Marched(Cfg(), old(Now()), speed)
    {
      AdvanceFleet(speed);
      CheckShipHits();
    }

    /** The last two steps of `_update_aliens`: a ship hit if an alien
        touches the ship, then `_check_aliens_bottom`. Together they cost at
        most one ship. */
    method CheckShipHits()
      requires Valid()
      modifies this`aliens, this`bullets, stats`shipsLeft, stats`gameActive
      ensures Valid()
      ensures if AnyOverlaps(shipRect, old(FleetRects())) || AnyAtBottom(old(FleetRects()), screen) then
                Now() == HitShip(Cfg(), old(Now()))
              else
                aliens == old(aliens) && Now() == old(Now())
    {
      ghost var s0 := Now();
      if AnyOverlaps(shipRect, FleetRects()) {
        ShipHit();
        assert Now() == HitShip(Cfg(), s0);
        if 0 < s0.shipsLeft {
          LayoutClearOfScreenEdges(settings.screenWidth, settings.screenHeight, AlienSize(), shipRect.height);
        }
      }
      CheckAliensBottom();
    }

    /** The first two steps of `_update_aliens`: `_check_fleet_edges`, then
        `aliens.update()` in the direction that check left. */
    method AdvanceFleet(speed: int)
      requires Valid()
      modifies (set a | a in aliens), settings`fleetDirection
      ensures Valid()
      ensures settings.fleetDirection == Heading(old(FleetRects()), screen, old(settings.fleetDirection))
      ensures FleetRects() == March(old(FleetRects()), screen, old(settings.fleetDirection),
                                    settings.fleetDropSpeed, speed)
    {
      CheckFleetEdges();
      MoveFleet(speed);
    }

    /** `_create_fleet`: adds a fresh grid of aliens to the group. */
    method CreateFleet()
      requires Valid()
      modifies this`aliens
      ensures Valid()
      ensures forall a :: a in aliens ==> a in old(aliens) || fresh(a)
      ensures FleetRects() == old(FleetRects()) + FreshFleet()
    {
      var numberAliensX, numberRows := FleetCounts();
      ghost var size := AlienSize();
      var rowNumber := 0;
      while rowNumber < numberRows
        invariant 0 <= rowNumber && (rowNumber == 0 || rowNumber <= numberRows)
        invariant Valid()
        invariant forall a :: a in aliens ==> a in old(aliens) || fresh(a)
        invariant FleetRects() == old(FleetRects()) + Grid(size, rowNumber, numberAliensX)
      {
        CreateRow(rowNumber, numberAliensX);
        rowNumber := rowNumber + 1;
      }
      if numberRows <= 0 {
        assert rowNumber == 0;
      } else {
        assert rowNumber == numberRows;
      }
    }

    /** The first half of `_create_fleet`: how many aliens fit across and
        how many rows fit, measured on an alien that is not added. */
    method FleetCounts() returns (numberAliensX: int, numberRows: int)
      requires Valid()
      ensures numberAliensX == Columns(settings.screenWidth, AlienSize())
      ensures numberRows == Rows(settings.screenHeight, AlienSize(), shipRect.height)
    {
      // an alien used to measure the fleet; it is not added
      var alien := new Alien(settings, screen, stats.level, images);
      var alienWidth, alienHeight := alien.rect.width, alien.rect.height;
      var availableSpaceX := settings.screenWidth - 2 * alienWidth;
      numberAliensX := availableSpaceX / (2 * alienWidth);
      var shipHeight := shipRect.height;
      var availableSpaceY := settings.screenHeight - 3 * alienHeight - shipHeight;
      numberRows := availableSpaceY / (2 * alienHeight);
    }

    /** The inner loop of `_create_fleet`: adds the first `count` aliens of
        row `rowNumber`, left to right. */
    method CreateRow(rowNumber: int, count: int)
      requires Valid()
      modifies this`aliens
      ensures Valid()
      ensures forall a :: a in aliens ==> a in old(aliens) || fresh(a)
      ensures FleetRects() == old(FleetRects()) + Row(AlienSize(), rowNumber, count)
    {
      var alienNumber := 0;
      while alienNumber < count
        invariant 0 <= alienNumber && (alienNumber == 0 || alienNumber <= count)
        invariant Valid()
        invariant forall a :: a in aliens ==> a in old(aliens) || fresh(a)
        invariant FleetRects() == old(FleetRects()) + Row(AlienSize(), rowNumber, alienNumber)
      {
        CreateAlien(alienNumber, rowNumber);
        alienNumber := alienNumber + 1;
      }
      if count <= 0 {
        assert alienNumber == 0;
      } else {
        assert alienNumber == count;
      }
    }

    /** `_create_alien`: adds alien number `alienNumber` of row `rowNumber`. */
    method CreateAlien(alienNumber: int, rowNumber: int)
      requires Valid()
      modifies this`aliens
      ensures Valid()
      ensures |aliens| == |old(aliens)| + 1 && aliens[..|old(aliens)|] == old(aliens)
      ensures fresh(aliens[|aliens| - 1])
      ensures FleetRects() == old(FleetRects()) + [Slot(AlienSize(), alienNumber, rowNumber)]
    {
      var alien := new Alien(settings, screen, stats.level, images);
      var alienWidth, alienHeight := alien.rect.width, alien.rect.height;
      alien.x := alienWidth + 2 * alienWidth * alienNumber;
      alien.rect := alien.rect.(x := alien.x);
      alien.rect := alien.rect.(y := alienHeight + 2 * alien.rect.height * rowNumber);
      RectsOfSnoc(aliens, alien);
      DistinctSnoc(aliens, alien);
      aliens := aliens + [alien];
    }

    /** `_check_fleet_edges`: the fleet turns at most once, and only when
        some alien is at a side edge. */
    method CheckFleetEdges()
      requires Valid()
      modifies (set a | a in aliens), settings`fleetDirection
      ensures Valid()
      ensures if AnyAtEdge(old(FleetRects()), screen) then
                FleetRects() == Dropped(old(FleetRects()), settings.fleetDropSpeed) &&
                settings.fleetDirection == -old(settings.fleetDirection)
              else
                FleetRects() == old(FleetRects()) && settings.fleetDirection == old(settings.fleetDirection)
    {
      var i := 0;
      while i < |aliens|
        invariant 0 <= i <= |aliens|
        invariant forall k :: 0 <= k < i ==> !AtEdge(aliens[k].rect, screen)
      {
        if aliens[i].CheckEdges() {
          assert AtEdge(FleetRects()[i], screen);
          ChangeFleetDirection();
          break;
        }
        i := i + 1;
      }
    }

    /** `_change_fleet_direction`: every alien drops by the drop speed and the
        shared direction flips. */
    method ChangeFleetDirection()
      requires Valid()
      modifies (set a | a in aliens), settings`fleetDirection
      ensures Valid()
      ensures FleetRects() == Dropped(old(FleetRects()), settings.fleetDropSpeed)
      ensures settings.fleetDirection == -old(settings.fleetDirection)
    {
      var i := 0;
      while i < |aliens|
        invariant 0 <= i <= |aliens|
        invariant forall k :: 0 <= k < i ==>
                    aliens[k].rect == old(aliens[k].rect).(y := old(aliens[k].rect.y) + settings.fleetDropSpeed)
        invariant forall k :: i <= k < |aliens| ==> aliens[k].rect == old(aliens[k].rect)
        invariant forall k :: 0 <= k < |aliens| ==> aliens[k].x == old(aliens[k].x)
        invariant settings.fleetDirection == old(settings.fleetDirection)
      {
        aliens[i].rect := aliens[i].rect.(y := aliens[i].rect.y + settings.fleetDropSpeed);
        i := i + 1;
      }
      settings.fleetDirection := settings.fleetDirection * -1;
    }

    /** `aliens.update()`: every alien takes one step of `speed` in the
        fleet's direction. */
    method MoveFleet(speed: int)
      requires Valid()
      modifies (set a | a in aliens)
      ensures Valid()
      ensures FleetRects() == Shifted(old(FleetRects()), speed * settings.fleetDirection)
    {
      var i := 0;
      while i < |aliens|
        invariant 0 <= i <= |aliens|
        invariant forall k :: 0 <= k < i ==>
                    aliens[k].rect == old(aliens[k].rect).(x := old(aliens[k].rect.x) + speed * settings.fleetDirection)
        invariant forall k :: i <= k < |aliens| ==> aliens[k].rect == old(aliens[k].rect)
        invariant forall k :: 0 <= k < |aliens| ==> aliens[k].Valid()
      {
        aliens[i].Update(speed);
        i := i + 1;
      }
    }

    /** `_ship_hit`. */
    method ShipHit()
      requires Valid()
      modifies this`aliens, this`bullets, stats`shipsLeft, stats`gameActive
      ensures Valid()
      ensures forall a :: a in aliens ==> a in old(aliens) || fresh(a)
      ensures AfterShipHit(old(stats.shipsLeft), old(stats.gameActive), old(bullets), old(FleetRects()))
    {
      if stats.shipsLeft > 0 {
        stats.shipsLeft := stats.shipsLeft - 1;
        aliens := [];
        bullets := [];
        CreateFleet();
        // re-centring the ship and the half-second pause are not part of this model
      } else {
        stats.gameActive := false;
      }
    }

    /** `_check_aliens_bottom`: an alien at the bottom counts as a ship hit,
        once however many aliens are there. */
    method CheckAliensBottom()
      requires Valid()
      modifies this`aliens, this`bullets, stats`shipsLeft, stats`gameActive
      ensures Valid()
      ensures forall a :: a in aliens ==> a in old(aliens) || fresh(a)
      ensures if AnyAtBottom(old(FleetRects()), screen) then
                AfterShipHit(old(stats.shipsLeft), old(stats.gameActive), old(bullets), old(FleetRects()))
              else
                aliens == old(aliens) && bullets == old(bullets) &&
                stats.shipsLeft == old(stats.shipsLeft) && stats.gameActive == old(stats.gameActive)
    {
      var i := 0;
      while i < |aliens|
        invariant 0 <= i <= |aliens|
        invariant forall k :: 0 <= k < i ==> aliens[k].rect.Bottom() < screen.Bottom()
        invariant aliens == old(aliens) && bullets == old(bullets)
        invariant stats.shipsLeft == old(stats.shipsLeft) && stats.gameActive == old(stats.gameActive)
      {
        if aliens[i].rect.Bottom() >= screen.Bottom() {
          assert FleetRects()[i].Bottom() >= screen.Bottom();
          ShipHit();
          break;
        }
        i := i + 1;
      }
    }

    /** `_check_play_button`: a click on Play starts a new game, and only
        while no game is running. */
    method CheckPlayButton(buttonClicked: bool)
      requires Valid()
      modifies this`aliens, this`bullets, settings`fleetDirection, settings`alienPoints, stats
      ensures Valid()
      ensures forall a :: a in aliens ==> a in old(aliens) || fresh(a)
      ensures if buttonClicked && !old(stats.gameActive) then Now() == Started(Cfg())
              else aliens == old(aliens) && Now() == old(Now())
    {
      if buttonClicked && !stats.gameActive {
        settings.InitializeDynamicSettings();
        stats.ResetStats();
        stats.gameActive := true;
        // the score display is not part of this model
        aliens := [];
        bullets := [];
        CreateFleet();
        // re-centring the ship and hiding the cursor are not part of this model
      }
    }

    /** `_check_keydown_events`; `quit` reports the Q key, on which the
        game exits. */
    method CheckKeydownEvents(key: Key) returns (quit: bool)
      requires Valid()
      modifies this`movingRight, this`movingLeft, this`bullets
      ensures Valid()
      ensures quit <==> key == QKey
      ensures movingRight == (old(movingRight) || key == RightKey)
      ensures movingLeft == (old(movingLeft) || key == LeftKey)
      ensures if key == SpaceKey then FiredFrom(old(bullets)) else bullets == old(bullets)
    {
      quit := false;
      if key == RightKey {
        movingRight := true;
      } else if key == LeftKey {
        movingLeft := true;
      } else if key == QKey {
        quit := true;
      } else if key == SpaceKey {
        FireBullet();
      }
    }

    /** `_check_keyup_events`. */
    method CheckKeyupEvents(key: Key)
      modifies this`movingRight, this`movingLeft
      ensures movingRight == (old(movingRight) && key != RightKey)
      ensures movingLeft == (old(movingLeft) && key != LeftKey)
    {
      if key == RightKey {
        movingRight := false;
      } else if key == LeftKey {
        movingLeft := false;
      }
    }

    /** `_check_events`: handles the events in order until one ends the
        process. The movement flags follow the arrow keys and the game state
        follows `AfterEvents`; the aliens stay the same objects unless a
        click on Play started a new game. */
    method CheckEvents(events: seq<Event>) returns (quit: bool)
      requires Valid()
      modifies this`movingRight, this`movingLeft, this`bullets, this`aliens,
               settings`fleetDirection, settings`alienPoints, stats
      ensures Valid() && Cfg() == old(Cfg())
      ensures forall a :: a in aliens ==> a in old(aliens) || fresh(a)
      ensures quit <==> exists k :: 0 <= k < |events| && IsQuit(events[k])
      ensures movingRight == Held(events[..QuitAt(events)], RightKey, old(movingRight))
      ensures movingLeft == Held(events[..QuitAt(events)], LeftKey, old(movingLeft))
      ensures Now() == AfterEvents(Cfg(), old(Now()), events[..QuitAt(events)])
      ensures old(stats.gameActive) || (forall k :: 0 <= k < QuitAt(events) ==> events[k] != MouseDown(true)) ==>
                aliens == old(aliens)
    {
      var i := 0;
      quit := false;
      ghost var c := Cfg();
      while i < |events|
        invariant 0 <= i <= |events|
        invariant Valid() && Cfg() == c
        invariant forall a :: a in aliens ==> a in old(aliens) || fresh(a)
        invariant forall k :: 0 <= k < i ==> !IsQuit(events[k])
        invariant movingRight == Held(events[..i], RightKey, old(movingRight))
        invariant movingLeft == Held(events[..i], LeftKey, old(movingLeft))
        invariant Now() == AfterEvents(c, old(Now()), events[..i])
        invariant old(stats.gameActive) ==> stats.gameActive
        invariant old(stats.gameActive) || (forall k :: 0 <= k < i ==> events[k] != MouseDown(true)) ==>
                    aliens == old(aliens)
      {
        AfterEventsSnoc(c, old(Now()), events, i);
        HeldSnoc(events, RightKey, old(movingRight), i);
        HeldSnoc(events, LeftKey, old(movingLeft), i);
        quit := HandleEvent(events[i]);
        if quit {
          break;
        }
        i := i + 1;
      }
      if quit {
        assert QuitAt(events) == i;
      } else {
        assert QuitAt(events) == |events|;
        assert events[..|events|] == events;
      }
    }

    /** The body of `_check_events`'s loop: one event. `quit` reports an
        event on which the game exits. */
    method HandleEvent(e: Event) returns (quit: bool)
      requires Valid()
      modifies this`movingRight, this`movingLeft, this`bullets, this`aliens,
               settings`fleetDirection, settings`alienPoints, stats
      ensures Valid() && Cfg() == old(Cfg())
      ensures forall a :: a in aliens ==> a in old(aliens) || fresh(a)
      ensures quit <==> IsQuit(e)
      ensures movingRight == Move(old(movingRight), e, RightKey)
      ensures movingLeft == Move(old(movingLeft), e, LeftKey)
      ensures Now() == OnEvent(Cfg(), old(Now()), e)
      ensures old(stats.gameActive) ==> stats.gameActive
      ensures old(stats.gameActive) || e != MouseDown(true) ==> aliens == old(aliens)
      ensures quit ==> movingRight == old(movingRight) && movingLeft == old(movingLeft) && Now() == old(Now())
    {
      quit := false;
      match e {
        case QuitEvent =>
          quit := true;
        case KeyDown(key) =>
          quit := CheckKeydownEvents(key);
        case KeyUp(key) =>
          CheckKeyupEvents(key);
        case MouseDown(onPlayButton) =>
          CheckPlayButton(onPlayButton);
      }
    }

    /** One pass of `run_game`'s loop: the events, then, only while a game
        is running, the bullets and the fleet. Moving the ship and drawing
        the frame are not part of this model. */
    method RunGameFrame(events: seq<Event>, rise: int, speed: int) returns (quit: bool)
      requires Valid()
      modifies this`movingRight, this`movingLeft, this`bullets, this`aliens,
               settings`fleetDirection, settings`alienPoints, stats, (set a | a in aliens)
      ensures Valid() && Cfg() == old(Cfg())
      ensures quit <==> exists k :: 0 <= k < |events| && IsQuit(events[k])
      ensures movingRight == Held(events[..QuitAt(events)], RightKey, old(movingRight))
      ensures movingLeft == Held(events[..QuitAt(events)], LeftKey, old(movingLeft))
      ensures quit ==> Now() == AfterEvents(Cfg(), old(Now()), events[..QuitAt(events)])
      ensures !quit ==> Now() == GameFrame(Cfg(), old(Now()), events, rise, speed)
      ensures !old(stats.gameActive) && (forall k :: 0 <= k < |events| ==> events[k] != MouseDown(true)) ==>
                aliens == old(aliens)
      ensures !quit && (old(stats.gameActive) || ClickAt(events) == |events|) ==>
                old(stats.score) <= stats.score && old(stats.level) <= stats.level
    {
      ghost var g0 := Now();
      quit := CheckEvents(events);
      ghost var handled := events[..QuitAt(events)];
      if !g0.active && ClickAt(handled) == |handled| {
        EventsWhileStopped(Cfg(), g0, handled);
      }
      if quit {
        return;
      }
      assert QuitAt(events) == |events|;
      assert handled == events;
      if g0.active || ClickAt(events) == |events| {
        FrameKeepsProgress(Cfg(), g0, events, rise, speed);
      }
      if stats.gameActive {
        PlayFrame(rise, speed);
      }
    }

    /** The gameplay half of `run_game`'s loop: `_update_bullets`, then
        `_update_aliens`. */
    method PlayFrame(rise: int, speed: int)
      requires Valid() && stats.gameActive
      modifies this`bullets, this`aliens, (set a | a in aliens), stats`score, stats`level,
               stats`shipsLeft, stats`gameActive, settings`alienPoints, settings`fleetDirection
      ensures Valid() && Cfg() == old(Cfg())
      ensures Now() == Frame(Cfg(), old(Now()), rise, speed)
    {
      UpdateBullets(rise);
      UpdateAliens(speed);
    }
  }
}
