# Alien Invasion — a verified model of the game core

This project models the frame-level game state of the Alien Invasion arcade
game (a pygame program). The game object owns two sprite groups: the ship's
bullets and the alien fleet. It also owns the settings and the game
statistics, and its main loop runs these steps each frame:

1. handle events;
2. move, prune and collide the bullets;
3. march the fleet;
4. check whether the ship was hit.

The model is split into modules that follow the program's files:

| module | file | models |
|---|---|---|
| `Rects` | rects.dfy | pygame's integer `Rect`: edges, `midtop` placement, `colliderect` |
| `Configuration` | settings.dfy | `Settings`: construction constants, the dynamic reset, the point escalation |
| `Aliens` | alien.dfy | `Alien`: colour choice, spawn position, `check_edges`, `update` |
| `Fleet` | fleet.dfy | the spawn grid of `_create_fleet`, and the drop and march of a fleet |
| `Bullets` | bullets.dfy | bullets as rectangles: upward motion, pruning, and `groupcollide(bullets, aliens, True, True)` |
| `Game` | game.dfy | `AlienInvasion` and the statistics object, with every per-frame step |

The objects the program updates in place are classes:

- `Settings`, `Alien`, `GameStats` and `AlienInvasion` are classes whose methods assign their fields.
- The alien group is a sequence of `Alien` objects, so moving the fleet mutates the objects it holds.
- The model keeps only a bullet's rectangle, so the bullet group is a sequence of rectangles. A bullet's float `y` is left out.

The gameplay state that the steps read and write is also available as a value, `Game.Status`. `AlienInvasion.Now()` reads it off the objects. What the steps depend on besides that state is `Game.Config`, read off the settings and the ship by `AlienInvasion.Cfg()`.

The methods that move the bullets and the fleet, score, level up, handle a play click and handle a frame are proved against value-level functions:

- `Layout` gives the spawn grid.
- `OnScreen` is the pruning filter.
- `Sweep` is the collision sweep.
- `Award` is the score gained.
- `March` is a fleet step.
- `Collided`, `Marched` and `Frame` are the collision check, the fleet update and a whole gameplay frame.
- `OnEvent` and `AfterEvents` give the game state after one event and after a sequence of events.
- `GameFrame` is one pass of the main loop.

For the rest, `FireBullet`, the key handlers and the `Settings` and `GameStats` methods, the contracts state the new field values directly.

Lemmas then prove what the game promises about those functions:

- firing adds one bullet per press until the cap;
- the score and the level never drop unless Play starts a new game;
- a stopped game without a click on Play does not change;
- a fresh fleet is clear of the edges and the bottom.

`AlienInvasion.Valid` is the invariant every step keeps. It says:

- the fleet direction is 1 or -1;
- the point value, the score and the ships left are never negative;
- there are never more live bullets than `bullets_allowed`;
- every alien is in the group once and shares the game's settings and screen.

The collision sweep is written out because pygame's `groupcollide` is library code:

- Each bullet in turn removes every still-present alien it overlaps.
- A bullet that removed any alien is removed itself.
- The sprites are taken in the order they were added.

`Sweep` records, for each bullet that hit, how many aliens it took. These are the lengths of the lists in the collisions dictionary.

## Model

| member | source | states |
|---|---|---|
| `Rects.Overlaps` | alien_invasion.py:133 | pygame's `colliderect` on integer rectangles: two rectangles of non-zero size collide when their interiors meet; its meaning is proved by `Rects.OverlapsSharePixel` |
| `Rects.OverlapsSharePixel` | alien_invasion.py:170 | two rectangles collide exactly when some pixel lies inside both, so the collision test is symmetric and a zero-size rectangle collides with nothing |
| `Rects.AtMidTop` | bullet.py:19-21 | a new bullet has the configured size, its top on the ship's top and its centre on the ship's centre |
| `Configuration.Truncate` | settings.py:65 | `int()` of a float truncates toward zero: the result lies within one of the argument, on the side toward zero |
| `Configuration.ScaledPoints` | settings.py:65 | the escalated point value `int(alien_points * score_scale)`; what it gives is proved by `ScaledPointsAtScoreScale`, `ScaledPointsGrow` and `PointsProgression` |
| `Configuration.ScaledPointsAtScoreScale` | settings.py:65 | with score scale 1.5, the escalated point value `int(p * 1.5)` is exactly `(3p) div 2` for every `p >= 0` |
| `Configuration.ScaledPointsGrow` | settings.py:59-65 | escalation never lowers the point value, and raises it strictly once it is at least 2 |
| `Configuration.PointsProgression` | settings.py:56-65 | from the reset value 20, levels are worth 30, 45, 67 and 100 points per alien |
| `Configuration.Settings.constructor` | settings.py:6-44 | screen 1200 x 800, ship limit 1, bullets 3000 x 15 with at most 3 live, drop 100, score scale 1.5, after the dynamic reset |
| `Configuration.Settings.InitializeDynamicSettings` | settings.py:46-56 | the fleet direction becomes 1 and the point value 20, whatever they were, so a second call changes nothing; no other modelled setting changes |
| `Configuration.Settings.IncreaseSpeed` | settings.py:59-65 | only the point value changes, to `int(points * score_scale)`; the direction, the drop, the bullet limit and the screen size are untouched |
| `Aliens.ColorIndex` | alien.py:15-21 | the colour index `(level - 1) % 4` always names one of the four images, is congruent to `level - 1`, and equals it for levels 1 to 4 |
| `Aliens.ColorIndexCycles` | alien.py:20 | levels four apart use the same colour |
| `Aliens.SpawnRect` | alien.py:23-26 | a new alien's rectangle has its image's size and its top-left corner one width in and one height down |
| `Aliens.AtEdge` | alien.py:31-35 | the `check_edges` test on a rectangle: its right side at or past the screen's right side, or its left side at or before 0; `Aliens.SpawnNotAtEdge` and `Fleet.LayoutClearOfScreenEdges` prove where it fails |
| `Aliens.SpawnNotAtEdge` | alien.py:24-35 | an alien at its spawn position is not at a side edge whenever twice its width is positive and less than the screen width |
| `Aliens.Alien.constructor` | alien.py:8-29 | the alien takes the colour of the current level and the spawn rectangle of that colour's image, and its exact position equals `rect.x` |
| `Aliens.Alien.CheckEdges` | alien.py:31-35 | `check_edges` on the alien object: `AtEdge` of its own rectangle on its own screen |
| `Aliens.Alien.Update` | alien.py:37-40 | only the horizontal position changes, by `speed * fleet_direction`, and `rect.x` follows it; with positive speed the alien moves right exactly when the direction is 1 |
| `Fleet.Columns` | alien_invasion.py:182-185 | `number_aliens_x`, in Python floor division; `Fleet.CountsAreMaximal` proves it is the most columns that fit |
| `Fleet.Rows` | alien_invasion.py:188-192 | `number_rows`, in Python floor division; `Fleet.CountsAreMaximal` proves it is the most rows that fit |
| `Fleet.Slot` | alien_invasion.py:203-205 | the rectangle `_create_alien` gives alien `alien_number` of row `row_number`: `x = w + 2w*alien_number`, `y = h + 2h*row_number`, with the image size; `Fleet.LayoutPosition` places every fresh alien in its slot |
| `Fleet.CountsAreMaximal` | alien_invasion.py:182-192 | the columns two alien widths wide fill the screen width less two widths without overflowing it, and one more column would overflow it; the same holds for the rows in the screen height less three alien heights and the ship's height |
| `Fleet.Layout` | alien_invasion.py:194-196 | the fleet `_create_fleet` adds, row by row and left to right; `LayoutCount`, `LayoutPosition`, `LayoutMargins` and `LayoutClearOfScreenEdges` state its shape |
| `Fleet.LayoutCount` | alien_invasion.py:182-196 | a fresh fleet holds `columns * rows` aliens, with `columns = (W - 2w) div 2w` and `rows = (H - 3h - shipH) div 2h`, and none when either count is not positive |
| `Fleet.LayoutPosition` | alien_invasion.py:194-205 | alien `col` of row `row` is the `row * columns + col`-th alien added, at `x = w + 2w*col`, `y = h + 2h*row`, with the image size |
| `Fleet.LayoutMargins` | alien_invasion.py:180-205 | every alien of a fresh fleet is at least one width from the left, `right <= W - 2w`, at least one height from the top, and `bottom <= H - 3h - shipH` |
| `Fleet.AnyOverlaps` | alien_invasion.py:170 | `spritecollideany(ship, aliens)`: some alien's rectangle collides with the ship's |
| `Fleet.AnyAtEdge` | alien_invasion.py:210-211 | the loop of `_check_fleet_edges` finds an alien whose `check_edges` holds: some alien is `AtEdge`; `Game.AlienInvasion.CheckFleetEdges` and `Fleet.LayoutClearOfScreenEdges` use it |
| `Fleet.AnyAtBottom` | alien_invasion.py:246-247 | the loop of `_check_aliens_bottom` finds an alien with `rect.bottom >= screen_rect.bottom`; `Game.AlienInvasion.CheckAliensBottom` and `Fleet.LayoutClearOfScreenEdges` use it |
| `Fleet.Dropped` | alien_invasion.py:217-218 | every alien moved down by the drop, with as many aliens as before; `Game.AlienInvasion.ChangeFleetDirection` is proved against it |
| `Fleet.Shifted` | alien_invasion.py:167 | every alien moved across by the same step, with as many aliens as before; `Game.AlienInvasion.MoveFleet` is proved against it and `Fleet.ShiftedKeepsBottom` states what it keeps |
| `Fleet.LayoutClearOfScreenEdges` | alien_invasion.py:182-247 | no alien of a fresh fleet is at a side edge in the sense of `check_edges`, and none has reached the bottom |
| `Fleet.ShiftedKeepsBottom` | alien_invasion.py:167-174 | a horizontal step neither brings a fleet to the bottom nor takes it away |
| `Fleet.ExampleLayout` | alien_invasion.py:182-192 | on a 1200 x 800 screen, with 40 x 24 aliens and a 60-pixel ship, the fleet has 14 columns, 13 rows and 182 aliens |
| `Bullets.Raised` | alien_invasion.py:120 | `bullets.update()` with an integer step: the group keeps its size and order; `Bullets.RaisedComposes` proves how the steps combine |
| `Bullets.RaisedComposes` | bullet.py:26-31 | two rises add up, a rise of 0 moves nothing, a rise is undone by the opposite one, and a rise never changes a bullet's horizontal position or size |
| `Bullets.OnScreen` | alien_invasion.py:123-125 | the bullets the pruning loop keeps, those with `bottom > 0`, in order; `Bullets.OnScreenExactly` states which copies survive and `Game.Prune` is proved against it |
| `Bullets.OnScreenExactly` | alien_invasion.py:123-125 | pruning removes every copy of each bullet with `bottom <= 0` and keeps every copy of every other bullet, so the group never grows |
| `Bullets.Apart` | alien_invasion.py:133 | the aliens one bullet of `groupcollide` leaves: those it does not overlap, in order; `Bullets.ApartExactly` states which copies survive |
| `Bullets.ApartExactly` | alien_invasion.py:133 | one bullet removes every alien it overlaps and nothing else, and removes none exactly when it overlaps none |
| `Bullets.Sweep` | alien_invasion.py:133-137 | `groupcollide(bullets, aliens, True, True)` on rectangles, with the lengths of the collision lists; its meaning is proved by the six lemmas below |
| `Bullets.SweepOnlyRemoves` | alien_invasion.py:133 | the collision sweep only removes: the bullets and aliens it leaves are among those it was given |
| `Bullets.SweepAccounting` | alien_invasion.py:133-138 | the hit counts add up to the number of aliens removed, there is one entry per bullet removed, and every entry is positive |
| `Bullets.SweepSurvivors` | alien_invasion.py:133 | the aliens that survive the sweep are exactly those no bullet overlaps, in their order |
| `Bullets.SweepKeepsClearBullet` | alien_invasion.py:133 | a bullet that overlaps no alien survives the sweep, every copy of it, so a bullet the sweep removed overlapped some alien |
| `Bullets.SweepLeavesNoContact` | alien_invasion.py:133 | after the sweep no bullet left overlaps an alien left |
| `Bullets.SweepWithoutContact` | alien_invasion.py:133-136 | when no bullet touches any alien, nothing is removed and there are no collisions |
| `Game.QuitAt` | alien_invasion.py:75-80 | the events are handled up to and excluding the first window close or Q press, which ends the process; with none, all are handled |
| `Game.ClickAt` | alien_invasion.py:84-93 | the position of the first click on Play among the events, or their number when there is none |
| `Game.Move` | alien_invasion.py:272-288 | a movement flag after one event: set by a press of its key, cleared by a release, otherwise kept |
| `Game.Held` | alien_invasion.py:272-288 | a movement flag after a sequence of events, `Move` applied in order; `Game.HeldFollowsLastMove` and `Game.HeldWithoutMoves` state its value |
| `Game.HeldFollowsLastMove` | alien_invasion.py:272-288 | a movement flag is set after its key's last press and cleared after its key's last release |
| `Game.HeldWithoutMoves` | alien_invasion.py:272-288 | a movement flag keeps its value through events that neither press nor release its key |
| `Game.Fire` | alien_invasion.py:290-295 | the bullets of a running game after one event: a space press adds a fresh shot when fewer than `bullets_allowed` are live |
| `Game.Volley` | alien_invasion.py:290-295 | the bullets of a running game after a sequence of events, `Fire` applied in order; `Game.VolleyCount` states how many are added |
| `Game.VolleyCount` | alien_invasion.py:290-295 | in a running game each space press adds one bullet until `bullets_allowed` are live; the bullets already live stay, and every new one is a fresh shot from the ship |
| `Game.SpareAliens` | alien_invasion.py:133 | the alien objects one bullet leaves have exactly the rectangles it does not overlap, each object at most once and from the group |
| `Game.Prune` | alien_invasion.py:123-125 | the pruning loop keeps exactly the bullets the pruning filter keeps, and never more than it was given |
| `Game.GroupCollide` | alien_invasion.py:133 | on the alien objects, the collision loop yields the sweep's survivors, remaining aliens and hit counts, with no alien twice and none new |
| `Game.Award` | alien_invasion.py:136-138 | the score the collision loop adds, `alien_points * len(aliens)` per collision entry, added entry by entry; `Game.AwardIsProduct` gives its closed form |
| `Game.AwardIsProduct` | alien_invasion.py:136-138 | summing `alien_points * len(aliens)` over the collision entries gives `alien_points` times the number of aliens removed |
| `Game.Heading` | alien_invasion.py:208-219 | the fleet direction after `_check_fleet_edges`: negated when some alien is at a side edge, otherwise kept |
| `Game.March` | alien_invasion.py:164-167 | the fleet after `_check_fleet_edges` and `aliens.update()`: dropped when some alien was at a side edge, then stepped `speed` in the `Heading` direction; `Game.MarchBottom` states its bottom test |
| `Game.Started` | alien_invasion.py:93-111 | the state Play gives: no bullets, a fresh level-1 fleet, score 0, level 1, the configured ships, running, direction 1 and 20 points; `Game.EventsAfterClick` uses it |
| `Game.Scored` | alien_invasion.py:133-138 | the state after `groupcollide` and the scoring loop: the bullets and aliens the sweep leaves, the score raised by the point value per alien removed; `Game.ScoredAfterKill` ties it to the loop |
| `Game.Collided` | alien_invasion.py:130-162 | `Scored`, then, when no alien is left, no bullets, the next level, a fresh fleet for it and the escalated point value; `Game.CollidedProgress` states what it keeps |
| `Game.HitShip` | alien_invasion.py:221-241 | a ship hit: with ships left, one fewer, no bullets and a fresh fleet at the same level; with none, the game stops and nothing else changes |
| `Game.Marched` | alien_invasion.py:164-174 | `March` with the new `Heading`, then exactly one `HitShip` when the stepped fleet touches the ship or reaches the bottom; `Game.MarchedKeepsScore` states what it keeps |
| `Game.Frame` | alien_invasion.py:67-70 | the gameplay half of a frame: the bullets rise and are pruned by `OnScreen`, then `Collided`, then `Marched`; `Game.FrameProgress` states what it keeps |
| `Game.OnEvent` | alien_invasion.py:75-86 | one event on the game state: a space press in a running game fires while there is room, a click on Play in a stopped game gives `Started`, any other event changes nothing |
| `Game.AfterEvents` | alien_invasion.py:73-87 | the game state after a sequence of events, `OnEvent` applied in order; `Game.EventsWhileRunning`, `Game.EventsWhileStopped` and `Game.EventsAfterClick` state what it gives |
| `Game.GameFrame` | alien_invasion.py:63-71 | one pass of the main loop without a quit: `AfterEvents`, then `Frame` only if the game is then running; `Game.FrameWhileRunning`, `Game.FrameWhileStopped`, `Game.FrameAfterClick` and `Game.FrameKeepsProgress` state what it gives |
| `Game.ScoredAfterKill` | alien_invasion.py:133-138 | the bullets and aliens `groupcollide` leaves, with the score raised by `alien_points * len(aliens)` per collision entry, are exactly the scored state, and the score does not drop |
| `Game.MarchBottom` | alien_invasion.py:164-174 | after the fleet's step, some alien is at the bottom exactly when some alien was there after the drop, before the step |
| `Game.CollidedProgress` | alien_invasion.py:130-159 | the collision check never lowers the score or the level |
| `Game.MarchedKeepsScore` | alien_invasion.py:164-174 | the fleet update, ship hits included, leaves the score, the level and the point value alone |
| `Game.FrameProgress` | alien_invasion.py:67-70 | the bullet and fleet steps of a frame never lower the score or the level |
| `Game.EventsWhileRunning` | alien_invasion.py:73-93 | in a running game the events only fire bullets, one per space press while there is room; a click on Play is ignored |
| `Game.EventsWhileStopped` | alien_invasion.py:73-93 | in a stopped game, events without a click on Play leave the game state unchanged, even a space press |
| `Game.EventsAfterClick` | alien_invasion.py:84-114 | in a stopped game, the first click on Play starts a new game (reset settings and statistics, running, a fresh level-1 fleet, no bullets), and the space presses after it fire into that new game |
| `Game.FrameWhileRunning` | alien_invasion.py:63-71 | a pass of the main loop over a running game fires on the presses, then plays one frame |
| `Game.FrameWhileStopped` | alien_invasion.py:63-71 | a pass of the main loop over a stopped game without a click on Play changes nothing |
| `Game.FrameAfterClick` | alien_invasion.py:63-114 | a pass of the main loop with a click on Play starts a new game, fires the later presses into it, and plays its first frame |
| `Game.FrameKeepsProgress` | alien_invasion.py:63-71 | unless a click on Play starts a new game, a pass of the main loop never lowers the score or the level |
| `Game.GameStats.constructor` | alien_invasion.py:43 | the statistics start with no score, level 1, the configured ships and no game running |
| `Game.GameStats.ResetStats` | alien_invasion.py:98 | the reset gives no score, level 1 and the configured number of ships |
| `Game.AlienInvasion.constructor` | alien_invasion.py:20-61 | a new game has the configured settings (ship limit 1, 3 bullets of 3000 x 15, drop 100, score scale 1.5, direction 1, 20 points), reset statistics, no bullets, an inactive state, the given alien images and ship rectangle, both movement flags clear, and a fresh fleet laid out for its screen |
| `Game.AlienInvasion.FireBullet` | alien_invasion.py:290-295 | exactly one bullet, at the ship's midtop, is added when fewer than `bullets_allowed` are live and a game is running; otherwise nothing changes; the bound on live bullets holds |
| `Game.AlienInvasion.UpdateBullets` | alien_invasion.py:116-128 | the bullets move up, then exactly those off the top are dropped, then the collision check runs on what is left, as `Collided` says |
| `Game.AlienInvasion.CheckBulletAlienCollisions` | alien_invasion.py:130-162 | the game state becomes `Collided` of the old one: the score rises by `alien_points` for each alien removed; if aliens remain, the bullets and fleet are what the sweep leaves; if none remain, the bullets are empty, the level rises by exactly 1, a fresh fleet is laid out at the new level and the point value escalates |
| `Game.AlienInvasion.ScoreCollisions` | alien_invasion.py:133-138 | the colliding bullets and aliens leave as the sweep says and the score gains `alien_points` per alien removed; no alien is added |
| `Game.AlienInvasion.KillCollided` | alien_invasion.py:133 | the colliding bullets and aliens leave their groups as the sweep says; no alien is added, and the hit counts add up to the aliens removed |
| `Game.AlienInvasion.StartNextLevel` | alien_invasion.py:143-159 | bullets emptied, level plus exactly 1, a fresh fleet of the new level's colour added, then the point value escalated |
| `Game.AlienInvasion.AddPoints` | alien_invasion.py:137-138 | the score gains the award for the collision entries, entry by entry |
| `Game.AlienInvasion.UpdateAliens` | alien_invasion.py:164-174 | the game state becomes `Marched` of the old one: the direction flips exactly when some alien was at a side edge; the fleet is dropped if so and then steps; if the stepped fleet neither touches the ship nor reaches the bottom, nothing else changes; otherwise exactly one ship hit happens, even when both causes occur |
| `Game.AlienInvasion.AdvanceFleet` | alien_invasion.py:166-167 | the edge check and then one step of every alien in the direction the check left |
| `Game.AlienInvasion.CheckShipHits` | alien_invasion.py:169-174 | when the fleet touches the ship or has reached the bottom, exactly one ship hit happens; otherwise nothing changes |
| `Game.AlienInvasion.CreateFleet` | alien_invasion.py:176-196 | the group gains the fresh layout for the current screen, level and ship height, rectangle for rectangle, in the order added |
| `Game.AlienInvasion.FleetCounts` | alien_invasion.py:178-192 | the counts `_create_fleet` measures on an alien of the current level are `Columns` and `Rows` of the screen, that alien's image size and the ship's height |
| `Game.AlienInvasion.CreateRow` | alien_invasion.py:195-196 | one row gains its first `count` aliens, left to right |
| `Game.AlienInvasion.CreateAlien` | alien_invasion.py:198-206 | exactly one new alien is appended, at grid slot (`alienNumber`, `rowNumber`), and the earlier aliens are kept |
| `Game.AlienInvasion.CheckFleetEdges` | alien_invasion.py:208-213 | when some alien is at a side edge, the fleet drops once and the direction flips once, however many are at an edge; otherwise nothing changes |
| `Game.AlienInvasion.ChangeFleetDirection` | alien_invasion.py:215-219 | every alien drops by the drop speed with its horizontal position unchanged, and the direction is negated (so it stays 1 or -1) |
| `Game.AlienInvasion.MoveFleet` | alien_invasion.py:167 | every alien moves `speed * fleet_direction` horizontally and nothing else moves |
| `Game.AlienInvasion.ShipHit` | alien_invasion.py:221-241 | with ships left, exactly one is lost, the bullets are emptied and a fresh fleet replaces the old; with none left, the game stops and nothing else changes; ships left never goes negative |
| `Game.AlienInvasion.CheckAliensBottom` | alien_invasion.py:243-250 | an alien at the bottom causes exactly one ship hit, however many are there; otherwise nothing changes |
| `Game.AlienInvasion.CheckPlayButton` | alien_invasion.py:89-114 | a click on Play while no game runs gives the `Started` state: dynamic settings and statistics reset, the game running, no bullets and a fresh level-1 fleet; any other click changes nothing |
| `Game.AlienInvasion.CheckKeydownEvents` | alien_invasion.py:272-281 | right and left set their movement flags, Q asks to quit, and space fires; no other key changes anything |
| `Game.AlienInvasion.CheckKeyupEvents` | alien_invasion.py:283-288 | releasing right or left clears that flag only |
| `Game.AlienInvasion.HandleEvent` | alien_invasion.py:75-86 | one event: a window close or Q asks to quit and changes nothing, the arrow keys move their flags, and the game state becomes `OnEvent` of the old one; the configuration never changes |
| `Game.AlienInvasion.CheckEvents` | alien_invasion.py:73-87 | the events are handled in order up to the first that quits: the result is quit exactly when some event is a window close or Q, each movement flag follows its key's presses and releases, and the game state is the `AfterEvents` fold; the aliens are the same objects unless a click on Play started a game; the configuration never changes |
| `Game.AlienInvasion.PlayFrame` | alien_invasion.py:69-70 | the bullet step, then the fleet step: the game state becomes `Frame` of the old one, and the configuration never changes |
| `Game.AlienInvasion.RunGameFrame` | alien_invasion.py:63-71 | one pass of the main loop: each movement flag follows its key over the events handled, as in `CheckEvents`; without a quit the game state becomes `GameFrame` of the old one (events, then the bullet and fleet steps only while a game is running), and the score and level never drop unless Play starts a new game; with a quit, only the events before it take effect; a stopped game without a Play click keeps its aliens; the screen, the images, the ship, the constant settings and the bullet limit never change |

## Left out

- Rendering and pygame I/O are not modelled. This covers window creation, image loading and scaling, drawing, `display.flip` and mouse visibility: they produce no game state.
- Event polling is not modelled. `CheckEvents` takes the frame's events as a sequence.
- The Play button's hit test is not part of this model. A click arrives already resolved to "on the button" or not.
- `sys.exit` is not modelled. The quit event and the Q key instead make `CheckEvents` and `RunGameFrame` return `quit`.
- The half-second pause after a ship hit is not modelled; it only delays the process.
- The speeds are floats and are not modelled, including their 1.1 speed-up. The ship, bullet and alien speeds, and their growth at each level, are real-valued.
  - `Aliens.Alien.Update` takes the alien step as an integer parameter `speed`, so it does not model the float position or the truncation of `rect.x`. It states only the direction and size of the step.
  - `Game.AlienInvasion.UpdateBullets` moves every bullet up by an integer `rise`, so it does not model the bullets' float `y` (the float motion in bullet.py is not modelled).
- `Configuration.ScaledPoints` multiplies exactly, over reals. Python multiplies two floats, which round once `alien_points * 1.5` exceeds 2^53; that takes about 80 level-ups from 20 points, and the model does not follow the rounding.
- The level background is not modelled. `settings.background` and `settings.level_backgrounds` are used by the game but never defined in settings.py, and they only affect drawing.
- The `Settings(self)` call is not modelled. It passes an argument that `Settings.__init__` does not take; the model constructs the settings without it.
- The ship is not modelled: ship.py is not part of this model. The ship's rectangle is a field that nothing changes, so the ship's movement, `center_ship` and `ship.update` are absent. The movement flags `moving_right` and `moving_left` live on the ship; they are assumed to start False, and the model keeps them on the game object.
- The scoreboard is not modelled: scoreboard.py is not part of this model, so the score, level and ship displays and the high score are absent.
- game_stats.py is not part of this model. `GameStats` keeps the fields the game reads. Two behaviours are assumed:
  - the reset gives score 0, level 1 and the configured number of ships;
  - a new statistics object has no game running (`game_active` false), which is why the game waits for a click on Play.
- `Game.AlienInvasion.constructor` requires every alien image to have a non-zero width and height. With a zero size, `_create_fleet` would divide by zero.
- Sprite-group iteration order is assumed, not modelled. `Game.GroupCollide` and `Game.AlienInvasion.KillCollided` take the bullets and aliens in the order they were added; pygame's groups iterate in that order.
- `Game.AlienInvasion.CreateFleet` states the rectangles of the new group, not the identity of the alien objects before and after. It states only that no alien other than a freshly created one appears.
- `Game.AlienInvasion.RunGameFrame` states the score and level guarantee only when no event quits. On a quit, the state it promises is the event fold, and `Game.EventsWhileRunning` and `Game.EventsWhileStopped` give the rest.
