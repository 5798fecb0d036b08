# Space shooter: the per-frame simulation, modelled in Dafny

The repository holds two browser versions of one space shooter. This project
models the state each frame changes in both of them, with the canvas, the DOM,
the audio and the event wiring taken away.

**`Gemini3pro/script.js`, the circle-collision version.** Everything is a circle:
- the player, of radius 20;
- enemies, which are ships or meteors;
- bullets, items and particles.

A frame (`update`) does the following, in order:
1. moves and clamps the player;
2. fires a fan of bullets whose width depends on the weapon tier;
3. counts the weapon boost down;
4. spawns enemies on a counter whose interval shrinks as the score grows;
5. advances and culls the four pools with forward `forEach` loops that `splice` the array they walk.

An enemy that touches the player deals contact damage. Bullets wear enemies
down, and a kill pays points, bursts into particles and may drop an item.
Items heal the player or raise the weapon tier.

The model has two layers:
- **Pure layer** (`CircleWorld`, `CirclePools`, `CircleStep`):
  - the whole state is a `World` value;
  - a frame is the function `Step`;
  - each `forEach` loop is a recursive function with the JavaScript semantics. A visited element that is spliced out makes the loop skip its successor.
- **Imperative layer** (`CircleGame`):
  - the script's globals become the fields of a `Game` class and a `Player` class;
  - `update` and its helpers become methods with index loops;
  - each method is proved to leave the state the pure layer prescribes (`Snapshot()`).

**`script.js`, the box-collision version.** `Player`, `Bullet` and `Enemy` are
classes whose `update` moves the object in place (`BoxWorld`).

`gameLoop` and `checkCollisions` are methods of a `Game` class (`BoxGame`). They:
- fire every 200 ms and spawn every 1000 ms;
- run backward loops that move and cull bullets and enemies;
- run two box-overlap passes that update `score`, `lives` and `gameRunning`.

The collision passes are specified by functions over the pools:
- `ShootDown` for the bullet-enemy pass;
- `Rammed` for the player-enemy pass.

The methods are proved to compute them.

In the bullet-enemy pass, the points are read from `enemies[j]` after `enemies.splice(j, 1)`:
- the shot pays for whichever enemy moved into slot `j`;
- when the hit enemy was the last one, the read throws.

The throw aborts the frame callback before `requestAnimationFrame`, so the game loop stops. The model states this as the `crashed` flag of a pass and the `frameRequested` field of the game.

`Splicing` holds the shared model of `array.splice(i, 1)` on a pool held as a sequence.

Modelling choices:
- Positions, speeds and timers are `real`; hit points, score, lives and counters are `int`.
- `Math.hypot(dx, dy) < R` is written `dx*dx + dy*dy < R*R`, which is equivalent because every radius is non-negative.
- Every `Math.random()` draw is a `Draw`, a real in [0, 1):
  - the circle version threads a stream `rand: nat -> Draw` and a position through the frame, and a frame reports how many draws it used;
  - the box version takes its two draws as parameters.
- The held keys, the canvas size, the frame timestamp and the wall clock (`Date.now()`) are parameters.

## Model

| member | source | states |
|---|---|---|
| CircleWorld.Clamp | Gemini3pro/script.js:171-172 | `Math.max(lo, Math.min(hi, v))` is at least `lo`, at most `hi` when `lo <= hi`, and is `v` inside the range, `lo` below it and `hi` above it |
| CircleWorld.MovePilot | Gemini3pro/script.js:165-172 | keyboard movement plus clamp changes only the position; each axis moves by the `Nudge` of its two keys (5 per key, opposite keys cancelling) and is clamped: the nudged value inside [r, size - r], `r` below it, `size - r` above it; so the player ends `r` inside every edge whatever keys are held, provided the canvas is at least `2r` each way |
| CircleWorld.TickWeaponEffects | Gemini3pro/script.js:178-184 | at tier 1 nothing changes; above it the timer drops by `dt`, the tier falls to 1 exactly when the timer reaches 0 or below, and otherwise the tier stays |
| CircleWorld.TickWeapon | Gemini3pro/script.js:178-184 | definition of the boost countdown: above tier 1 the timer loses `dt` and the tier drops to 1 once it is at 0 or below; its properties are the contract of `TickWeaponEffects` |
| CircleWorld.FadeCountsDown | Gemini3pro/script.js:297-300 | the hurt-flash countdown in `draw` lowers a positive `hurtTimer` by one, leaves everything else, and never makes it negative |
| CircleWorld.Fade | Gemini3pro/script.js:297-300 | definition of the hurt-flash countdown: a positive `hurtTimer` drops by one; its properties are the contract of `FadeCountsDown` |
| CircleWorld.ApplyItem | Gemini3pro/script.js:261-269 | definition of a pickup: a heal adds 25 hp capped at 100; a boost adds one tier capped at 5 and sets the timer to 5000; its properties are the contract of `ApplyItemEffects` |
| CircleWorld.ApplyItemEffects | Gemini3pro/script.js:261-269 | a heal sets hp to `min(100, hp + 25)` and changes nothing else; a boost sets the tier to `min(5, tier + 1)` and the timer to 5000 and changes nothing else; so hp stays at most 100 and never drops, the tier stays in 1..5 and never drops, and the position is kept |
| CircleWorld.ContactDamage | Gemini3pro/script.js:202 | contact always deals positive damage (the definition gives 15 for a ship and 10 for a meteor) |
| CircleWorld.Points | Gemini3pro/script.js:215 | a kill always pays a positive number of points (the definition gives 10 for a ship and 20 for a meteor) |
| CircleWorld.TakeDamageEffects | Gemini3pro/script.js:271-277 | `takeDamage(d)` lowers hp by exactly `d` without clamping, sets the hurt flag and `hurtTimer = 10`, and stops the game and its music exactly when hp reaches 0 or below |
| CircleWorld.TakeDamage | Gemini3pro/script.js:271-277 | definition of `takeDamage(d)`: hp minus `d`, hurt with timer 10, and `gameOver` when hp is at 0 or below; its properties are the contract of `TakeDamageEffects` |
| CircleWorld.SpawnInterval | Gemini3pro/script.js:118 | the spawn interval `max(20, 60 - floor(score/500))` is at least 20, and at most 60 for a non-negative score |
| CircleWorld.SpawnIntervalMonotone | Gemini3pro/script.js:118 | a higher score never gives a longer spawn interval |
| CircleWorld.NewEnemy | Gemini3pro/script.js:122-131 | definition of a new enemy from three draws and the score; its properties are the contract of `NewEnemyShape` |
| CircleWorld.NewEnemyShape | Gemini3pro/script.js:122-131 | a new enemy is a ship (r 20, hp 2) for a draw above 0.4, else a meteor (r 25, hp 5); it starts at `y = -r` with `r <= x < width - r`, and its speed is in [2, 4) plus score/5000 |
| CircleWorld.Spawn | Gemini3pro/script.js:116-132 | below the interval the counter goes up by exactly one and nothing else changes; at or above it the counter becomes 0 and exactly one new enemy is appended, using three draws |
| CircleWorld.Pattern | Gemini3pro/script.js:140-148 | the fan pattern has `weaponLevel` directions for tiers 1..5 and one otherwise |
| CircleWorld.Fan | Gemini3pro/script.js:148-156 | a volley has as many bullets as the pattern has directions |
| CircleWorld.FanIsSymmetric | Gemini3pro/script.js:140-156 | a volley has `weaponLevel` bullets (1 outside 1..5); every bullet starts at (x, y - 20) with `vy = -10`; the horizontal speeds are mirrored and sum to 0 |
| CircleWorld.Burst | Gemini3pro/script.js:279-288 | `createParticles` makes exactly 8 particles |
| CircleWorld.BurstShape | Gemini3pro/script.js:279-288 | each particle starts at the given point with life 20 and the given colour, and each speed component is in [-2.5, 2.5) |
| CircleWorld.DropItem | Gemini3pro/script.js:250-259 | an item drops exactly when the first draw is at most 0.3, using two draws then and one otherwise; it sits at the enemy's position and is a weapon exactly when the second draw is below 0.8 for a ship or above 0.7 for a meteor |
| CirclePools.ForEachCull | Gemini3pro/script.js:190-193 | a forward `forEach` that advances each visited element and splices it out when it should go, so the element after a spliced one is skipped; the result is never longer than the pool; the lemmas below compare it with a filter |
| CirclePools.ForEachCullWhenNoneGone | Gemini3pro/script.js:190-193 | when no element leaves, a forward `forEach` cull advances every element in place and keeps them all, agreeing with a plain filter |
| CirclePools.ForEachCullKeepsAtLeastCullAll | Gemini3pro/script.js:190-193 | a forward `forEach` cull keeps at least as many elements as a filter that removes every element that should go |
| CirclePools.ForEachCullSkipsSuccessor | Gemini3pro/script.js:190-193 | when the first element is spliced out, its successor is neither advanced nor tested, and is kept |
| CirclePools.ForEachCullAllGone | Gemini3pro/script.js:190-193 | when every element should go, a forward `forEach` cull keeps half of them (rounded down), where a filter keeps none |
| CirclePools.ItemsForEach | Gemini3pro/script.js:228-236 | the item `forEach`: each item falls, is picked up (applying `ApplyItem`) when it touches the player and spliced out when picked up or below the canvas; never more items are kept than given; its effects are the contract of `ItemsForEachEffects` |
| CirclePools.ItemsForEachEffects | Gemini3pro/script.js:228-236 | the item pass changes only the player's hp, tier and timer; hp stays at most 100 and never drops, and the tier stays in 1..5; tier and timer are untouched or the timer is 5000 |
| CirclePools.Sweep | Gemini3pro/script.js:210-222 | the bullet pass over one enemy keeps or hits every bullet, and hits at most half of them (rounded up), since a hit makes the next bullet skipped |
| CirclePools.SweepOnlyRemoves | Gemini3pro/script.js:210-222 | the bullets kept are among the bullets given |
| CirclePools.SweepIgnoresHealth | Gemini3pro/script.js:210-222 | which bullets hit an enemy does not depend on its hp |
| CirclePools.Kills | Gemini3pro/script.js:212-214 | the kills are the hits after which hp is 0 or below, so there are never more kills than hits |
| CirclePools.KillsStep | Gemini3pro/script.js:212-214 | one more hit adds a kill exactly when it leaves hp at 0 or below |
| CirclePools.KillEffectsFrame | Gemini3pro/script.js:214-220 | kills change only the score, the particles and the items |
| CirclePools.KillEffectsAppend | Gemini3pro/script.js:214-220 | kills only append to the particles and the items |
| CirclePools.KillEffectsTotals | Gemini3pro/script.js:214-220 | `k` kills pay `k` times the enemy's points, add `8k` particles and at most `k` items, and use between 17k and 18k draws |
| CirclePools.VisitEnemy | Gemini3pro/script.js:196-225 | definition of one enemy visit: the enemy moves down by its speed, then either rams (`Rams`) or passes through the bullets (`Passes`); its properties are the contracts of `VisitRams`, `VisitSweeps`, `VisitEnemyFrame`, `VisitEnemyHealth`, `VisitPools` and `VisitOnlyRemovesBullets` |
| CirclePools.Rams | Gemini3pro/script.js:200-207 | definition of the contact branch: contact damage, an orange burst, one splice; its properties are the contract of `VisitRams` |
| CirclePools.Passes | Gemini3pro/script.js:209-224 | definition of the miss branch: the sweep, the kills and their effects, and one more splice below the canvas; its properties are the contract of `VisitSweeps` |
| CirclePools.VisitRams | Gemini3pro/script.js:200-207 | an enemy that touches the player after moving is spliced out once; the player loses exactly its contact damage and is hurt with `hurtTimer = 10`; the game and its music keep running exactly when hp stays above 0; 8 orange particles are appended at the enemy, using 16 draws; the bullets, enemies, items, score and timers are untouched |
| CirclePools.VisitSweeps | Gemini3pro/script.js:209-222 | in that branch the player, the active flag and the music are untouched, the bullets are what the sweep keeps, and the score rises by kills times points |
| CirclePools.VisitEnemyFrame | Gemini3pro/script.js:196-225 | a visit moves the enemy by its speed and changes only its hp; it leaves the player untouched or only damaged and hurt |
| CirclePools.VisitEnemyHealth | Gemini3pro/script.js:196-225 | a visit never raises hp, lowers the score or rewinds the stream; the game and its music stop exactly when damage left hp at 0 or below |
| CirclePools.VisitPools | Gemini3pro/script.js:196-225 | a visit only appends to the items and the particles |
| CirclePools.VisitOnlyRemovesBullets | Gemini3pro/script.js:210-222 | a visit only removes bullets |
| CirclePools.EnemiesForEach | Gemini3pro/script.js:196-225 | the enemy pass never grows the enemy pool |
| CirclePools.EnemiesForEachEffects | Gemini3pro/script.js:196-225 | the enemy pass changes only hp, hurt state, activity, music, score and the pools; hp never rises; the game stops exactly when hp was driven to 0 or below; the score never drops; items and particles are only appended |
| CirclePools.EnemiesForEachOnlyRemovesBullets | Gemini3pro/script.js:196-225 | the enemy pass only removes bullets |
| CirclePools.SecondBulletIsSkipped | Gemini3pro/script.js:210-213 | of two adjacent bullets that both hit, the second is skipped after the first is spliced out |
| CirclePools.ShipPaidTwice | Gemini3pro/script.js:210-222 | five hitting bullets on a 2-hp ship pay its points twice, remove two enemy slots, and leave the second and fourth bullets |
| CircleStep.Prepare | Gemini3pro/script.js:160-184 | definition of the start of `update`: timestamp, movement, volley and boost countdown; `BeginFrame` is proved to compute it |
| CircleStep.Finish | Gemini3pro/script.js:228-242 | definition of the end of `update` and of the hurt countdown in `draw`: items, particles, then `Fade`; `EndFrame` is proved to compute it |
| CircleStep.Step | Gemini3pro/script.js:159-247 | definition of `update(time)`: nothing for an inactive game, otherwise `Prepare`, the spawn, the bullet, enemy and item passes and `Finish`, with the draws used; its properties are the contracts of `StepWhileInactive`, `StepPreservesWellFormed`, `StepScoreNeverDrops`, `StepKeepsPilotInside`, `EnemyPhaseEndsGame` and `BoostWearsOff` |
| CircleStep.Start | Gemini3pro/script.js:355-362 | definition of `startGame` on the world; its properties are the contract of `StartResets` |
| CircleStep.Stop | Gemini3pro/script.js:372-377 | definition of `gameOver` on the world: the game and its music stop; its properties are the contract of `StartStopKeepLoopInStep` |
| CircleStep.StartResets | Gemini3pro/script.js:355-362 | `startGame` makes the game active with music, score 0, empty bullet, enemy and item pools, and resets only hp to 100 and the tier to 1 of the player; it carries over the particles, the spawn counter, the frame timestamp and the rest of the player (position, weapon timer, hurt state), and is well formed from non-negative counters |
| CircleStep.StartStopKeepLoopInStep | Gemini3pro/script.js:355-377 | start and game over keep the music flag equal to the active flag; after game over a frame changes nothing |
| CircleStep.StepWhileInactive | Gemini3pro/script.js:160 | a frame of an inactive game changes nothing and uses no draw |
| CircleStep.StepPreservesWellFormed | Gemini3pro/script.js:159-247 | a frame keeps hp at most 100, tier in 1..5, the counters and score non-negative, and the music flag equal to the active flag |
| CircleStep.StepScoreNeverDrops | Gemini3pro/script.js:159-247 | a frame never lowers the score |
| CircleStep.StepKeepsPilotInside | Gemini3pro/script.js:165-172 | after an active frame the player is `r` inside every edge (items change only hp and tier) |
| CircleStep.EnemyPhaseEndsGame | Gemini3pro/script.js:196-225 | starting from an active game with hp left, the enemy pass ends the game exactly when hp drops to 0 or below |
| CircleStep.BoostWearsOff | Gemini3pro/script.js:178-184 | when at least the boost's remaining time has passed, the frame ends at tier 1 unless an item renewed the boost |
| CircleGame.CullVisit | Gemini3pro/script.js:190-193 | one `forEach` visit (advance, write back, splice if gone) leaves the part before the next index plus the pass over the rest unchanged |
| CircleGame.SweepVisit | Gemini3pro/script.js:210-222 | one visit of the inner bullet loop keeps the overall sweep and moves a hit from the rest to the hits made so far |
| CircleGame.ItemVisit | Gemini3pro/script.js:228-236 | one visit of the item loop keeps the overall item pass, and hands on the player as the pickup left it |
| CircleGame.EnemyVisit | Gemini3pro/script.js:196-225 | one visit of the enemy loop keeps the overall enemy pass, whatever block of enemies its splices removed |
| CircleGame.Player.constructor | Gemini3pro/script.js:32-39 | the player record starts at hp 100, tier 1, timer 0, unhurt |
| CircleGame.Player.Revive | Gemini3pro/script.js:358-359 | revival resets hp to 100 and tier to 1 and nothing else |
| CircleGame.Game.constructor | Gemini3pro/script.js:23-39 | the initial state is inactive, score 0, empty pools, and the player placed by the first resize |
| CircleGame.Game.Resize | Gemini3pro/script.js:92-99 | resizing adopts the new canvas size and re-centres the player only while the game is inactive |
| CircleGame.Game.StartGame | Gemini3pro/script.js:355-370 | `startGame` leaves the state `Start` prescribes |
| CircleGame.Game.GameOver | Gemini3pro/script.js:372-377 | `gameOver` leaves the state `Stop` prescribes |
| CircleGame.Game.TakeDamage | Gemini3pro/script.js:271-277 | the method leaves the state the `TakeDamage` function prescribes |
| CircleGame.Game.ApplyItem | Gemini3pro/script.js:261-269 | the method leaves the player the `ApplyItem` function prescribes |
| CircleGame.Game.CreateParticles | Gemini3pro/script.js:279-288 | the loop appends exactly the burst and uses 16 draws |
| CircleGame.Game.TryDropItem | Gemini3pro/script.js:250-259 | the item pool grows by the drop decision's item, if any, and the draws it used are consumed |
| CircleGame.Game.SpawnEnemy | Gemini3pro/script.js:116-132 | the method leaves the state and stream position `Spawn` prescribes |
| CircleGame.Game.FireBullet | Gemini3pro/script.js:134-157 | the volley loop appends the fan exactly when the clock allows firing |
| CircleGame.Game.SteerPlayer | Gemini3pro/script.js:165-172 | the player moves as `MovePilot` prescribes |
| CircleGame.Game.TickWeapon | Gemini3pro/script.js:178-184 | the boost counts down as `TickWeapon` prescribes |
| CircleGame.Game.FadeHurt | Gemini3pro/script.js:297-300 | the hurt countdown of `draw` runs as `Fade` prescribes |
| CircleGame.Game.UpdateBullets | Gemini3pro/script.js:190-193 | the index loop leaves the bullets the forward `forEach` cull prescribes |
| CircleGame.Game.UpdateParticles | Gemini3pro/script.js:239-242 | the index loop leaves the particles the forward `forEach` cull prescribes |
| CircleGame.Game.UpdateItems | Gemini3pro/script.js:228-236 | the index loop leaves the state the item pass prescribes |
| CircleGame.Game.Hit | Gemini3pro/script.js:211-220 | one hit lowers the enemy's hp, and on a kill pays, bursts, may drop, and splices index `i` once more |
| CircleGame.Game.Strike | Gemini3pro/script.js:210-222 | one visit of the inner bullet loop keeps the loop invariant against `Sweep`, `Kills` and `KillEffects` |
| CircleGame.Game.CheckBulletHits | Gemini3pro/script.js:210-222 | the inner bullet loop leaves the bullets, hits, kills, score, particles and items the sweep prescribes |
| CircleGame.Game.Sink | Gemini3pro/script.js:224 | an enemy below the canvas is spliced out once more, whether or not kills already spliced index `i` |
| CircleGame.Game.Ram | Gemini3pro/script.js:200-207 | the contact branch leaves what `VisitEnemy` prescribes |
| CircleGame.Game.Pierce | Gemini3pro/script.js:209-224 | the miss branch leaves what `VisitEnemy` prescribes |
| CircleGame.Game.MeetBullets | Gemini3pro/script.js:209-224 | the bullets and the below-canvas splice leave the visit the miss branch computes |
| CircleGame.Game.UpdateEnemy | Gemini3pro/script.js:196-225 | one visit of the enemy loop leaves what `VisitEnemy` prescribes |
| CircleGame.Game.UpdateEnemies | Gemini3pro/script.js:196-225 | the enemy loop leaves the state the enemy pass prescribes |
| CircleGame.Game.BeginFrame | Gemini3pro/script.js:160-184 | timestamp, movement, volley and boost countdown leave what `Prepare` prescribes |
| CircleGame.Game.EndFrame | Gemini3pro/script.js:228-242 | items, particles and the hurt countdown leave what `Finish` prescribes |
| CircleGame.Game.Update | Gemini3pro/script.js:159-247 | `update(time)` leaves the state and draw count `Step` prescribes |
| BoxWorld.OverlapsSymmetric | script.js:319-323 | the strict box-overlap test gives the same answer with the boxes swapped |
| BoxWorld.Overlaps | script.js:319-323 | the strict box-overlap test of both collision passes; boxes that only share an edge do not overlap; its symmetry is `OverlapsSymmetric` |
| BoxWorld.Walk | script.js:62-68 | one axis of `Player.update`: a step back while above 0, then a step forth while below the far edge, each only with its key; its properties are the contract of `WalkSteps` |
| BoxWorld.WalkSteps | script.js:62-68 | a held key moves the player by exactly 5 only when strictly inside that edge, so a player less than a step outside the edges stays so |
| BoxWorld.Player.constructor | script.js:24-32 | a new player is centred horizontally, 20 above the bottom |
| BoxWorld.Player.Update | script.js:62-68 | `update` moves each axis by the edge-guarded step, in the source's key order |
| BoxWorld.Bullet.constructor | script.js:71-79 | a bullet starts where it is fired |
| BoxWorld.Bullet.Update | script.js:90-93 | `update` lowers y by exactly 8 and answers whether y > -15 |
| BoxWorld.Above | script.js:283-289 | the bullets still below the top edge, in pool order: the specification of the backward bullet loop; its properties are the contract of `AboveIsFilter` |
| BoxWorld.AboveIsFilter | script.js:283-289 | the bullets kept are exactly those below the top edge, no more than were there, each once |
| BoxWorld.Points | script.js:328 | a shot pays 5 or 10 points (the definition gives 10 for a plane and 5 for an asteroid) |
| BoxWorld.SpawnXInside | script.js:101 | a new enemy's x is in [0, canvas width - width) |
| BoxWorld.Enemy.constructor | script.js:96-105 | a plane is 40 by 30 with speed 3, an asteroid 50 by 50 with speed 2; it starts at y = -height at the drawn x |
| BoxWorld.Enemy.Update | script.js:143-146 | `update` adds the speed to y and answers whether y < canvas height |
| BoxWorld.Below | script.js:299-305 | the enemies whose top is still above the bottom edge, in pool order: the specification of the backward enemy loop; its properties are the contract of `BelowIsFilter` |
| BoxWorld.BelowIsFilter | script.js:299-305 | the enemies kept are exactly those whose top is above the bottom edge, no more than were there, each once |
| BoxGame.LastHit | script.js:318-324 | the inner scan finds the last enemy overlapping the bullet, and none after it overlaps; -1 means none does |
| BoxGame.ShootDown | script.js:317-331 | the bullet-enemy pass from bullet `i` down: a hit splices the bullet and the enemy and pays for the enemy that moved into the slot; a hit on the last enemy throws and ends the pass; its properties are the contracts of `ShootDownCounts`, `ShootDownSubsets`, `ShootDownCrash`, `ShootDownDistinct`, `ShootDownClears` and `ShootDownSettles` |
| BoxGame.ShootDownCounts | script.js:317-331 | each hit removes one bullet and one enemy and pays 5 or 10, except a throwing hit, which pays nothing |
| BoxGame.ShootDownSubsets | script.js:317-331 | the pass only removes bullets and enemies |
| BoxGame.ShootDownCrash | script.js:326-328 | the pass throws only on a hit, so a pass that threw removed a bullet |
| BoxGame.ShootDownDistinct | script.js:317-331 | the pass keeps each bullet and each enemy in its pool at most once |
| BoxGame.ShootDownClears | script.js:317-333 | a pass that did not throw leaves no bullet overlapping an enemy |
| BoxGame.ShootDownSettles | script.js:317-333 | after the pass the pools are duplicate-free subsets of the old ones, the score has not dropped, and without a throw nothing overlaps |
| BoxGame.ClearIsFilter | script.js:336-352 | the enemies clear of the player are exactly those kept, each once |
| BoxGame.Rammed | script.js:336-352 | the player-enemy pass from enemy `i` down: an overlapping enemy is spliced and costs a life, and the game stops once lives reach 0; its properties are the contracts of `RammedClears`, `RammedLives` and `RammedSettles` |
| BoxGame.RammedClears | script.js:336-352 | the player-enemy pass keeps exactly the enemies clear of the player, in order |
| BoxGame.RammedLives | script.js:336-357 | each removed enemy costs a life, and the game stops exactly when a loss ran the lives out |
| BoxGame.RammedSettles | script.js:336-352 | the pass keeps exactly the enemies clear of the player, each once, and never raises lives; the game runs afterwards only if it ran before, and then has lives left |
| BoxGame.Game.constructor | script.js:150-165 | `init` places the player and requests the first frame, with empty pools, score 0, 3 lives and the game not running |
| BoxGame.Game.StartGame | script.js:214-225 | `startGame` sets score 0, lives 3, empty pools, running and not paused |
| BoxGame.Game.PauseGame | script.js:228-231 | only `paused` changes, to true |
| BoxGame.Game.ResumeGame | script.js:234-237 | only `paused` changes, to false |
| BoxGame.Game.RestartGame | script.js:240-251 | as `startGame`, and a new player at the start position |
| BoxGame.Game.GameOver | script.js:356-360 | only `running` changes, to false |
| BoxGame.Game.Fire | script.js:277-280 | after more than 200 ms, a new bullet is appended at the player's nose and the timer is reset; otherwise nothing changes |
| BoxGame.Game.MoveBullets | script.js:283-289 | the backward loop moves every bullet up by 8 exactly once and leaves `Above` of the old pool |
| BoxGame.Game.BulletLoop | script.js:283-289 | the loop over the pool `bs`, walked from its end, moves every bullet up by 8 from its starting height and leaves `Above(bs)` |
| BoxGame.Game.SpawnEnemy | script.js:292-296 | after more than 1000 ms, a new enemy of the drawn kind and place is appended and the timer is reset; otherwise nothing changes |
| BoxGame.Game.MoveEnemies | script.js:299-305 | the backward loop moves every enemy down by its speed exactly once and leaves `Below` of the old pool |
| BoxGame.Game.EnemyLoop | script.js:299-305 | the loop over the pool `es`, walked from its end, moves every enemy down by its speed from its starting height and leaves `Below(es)` |
| BoxGame.Game.ShootEnemies | script.js:317-333 | the nested loops compute `ShootDown` of the pools and the score |
| BoxGame.Game.Aim | script.js:318-331 | one outer turn is one unfolding of `ShootDown`, throwing when the hit enemy was the last |
| BoxGame.Game.Scan | script.js:318-324 | the inner loop finds `LastHit` |
| BoxGame.Game.RamPlayer | script.js:336-352 | the player-enemy loop leaves the enemies, lives and running flag `Rammed` prescribes |
| BoxGame.Game.Ram | script.js:336-352 | the backward player-enemy loop computes `Rammed` of the enemies, the lives and the running flag |
| BoxGame.Game.CheckCollisions | script.js:315-353 | `checkCollisions` leaves what `ShootDown`, then (unless it threw) `Rammed` prescribe |
| BoxGame.Game.Move | script.js:273-305 | the moving phases: the player moves by `Walk` on each axis; the bullet pool `fired` is the old pool plus, after more than 200 ms, one fresh bullet at the nose, and the pool kept is `Above(fired)`; every old bullet is 8 higher and the new one is 8 above the nose; likewise `spawned` and `Below(spawned)`, every old enemy lower by its speed and the new one as drawn (`Spawned`); the timers reset exactly when they fire; the invariant holds and the pools are on screen |
| BoxGame.Game.Shift | script.js:277-305 | the pool phases after the player moved: the bullets as `Fly` states and then the enemies as `Invade` states, with the invariant and the pools on screen |
| BoxGame.Game.Fly | script.js:277-289 | the pool `fired` is the old pool plus, after more than 200 ms, one fresh bullet at the nose (timer reset then, kept otherwise); the bullets kept are `Above(fired)`; every old bullet is 8 higher and the new one 8 above the nose; the kept pool is duplicate-free and below the top edge |
| BoxGame.Game.Invade | script.js:292-305 | the pool `spawned` is the old pool plus, after more than 1000 ms, one fresh enemy of the drawn kind and place (timer reset then, kept otherwise); the enemies kept are `Below(spawned)`; every old enemy is lower by its speed and the new one has made its first move; the kept pool is duplicate-free with every top above the bottom edge |
| BoxGame.Game.Play | script.js:265-309 | an active frame: the player moves by `Walk`, the pools grow as `Grown` says on the timers, and the bullets, enemies, score, lives and running flag are those of `ShootDown` over `Above(fired)` and `Below(spawned)`, then, unless it threw, `Rammed` over the enemies left (`Collided`); the next frame is requested exactly when the check did not throw; the invariant holds, the score never drops, lives never rise, and without a throw nothing overlaps |
| BoxGame.Game.Collide | script.js:308-311 | over the pools produced by the moving phases (`Above(fired)`, `Below(spawned)`), the collision check leaves what `ShootDown` and then `Rammed` prescribe (`Collided`), and the next frame is requested exactly when it did not throw; the invariant and the pools on screen are kept, the score never drops, lives never rise, and without a throw nothing overlaps |
| BoxGame.Game.Settle | script.js:308-311 | `checkCollisions` followed by the frame request: the result is `Collided` of the pass `ShootDown` of the pools at entry; the next frame is requested exactly when it did not throw; the invariant holds, the pools stay on screen, the score never drops, lives never rise, and without a throw no bullet overlaps an enemy and no enemy the player |
| BoxGame.Game.Tick | script.js:265-311 | the part of the callback after the clock is read: a paused or stopped game only requests the next frame; an active one does what `Play` states (`Walk`, `Grown` pools on the timers, `Collided`, and the next frame requested exactly when the check did not throw), keeping the invariant |
| BoxGame.Game.GameLoop | script.js:260-312 | the frame callback records the timestamp and keeps the invariant and the player object; a paused or stopped game only requests the next frame; an active frame does what `Play` states: `Walk`, `Grown` pools on the timers, `Collided` with `ShootDown` and `Rammed`, and the next frame requested exactly when the check did not throw |

## Left out

- Rendering is not modelled: every `draw`, the stars and the canvas calls. The one exception is the `hurtTimer` countdown inside the Gemini `draw` (Gemini3pro/script.js:297-300), modelled as the last phase of a frame.
- The DOM is not modelled: `uiUpdate`, `updateScore`, the overlays and the button wiring. The box version binds no control to `pauseGame`, so nothing calls `PauseGame`; it is modelled anyway.
- Audio is foreign. The Gemini background-music interval is modelled only as the flag `bgm` / `bgmRunning`, set by `startGame` and cleared by `gameOver`.
- Key and touch events are not modelled; the held keys are a frame parameter. The Gemini `touchmove` handler, which moves the player to the finger with no clamp, is not modelled.
- Reading `window` sizes becomes parameters of `Resize` and `StartGame`.
- `requestAnimationFrame` is not modelled as a scheduler:
  - in the box version it is the flag `frameRequested`;
  - in the Gemini version a frame of an inactive game does nothing.
- How many frame loops are pending is not modelled. A second Gemini `startGame` while a loop still runs would start another loop.
- `Date.now() % 200` is the parameter `now`, with the firing test `MayFire`.
- `Math.random()` is a parameter or a stream position, never a generator.
- BoxGame.Game.GameLoop: the model always sets `lastTime` to the timestamp.
  - The source's `if (!lastTime)` assignment writes the same value, so it changes nothing.
  - The source computes `deltaTime` and never uses it.
- BoxWorld.Bullet.Update, BoxWorld.Enemy.Update: JavaScript numbers are IEEE doubles; the model uses exact reals.
- BoxGame.Game.Settle: a frame that throws inside the collision check leaves the pools and the score as the pass had left them at the throw; the contract states them through `Collided` (the values `ShootDown` reports) and states `Settled` (nothing overlapping) only for frames that do not throw.
- BoxGame.Game.Play: the per-object positions after the moving phases (each old bullet 8 higher, each old enemy lower by its speed, the new bullet and enemy where they appear) are stated on `Move`, `Shift`, `Fly` and `Invade` and not repeated here; this contract states the pools through `Grown`, `Above`, `Below` and `Collided`.
- BoxGame.Game.Tick: as for `Play`, the per-object positions are stated on `Move` and not repeated.
- BoxGame.Game.GameLoop: as for `Play`, the per-object positions are stated on `Move` and not repeated.
- CircleGame.Game.Update: the Gemini script keeps `keys` as a map from key names. Only the eight keys the frame reads are modelled, as four booleans (a letter or its arrow).
