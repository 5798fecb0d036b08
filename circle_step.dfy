/*
 * One frame of Gemini3pro/script.js (`update`, with `draw` reduced to the one
 * thing it changes, the hurt-flash countdown), as a function of the world,
 * the frame's inputs and the stream of random draws; and the start and
 * game-over transitions.
 */
module CircleStep {
  import opened CircleWorld
  import opened CirclePools
  import opened Splicing

  /** What a frame reads from outside: the animation timestamp, the held
      keys, the wall clock in milliseconds (`Date.now()`), and the canvas size. */
  datatype FrameInput = FrameInput(time: real, keys: Keys, now: nat, width: real, height: real)

  /** The firing cadence: a volley only in the first 21 milliseconds of every
      200 of the wall clock. */
  predicate MayFire(now: nat)
  {
    now % FirePeriod <= FireWindow
  }

  // The phases, in the order `update` runs them.

  /** Timestamp bookkeeping, keyboard movement and the clamp. */
  function Steer(w: World, f: FrameInput): (v: World)
  {
    w.(lastTime := f.time, pilot := MovePilot(w.pilot, f.keys, f.width, f.height))
  }

  /** `fireBullet`, when the clock allows it. */
  function Volley(w: World, fire: bool): (v: World)
  {
    if fire then w.(bullets := w.bullets + Fan(w.pilot.weaponLevel, w.pilot.x, w.pilot.y)) else w
  }

  function BulletPhase(w: World): (v: World)
  {
    w.(bullets := ForEachCull(w.bullets, MoveBullet, AboveTop))
  }

  function EnemyPhase(w: World, n: nat, height: real, rand: nat -> Draw): (s: Stage)
  {
    var t := EnemiesForEach(w.enemies, w.(enemies := []), n, height, rand);
    Stage(t.w.(enemies := t.enemies), t.next)
  }

  function ItemPhase(w: World, height: real): (v: World)
  {
    var h := ItemsForEach(w.items, w.pilot, height);
    w.(items := h.items, pilot := h.pilot)
  }

  function ParticlePhase(w: World): (v: World)
  {
    w.(particles := ForEachCull(w.particles, AgeParticle, Expired))
  }

  /** Everything `update` does before spawning: timestamp, movement, the
      volley and the boost countdown (over the time since the last frame). */
  function Prepare(w: World, f: FrameInput): (v: World)
  {
    var w1 := Volley(Steer(w, f), MayFire(f.now));
    w1.(pilot := TickWeapon(w1.pilot, f.time - w.lastTime))
  }

  /** Everything after the enemy pass: items, particles, and the hurt-flash
      countdown of `draw`. */
  function Finish(w: World, height: real): (v: World)
  {
    var w1 := ParticlePhase(ItemPhase(w, height));
    w1.(pilot := Fade(w1.pilot))
  }

  /** One call of `update(time)`.  An inactive world is returned untouched
      and no draw is used; otherwise the phases run in order, drawing from
      position 0 of the stream, and the result says how many draws were used. */
  function Step(w: World, f: FrameInput, rand: nat -> Draw): (s: Stage)
  {
    if !w.active then Stage(w, 0)
    else
      var s3 := Spawn(Prepare(w, f), f.width, rand, 0);
      var s4 := EnemyPhase(BulletPhase(s3.w), s3.next, f.height, rand);
      Stage(Finish(s4.w, f.height), s4.next)
  }

  /** A frame of an active world is its phases in order. */
  lemma StepInPhases(w: World, f: FrameInput, rand: nat -> Draw, w1: World, s2: Stage, w3: World, s4: Stage, w5: World)
    requires w.active && w1 == Prepare(w, f) && s2 == Spawn(w1, f.width, rand, 0) && w3 == BulletPhase(s2.w)
    requires s4 == EnemyPhase(w3, s2.next, f.height, rand) && w5 == Finish(s4.w, f.height)
    ensures Step(w, f, rand) == Stage(w5, s4.next)
  {
  }

  /** `startGame`: only what it resets.  Particles, the weapon timer, the
      spawn counter, the hurt state and the player's position are kept (the
      resize it calls repositions the player only while inactive). */
  function Start(w: World): (v: World)
  {
    w.(active := true, bgm := true, score := 0, pilot := w.pilot.(hp := MaxHp, weaponLevel := 1),
       bullets := [], enemies := [], items := [])
  }

  /** `gameOver`: the game stops and the background loop is cleared. */
  function Stop(w: World): (v: World)
  {
    w.(active := false, bgm := false)
  }

  /** A started game is running with its background loop, at full health,
      tier 1, zero score and empty pools (particles aside).  It carries over
      the particles, the spawn counter, the frame timestamp and, of the
      player, the position, the weapon timer and the hurt state.  Started
      from a world whose counters are non-negative it is well formed. */
  lemma StartResets(w: World)
    ensures var v := Start(w);
      v.active && v.bgm && v.score == 0 && v.pilot.hp == MaxHp && v.pilot.weaponLevel == 1
    ensures var v := Start(w);
      v.bullets == [] && v.enemies == [] && v.items == [] && v.particles == w.particles
    ensures var v := Start(w);
      && v.spawnTimer == w.spawnTimer && v.lastTime == w.lastTime
      && v.pilot == w.pilot.(hp := MaxHp, weaponLevel := 1)
    ensures w.spawnTimer >= 0 && w.pilot.hurtTimer >= 0 ==> WellFormed(Start(w))
  {
  }

  /** Starting and stopping keep the background loop running exactly while
      the game is active, and a stopped game stays put under `Step`. */
  lemma StartStopKeepLoopInStep(w: World, f: FrameInput, rand: nat -> Draw)
    ensures Start(w).bgm == Start(w).active && Stop(w).bgm == Stop(w).active
    ensures !Stop(w).active && Step(Stop(w), f, rand) == Stage(Stop(w), 0)
  {
  }

  // ---------------------------------------------------------------------
  // Properties of a frame
  // ---------------------------------------------------------------------

  /** Once inactive, a frame changes nothing and draws nothing. */
  lemma StepWhileInactive(w: World, f: FrameInput, rand: nat -> Draw)
    requires !w.active
    ensures Step(w, f, rand) == Stage(w, 0)
  {
  }

  /** A frame keeps health at most 100, the tier in 1..5, the counters and the
      score non-negative, and the background loop running exactly while the
      game is active. */
  lemma StepPreservesWellFormed(w: World, f: FrameInput, rand: nat -> Draw)
    requires WellFormed(w) && w.bgm == w.active
    ensures WellFormed(Step(w, f, rand).w)
    ensures Step(w, f, rand).w.bgm == Step(w, f, rand).w.active
  {
    if w.active {
      TickWeaponEffects(Volley(Steer(w, f), MayFire(f.now)).pilot, f.time - w.lastTime);
      var w2 := Prepare(w, f);
      assert WellFormed(w2) && w2.bgm == w2.active;
      var s3 := Spawn(w2, f.width, rand, 0);
      var b := BulletPhase(s3.w);
      assert WellFormed(b) && b.bgm == b.active;
      EnemiesForEachEffects(b.enemies, b.(enemies := []), s3.next, f.height, rand);
      var s4 := EnemyPhase(b, s3.next, f.height, rand);
      assert WellFormed(s4.w) && s4.w.bgm == s4.w.active;
      ItemsForEachEffects(s4.w.items, s4.w.pilot, f.height);
      var w5 := ParticlePhase(ItemPhase(s4.w, f.height));
      assert WellFormed(w5) && w5.bgm == w5.active;
      FadeCountsDown(w5.pilot);
      assert Step(w, f, rand).w == w5.(pilot := Fade(w5.pilot));
    }
  }

  /** Within a frame the score never goes down. */
  lemma StepScoreNeverDrops(w: World, f: FrameInput, rand: nat -> Draw)
    ensures Step(w, f, rand).w.score >= w.score
  {
    if w.active {
      var s3 := Spawn(Prepare(w, f), f.width, rand, 0);
      var b := BulletPhase(s3.w);
      EnemiesForEachEffects(b.enemies, b.(enemies := []), s3.next, f.height, rand);
    }
  }

  /** After an active frame the player is inside the canvas, at least its
      radius away from every edge, whatever keys were held. */
  lemma StepKeepsPilotInside(w: World, f: FrameInput, rand: nat -> Draw)
    requires w.active
    requires f.width >= 2.0 * PlayerRadius && f.height >= 2.0 * PlayerRadius
    ensures var p := Step(w, f, rand).w.pilot;
      PlayerRadius <= p.x <= f.width - PlayerRadius && PlayerRadius <= p.y <= f.height - PlayerRadius
  {
    TickWeaponEffects(Volley(Steer(w, f), MayFire(f.now)).pilot, f.time - w.lastTime);
    var q := Prepare(w, f).pilot;
    assert PlayerRadius <= q.x <= f.width - PlayerRadius && PlayerRadius <= q.y <= f.height - PlayerRadius;
    var s3 := Spawn(Prepare(w, f), f.width, rand, 0);
    var b := BulletPhase(s3.w);
    assert b.pilot == q;
    EnemiesForEachEffects(b.enemies, b.(enemies := []), s3.next, f.height, rand);
    var s4 := EnemyPhase(b, s3.next, f.height, rand);
    assert s4.w.pilot.x == q.x && s4.w.pilot.y == q.y;
    ItemsForEachEffects(s4.w.items, s4.w.pilot, f.height);
    var w5 := ParticlePhase(ItemPhase(s4.w, f.height));
    assert w5.pilot.x == q.x && w5.pilot.y == q.y;
    FadeCountsDown(w5.pilot);
  }

  /** The enemy pass ends the game exactly when it takes the player's health
      from above zero to zero or below. */
  lemma EnemyPhaseEndsGame(w: World, n: nat, height: real, rand: nat -> Draw)
    requires w.active && w.pilot.hp > 0
    ensures var v := EnemyPhase(w, n, height, rand).w;
      !v.active <==> v.pilot.hp <= 0
  {
    EnemiesForEachEffects(w.enemies, w.(enemies := []), n, height, rand);
  }

  /** A boost runs out: a frame whose elapsed time reaches the remaining
      boost time ends at tier 1, unless a boost was picked up during that
      frame, which restarts the full five-second timer. */
  lemma BoostWearsOff(w: World, f: FrameInput, rand: nat -> Draw)
    requires w.active && w.pilot.weaponLevel > 1
    requires f.time - w.lastTime >= w.pilot.weaponTimer
    ensures var p := Step(w, f, rand).w.pilot;
      p.weaponLevel == 1 || p.weaponTimer == WeaponDuration
  {
    var s3 := Spawn(Prepare(w, f), f.width, rand, 0);
    var b := BulletPhase(s3.w);
    EnemiesForEachEffects(b.enemies, b.(enemies := []), s3.next, f.height, rand);
    var s4 := EnemyPhase(b, s3.next, f.height, rand);
    ItemsForEachEffects(s4.w.items, s4.w.pilot, f.height);
  }
}
