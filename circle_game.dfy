/*
 * The imperative form of Gemini3pro/script.js: the globals (`state`, `player`,
 * the four pools and the canvas size) as the fields of a Game, and the
 * script's functions as its methods, each proved to compute what the
 * functions of CircleWorld, CirclePools and CircleStep say.
 *
 * Bullets, enemies, items and particles are values in sequences; a field
 * update of the script's entity object is written as the update of the
 * sequence element that holds it.
 */
module CircleGame {
  import opened CircleWorld
  import opened CirclePools
  import opened CircleStep
  import opened Splicing

  /** The enemy pool while the bullets sweep the enemy that sat at index `i`
      of `s0`: written back as long as no hit has killed it, and index `i`
      cut once per killing hit after that. */
  function Pool(s0: seq<Enemy>, i: nat, e: Enemy, kills: nat): (t: seq<Enemy>)
    requires i < |s0|
  {
    if kills == 0 then s0[i := e] else Cut(s0, i, kills)
  }

  /** One more hit on that enemy. */
  lemma PoolAfterHit(s0: seq<Enemy>, i: nat, kills: nat, e: Enemy)
    requires i < |s0| && (kills == 0 || e.hp <= 0)
    ensures e.hp - 1 <= 0 ==> Splice(Pool(s0, i, e, kills), i) == Pool(s0, i, e.(hp := e.hp - 1), kills + 1)
    ensures e.hp - 1 > 0 ==> Pool(s0, i, e, kills)[i := e.(hp := e.hp - 1)] == Pool(s0, i, e.(hp := e.hp - 1), kills)
  {
    if e.hp - 1 <= 0 {
      if kills == 0 {
        SpliceAfterWrite(s0, i, e);
      } else {
        SpliceCut(s0, i, kills);
      }
    } else {
      assert s0[i := e][i := e.(hp := e.hp - 1)] == s0[i := e.(hp := e.hp - 1)];
    }
  }

  /** A kill's effects do not depend on the enemy's health. */
  lemma KillEffectIgnoresHealth(w: World, e: Enemy, hp: int, n: nat, rand: nat -> Draw)
    ensures KillEffect(w, e.(hp := hp), n, rand) == KillEffect(w, e, n, rand)
  {
  }

  // ---------------------------------------------------------------------
  // One forEach visit, against the pass functions
  // ---------------------------------------------------------------------

  /** Visiting index `i` of a culling pass: write back the advanced element,
      splice it out if it is gone, and go on at `i + 1`.  The part before the
      next index plus the pass over the rest is unchanged. */
  lemma CullVisit<T>(s: seq<T>, i: nat, t: seq<T>, step: T -> T, gone: T -> bool)
    requires i < |s|
    requires t == if gone(step(s[i])) then Splice(s[i := step(s[i])], i) else s[i := step(s[i])]
    ensures t[..Min(i + 1, |t|)] + ForEachCull(t[Min(i + 1, |t|)..], step, gone)
         == s[..i] + ForEachCull(s[i..], step, gone)
  {
    var x := step(s[i]);
    var r := s[i..];
    assert r[0] == s[i];
    if gone(x) {
      if i + 1 < |s| {
        SpliceAfterWrite(s, i, x);
        assert t == s[..i] + s[i + 1..];
        assert t[..i + 1] == s[..i] + [s[i + 1]];
        assert t[i + 1..] == s[i + 2..] == r[2..];
      } else {
        assert t == s[..i];
      }
    } else {
      assert t[..i + 1] == s[..i] + [x];
      assert t[i + 1..] == r[1..];
    }
  }

  /** Visiting bullet `j` for one enemy when it strikes: it is spliced out
      and counted as a hit, and the pass goes on at `j + 1`. */
  lemma SweepVisitHit(s: seq<Bullet>, j: nat, t: seq<Bullet>, e: Enemy)
    requires j < |s| && Struck(s[j], e) && t == Splice(s, j)
    ensures t[..Min(j + 1, |t|)] + Sweep(t[Min(j + 1, |t|)..], e).kept == s[..j] + Sweep(s[j..], e).kept
    ensures Sweep(t[Min(j + 1, |t|)..], e).hits + 1 == Sweep(s[j..], e).hits
  {
    var r := s[j..];
    assert r[0] == s[j];
    if j + 1 < |s| {
      var rest := Sweep(r[2..], e);
      assert Sweep(r, e) == SweepResult([r[1]] + rest.kept, rest.hits + 1);
      assert t[..j + 1] == s[..j] + [r[1]];
      assert t[j + 1..] == r[2..];
    } else {
      assert Sweep(r, e) == SweepResult([], 1);
      assert t == s[..j];
      assert t[j..] == [];
    }
  }

  /** Visiting bullet `j` for one enemy when it misses: it stays. */
  lemma SweepVisitMiss(s: seq<Bullet>, j: nat, e: Enemy)
    requires j < |s| && !Struck(s[j], e)
    ensures s[..j + 1] + Sweep(s[j + 1..], e).kept == s[..j] + Sweep(s[j..], e).kept
    ensures Sweep(s[j + 1..], e).hits == Sweep(s[j..], e).hits
  {
    var r := s[j..];
    assert r[0] == s[j];
    assert r[1..] == s[j + 1..];
    var rest := Sweep(r[1..], e);
    assert Sweep(r, e) == SweepResult([r[0]] + rest.kept, rest.hits);
    assert s[..j + 1] == s[..j] + [r[0]];
  }

  /** The sweep of one enemy seen from index `j` of the current bullet pool:
      the bullets kept so far, followed by what the pass over the rest keeps,
      and the hits that rest still makes. */
  function SweepFrom(s: seq<Bullet>, j: nat, e: Enemy): SweepResult
  {
    var m := Min(j, |s|);
    var rest := Sweep(s[m..], e);
    SweepResult(s[..m] + rest.kept, rest.hits)
  }

  /** Visiting bullet `j` for one enemy keeps the overall sweep, and a strike
      moves one hit from the rest to the hits made so far. */
  lemma SweepVisit(s: seq<Bullet>, j: nat, t: seq<Bullet>, e: Enemy)
    requires j < |s| && t == if Struck(s[j], e) then Splice(s, j) else s
    ensures SweepFrom(t, j + 1, e).kept == SweepFrom(s, j, e).kept
    ensures SweepFrom(t, j + 1, e).hits + (if Struck(s[j], e) then 1 else 0) == SweepFrom(s, j, e).hits
  {
    if Struck(s[j], e) {
      SweepVisitHit(s, j, t, e);
    } else {
      SweepVisitMiss(s, j, e);
    }
  }

  /** Visiting item `i`: it falls, and is spliced out when picked up or below
      the bottom edge; a pickup changes the player from `p` to `q`. */
  lemma ItemVisit(s: seq<Item>, i: nat, p: Pilot, height: real, t: seq<Item>, q: Pilot)
    requires i < |s|
    requires q == if Collects(p, Fall(s[i])) then ApplyItem(p, Fall(s[i]).kind) else p
    requires t == if Collects(p, Fall(s[i])) || Fall(s[i]).y > height then Splice(s[i := Fall(s[i])], i)
                  else s[i := Fall(s[i])]
    ensures t[..Min(i + 1, |t|)] + ItemsForEach(t[Min(i + 1, |t|)..], q, height).items
         == s[..i] + ItemsForEach(s[i..], p, height).items
    ensures ItemsForEach(t[Min(i + 1, |t|)..], q, height).pilot == ItemsForEach(s[i..], p, height).pilot
  {
    var it := Fall(s[i]);
    var r := s[i..];
    assert r[0] == s[i];
    if Collects(p, it) || it.y > height {
      if i + 1 < |s| {
        SpliceAfterWrite(s, i, it);
        assert t == s[..i] + s[i + 1..];
        assert t[..i + 1] == s[..i] + [s[i + 1]];
        assert t[i + 1..] == s[i + 2..] == r[2..];
      } else {
        assert t == s[..i];
      }
    } else {
      assert t[..i + 1] == s[..i] + [it];
      assert t[i + 1..] == r[1..];
    }
  }

  /** Visiting enemy `i`: its splices remove it and the enemies after it, and
      the pass goes on at `i + 1`. */
  lemma EnemyVisit(s: seq<Enemy>, i: nat, w: World, n: nat, height: real, rand: nat -> Draw,
                   v: Visit, t: seq<Enemy>)
    requires i < |s|
    requires v == VisitEnemy(s[i], w, n, height, rand)
    requires t == if v.removed == 0 then s[i := v.e] else Cut(s, i, v.removed)
    ensures t[..Min(i + 1, |t|)] + EnemiesForEach(t[Min(i + 1, |t|)..], v.w, v.next, height, rand).enemies
         == s[..i] + EnemiesForEach(s[i..], w, n, height, rand).enemies
    ensures EnemiesForEach(t[Min(i + 1, |t|)..], v.w, v.next, height, rand).w == EnemiesForEach(s[i..], w, n, height, rand).w
    ensures EnemiesForEach(t[Min(i + 1, |t|)..], v.w, v.next, height, rand).next == EnemiesForEach(s[i..], w, n, height, rand).next
  {
    var r := s[i..];
    assert r[0] == s[i];
    if v.removed == 0 {
      var rest := EnemiesForEach(r[1..], v.w, v.next, height, rand);
      assert EnemiesForEach(r, w, n, height, rand) == Tally([v.e] + rest.enemies, rest.w, rest.next);
      SkipKept(s, i, v.e, rest.enemies);
    } else {
      var after := r[if v.removed < |r| then v.removed else |r| ..];
      assert t == s[..i] + after;
      if after != [] {
        var rest := EnemiesForEach(after[1..], v.w, v.next, height, rand);
        assert EnemiesForEach(r, w, n, height, rand) == Tally([after[0]] + rest.enemies, rest.w, rest.next);
        SkipRemoved(s[..i], after, rest.enemies);
      } else {
        assert EnemiesForEach(r, w, n, height, rand) == Tally([], v.w, v.next);
        assert t == s[..i];
        assert t[i..] == [];
      }
    }
  }

  lemma SkipKept<T>(s: seq<T>, i: nat, x: T, rest: seq<T>)
    requires i < |s|
    ensures s[i := x][..i + 1] + rest == s[..i] + ([x] + rest)
    ensures s[i := x][i + 1..] == s[i..][1..]
  {
    assert s[i := x][..i + 1] == s[..i] + [x];
  }

  lemma SkipRemoved<T>(front: seq<T>, after: seq<T>, rest: seq<T>)
    requires after != []
    ensures (front + after)[..|front| + 1] + rest == front + ([after[0]] + rest)
    ensures (front + after)[|front| + 1..] == after[1..]
  {
    assert (front + after)[..|front| + 1] == front + [after[0]];
  }

  // ---------------------------------------------------------------------
  // The game objects
  // ---------------------------------------------------------------------

  /** The `player` object. */
  class Player {
    var x: real
    var y: real
    const r: real := PlayerRadius
    var hp: int
    var weaponLevel: int
    var weaponTimer: real
    var isHurt: bool
    var hurtTimer: int

    constructor ()
      ensures Snap() == Pilot(0.0, 0.0, MaxHp, 1, 0.0, false, 0)
    {
      x, y := 0.0, 0.0;
      hp := MaxHp;
      weaponLevel := 1;
      weaponTimer := 0.0;
      isHurt := false;
      hurtTimer := 0;
    }

    /** The player's part of `startGame`: full health, tier 1. */
    method Revive()
      modifies this
      ensures Snap() == old(Snap()).(hp := MaxHp, weaponLevel := 1)
    {
      hp, weaponLevel := MaxHp, 1;
    }

    function Snap(): Pilot
      reads this
    {
      Pilot(x, y, hp, weaponLevel, weaponTimer, isHurt, hurtTimer)
    }
  }

  /** The script's globals: `state` (with `bgmLoop` reduced to whether the
      background interval is running), `player`, the pools and the canvas. */
  class Game {
    var active: bool
    var score: int
    var lastTime: real
    var enemySpawnTimer: int
    var bgmRunning: bool
    const player: Player
    var bullets: seq<Bullet>
    var enemies: seq<Enemy>
    var items: seq<Item>
    var particles: seq<Particle>
    var width: real
    var height: real

    function Snapshot(): World
      reads this, player
    {
      World(active, score, lastTime, enemySpawnTimer, bgmRunning, player.Snap(),
            bullets, enemies, items, particles)
    }

    /** Loading the script: the initial globals, then the first `resize`. */
    constructor (winW: real, winH: real)
      ensures width == winW && height == winH
      ensures Snapshot() == World(false, 0, 0.0, 0, false,
                                  Pilot(winW / 2.0, winH - 100.0, MaxHp, 1, 0.0, false, 0),
                                  [], [], [], [])
    {
      active := false;
      score := 0;
      lastTime := 0.0;
      enemySpawnTimer := 0;
      bgmRunning := false;
      player := new Player();
      bullets, enemies, items, particles := [], [], [], [];
      width, height := winW, winH;
      new;
      Resize(winW, winH);
    }

    /** `resize`: the canvas takes the window's size; only while no game is
        running is the player put back at the bottom centre. */
    method Resize(winW: real, winH: real)
      modifies this`width, this`height, player
      ensures width == winW && height == winH
      ensures player.Snap() == if old(active) then old(player.Snap())
                               else old(player.Snap()).(x := winW / 2.0, y := winH - 100.0)
    {
      width, height := winW, winH;
      if !active {
        player.x := width / 2.0;
        player.y := height - 100.0;
      }
    }

    /** `startGame` (the start and restart buttons). */
    method StartGame(winW: real, winH: real)
      modifies this`active, this`score, this`enemies, this`bullets, this`items, this`bgmRunning,
               this`width, this`height, player
      ensures Snapshot() == Start(old(Snapshot()))
    {
      active, score := true, 0;
      player.Revive();
      enemies, bullets, items := [], [], [];
      Resize(winW, winH);
      bgmRunning := true;
    }

    /** `gameOver`. */
    method GameOver()
      modifies this`active, this`bgmRunning
      ensures Snapshot() == Stop(old(Snapshot()))
    {
      active := false;
      bgmRunning := false;
    }

    /** `takeDamage`. */
    method TakeDamage(dmg: int)
      modifies this`active, this`bgmRunning, player
      ensures Snapshot() == CircleWorld.TakeDamage(old(Snapshot()), dmg)
    {
      player.hp := player.hp - dmg;
      player.isHurt := true;
      player.hurtTimer := HurtFrames;
      if player.hp <= 0 {
        GameOver();
      }
    }

    /** `applyItem`. */
    method ApplyItem(kind: ItemKind)
      modifies player
      ensures player.Snap() == CircleWorld.ApplyItem(old(player.Snap()), kind)
    {
      if kind == Heal {
        var h := player.hp + HealAmount;
        player.hp := if MaxHp < h then MaxHp else h;
      } else {
        var l := player.weaponLevel + 1;
        player.weaponLevel := if MaxWeaponLevel < l then MaxWeaponLevel else l;
        player.weaponTimer := WeaponDuration;
      }
    }

    /** `createParticles`, drawing from position `n` of the random stream. */
    method CreateParticles(x: real, y: real, color: Color, rand: nat -> Draw, n: nat) returns (next: nat)
      modifies this`particles
      ensures particles == old(particles) + Burst(x, y, color, rand, n)
      ensures next == n + BurstDraws
    {
      next := n;
      for i := 0 to BurstSize
        invariant particles == old(particles) + Burst(x, y, color, rand, n)[..i]
        invariant next == n + 2 * i
      {
        var vx := (rand(next) - 0.5) * 5.0;
        var vy := (rand(next + 1) - 0.5) * 5.0;
        next := next + 2;
        particles := particles + [Particle(x, y, vx, vy, ParticleLife, color)];
        assert Burst(x, y, color, rand, n)[..i + 1] == Burst(x, y, color, rand, n)[..i] + [Burst(x, y, color, rand, n)[i]];
      }
      assert Burst(x, y, color, rand, n)[..BurstSize] == Burst(x, y, color, rand, n);
    }

    /** `tryDropItem`, drawing from position `n` of the random stream. */
    method TryDropItem(x: real, y: real, kind: EnemyKind, rand: nat -> Draw, n: nat) returns (next: nat)
      modifies this`items
      ensures items == old(items) + DropList(DropItem(x, y, kind, rand, n))
      ensures next == n + DropItem(x, y, kind, rand, n).used
    {
      next := n + 1;
      if rand(n) > DropRate {
        return;
      }
      var isWeapon := if kind == Ship then rand(next) < 0.8 else rand(next) > 0.7;
      next := next + 1;
      items := items + [Item(x, y, if isWeapon then WeaponBoost else Heal)];
    }

    /** `spawnEnemy`, drawing from position `n` of the random stream. */
    method SpawnEnemy(rand: nat -> Draw, n: nat) returns (next: nat)
      modifies this`enemySpawnTimer, this`enemies
      ensures Stage(Snapshot(), next) == Spawn(old(Snapshot()), width, rand, n)
    {
      var v := BaseSpawnInterval - score / ScorePerStep;
      var interval := if MinSpawnInterval < v then v else MinSpawnInterval;
      var t := enemySpawnTimer;
      enemySpawnTimer := enemySpawnTimer + 1;
      if t < interval {
        next := n;
        return;
      }
      enemySpawnTimer := 0;
      var isShip := rand(n) > 0.4;
      var r := if isShip then 20.0 else 25.0;
      var e := Enemy(rand(n + 1) * (width - 2.0 * r) + r, -r, r,
                     if isShip then Ship else Meteor, if isShip then 2 else 5,
                     rand(n + 2) * 2.0 + 2.0 + score as real / 5000.0);
      assert e == NewEnemy(rand(n), rand(n + 1), rand(n + 2), score, width);
      enemies := enemies + [e];
      next := n + 3;
    }

    /** `fireBullet`, given the wall clock. */
    method FireBullet(now: nat)
      modifies this`bullets
      ensures Snapshot() == Volley(old(Snapshot()), MayFire(now))
    {
      if now % FirePeriod > FireWindow {
        return;
      }
      var pattern := Pattern(player.weaponLevel);
      ghost var fan := Fan(player.weaponLevel, player.x, player.y);
      for k := 0 to |pattern|
        invariant bullets == old(bullets) + fan[..k]
      {
        bullets := bullets + [Bullet(player.x, player.y - MuzzleOffset, pattern[k] * BulletSpeed, -1.0 * BulletSpeed)];
        assert fan[..k + 1] == fan[..k] + [fan[k]];
      }
      assert fan[..|pattern|] == fan;
    }

    /** Keyboard movement and the clamp, at the top of `update`. */
    method SteerPlayer(keys: Keys)
      modifies player
      ensures player.Snap() == MovePilot(old(player.Snap()), keys, width, height)
    {
      if keys.up { player.y := player.y - PlayerSpeed; }
      if keys.down { player.y := player.y + PlayerSpeed; }
      if keys.left { player.x := player.x - PlayerSpeed; }
      if keys.right { player.x := player.x + PlayerSpeed; }
      player.x := Clamp(player.x, player.r, width - player.r);
      player.y := Clamp(player.y, player.r, height - player.r);
    }

    /** The weapon countdown of `update`. */
    method TickWeapon(dt: real)
      modifies player
      ensures player.Snap() == CircleWorld.TickWeapon(old(player.Snap()), dt)
    {
      if player.weaponLevel > 1 {
        player.weaponTimer := player.weaponTimer - dt;
        if player.weaponTimer <= 0.0 {
          player.weaponLevel := 1;
        }
      }
    }

    /** The hurt-flash countdown done by `draw`. */
    method FadeHurt()
      modifies player
      ensures player.Snap() == Fade(old(player.Snap()))
    {
      if player.hurtTimer > 0 {
        player.hurtTimer := player.hurtTimer - 1;
      }
    }

    /** The bullet pass of `update`. */
    method UpdateBullets()
      modifies this`bullets
      ensures bullets == ForEachCull(old(bullets), MoveBullet, AboveTop)
    {
      var i := 0;
      while i < |bullets|
        invariant var m := Min(i, |bullets|);
          bullets[..m] + ForEachCull(bullets[m..], MoveBullet, AboveTop) == ForEachCull(old(bullets), MoveBullet, AboveTop)
        decreases |bullets| - i
      {
        ghost var before := bullets;
        var b := bullets[i];
        b := b.(x := b.x + b.vx, y := b.y + b.vy);
        bullets := bullets[i := b];
        if b.y < 0.0 {
          bullets := Splice(bullets, i);
        }
        CullVisit(before, i, bullets, MoveBullet, AboveTop);
        i := i + 1;
      }
    }

    /** The particle pass of `update`. */
    method UpdateParticles()
      modifies this`particles
      ensures particles == ForEachCull(old(particles), AgeParticle, Expired)
    {
      var i := 0;
      while i < |particles|
        invariant var m := Min(i, |particles|);
          particles[..m] + ForEachCull(particles[m..], AgeParticle, Expired) == ForEachCull(old(particles), AgeParticle, Expired)
        decreases |particles| - i
      {
        ghost var before := particles;
        var p := particles[i];
        p := p.(x := p.x + p.vx, y := p.y + p.vy, life := p.life - 1);
        particles := particles[i := p];
        if p.life <= 0 {
          particles := Splice(particles, i);
        }
        CullVisit(before, i, particles, AgeParticle, Expired);
        i := i + 1;
      }
    }

    /** The item pass of `update`. */
    method UpdateItems()
      modifies this`items, player
      ensures Snapshot() == ItemPhase(old(Snapshot()), height)
    {
      ghost var goal := ItemsForEach(items, player.Snap(), height);
      var i := 0;
      while i < |items|
        invariant var m := Min(i, |items|);
          && items[..m] + ItemsForEach(items[m..], player.Snap(), height).items == goal.items
          && ItemsForEach(items[m..], player.Snap(), height).pilot == goal.pilot
        decreases |items| - i
      {
        ghost var before := items;
        ghost var p := player.Snap();
        var it := items[i];
        it := it.(y := it.y + ItemFallSpeed);
        items := items[i := it];
        if Within(player.x - it.x, player.y - it.y, player.r + PickupRadius) {
          ApplyItem(it.kind);
          items := Splice(items, i);
        } else if it.y > height {
          items := Splice(items, i);
        }
        ItemVisit(before, i, p, height, items, player.Snap());
        i := i + 1;
      }
    }

    /** One striking bullet on the enemy that sat at index `i` of the pool
        `s0` as `e0` before the sweep, after `hits` earlier hits of which
        `kills` left it at zero or below, with `ks` the kill effects so far
        (from draw position `n0` on): it loses a hit point; a hit that leaves
        it at zero or below scores, bursts, tries a drop and splices index
        `i`; otherwise its health is written back. */
    method Hit(i: nat, e: Enemy, rand: nat -> Draw, n: nat,
               ghost e0: Enemy, ghost s0: seq<Enemy>, ghost w1: World, ghost n0: nat,
               ghost hits: nat, ghost kills: nat, ghost ks: Stage)
        returns (hit: Enemy, next: nat, ghost kills': nat, ghost ks': Stage)
      requires i < |s0| && e == e0.(hp := e0.hp - hits)
      requires kills == Kills(e0.hp, hits) && (kills == 0 || e.hp <= 0)
      requires ks == KillEffects(w1, e0, kills, n0, rand)
      requires score == ks.w.score && particles == ks.w.particles && items == ks.w.items && n == ks.next
      requires enemies == Pool(s0, i, e, kills)
      modifies this`enemies, this`score, this`particles, this`items
      ensures hit == e0.(hp := e0.hp - (hits + 1))
      ensures kills' == Kills(e0.hp, hits + 1) && (kills' == 0 || hit.hp <= 0)
      ensures ks' == KillEffects(w1, e0, kills', n0, rand)
      ensures score == ks'.w.score && particles == ks'.w.particles && items == ks'.w.items && next == ks'.next
      ensures enemies == Pool(s0, i, hit, kills')
    {
      PoolAfterHit(s0, i, kills, e);
      KillsStep(e0.hp, hits);
      KillEffectIgnoresHealth(ks.w, e0, e.hp, n, rand);
      hit := e.(hp := e.hp - 1);
      next := n;
      kills', ks' := kills, ks;
      if hit.hp <= 0 {
        kills', ks' := kills + 1, KillEffect(ks.w, e, n, rand);
        score := score + Points(hit.kind);
        next := CreateParticles(hit.x, hit.y, White, rand, next);
        next := TryDropItem(hit.x, hit.y, hit.kind, rand, next);
        enemies := Splice(enemies, i);
      } else {
        enemies := enemies[i := hit];
      }
    }

    /** One visit of the inner `bullets.forEach`, at bullet index `j`, for
        the enemy `e` (`e0` before the sweep): a striking bullet is spliced
        out and hits the enemy.  Against the sweep `sw` of the whole pool,
        the bullets kept and the hits counted so far stay on course. */
    method Strike(i: nat, j: nat, e: Enemy, rand: nat -> Draw, n: nat,
                  ghost e0: Enemy, ghost s0: seq<Enemy>, ghost w1: World, ghost n0: nat,
                  ghost sw: SweepResult, ghost hits: nat, ghost kills: nat, ghost ks: Stage)
        returns (e': Enemy, next: nat, ghost hits': nat, ghost kills': nat, ghost ks': Stage)
      requires j < |bullets| && i < |s0|
      requires e == e0.(hp := e0.hp - hits)
      requires SweepFrom(bullets, j, e0).kept == sw.kept && hits + SweepFrom(bullets, j, e0).hits == sw.hits
      requires kills == Kills(e0.hp, hits) && (kills == 0 || e.hp <= 0)
      requires ks == KillEffects(w1, e0, kills, n0, rand)
      requires score == ks.w.score && particles == ks.w.particles && items == ks.w.items && n == ks.next
      requires enemies == Pool(s0, i, e, kills)
      modifies this`enemies, this`bullets, this`score, this`particles, this`items
      ensures |bullets| <= |old(bullets)|
      ensures e' == e0.(hp := e0.hp - hits')
      ensures SweepFrom(bullets, j + 1, e0).kept == sw.kept && hits' + SweepFrom(bullets, j + 1, e0).hits == sw.hits
      ensures kills' == Kills(e0.hp, hits') && (kills' == 0 || e'.hp <= 0)
      ensures ks' == KillEffects(w1, e0, kills', n0, rand)
      ensures score == ks'.w.score && particles == ks'.w.particles && items == ks'.w.items && next == ks'.next
      ensures enemies == Pool(s0, i, e', kills')
    {
      ghost var before := bullets;
      e', next, hits', kills', ks' := e, n, hits, kills, ks;
      if Within(bullets[j].x - e.x, bullets[j].y - e.y, e.r) {
        bullets := Splice(bullets, j);
        e', next, kills', ks' := Hit(i, e, rand, n, e0, s0, w1, n0, hits, kills, ks);
        hits' := hits + 1;
      }
      SweepVisit(before, j, bullets, e0);
    }

    /** The inner `bullets.forEach` of the enemy pass, for the enemy `e0`
        that sits at index `i`: each striking bullet is spliced out and hits
        the enemy; each hit that leaves it at zero or below scores, bursts,
        tries a drop and splices index `i` of the enemies. */
    method CheckBulletHits(i: nat, e0: Enemy, rand: nat -> Draw, n: nat, ghost s0: seq<Enemy>) returns (e: Enemy, next: nat)
      requires i < |s0| && enemies == s0[i := e0]
      modifies this`enemies, this`bullets, this`score, this`particles, this`items
      ensures var sw := Sweep(old(bullets), e0);
        e == e0.(hp := e0.hp - sw.hits) && enemies == Pool(s0, i, e, Kills(e0.hp, sw.hits))
      ensures var sw := Sweep(old(bullets), e0);
        var ks := KillEffects(old(Snapshot()).(enemies := [], bullets := sw.kept), e0, Kills(e0.hp, sw.hits), n, rand);
        Snapshot().(enemies := []) == ks.w && next == ks.next
    {
      ghost var sw := Sweep(bullets, e0);
      ghost var w1 := old(Snapshot()).(enemies := [], bullets := sw.kept);
      ghost var hits: nat := 0;
      ghost var kills := 0;
      ghost var ks := Stage(w1, n);
      e := e0;
      next := n;
      var j := 0;
      assert bullets[..0] + bullets[0..] == bullets;
      while j < |bullets|
        invariant e == e0.(hp := e0.hp - hits)
        invariant SweepFrom(bullets, j, e0).kept == sw.kept && hits + SweepFrom(bullets, j, e0).hits == sw.hits
        invariant kills == Kills(e0.hp, hits) && (kills == 0 || e.hp <= 0)
        invariant ks == KillEffects(w1, e0, kills, n, rand)
        invariant score == ks.w.score && particles == ks.w.particles && items == ks.w.items && next == ks.next
        invariant enemies == Pool(s0, i, e, kills)
        decreases |bullets| - j
      {
        e, next, hits, kills, ks := Strike(i, j, e, rand, next, e0, s0, w1, n, sw, hits, kills, ks);
        j := j + 1;
      }
      assert bullets[..|bullets|] + bullets[|bullets|..] == bullets;
      assert Sweep([], e0) == SweepResult([], 0);
      assert hits == sw.hits && kills == Kills(e0.hp, sw.hits);
      KillEffectsFrame(w1, e0, kills, n, rand);
      assert Snapshot().(enemies := []) == ks.w;
    }

    /** The last test of a visit: an enemy below the canvas is spliced from
        index `i`, where it still sits when no kill spliced it, and where
        its successor sits otherwise. */
    method Sink(i: nat, e: Enemy, ghost s0: seq<Enemy>, ghost k: nat)
      requires i < |s0| && enemies == Pool(s0, i, e, k)
      modifies this`enemies
      ensures Snapshot().(enemies := []) == old(Snapshot()).(enemies := [])
      ensures var r := k + (if e.y > height then 1 else 0);
        enemies == if r == 0 then s0[i := e] else Cut(s0, i, r)
    {
      if e.y > height {
        if k == 0 {
          SpliceAfterWrite(s0, i, e);
        } else {
          SpliceCut(s0, i, k);
        }
        enemies := Splice(enemies, i);
      }
    }

    /** The contact branch of a visit: the enemy `s0[i]`, moved to `e` and
        written back at index `i`, touches the player: damage, splice, and an
        orange burst drawn from position `n`. */
    method Ram(i: nat, e: Enemy, rand: nat -> Draw, n: nat, ghost s0: seq<Enemy>) returns (next: nat)
      requires i < |s0| && enemies == s0[i := e]
      requires e == s0[i].(y := s0[i].y + s0[i].speed) && Touches(player.Snap(), e)
      modifies this`enemies, this`particles, this`active, this`bgmRunning, player
      ensures var v := VisitEnemy(s0[i], old(Snapshot()).(enemies := []), n, height, rand);
        && v.removed == 1
        && Snapshot().(enemies := []) == v.w
        && enemies == Cut(s0, i, 1)
        && next == v.next
    {
      ghost var w0 := Snapshot().(enemies := []);
      ghost var w1 := CircleWorld.TakeDamage(w0, ContactDamage(e.kind));
      assert VisitEnemy(s0[i], w0, n, height, rand)
        == Visit(1, e, w1.(particles := w1.particles + Burst(e.x, e.y, Orange, rand, n)), n + BurstDraws);
      TakeDamage(ContactDamage(e.kind));
      assert Snapshot().(enemies := []) == w1.(enemies := s0[i := e]).(enemies := []);
      enemies := Splice(enemies, i);
      next := CreateParticles(e.x, e.y, Orange, rand, n);
      SpliceAfterWrite(s0, i, e);
    }

    /** The other branch of a visit: the enemy `s0[i]`, moved to `e` and
        written back at index `i`, misses the player and meets the bullets. */
    method Pierce(i: nat, e: Enemy, rand: nat -> Draw, n: nat, ghost s0: seq<Enemy>) returns (next: nat)
      requires i < |s0| && enemies == s0[i := e]
      requires e == s0[i].(y := s0[i].y + s0[i].speed) && !Touches(player.Snap(), e)
      modifies this`enemies, this`bullets, this`score, this`particles, this`items
      ensures var v := VisitEnemy(s0[i], old(Snapshot()).(enemies := []), n, height, rand);
        Snapshot().(enemies := []) == v.w && next == v.next
      ensures var v := VisitEnemy(s0[i], old(Snapshot()).(enemies := []), n, height, rand);
        enemies == if v.removed == 0 then s0[i := v.e] else Cut(s0, i, v.removed)
    {
      ghost var w0 := Snapshot().(enemies := []);
      VisitMisses(s0[i], w0, n, height, rand);
      next := MeetBullets(i, e, rand, n, s0, VisitEnemy(s0[i], w0, n, height, rand));
    }

    /** The bullets against the enemy `e` written back at index `i` of `s0`,
        and the splice of an enemy below the canvas (again, when a kill
        already spliced it); `v` is the visit this makes. */
    method MeetBullets(i: nat, e: Enemy, rand: nat -> Draw, n: nat, ghost s0: seq<Enemy>, ghost v: Visit) returns (next: nat)
      requires i < |s0| && enemies == s0[i := e]
      requires var sw := Sweep(bullets, e);
        var s := KillEffects(Snapshot().(enemies := [], bullets := sw.kept), e, Kills(e.hp, sw.hits), n, rand);
        v == Visit(Kills(e.hp, sw.hits) + (if e.y > height then 1 else 0), e.(hp := e.hp - sw.hits), s.w, s.next)
      modifies this`enemies, this`bullets, this`score, this`particles, this`items
      ensures Snapshot().(enemies := []) == v.w && next == v.next
      ensures enemies == if v.removed == 0 then s0[i := v.e] else Cut(s0, i, v.removed)
    {
      ghost var sw := Sweep(bullets, e);
      ghost var k := Kills(e.hp, sw.hits);
      ghost var ks := KillEffects(Snapshot().(enemies := [], bullets := sw.kept), e, k, n, rand);
      var hit;
      hit, next := CheckBulletHits(i, e, rand, n, s0);
      assert Snapshot().(enemies := []) == ks.w == v.w;
      Sink(i, hit, s0, k);
    }

    /** One visit of the enemy pass of `update`, at index `i`, drawing from
        position `n` of the random stream. */
    method UpdateEnemy(i: nat, rand: nat -> Draw, n: nat) returns (next: nat)
      requires i < |enemies|
      modifies this`enemies, this`bullets, this`score, this`particles, this`items, this`active, this`bgmRunning, player
      ensures var v := VisitEnemy(old(enemies[i]), old(Snapshot()).(enemies := []), n, height, rand);
        && Snapshot().(enemies := []) == v.w
        && enemies == (if v.removed == 0 then old(enemies)[i := v.e] else Cut(old(enemies), i, v.removed))
        && next == v.next
    {
      ghost var s0 := enemies;
      var e := enemies[i];
      e := e.(y := e.y + e.speed);
      enemies := enemies[i := e];
      if Within(player.x - e.x, player.y - e.y, player.r + e.r) {
        next := Ram(i, e, rand, n, s0);
      } else {
        next := Pierce(i, e, rand, n, s0);
      }
    }

    /** The enemy pass of `update`. */
    method UpdateEnemies(rand: nat -> Draw, n: nat) returns (next: nat)
      modifies this`enemies, this`bullets, this`score, this`particles, this`items, this`active, this`bgmRunning, player
      ensures Stage(Snapshot(), next) == EnemyPhase(old(Snapshot()), n, height, rand)
    {
      ghost var goal := EnemiesForEach(enemies, Snapshot().(enemies := []), n, height, rand);
      next := n;
      var i := 0;
      while i < |enemies|
        invariant var m := Min(i, |enemies|);
          var t := EnemiesForEach(enemies[m..], Snapshot().(enemies := []), next, height, rand);
          enemies[..m] + t.enemies == goal.enemies && t.w == goal.w && t.next == goal.next
        decreases |enemies| - i
      {
        ghost var s := enemies;
        ghost var w := Snapshot().(enemies := []);
        ghost var v := VisitEnemy(s[i], w, next, height, rand);
        ghost var n0 := next;
        next := UpdateEnemy(i, rand, next);
        EnemyVisit(s, i, w, n0, height, rand, v, enemies);
        i := i + 1;
      }
    }

    /** The top of `update`: the timestamp, keyboard movement, the volley
        when the clock allows it, and the weapon countdown. */
    method BeginFrame(time: real, keys: Keys, now: nat)
      modifies this`lastTime, this`bullets, player
      ensures Snapshot() == Prepare(old(Snapshot()), FrameInput(time, keys, now, width, height))
    {
      var dt := time - lastTime;
      lastTime := time;
      SteerPlayer(keys);
      FireBullet(now);
      TickWeapon(dt);
    }

    /** The bottom of `update` and the hurt-flash countdown of `draw`. */
    method EndFrame()
      modifies this`items, this`particles, player
      ensures Snapshot() == Finish(old(Snapshot()), height)
    {
      UpdateItems();
      UpdateParticles();
      FadeHurt();
    }

    /** `update(time)`, with the keys held, the wall clock and the random
        stream as inputs.  It returns how many draws it used. */
    method Update(time: real, keys: Keys, now: nat, rand: nat -> Draw) returns (used: nat)
      modifies this`lastTime, this`enemySpawnTimer, this`enemies, this`bullets, this`score,
               this`particles, this`items, this`active, this`bgmRunning, player
      ensures Stage(Snapshot(), used) == Step(old(Snapshot()), FrameInput(time, keys, now, width, height), rand)
    {
      if !active {
        return 0;
      }
      ghost var w0 := Snapshot();
      BeginFrame(time, keys, now);
      ghost var w1 := Snapshot();
      used := SpawnEnemy(rand, 0);
      ghost var s2 := Stage(Snapshot(), used);
      UpdateBullets();
      ghost var w3 := Snapshot();
      assert w3 == BulletPhase(s2.w);
      used := UpdateEnemies(rand, used);
      ghost var s4 := Stage(Snapshot(), used);
      EndFrame();
      StepInPhases(w0, FrameInput(time, keys, now, width, height), rand, w1, s2, w3, s4, Snapshot());
    }
  }
}
