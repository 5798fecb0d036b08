/*
 * Entities, configuration and the per-entity rules of the circle-collision
 * variant of the shooter (Gemini3pro/script.js).
 *
 * Positions, speeds and timers are reals; hit points, score and frame
 * counters are integers.  Every `Math.random()` draw is a `Draw`, a real in
 * [0, 1), taken from a stream `rand: nat -> Draw` at an explicit position.
 */
module CircleWorld {
  import opened Splicing

  // ---------------------------------------------------------------------
  // Configuration: the CFG record and the literals of the script
  // ---------------------------------------------------------------------

  const PlayerSpeed: real := 5.0
  const MaxHp: int := 100
  const ShipDamage: int := 15
  const MeteorDamage: int := 10
  const DropRate: real := 0.3
  const WeaponDuration: real := 5000.0

  const PlayerRadius: real := 20.0
  const MaxWeaponLevel: int := 5
  const HealAmount: int := 25
  const HurtFrames: int := 10
  const BulletSpeed: real := 10.0
  const MuzzleOffset: real := 20.0
  const ItemFallSpeed: real := 2.0
  const PickupRadius: real := 15.0
  const BurstSize: nat := 8
  const BurstDraws: nat := 16
  const ParticleLife: int := 20
  const MinSpawnInterval: int := 20
  const BaseSpawnInterval: int := 60
  const ScorePerStep: int := 500
  const ShipPoints: int := 10
  const MeteorPoints: int := 20
  const FirePeriod: nat := 200
  const FireWindow: nat := 20


  datatype Option<T> = None | Some(value: T)

  datatype EnemyKind = Ship | Meteor
  datatype ItemKind = Heal | WeaponBoost
  datatype Color = Orange | White

  datatype Bullet = Bullet(x: real, y: real, vx: real, vy: real)
  datatype Enemy = Enemy(x: real, y: real, r: real, kind: EnemyKind, hp: int, speed: real)
  datatype Item = Item(x: real, y: real, kind: ItemKind)
  datatype Particle = Particle(x: real, y: real, vx: real, vy: real, life: int, color: Color)

  /** Held directions; `up` stands for 'w' or 'arrowup', and so on. */
  datatype Keys = Keys(up: bool, down: bool, left: bool, right: bool)

  /** The `player` record (its radius is the constant PlayerRadius). */
  datatype Pilot = Pilot(x: real, y: real, hp: int, weaponLevel: int, weaponTimer: real,
                         isHurt: bool, hurtTimer: int)

  /** The whole simulation state: the `state` record, the player and the four pools. */
  datatype World = World(active: bool, score: int, lastTime: real, spawnTimer: int, bgm: bool,
                         pilot: Pilot, bullets: seq<Bullet>, enemies: seq<Enemy>,
                         items: seq<Item>, particles: seq<Particle>)

  /** The invariants the rules keep: health at most the maximum (it may go
      negative, since damage is not clamped), weapon tier in 1..5, and
      non-negative counters and score. */
  predicate WellFormed(w: World)
  {
    && w.pilot.hp <= MaxHp
    && 1 <= w.pilot.weaponLevel <= MaxWeaponLevel
    && w.pilot.hurtTimer >= 0
    && w.spawnTimer >= 0
    && w.score >= 0
  }

  // ---------------------------------------------------------------------
  // Geometry
  // ---------------------------------------------------------------------

  /** `Math.hypot(dx, dy) < reach`, without square roots: the hypotenuse is
      never negative, so the test fails for a reach that is not positive. */
  predicate Within(dx: real, dy: real, reach: real)
  {
    reach > 0.0 && dx * dx + dy * dy < reach * reach
  }

  /** `Math.max(lo, Math.min(hi, v))`. */
  function Clamp(v: real, lo: real, hi: real): (r: real)
    ensures lo <= r
    ensures lo <= hi ==> r <= hi
    ensures lo <= v <= hi ==> r == v
    ensures v < lo ==> r == lo
    ensures lo <= hi < v ==> r == hi
  {
    var m := if hi < v then hi else v;
    if lo > m then lo else m
  }

  // ---------------------------------------------------------------------
  // Player movement and weapon timer
  // ---------------------------------------------------------------------

  /** Net displacement along one axis when `dec` and `inc` are held. */
  function Nudge(dec: bool, inc: bool): real
  {
    (if inc then PlayerSpeed else 0.0) - (if dec then PlayerSpeed else 0.0)
  }

  /** Keyboard movement followed by the clamp to the viewport: each axis
      moves by its net nudge, and a position pushed past an edge's margin is
      put back on that margin. */
  function MovePilot(p: Pilot, keys: Keys, width: real, height: real): (q: Pilot)
    ensures q == p.(x := q.x, y := q.y)
    ensures PlayerRadius <= q.x && PlayerRadius <= q.y
    ensures width >= 2.0 * PlayerRadius ==> q.x <= width - PlayerRadius
    ensures height >= 2.0 * PlayerRadius ==> q.y <= height - PlayerRadius
    ensures var x := p.x + Nudge(keys.left, keys.right);
      && (PlayerRadius <= x <= width - PlayerRadius ==> q.x == x)
      && (x < PlayerRadius ==> q.x == PlayerRadius)
      && (PlayerRadius <= width - PlayerRadius < x ==> q.x == width - PlayerRadius)
    ensures var y := p.y + Nudge(keys.up, keys.down);
      && (PlayerRadius <= y <= height - PlayerRadius ==> q.y == y)
      && (y < PlayerRadius ==> q.y == PlayerRadius)
      && (PlayerRadius <= height - PlayerRadius < y ==> q.y == height - PlayerRadius)
  {
    var y1 := if keys.up then p.y - PlayerSpeed else p.y;
    var y2 := if keys.down then y1 + PlayerSpeed else y1;
    var x1 := if keys.left then p.x - PlayerSpeed else p.x;
    var x2 := if keys.right then x1 + PlayerSpeed else x1;
    p.(x := Clamp(x2, PlayerRadius, width - PlayerRadius),
       y := Clamp(y2, PlayerRadius, height - PlayerRadius))
  }

  /** The boost countdown: only above tier 1 does the timer run, and the tier
      falls back to 1 exactly when the timer reaches zero or below. */
  function TickWeapon(p: Pilot, dt: real): (q: Pilot)
  {
    if p.weaponLevel > 1 then
      var t := p.weaponTimer - dt;
      if t <= 0.0 then p.(weaponTimer := t, weaponLevel := 1) else p.(weaponTimer := t)
    else p
  }

  /** The countdown touches only the tier and the timer; at tier 1 nothing
      changes; above it the timer loses the elapsed time, and the tier drops
      to 1 exactly when the timer is used up, otherwise it is kept. */
  lemma TickWeaponEffects(p: Pilot, dt: real)
    ensures var q := TickWeapon(p, dt);
      q == p.(weaponLevel := q.weaponLevel, weaponTimer := q.weaponTimer)
    ensures p.weaponLevel <= 1 ==> TickWeapon(p, dt) == p
    ensures var q := TickWeapon(p, dt);
      p.weaponLevel > 1 ==> q.weaponTimer == p.weaponTimer - dt
    ensures var q := TickWeapon(p, dt);
      p.weaponLevel > 1 ==> (q.weaponLevel == 1 <==> p.weaponTimer <= dt)
    ensures var q := TickWeapon(p, dt);
      p.weaponLevel > 1 && p.weaponTimer > dt ==> q.weaponLevel == p.weaponLevel
  {
  }

  /** The cosmetic hurt-flash countdown performed while drawing the player. */
  function Fade(p: Pilot): (q: Pilot)
  {
    if p.hurtTimer > 0 then p.(hurtTimer := p.hurtTimer - 1) else p
  }

  /** The flash countdown touches only its timer, which counts down by one
      per frame and stops at zero: a non-negative timer stays non-negative. */
  lemma FadeCountsDown(p: Pilot)
    ensures Fade(p) == p.(hurtTimer := Fade(p).hurtTimer)
    ensures p.hurtTimer > 0 ==> Fade(p).hurtTimer == p.hurtTimer - 1
    ensures p.hurtTimer <= 0 ==> Fade(p) == p
    ensures p.hurtTimer >= 0 ==> Fade(p).hurtTimer >= 0
  {
  }

  // ---------------------------------------------------------------------
  // Items and damage
  // ---------------------------------------------------------------------

  /** The effect of picking up an item. */
  function ApplyItem(p: Pilot, kind: ItemKind): (q: Pilot)
  {
    match kind
    case Heal =>
      var h := p.hp + HealAmount;
      p.(hp := if MaxHp < h then MaxHp else h)
    case WeaponBoost =>
      var l := p.weaponLevel + 1;
      p.(weaponLevel := if MaxWeaponLevel < l then MaxWeaponLevel else l, weaponTimer := WeaponDuration)
  }

  /** A heal adds 25 health up to the maximum of 100; a boost raises the
      tier by one up to 5 and restarts the full timer.  Picking up never
      breaks the health and tier bounds, and a heal never lowers health that
      is already within bounds. */
  lemma ApplyItemEffects(p: Pilot, kind: ItemKind)
    requires p.hp <= MaxHp && 1 <= p.weaponLevel <= MaxWeaponLevel
    ensures kind == Heal ==>
      ApplyItem(p, kind).hp == if p.hp + HealAmount <= MaxHp then p.hp + HealAmount else MaxHp
    ensures kind == WeaponBoost ==>
      ApplyItem(p, kind).weaponLevel == if p.weaponLevel < MaxWeaponLevel then p.weaponLevel + 1 else MaxWeaponLevel
    ensures kind == Heal ==> ApplyItem(p, kind) == p.(hp := ApplyItem(p, kind).hp)
    ensures kind == WeaponBoost ==>
      ApplyItem(p, kind) == p.(weaponLevel := ApplyItem(p, kind).weaponLevel, weaponTimer := WeaponDuration)
    ensures kind == WeaponBoost ==> ApplyItem(p, kind).weaponLevel >= p.weaponLevel
    ensures ApplyItem(p, kind).hp <= MaxHp
    ensures 1 <= ApplyItem(p, kind).weaponLevel <= MaxWeaponLevel
    ensures ApplyItem(p, kind).hp >= p.hp
    ensures ApplyItem(p, kind).x == p.x && ApplyItem(p, kind).y == p.y
  {
  }

  function ContactDamage(kind: EnemyKind): (d: int)
    ensures d > 0
  {
    if kind == Ship then ShipDamage else MeteorDamage
  }

  function Points(kind: EnemyKind): (pts: int)
    ensures pts > 0
  {
    if kind == Ship then ShipPoints else MeteorPoints
  }

  /** `takeDamage`: unclamped loss of health, the hurt flash, and the switch to
      game over (which also stops the background loop) once health is gone. */
  function TakeDamage(w: World, dmg: int): (v: World)
  {
    var p := w.pilot.(hp := w.pilot.hp - dmg, isHurt := true, hurtTimer := HurtFrames);
    if p.hp <= 0 then w.(pilot := p, active := false, bgm := false) else w.(pilot := p)
  }

  /** Damage touches only the player and the two flags: health drops by the
      full amount (no clamp at zero), the flash restarts, and the game and
      its background loop go on exactly while health stays above zero. */
  lemma TakeDamageEffects(w: World, dmg: int)
    ensures var v := TakeDamage(w, dmg);
      v == w.(pilot := v.pilot, active := v.active, bgm := v.bgm)
    ensures TakeDamage(w, dmg).pilot == w.pilot.(hp := w.pilot.hp - dmg, isHurt := true, hurtTimer := HurtFrames)
    ensures var v := TakeDamage(w, dmg);
      && (v.active <==> w.active && w.pilot.hp - dmg > 0)
      && (v.bgm <==> w.bgm && w.pilot.hp - dmg > 0)
  {
  }

  // ---------------------------------------------------------------------
  // Spawning
  // ---------------------------------------------------------------------

  /** Frames between two enemies: 60, one fewer per 500 points, never below 20. */
  function SpawnInterval(score: int): (r: int)
    ensures MinSpawnInterval <= r
    ensures score >= 0 ==> r <= BaseSpawnInterval
  {
    var v := BaseSpawnInterval - score / ScorePerStep;
    if MinSpawnInterval < v then v else MinSpawnInterval
  }

  /** A higher score never lengthens the interval. */
  lemma SpawnIntervalMonotone(s1: int, s2: int)
    requires s1 <= s2
    ensures SpawnInterval(s2) <= SpawnInterval(s1)
  {
    assert s1 / ScorePerStep <= s2 / ScorePerStep;
  }

  /** The enemy built from three draws: its kind, its column and its speed. */
  function NewEnemy(kindDraw: Draw, xDraw: Draw, speedDraw: Draw, score: int, width: real): (e: Enemy)
  {
    var ship := kindDraw > 0.4;
    var r := if ship then 20.0 else 25.0;
    Enemy(xDraw * (width - 2.0 * r) + r, -r, r, if ship then Ship else Meteor, if ship then 2 else 5,
          speedDraw * 2.0 + 2.0 + score as real / 5000.0)
  }

  /** Ships (60% of draws) are small and take two hits, meteors five; a new
      enemy starts just above the top edge, entirely within the width when
      the canvas is wide enough, and gets faster as the score grows. */
  lemma NewEnemyShape(kindDraw: Draw, xDraw: Draw, speedDraw: Draw, score: int, width: real)
    ensures var e := NewEnemy(kindDraw, xDraw, speedDraw, score, width);
      && e.kind == (if kindDraw > 0.4 then Ship else Meteor)
      && (e.kind == Ship ==> e.r == 20.0 && e.hp == 2)
      && (e.kind == Meteor ==> e.r == 25.0 && e.hp == 5)
      && e.y == -e.r
      && (width > 2.0 * e.r ==> e.r <= e.x < width - e.r)
      && 2.0 + score as real / 5000.0 <= e.speed < 4.0 + score as real / 5000.0
  {
    var e := NewEnemy(kindDraw, xDraw, speedDraw, score, width);
    var span := width - 2.0 * e.r;
    assert e.x == xDraw * span + e.r;
    if span > 0.0 {
      assert xDraw * span < span by {
        assert (1.0 - xDraw) * span > 0.0;
      }
      assert 0.0 <= xDraw * span;
    }
  }

  datatype Stage = Stage(w: World, next: nat)

  /** `spawnEnemy`: the counter is compared before it is incremented; at or
      past the interval one enemy is appended and the counter restarts at 0. */
  function Spawn(w: World, width: real, rand: nat -> Draw, n: nat): (s: Stage)
    ensures w.spawnTimer < SpawnInterval(w.score) ==>
      s == Stage(w.(spawnTimer := w.spawnTimer + 1), n)
    ensures w.spawnTimer >= SpawnInterval(w.score) ==>
      && s.w == w.(spawnTimer := 0, enemies := s.w.enemies)
      && s.w.enemies == w.enemies + [NewEnemy(rand(n), rand(n + 1), rand(n + 2), w.score, width)]
      && s.next == n + 3
    ensures 0 <= w.spawnTimer ==> 0 <= s.w.spawnTimer <= (if w.spawnTimer < SpawnInterval(w.score) then SpawnInterval(w.score) else 0)
  {
    if w.spawnTimer < SpawnInterval(w.score) then Stage(w.(spawnTimer := w.spawnTimer + 1), n)
    else
      var e := NewEnemy(rand(n), rand(n + 1), rand(n + 2), w.score, width);
      Stage(w.(spawnTimer := 0, enemies := w.enemies + [e]), n + 3)
  }

  // ---------------------------------------------------------------------
  // Firing
  // ---------------------------------------------------------------------

  /** Horizontal components of the direction table, tier by tier; any tier
      without an entry fires like tier 1. */
  function Pattern(level: int): (p: seq<real>)
    ensures |p| == if 1 <= level <= MaxWeaponLevel then level else 1
  {
    if level == 2 then [-0.2, 0.2]
    else if level == 3 then [-0.3, 0.0, 0.3]
    else if level == 4 then [-0.4, -0.15, 0.15, 0.4]
    else if level == 5 then [-0.5, -0.25, 0.0, 0.25, 0.5]
    else [0.0]
  }

  /** The bullet fired along direction `dx` (the vertical component is -1). */
  function Shot(dx: real, x: real, y: real): Bullet
  {
    Bullet(x, y - MuzzleOffset, dx * BulletSpeed, -1.0 * BulletSpeed)
  }

  function Fan(level: int, x: real, y: real): (bs: seq<Bullet>)
    ensures |bs| == |Pattern(level)|
  {
    var p := Pattern(level);
    seq(|p|, i requires 0 <= i < |p| => Shot(p[i], x, y))
  }

  function SumVx(bs: seq<Bullet>): real
  {
    if bs == [] then 0.0 else bs[0].vx + SumVx(bs[1..])
  }

  /** `fireBullet`: exactly `level` bullets for tiers 1..5 (one otherwise), all
      leaving the nose of the ship straight up at speed 10, in a fan whose
      horizontal speeds mirror each other and cancel out. */
  lemma FanIsSymmetric(level: int, x: real, y: real)
    ensures |Fan(level, x, y)| == if 1 <= level <= MaxWeaponLevel then level else 1
    ensures forall i :: 0 <= i < |Fan(level, x, y)| ==>
      var b := Fan(level, x, y)[i];
      b.x == x && b.y == y - MuzzleOffset && b.vy == -BulletSpeed
    ensures forall i :: 0 <= i < |Fan(level, x, y)| ==>
      Fan(level, x, y)[i].vx == -Fan(level, x, y)[|Fan(level, x, y)| - 1 - i].vx
    ensures SumVx(Fan(level, x, y)) == 0.0
  {
    var p := Pattern(level);
    var bs := Fan(level, x, y);
    assert forall i :: 0 <= i < |p| ==> p[i] == -p[|p| - 1 - i];
    assert forall i :: 0 <= i < |bs| ==> bs[i] == Shot(p[i], x, y);
    MirroredSumIsZero(bs);
  }

  lemma {:induction false} SumVxLast(bs: seq<Bullet>)
    requires bs != []
    ensures SumVx(bs) == SumVx(bs[..|bs| - 1]) + bs[|bs| - 1].vx
    decreases |bs|
  {
    if |bs| > 1 {
      SumVxLast(bs[1..]);
      assert bs[1..][..|bs| - 2] == bs[..|bs| - 1][1..];
    }
  }

  /** Horizontal speeds that mirror each other around the middle cancel out. */
  lemma {:induction false} MirroredSumIsZero(bs: seq<Bullet>)
    requires forall i :: 0 <= i < |bs| ==> bs[i].vx == -bs[|bs| - 1 - i].vx
    ensures SumVx(bs) == 0.0
    decreases |bs|
  {
    if |bs| == 1 {
      assert bs[0].vx == -bs[0].vx;
    } else if |bs| > 1 {
      var mid := bs[1..|bs| - 1];
      forall i | 0 <= i < |mid| ensures mid[i].vx == -mid[|mid| - 1 - i].vx {
        assert mid[i] == bs[i + 1] && mid[|mid| - 1 - i] == bs[|bs| - 2 - i];
      }
      MirroredSumIsZero(mid);
      SumVxLast(bs[1..]);
      assert bs[1..][..|bs| - 2] == mid;
    }
  }

  // ---------------------------------------------------------------------
  // Particles and item drops
  // ---------------------------------------------------------------------

  /** The particle made from two draws for its velocity. */
  function Spark(x: real, y: real, color: Color, u: Draw, v: Draw): Particle
  {
    Particle(x, y, (u - 0.5) * 5.0, (v - 0.5) * 5.0, ParticleLife, color)
  }

  /** `createParticles`: eight particles at one point, each taking two draws
      (horizontal, then vertical speed) from position `n` on. */
  function Burst(x: real, y: real, color: Color, rand: nat -> Draw, n: nat): (ps: seq<Particle>)
    ensures |ps| == BurstSize
  {
    seq(BurstSize, i requires 0 <= i < BurstSize => Spark(x, y, color, rand(n + 2 * i), rand(n + 2 * i + 1)))
  }

  /** Every particle of a burst starts at the burst's point with full life
      and the burst's colour, moving at under 2.5 pixels a frame on each axis. */
  lemma BurstShape(x: real, y: real, color: Color, rand: nat -> Draw, n: nat)
    ensures var ps := Burst(x, y, color, rand, n);
      forall i :: 0 <= i < |ps| ==>
        && ps[i].x == x && ps[i].y == y && ps[i].life == ParticleLife && ps[i].color == color
        && -2.5 <= ps[i].vx < 2.5 && -2.5 <= ps[i].vy < 2.5
  {
  }

  datatype Drop = Drop(item: Option<Item>, used: nat)

  /** `tryDropItem`: the first draw decides whether anything drops (at most
      0.3), the second which kind; ships lean to weapon boosts (below 0.8),
      meteors to heals (weapon only above 0.7). */
  function DropItem(x: real, y: real, kind: EnemyKind, rand: nat -> Draw, n: nat): (d: Drop)
    ensures d.item.Some? <==> rand(n) <= DropRate
    ensures d.used == if d.item.Some? then 2 else 1
    ensures d.item.Some? ==> d.item.value.x == x && d.item.value.y == y
    ensures d.item.Some? ==>
      (d.item.value.kind == WeaponBoost <==>
        (if kind == Ship then rand(n + 1) < 0.8 else rand(n + 1) > 0.7))
  {
    if rand(n) > DropRate then Drop(None, 1)
    else
      var weapon := if kind == Ship then rand(n + 1) < 0.8 else rand(n + 1) > 0.7;
      Drop(Some(Item(x, y, if weapon then WeaponBoost else Heal)), 2)
  }

  function DropList(d: Drop): seq<Item>
  {
    if d.item.Some? then [d.item.value] else []
  }
}
