/*
 * The per-frame pool passes of Gemini3pro/script.js.
 *
 * Each pass in the script is `pool.forEach((x, i) => { ...; pool.splice(i, 1) })`.
 * `forEach` visits index 0, 1, ... up to the length the pool had when the pass
 * began, and only while that index still holds an element.  A removal at the
 * visited index shifts the next element down into it, so the index that comes
 * next has already moved past that element: it is kept as it is, neither
 * advanced nor tested.  The functions below state that behaviour element by
 * element, from the front of the pool.
 */
module CirclePools {
  import opened CircleWorld
  import opened Splicing

  // ---------------------------------------------------------------------
  // A pass that advances each element and removes the ones that are gone
  // ---------------------------------------------------------------------

  /** The forward pass over `s`: `step` advances a visited element, which is
      then removed if `gone` holds of it, and the element after a removed one
      is skipped. */
  function ForEachCull<T>(s: seq<T>, step: T -> T, gone: T -> bool): (r: seq<T>)
    ensures |r| <= |s|
    decreases |s|
  {
    if s == [] then []
    else if gone(step(s[0])) then
      (if |s| == 1 then [] else [s[1]] + ForEachCull(s[2..], step, gone))
    else [step(s[0])] + ForEachCull(s[1..], step, gone)
  }

  /** What the pass evidently aims at: every element advanced, the gone ones
      dropped, nothing skipped. */
  function CullAll<T>(s: seq<T>, step: T -> T, gone: T -> bool): (r: seq<T>)
    ensures |r| <= |s|
    ensures forall x :: x in r ==> !gone(x)
    decreases |s|
  {
    if s == [] then []
    else (if gone(step(s[0])) then [] else [step(s[0])]) + CullAll(s[1..], step, gone)
  }

  /** When nothing leaves the pool, the forward pass advances every element
      and agrees with the intended pass. */
  lemma {:induction false} ForEachCullWhenNoneGone<T>(s: seq<T>, step: T -> T, gone: T -> bool)
    requires forall i :: 0 <= i < |s| ==> !gone(step(s[i]))
    ensures ForEachCull(s, step, gone) == CullAll(s, step, gone)
    ensures |ForEachCull(s, step, gone)| == |s|
    ensures forall i :: 0 <= i < |s| ==> ForEachCull(s, step, gone)[i] == step(s[i])
    decreases |s|
  {
    if s != [] {
      assert !gone(step(s[0]));
      ForEachCullWhenNoneGone(s[1..], step, gone);
      assert forall i :: 1 <= i < |s| ==> s[1..][i - 1] == s[i];
    }
  }

  /** The forward pass never removes more than the intended pass does. */
  lemma {:induction false} ForEachCullKeepsAtLeastCullAll<T>(s: seq<T>, step: T -> T, gone: T -> bool)
    ensures |CullAll(s, step, gone)| <= |ForEachCull(s, step, gone)|
    decreases |s|
  {
    if s != [] {
      if gone(step(s[0])) {
        if |s| > 1 {
          ForEachCullKeepsAtLeastCullAll(s[2..], step, gone);
          assert s[1..][1..] == s[2..];
          assert CullAll(s[1..], step, gone) ==
            (if gone(step(s[1])) then [] else [step(s[1])]) + CullAll(s[2..], step, gone);
        }
      } else {
        ForEachCullKeepsAtLeastCullAll(s[1..], step, gone);
      }
    }
  }

  /** The element after a removed one stays where it is, not advanced, even
      when advancing it would have removed it too. */
  lemma ForEachCullSkipsSuccessor<T>(s: seq<T>, step: T -> T, gone: T -> bool)
    requires |s| >= 2 && gone(step(s[0]))
    ensures ForEachCull(s, step, gone)[0] == s[1]
  {
  }

  /** When every element leaves, the forward pass still keeps every second
      one, unadvanced: half of the pool survives. */
  lemma {:induction false} ForEachCullAllGone<T>(s: seq<T>, step: T -> T, gone: T -> bool)
    requires forall i :: 0 <= i < |s| ==> gone(step(s[i]))
    ensures |ForEachCull(s, step, gone)| == |s| / 2
    ensures |CullAll(s, step, gone)| == 0
    decreases |s|
  {
    if s != [] {
      assert gone(step(s[0]));
      if |s| > 1 {
        ForEachCullAllGone(s[2..], step, gone);
        assert forall i :: 1 <= i < |s| ==> s[1..][i - 1] == s[i];
        ForEachCullAllGone(s[1..], step, gone);
      }
    }
  }

  // Bullets and particles use the pass with these steps.

  /** `b.x += b.vx; b.y += b.vy`. */
  function MoveBullet(b: Bullet): Bullet
  {
    b.(x := b.x + b.vx, y := b.y + b.vy)
  }

  /** A bullet leaves the pool once it is above the top edge. */
  predicate AboveTop(b: Bullet)
  {
    b.y < 0.0
  }

  /** `p.x += p.vx; p.y += p.vy; p.life--`. */
  function AgeParticle(p: Particle): Particle
  {
    p.(x := p.x + p.vx, y := p.y + p.vy, life := p.life - 1)
  }

  predicate Expired(p: Particle)
  {
    p.life <= 0
  }

  // ---------------------------------------------------------------------
  // Items: fall, pick up, fall off the bottom
  // ---------------------------------------------------------------------

  function Fall(it: Item): Item
  {
    it.(y := it.y + ItemFallSpeed)
  }

  /** The pickup test, `Math.hypot(...) < player.r + 15`. */
  predicate Collects(p: Pilot, it: Item)
  {
    Within(p.x - it.x, p.y - it.y, PlayerRadius + PickupRadius)
  }

  datatype Haul = Haul(items: seq<Item>, pilot: Pilot)

  /** The item pass: a visited item falls by 2, then is picked up (its effect
      applied to the player) or dropped when below the bottom edge; either
      removal skips the next item. */
  function ItemsForEach(s: seq<Item>, p: Pilot, height: real): (h: Haul)
    ensures |h.items| <= |s|
    decreases |s|
  {
    if s == [] then Haul([], p)
    else
      var it := Fall(s[0]);
      var picked := Collects(p, it);
      var q := if picked then ApplyItem(p, it.kind) else p;
      if picked || it.y > height then
        (if |s| == 1 then Haul([], q)
         else var t := ItemsForEach(s[2..], q, height); Haul([s[1]] + t.items, t.pilot))
      else
        var t := ItemsForEach(s[1..], p, height); Haul([it] + t.items, t.pilot)
  }

  /** Pickups touch only health, tier and boost timer; they keep health and
      tier within bounds and never lower health; and the tier only changes
      together with a restart of the boost timer. */
  lemma {:induction false} ItemsForEachEffects(s: seq<Item>, p: Pilot, height: real)
    ensures var h := ItemsForEach(s, p, height);
      h.pilot == p.(hp := h.pilot.hp, weaponLevel := h.pilot.weaponLevel, weaponTimer := h.pilot.weaponTimer)
    ensures var h := ItemsForEach(s, p, height);
      p.hp <= MaxHp && 1 <= p.weaponLevel <= MaxWeaponLevel ==>
        && p.hp <= h.pilot.hp <= MaxHp
        && 1 <= h.pilot.weaponLevel <= MaxWeaponLevel
    ensures var h := ItemsForEach(s, p, height);
      (h.pilot.weaponLevel == p.weaponLevel && h.pilot.weaponTimer == p.weaponTimer)
      || h.pilot.weaponTimer == WeaponDuration
    decreases |s|
  {
    if s != [] {
      var it := Fall(s[0]);
      var picked := Collects(p, it);
      var q := if picked then ApplyItem(p, it.kind) else p;
      if picked || it.y > height {
        if |s| > 1 {
          ItemsForEachEffects(s[2..], q, height);
        }
      } else {
        ItemsForEachEffects(s[1..], p, height);
      }
    }
  }

  // ---------------------------------------------------------------------
  // One enemy against the bullets
  // ---------------------------------------------------------------------

  /** `Math.hypot(b.x - e.x, b.y - e.y) < e.r`. */
  predicate Struck(b: Bullet, e: Enemy)
  {
    Within(b.x - e.x, b.y - e.y, e.r)
  }

  datatype SweepResult = SweepResult(kept: seq<Bullet>, hits: nat)

  /** The inner `bullets.forEach` for one enemy: every striking bullet that is
      visited is removed and counted as a hit, and the bullet after it is
      skipped.  Hits depend only on where the enemy is, not on its health. */
  function Sweep(bs: seq<Bullet>, e: Enemy): (r: SweepResult)
    ensures |r.kept| + r.hits == |bs|
    ensures 2 * r.hits <= |bs| + 1
    decreases |bs|
  {
    if bs == [] then SweepResult([], 0)
    else if Struck(bs[0], e) then
      if |bs| == 1 then SweepResult([], 1)
      else
        var t := Sweep(bs[2..], e);
        SweepResult([bs[1]] + t.kept, t.hits + 1)
    else
      var t := Sweep(bs[1..], e);
      SweepResult([bs[0]] + t.kept, t.hits)
  }

  /** The sweep only removes bullets: each kept bullet is one of the pool's,
      as often as it was there at most. */
  lemma {:induction false} SweepOnlyRemoves(bs: seq<Bullet>, e: Enemy)
    ensures multiset(Sweep(bs, e).kept) <= multiset(bs)
    decreases |bs|
  {
    if bs != [] {
      if Struck(bs[0], e) {
        if |bs| > 1 {
          var t := Sweep(bs[2..], e);
          SweepOnlyRemoves(bs[2..], e);
          assert Sweep(bs, e).kept == [bs[1]] + t.kept;
          assert bs == [bs[0]] + ([bs[1]] + bs[2..]);
          assert multiset(bs) == multiset([bs[0]]) + (multiset([bs[1]]) + multiset(bs[2..]));
        }
      } else {
        var t := Sweep(bs[1..], e);
        SweepOnlyRemoves(bs[1..], e);
        assert Sweep(bs, e).kept == [bs[0]] + t.kept;
        assert bs == [bs[0]] + bs[1..];
        assert multiset(bs) == multiset([bs[0]]) + multiset(bs[1..]);
      }
    }
  }

  /** Sweep looks only at position and radius. */
  lemma {:induction false} SweepIgnoresHealth(bs: seq<Bullet>, e: Enemy, hp: int)
    ensures Sweep(bs, e.(hp := hp)) == Sweep(bs, e)
    decreases |bs|
  {
    if |bs| > 1 {
      SweepIgnoresHealth(bs[1..], e, hp);
      SweepIgnoresHealth(bs[2..], e, hp);
    }
  }

  /** How many of `hits` successive hits leave an enemy of health `hp` at zero
      or below; each of them counts as a kill in the script.  That is every
      hit from the one that reaches zero onwards (the first one when the
      health is already at zero or below). */
  function Kills(hp: int, hits: nat): (k: nat)
    ensures k <= hits
  {
    if hits >= hp then hits - (if hp >= 1 then hp else 1) + 1 else 0
  }

  /** Hit by hit: one more hit is one more kill exactly when it leaves the
      enemy at zero or below. */
  lemma KillsStep(hp: int, hits: nat)
    ensures Kills(hp, 0) == 0
    ensures Kills(hp, hits + 1) == Kills(hp, hits) + (if hp - (hits + 1) <= 0 then 1 else 0)
  {
  }

  /** What one hit that leaves the enemy at zero or below does: score, a white
      burst at the enemy, then the drop attempt. */
  function KillEffect(w: World, e: Enemy, n: nat, rand: nat -> Draw): (s: Stage)
  {
    var d := DropItem(e.x, e.y, e.kind, rand, n + BurstDraws);
    Stage(w.(score := w.score + Points(e.kind),
             particles := w.particles + Burst(e.x, e.y, White, rand, n),
             items := w.items + DropList(d)),
          n + BurstDraws + d.used)
  }

  /** `k` kill effects in a row, drawing from position `n` on; the last one
      is applied last. */
  function KillEffects(w: World, e: Enemy, k: nat, n: nat, rand: nat -> Draw): (s: Stage)
  {
    if k == 0 then Stage(w, n)
    else
      var s := KillEffects(w, e, k - 1, n, rand);
      KillEffect(s.w, e, s.next, rand)
  }

  /** `k` kills change only the score and the particle and item pools. */
  lemma {:induction false} KillEffectsFrame(w: World, e: Enemy, k: nat, n: nat, rand: nat -> Draw)
    ensures var s := KillEffects(w, e, k, n, rand);
      s.w == w.(score := s.w.score, particles := s.w.particles, items := s.w.items)
  {
    if k > 0 {
      KillEffectsFrame(w, e, k - 1, n, rand);
    }
  }

  /** `k` kills only append to the particle and item pools. */
  lemma {:induction false} KillEffectsAppend(w: World, e: Enemy, k: nat, n: nat, rand: nat -> Draw)
    ensures var s := KillEffects(w, e, k, n, rand);
      |w.particles| <= |s.w.particles| && s.w.particles[..|w.particles|] == w.particles
    ensures var s := KillEffects(w, e, k, n, rand);
      |w.items| <= |s.w.items| && s.w.items[..|w.items|] == w.items
  {
    if k > 0 {
      KillEffectsAppend(w, e, k - 1, n, rand);
      var s := KillEffects(w, e, k - 1, n, rand);
      assert (s.w.particles + Burst(e.x, e.y, White, rand, s.next))[..|w.particles|] == s.w.particles[..|w.particles|];
      var d := DropItem(e.x, e.y, e.kind, rand, s.next + BurstDraws);
      assert (s.w.items + DropList(d))[..|w.items|] == s.w.items[..|w.items|];
    }
  }

  /** `k` kills score exactly `k` times the enemy's points, add eight
      particles each, drop at most one item each, and use 17 or 18 draws
      each. */
  lemma {:induction false} KillEffectsTotals(w: World, e: Enemy, k: nat, n: nat, rand: nat -> Draw)
    ensures KillEffects(w, e, k, n, rand).w.score == w.score + k * Points(e.kind)
    ensures |KillEffects(w, e, k, n, rand).w.particles| == |w.particles| + k * BurstSize
    ensures |KillEffects(w, e, k, n, rand).w.items| <= |w.items| + k
    ensures n + 17 * k <= KillEffects(w, e, k, n, rand).next <= n + 18 * k
  {
    if k > 0 {
      KillEffectsTotals(w, e, k - 1, n, rand);
    }
  }

  // ---------------------------------------------------------------------
  // The enemy pass
  // ---------------------------------------------------------------------

  /** `Math.hypot(player.x - e.x, player.y - e.y) < player.r + e.r`. */
  predicate Touches(p: Pilot, e: Enemy)
  {
    Within(p.x - e.x, p.y - e.y, PlayerRadius + e.r)
  }

  /** The outcome of visiting one enemy: how many `enemies.splice(i, 1)` calls
      it made, the enemy as it now is, and the rest of the world. */
  datatype Visit = Visit(removed: nat, e: Enemy, w: World, next: nat)

  /** One visit of the enemy pass.  The enemy descends; on contact with the
      player it rams, otherwise it passes through the bullets. */
  function VisitEnemy(e: Enemy, w: World, n: nat, height: real, rand: nat -> Draw): (v: Visit)
  {
    var e1 := e.(y := e.y + e.speed);
    if Touches(w.pilot, e1) then Rams(e1, w, n, rand) else Passes(e1, w, n, height, rand)
  }

  /** Contact: the enemy deals its damage, bursts and is removed (one splice). */
  function Rams(e: Enemy, w: World, n: nat, rand: nat -> Draw): (v: Visit)
  {
    var w1 := TakeDamage(w, ContactDamage(e.kind));
    Visit(1, e, w1.(particles := w1.particles + Burst(e.x, e.y, Orange, rand, n)), n + BurstDraws)
  }

  /** No contact: the enemy sweeps the bullets; every hit that leaves it at
      zero or below scores, bursts, tries a drop and splices index i once
      more; and being below the bottom edge splices index i once more still. */
  function Passes(e: Enemy, w: World, n: nat, height: real, rand: nat -> Draw): (v: Visit)
  {
    var sw := Sweep(w.bullets, e);
    var k := Kills(e.hp, sw.hits);
    var s := KillEffects(w.(bullets := sw.kept), e, k, n, rand);
    Visit(k + (if e.y > height then 1 else 0), e.(hp := e.hp - sw.hits), s.w, s.next)
  }

  /** A visit that does not touch the player is decided by the sweep alone. */
  lemma VisitMisses(e: Enemy, w: World, n: nat, height: real, rand: nat -> Draw)
    requires !Touches(w.pilot, e.(y := e.y + e.speed))
    ensures var e1 := e.(y := e.y + e.speed);
      var sw := Sweep(w.bullets, e1);
      var k := Kills(e1.hp, sw.hits);
      var s := KillEffects(w.(bullets := sw.kept), e1, k, n, rand);
      VisitEnemy(e, w, n, height, rand) == Visit(k + (if e1.y > height then 1 else 0), e1.(hp := e1.hp - sw.hits), s.w, s.next)
  {
  }

  /** Contact: the enemy is spliced exactly once, whatever its health, with
      its health untouched; the player loses the enemy's full contact damage
      and starts the hurt flash; the game and its background loop stop
      exactly when that leaves no health; eight orange particles burst at
      the enemy (16 draws); and no bullet is spent, no point scored and no
      item dropped. */
  lemma VisitRams(e: Enemy, w: World, n: nat, height: real, rand: nat -> Draw)
    requires Touches(w.pilot, e.(y := e.y + e.speed))
    ensures var v := VisitEnemy(e, w, n, height, rand);
      && v.removed == 1 && v.e == e.(y := e.y + e.speed)
      && v.w.pilot == w.pilot.(hp := w.pilot.hp - ContactDamage(e.kind), isHurt := true, hurtTimer := HurtFrames)
      && (v.w.active <==> w.active && v.w.pilot.hp > 0)
      && (v.w.bgm <==> w.bgm && v.w.pilot.hp > 0)
    ensures var v := VisitEnemy(e, w, n, height, rand);
      && v.w.bullets == w.bullets && v.w.enemies == w.enemies && v.w.items == w.items
      && v.w.score == w.score && v.w.lastTime == w.lastTime && v.w.spawnTimer == w.spawnTimer
    ensures var v := VisitEnemy(e, w, n, height, rand);
      && v.w.particles == w.particles + Burst(v.e.x, v.e.y, Orange, rand, n)
      && |v.w.particles| == |w.particles| + BurstSize
      && v.next == n + BurstDraws
  {
    TakeDamageEffects(w, ContactDamage(e.kind));
  }

  /** No contact: the player and the flags are untouched, the sweep decides
      the bullets kept and the hits, every kill pays the enemy's points, and
      the enemy is spliced once per kill and once more below the canvas. */
  lemma VisitSweeps(e: Enemy, w: World, n: nat, height: real, rand: nat -> Draw)
    requires !Touches(w.pilot, e.(y := e.y + e.speed))
    ensures var v := VisitEnemy(e, w, n, height, rand);
      && v.w.pilot == w.pilot && v.w.active == w.active && v.w.bgm == w.bgm
      && var sw := Sweep(w.bullets, e.(y := e.y + e.speed));
      && v.w.bullets == sw.kept
      && v.e.hp == e.hp - sw.hits
      && v.removed == Kills(e.hp, sw.hits) + (if v.e.y > height then 1 else 0)
      && v.w.score == w.score + Kills(e.hp, sw.hits) * Points(e.kind)
  {
    var e1 := e.(y := e.y + e.speed);
    var sw := Sweep(w.bullets, e1);
    var k := Kills(e1.hp, sw.hits);
    VisitMisses(e, w, n, height, rand);
    KillEffectsFrame(w.(bullets := sw.kept), e1, k, n, rand);
    KillEffectsTotals(w.(bullets := sw.kept), e1, k, n, rand);
  }

  /** What a visit changes: the enemy only moves and loses health, and of
      the world only the player's health and hurt state, the game flags, the
      score and the bullet, particle and item pools. */
  lemma VisitEnemyFrame(e: Enemy, w: World, n: nat, height: real, rand: nat -> Draw)
    ensures var v := VisitEnemy(e, w, n, height, rand);
      v.e == e.(y := e.y + e.speed, hp := v.e.hp)
    ensures var v := VisitEnemy(e, w, n, height, rand);
      v.w == w.(pilot := v.w.pilot, active := v.w.active, bgm := v.w.bgm, score := v.w.score,
                      bullets := v.w.bullets, particles := v.w.particles, items := v.w.items)
    ensures var v := VisitEnemy(e, w, n, height, rand);
      v.w.pilot == w.pilot || v.w.pilot == w.pilot.(hp := v.w.pilot.hp, isHurt := true, hurtTimer := HurtFrames)
  {
    if Touches(w.pilot, e.(y := e.y + e.speed)) {
      VisitRams(e, w, n, height, rand);
      TakeDamageEffects(w, ContactDamage(e.kind));
    } else {
      var e1 := e.(y := e.y + e.speed);
      var sw := Sweep(w.bullets, e1);
      VisitMisses(e, w, n, height, rand);
      KillEffectsFrame(w.(bullets := sw.kept), e1, Kills(e1.hp, sw.hits), n, rand);
    }
  }

  /** Health never rises, the score never drops, draws are only consumed,
      and the game and its background loop stop exactly when health drops
      to zero or below. */
  lemma VisitEnemyHealth(e: Enemy, w: World, n: nat, height: real, rand: nat -> Draw)
    ensures var v := VisitEnemy(e, w, n, height, rand);
      v.w.pilot.hp <= w.pilot.hp && v.w.score >= w.score && v.next >= n
    ensures var v := VisitEnemy(e, w, n, height, rand);
      v.w.active == (w.active && (v.w.pilot.hp > 0 || v.w.pilot.hp == w.pilot.hp))
    ensures var v := VisitEnemy(e, w, n, height, rand);
      v.w.bgm == (w.bgm && (v.w.pilot.hp > 0 || v.w.pilot.hp == w.pilot.hp))
  {
    if Touches(w.pilot, e.(y := e.y + e.speed)) {
      VisitRams(e, w, n, height, rand);
      TakeDamageEffects(w, ContactDamage(e.kind));
    } else {
      VisitSweeps(e, w, n, height, rand);
      VisitPools(e, w, n, height, rand);
    }
  }

  /** Particles and items are only appended to. */
  lemma VisitPools(e: Enemy, w: World, n: nat, height: real, rand: nat -> Draw)
    ensures var v := VisitEnemy(e, w, n, height, rand);
      |w.items| <= |v.w.items| && v.w.items[..|w.items|] == w.items
    ensures var v := VisitEnemy(e, w, n, height, rand);
      |w.particles| <= |v.w.particles| && v.w.particles[..|w.particles|] == w.particles
    ensures VisitEnemy(e, w, n, height, rand).next >= n
  {
    var e1 := e.(y := e.y + e.speed);
    if Touches(w.pilot, e1) {
      VisitRams(e, w, n, height, rand);
      var v := VisitEnemy(e, w, n, height, rand);
      assert v.w.particles[..|w.particles|] == w.particles;
    } else {
      var sw := Sweep(w.bullets, e1);
      var k := Kills(e1.hp, sw.hits);
      VisitMisses(e, w, n, height, rand);
      KillEffectsAppend(w.(bullets := sw.kept), e1, k, n, rand);
      KillEffectsTotals(w.(bullets := sw.kept), e1, k, n, rand);
    }
  }

  /** A visit only removes bullets, never adds or changes one. */
  lemma VisitOnlyRemovesBullets(e: Enemy, w: World, n: nat, height: real, rand: nat -> Draw)
    ensures multiset(VisitEnemy(e, w, n, height, rand).w.bullets) <= multiset(w.bullets)
  {
    var e1 := e.(y := e.y + e.speed);
    if !Touches(w.pilot, e1) {
      var sw := Sweep(w.bullets, e1);
      var s := KillEffects(w.(bullets := sw.kept), e1, Kills(e1.hp, sw.hits), n, rand);
      assert VisitEnemy(e, w, n, height, rand).w == s.w;
      KillEffectsFrame(w.(bullets := sw.kept), e1, Kills(e1.hp, sw.hits), n, rand);
      SweepOnlyRemoves(w.bullets, e1);
    } else {
      assert VisitEnemy(e, w, n, height, rand).w.bullets == TakeDamage(w, ContactDamage(e1.kind)).bullets;
    }
  }

  datatype Tally = Tally(enemies: seq<Enemy>, w: World, next: nat)

  /** The enemy pass.  All the splices of one visit happen at the visited
      index, so a visit that splices `r >= 1` times removes the enemy and the
      `r - 1` unvisited enemies after it; the enemy after those is skipped.
      The world's own enemy list is not used: the result carries the pool. */
  function EnemiesForEach(s: seq<Enemy>, w: World, n: nat, height: real, rand: nat -> Draw): (t: Tally)
    ensures |t.enemies| <= |s|
    decreases |s|
  {
    if s == [] then Tally([], w, n)
    else
      var v := VisitEnemy(s[0], w, n, height, rand);
      if v.removed == 0 then
        var t := EnemiesForEach(s[1..], v.w, v.next, height, rand);
        Tally([v.e] + t.enemies, t.w, t.next)
      else
        var after := s[if v.removed < |s| then v.removed else |s| ..];
        if after == [] then Tally([], v.w, v.next)
        else
          var t := EnemiesForEach(after[1..], v.w, v.next, height, rand);
          Tally([after[0]] + t.enemies, t.w, t.next)
  }

  /** What the enemy pass does to the world: only the player's health and
      hurt state, the game flags, the score and the bullet, particle and item
      pools change; health never rises, the score never drops, particles and
      items are only appended, and the game ends exactly when health drops to
      zero or below. */
  lemma {:induction false} EnemiesForEachEffects(s: seq<Enemy>, w: World, n: nat, height: real, rand: nat -> Draw)
    ensures var t := EnemiesForEach(s, w, n, height, rand);
      t.w == w.(pilot := t.w.pilot, active := t.w.active, bgm := t.w.bgm, score := t.w.score,
                      bullets := t.w.bullets, particles := t.w.particles, items := t.w.items)
    ensures var t := EnemiesForEach(s, w, n, height, rand);
      t.w.pilot == w.pilot.(hp := t.w.pilot.hp, isHurt := t.w.pilot.isHurt, hurtTimer := t.w.pilot.hurtTimer)
    ensures var t := EnemiesForEach(s, w, n, height, rand);
      t.w.pilot.hp <= w.pilot.hp
    ensures var t := EnemiesForEach(s, w, n, height, rand);
      t.w.pilot.hurtTimer == w.pilot.hurtTimer || t.w.pilot.hurtTimer == HurtFrames
    ensures var t := EnemiesForEach(s, w, n, height, rand);
      t.w.active == (w.active && (t.w.pilot.hp > 0 || t.w.pilot.hp == w.pilot.hp))
    ensures var t := EnemiesForEach(s, w, n, height, rand);
      t.w.bgm == (w.bgm && (t.w.pilot.hp > 0 || t.w.pilot.hp == w.pilot.hp))
    ensures var t := EnemiesForEach(s, w, n, height, rand);
      t.w.score >= w.score
    ensures var t := EnemiesForEach(s, w, n, height, rand);
      |w.items| <= |t.w.items| && t.w.items[..|w.items|] == w.items
    ensures var t := EnemiesForEach(s, w, n, height, rand);
      |w.particles| <= |t.w.particles| && t.w.particles[..|w.particles|] == w.particles
    ensures var t := EnemiesForEach(s, w, n, height, rand);
      t.next >= n
    decreases |s|
  {
    if s != [] {
      var v := VisitEnemy(s[0], w, n, height, rand);
      VisitEnemyFrame(s[0], w, n, height, rand);
      VisitEnemyHealth(s[0], w, n, height, rand);
      VisitPools(s[0], w, n, height, rand);
      if v.removed == 0 {
        EnemiesForEachEffects(s[1..], v.w, v.next, height, rand);
      } else {
        var after := s[if v.removed < |s| then v.removed else |s| ..];
        if after != [] {
          EnemiesForEachEffects(after[1..], v.w, v.next, height, rand);
        }
      }
    }
  }

  /** The enemy pass only removes bullets, never adds or changes one. */
  lemma {:induction false} EnemiesForEachOnlyRemovesBullets(s: seq<Enemy>, w: World, n: nat, height: real, rand: nat -> Draw)
    ensures multiset(EnemiesForEach(s, w, n, height, rand).w.bullets) <= multiset(w.bullets)
    decreases |s|
  {
    if s != [] {
      var v := VisitEnemy(s[0], w, n, height, rand);
      VisitOnlyRemovesBullets(s[0], w, n, height, rand);
      if v.removed == 0 {
        EnemiesForEachOnlyRemovesBullets(s[1..], v.w, v.next, height, rand);
      } else {
        var after := s[if v.removed < |s| then v.removed else |s| ..];
        if after != [] {
          EnemiesForEachOnlyRemovesBullets(after[1..], v.w, v.next, height, rand);
        }
      }
    }
  }

  // ---------------------------------------------------------------------
  // What the pass does not do
  // ---------------------------------------------------------------------

  /** Two bullets on top of a two-hit ship: the first hit removes its bullet,
      the second bullet is skipped, and the ship survives with one hit point. */
  lemma SecondBulletIsSkipped(b1: Bullet, b2: Bullet, e: Enemy)
    requires Struck(b1, e) && Struck(b2, e) && e.hp == 2
    ensures Sweep([b1, b2], e) == SweepResult([b2], 1)
    ensures Kills(e.hp, Sweep([b1, b2], e).hits) == 0
  {
    assert [b1, b2][2..] == [];
  }

  /** Five bullets on top of a two-hit ship that is not touching the player:
      the first, third and fifth hit it, and both the second and the third hit
      count as kills, so the ship is paid for twice and index i is spliced
      twice, which also removes the enemy behind it. */
  lemma ShipPaidTwice(bs: seq<Bullet>, e: Enemy, w: World, n: nat, height: real, rand: nat -> Draw)
    requires |bs| == 5 && w.bullets == bs
    requires e.kind == Ship && e.hp == 2
    requires !Touches(w.pilot, e.(y := e.y + e.speed))
    requires forall i :: 0 <= i < 5 ==> Struck(bs[i], e.(y := e.y + e.speed))
    ensures VisitEnemy(e, w, n, height, rand).w.score == w.score + 2 * ShipPoints
    ensures VisitEnemy(e, w, n, height, rand).removed >= 2
    ensures VisitEnemy(e, w, n, height, rand).w.bullets == [bs[1], bs[3]]
  {
    var e1 := e.(y := e.y + e.speed);
    assert bs[2..][2..] == bs[4..];
    assert bs[4..][1..] == [];
    assert Sweep(bs[4..], e1) == SweepResult([], 1);
    assert Sweep(bs[2..], e1) == SweepResult([bs[3]], 2);
    assert Sweep(bs, e1) == SweepResult([bs[1], bs[3]], 3);
    assert Kills(e.hp, 3) == 2;
    VisitSweeps(e, w, n, height, rand);
  }
}
