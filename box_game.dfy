/*
 * The game of script.js: its globals as the fields of a Game, the frame
 * callback `gameLoop` and `checkCollisions` as methods that change them in
 * place, and the start, pause, resume, restart and game-over transitions.
 * The two collision passes are specified by functions over the pools as
 * they stand before the pass.
 */
module BoxGame {
  import opened Splicing
  import opened BoxWorld

  // ---------------------------------------------------------------------
  // The bullet-enemy pass
  // ---------------------------------------------------------------------

  /** The enemy a bullet hits: scanning the pool from its end, the first
      whose box overlaps the bullet's, or -1 when there is none. */
  function LastHit(b: Bullet, es: seq<Enemy>): (j: int)
    reads b, es
    ensures -1 <= j < |es|
    ensures 0 <= j ==> Overlaps(b.Hitbox(), es[j].Hitbox())
    ensures forall k :: j < k < |es| ==> !Overlaps(b.Hitbox(), es[k].Hitbox())
    decreases |es|
  {
    if es == [] then -1
    else if Overlaps(b.Hitbox(), es[|es| - 1].Hitbox()) then |es| - 1
    else LastHit(b, es[..|es| - 1])
  }

  /** The scan's answer is the only index meeting `LastHit`'s contract. */
  lemma LastHitIs(b: Bullet, es: seq<Enemy>, j: int)
    requires -1 <= j < |es|
    requires 0 <= j ==> Overlaps(b.Hitbox(), es[j].Hitbox())
    requires forall k :: j < k < |es| ==> !Overlaps(b.Hitbox(), es[k].Hitbox())
    ensures LastHit(b, es) == j
  {
  }

  /** `ShootDown` at a bullet, by the enemy it hits. */
  lemma ShootDownStep(bs: seq<Bullet>, es: seq<Enemy>, i: int, score: int)
    requires 0 <= i < |bs|
    ensures var j := LastHit(bs[i], es);
      ShootDown(bs, es, i, score) ==
        if j < 0 then ShootDown(bs, es, i - 1, score)
        else if j == |es| - 1 then Shootout(Splice(bs, i), Splice(es, j), score, true)
        else ShootDown(Splice(bs, i), Splice(es, j), i - 1, score + Points(Splice(es, j)[j].kind))
  {
  }

  /** Where the bullet-enemy pass leaves the pools and the score, and whether
      it threw. */
  datatype Shootout = Shootout(bullets: seq<Bullet>, enemies: seq<Enemy>, score: int, crashed: bool)

  /** The bullet-enemy pass over the bullets at indices `i` down to 0.  A
      bullet that hits an enemy is spliced out with it, and the points are
      read from `enemies[j]` after the splice: the enemy that moved into the
      slot.  When the hit enemy was the last one, that slot is empty and
      reading its type throws, which ends the pass (`crashed`). */
  function ShootDown(bs: seq<Bullet>, es: seq<Enemy>, i: int, score: int): (r: Shootout)
    requires -1 <= i < |bs|
    reads bs, es
    decreases i + 1
  {
    if i < 0 then Shootout(bs, es, score, false)
    else
      var j := LastHit(bs[i], es);
      if j < 0 then ShootDown(bs, es, i - 1, score)
      else
        var rest := Splice(es, j);
        if j == |rest| then Shootout(Splice(bs, i), rest, score, true)
        else ShootDown(Splice(bs, i), rest, i - 1, score + Points(rest[j].kind))
  }

  /** Every hit removes one bullet and one enemy and pays 5 or 10 points,
      except the hit that throws, which pays nothing. */
  lemma {:induction false} ShootDownCounts(bs: seq<Bullet>, es: seq<Enemy>, i: int, score: int)
    requires -1 <= i < |bs|
    ensures var r := ShootDown(bs, es, i, score);
      |bs| - |r.bullets| == |es| - |r.enemies|
    ensures var r := ShootDown(bs, es, i, score);
      var hits := |bs| - |r.bullets|;
      score + 5 * (hits - (if r.crashed then 1 else 0)) <= r.score <= score + 10 * hits
    decreases i + 1
  {
    if 0 <= i {
      var j := LastHit(bs[i], es);
      if j < 0 {
        ShootDownCounts(bs, es, i - 1, score);
      } else if j < |es| - 1 {
        var rest := Splice(es, j);
        ShootDownCounts(Splice(bs, i), rest, i - 1, score + Points(rest[j].kind));
      }
    }
  }

  /** The pass only removes bullets and enemies. */
  lemma {:induction false} ShootDownSubsets(bs: seq<Bullet>, es: seq<Enemy>, i: int, score: int)
    requires -1 <= i < |bs|
    ensures var r := ShootDown(bs, es, i, score);
      (forall b :: b in r.bullets ==> b in bs) && (forall e :: e in r.enemies ==> e in es)
    decreases i + 1
  {
    if 0 <= i {
      var j := LastHit(bs[i], es);
      if j < 0 {
        ShootDownSubsets(bs, es, i - 1, score);
      } else if j < |es| - 1 {
        var rest := Splice(es, j);
        ShootDownSubsets(Splice(bs, i), rest, i - 1, score + Points(rest[j].kind));
      }
    }
  }

  /** The pass throws only on a hit, so a pass that threw removed a bullet. */
  lemma {:induction false} ShootDownCrash(bs: seq<Bullet>, es: seq<Enemy>, i: int, score: int)
    requires -1 <= i < |bs|
    ensures ShootDown(bs, es, i, score).crashed ==> |ShootDown(bs, es, i, score).bullets| < |bs|
    decreases i + 1
  {
    if 0 <= i {
      var j := LastHit(bs[i], es);
      if j < 0 {
        ShootDownCrash(bs, es, i - 1, score);
      } else if j < |es| - 1 {
        var rest := Splice(es, j);
        ShootDownCrash(Splice(bs, i), rest, i - 1, score + Points(rest[j].kind));
      }
    }
  }

  /** The pass keeps each bullet and each enemy in its pool once. */
  lemma {:induction false} ShootDownDistinct(bs: seq<Bullet>, es: seq<Enemy>, i: int, score: int)
    requires -1 <= i < |bs| && Distinct(bs) && Distinct(es)
    ensures Distinct(ShootDown(bs, es, i, score).bullets) && Distinct(ShootDown(bs, es, i, score).enemies)
    decreases i + 1
  {
    if 0 <= i {
      var j := LastHit(bs[i], es);
      if j < 0 {
        ShootDownDistinct(bs, es, i - 1, score);
      } else {
        SpliceDistinct(bs, i);
        SpliceDistinct(es, j);
        if j < |es| - 1 {
          var rest := Splice(es, j);
          ShootDownDistinct(Splice(bs, i), rest, i - 1, score + Points(rest[j].kind));
        }
      }
    }
  }

  /** The bullet `b` overlaps none of the enemies `es`. */
  predicate Apart(b: Bullet, es: seq<Enemy>)
    reads b, es
  {
    forall e :: e in es ==> !Overlaps(b.Hitbox(), e.Hitbox())
  }

  /** The bullets above index `i`, those a pass has already scanned, are
      apart from the enemies. */
  predicate Scanned(bs: seq<Bullet>, es: seq<Enemy>, i: int)
    reads bs, es
  {
    forall k :: i < k < |bs| ==> 0 <= k && Apart(bs[k], es)
  }

  /** A pass that did not throw left no bullet overlapping an enemy. */
  predicate Clean(r: Shootout)
    reads r.bullets, r.enemies
  {
    !r.crashed ==> forall b :: b in r.bullets ==> Apart(b, r.enemies)
  }

  /** When the pass completes, no remaining bullet overlaps a remaining
      enemy.  The bullets above index `i` are those already scanned, and are
      clear of the enemies. */
  lemma {:induction false} ShootDownClears(bs: seq<Bullet>, es: seq<Enemy>, i: int, score: int)
    requires -1 <= i < |bs| && Scanned(bs, es, i)
    ensures Clean(ShootDown(bs, es, i, score))
    decreases i + 1
  {
    if i < 0 {
      ScannedAll(bs, es);
    } else {
      var j := LastHit(bs[i], es);
      if j < 0 {
        MissApart(bs[i], es);
        ShootDownClears(bs, es, i - 1, score);
      } else if j < |es| - 1 {
        var rest := Splice(es, j);
        HitApart(bs, es, i, j);
        ShootDownClears(Splice(bs, i), rest, i - 1, score + Points(rest[j].kind));
      }
    }
  }

  /** Once every bullet is scanned, every bullet is apart from the enemies. */
  lemma ScannedAll(bs: seq<Bullet>, es: seq<Enemy>)
    requires Scanned(bs, es, -1)
    ensures forall b :: b in bs ==> Apart(b, es)
  {
    forall b | b in bs
      ensures Apart(b, es)
    {
      var k :| 0 <= k < |bs| && bs[k] == b;
    }
  }

  /** A bullet that hits no enemy is apart from all of them. */
  lemma MissApart(b: Bullet, es: seq<Enemy>)
    requires LastHit(b, es) < 0
    ensures Apart(b, es)
  {
    forall e | e in es
      ensures !Overlaps(b.Hitbox(), e.Hitbox())
    {
      var m :| 0 <= m < |es| && es[m] == e;
    }
  }

  /** Splicing out the bullet at `i` and an enemy keeps the bullets above
      `i` apart from the enemies. */
  lemma HitApart(bs: seq<Bullet>, es: seq<Enemy>, i: nat, j: nat)
    requires i < |bs| && j < |es| && Scanned(bs, es, i)
    ensures Scanned(Splice(bs, i), Splice(es, j), i - 1)
  {
    var left := Splice(bs, i);
    forall k | i - 1 < k < |left|
      ensures Apart(left[k], Splice(es, j))
    {
      assert left[k] == bs[k + 1] && Apart(bs[k + 1], es);
    }
  }

  // ---------------------------------------------------------------------
  // The player-enemy pass
  // ---------------------------------------------------------------------

  /** Where the player-enemy pass leaves the enemies, the lives and the
      running flag. */
  datatype Impact = Impact(enemies: seq<Enemy>, lives: int, running: bool)

  /** The player-enemy pass over the enemies at indices `i` down to 0: each
      enemy whose box overlaps the player's `p` is spliced out and costs a
      life, and the game is over as soon as a loss leaves no life. */
  function Rammed(es: seq<Enemy>, i: int, p: Box, lives: int, running: bool): (r: Impact)
    requires -1 <= i < |es|
    reads es
    decreases i + 1
  {
    if i < 0 then Impact(es, lives, running)
    else if Overlaps(p, es[i].Hitbox()) then Rammed(Splice(es, i), i - 1, p, lives - 1, running && lives - 1 > 0)
    else Rammed(es, i - 1, p, lives, running)
  }

  /** The enemies clear of the box `p`, in pool order. */
  function Clear(es: seq<Enemy>, p: Box): (r: seq<Enemy>)
    reads es
  {
    if es == [] then []
    else Clear(es[..|es| - 1], p) + (if Overlaps(p, es[|es| - 1].Hitbox()) then [] else [es[|es| - 1]])
  }

  /** `Clear` keeps exactly the enemies clear of `p`, each once. */
  lemma {:induction false} ClearIsFilter(es: seq<Enemy>, p: Box)
    ensures forall e :: e in Clear(es, p) <==> e in es && !Overlaps(p, e.Hitbox())
    ensures |Clear(es, p)| <= |es|
    ensures Distinct(es) ==> Distinct(Clear(es, p))
  {
    if es != [] {
      var front := es[..|es| - 1];
      ClearIsFilter(front, p);
      assert es == front + [es[|es| - 1]];
      if Distinct(es) {
        assert Distinct(front);
        assert es[|es| - 1] !in front;
      }
    }
  }

  /** The pass leaves exactly the enemies clear of the player, in order:
      those at indices up to `i` filtered, the rest untouched. */
  lemma {:induction false} RammedClears(es: seq<Enemy>, i: int, p: Box, lives: int, running: bool)
    requires -1 <= i < |es|
    ensures Rammed(es, i, p, lives, running).enemies == Clear(es[..i + 1], p) + es[i + 1..]
    decreases i + 1
  {
    if i < 0 {
      assert es[..0] == [] && es[0..] == es;
    } else {
      ClearStep(es, i, p);
      if Overlaps(p, es[i].Hitbox()) {
        SpliceHalves(es, i);
        RammedClears(Splice(es, i), i - 1, p, lives - 1, running && lives - 1 > 0);
      } else {
        RammedClears(es, i - 1, p, lives, running);
      }
    }
  }

  /** `Clear` of a prefix one longer, followed by the rest of the pool. */
  lemma ClearStep(es: seq<Enemy>, i: nat, p: Box)
    requires i < |es|
    ensures Overlaps(p, es[i].Hitbox()) ==> Clear(es[..i + 1], p) == Clear(es[..i], p)
    ensures !Overlaps(p, es[i].Hitbox()) ==> Clear(es[..i + 1], p) + es[i + 1..] == Clear(es[..i], p) + es[i..]
  {
    assert es[..i + 1][..i] == es[..i];
    assert es[i..] == [es[i]] + es[i + 1..];
  }

  /** What is left on either side of a splice. */
  lemma SpliceHalves<T>(s: seq<T>, i: nat)
    requires i < |s|
    ensures Splice(s, i)[..i] == s[..i] && Splice(s, i)[i..] == s[i + 1..]
  {
  }

  /** The pass takes one life per enemy it removes, and stops the game
      exactly when it removed one and the lives ran out. */
  lemma {:induction false} RammedLives(es: seq<Enemy>, i: int, p: Box, lives: int, running: bool)
    requires -1 <= i < |es|
    ensures var r := Rammed(es, i, p, lives, running);
      |r.enemies| <= |es| && r.lives == lives - (|es| - |r.enemies|)
    ensures var r := Rammed(es, i, p, lives, running);
      r.running <==> running && (r.lives == lives || r.lives > 0)
    decreases i + 1
  {
    if 0 <= i {
      if Overlaps(p, es[i].Hitbox()) {
        RammedLives(Splice(es, i), i - 1, p, lives - 1, running && lives - 1 > 0);
      } else {
        RammedLives(es, i - 1, p, lives, running);
      }
    }
  }

  /** What the bullet-enemy pass leaves: members of the pools it was given,
      each once, and no fewer points. */
  lemma ShootDownSettles(bs: seq<Bullet>, es: seq<Enemy>, score: int)
    requires Distinct(bs) && Distinct(es)
    ensures var v := ShootDown(bs, es, |bs| - 1, score);
      Distinct(v.bullets) && Distinct(v.enemies) && score <= v.score &&
      (forall b :: b in v.bullets ==> b in bs) && (forall e :: e in v.enemies ==> e in es)
    ensures var v := ShootDown(bs, es, |bs| - 1, score);
      !v.crashed ==> forall b, e :: b in v.bullets && e in v.enemies ==> !Overlaps(b.Hitbox(), e.Hitbox())
  {
    ShootDownCounts(bs, es, |bs| - 1, score);
    ShootDownSubsets(bs, es, |bs| - 1, score);
    ShootDownCrash(bs, es, |bs| - 1, score);
    ShootDownDistinct(bs, es, |bs| - 1, score);
    ShootDownClears(bs, es, |bs| - 1, score);
  }

  /** What the player-enemy pass leaves: the enemies it was given that are
      clear of the player, each once, no more lives, and a game that runs
      only with lives left if it ran with lives left. */
  lemma RammedSettles(es: seq<Enemy>, p: Box, lives: int, running: bool)
    requires Distinct(es)
    ensures var r := Rammed(es, |es| - 1, p, lives, running);
      Distinct(r.enemies) && (forall e :: e in r.enemies <==> e in es && !Overlaps(p, e.Hitbox()))
    ensures var r := Rammed(es, |es| - 1, p, lives, running);
      r.lives <= lives && (r.running ==> running) && (r.running && 0 < lives ==> 0 < r.lives)
  {
    RammedClears(es, |es| - 1, p, lives, running);
    assert es[..|es|] == es && es[|es|..] == [];
    ClearIsFilter(es, p);
    RammedLives(es, |es| - 1, p, lives, running);
  }

  // ---------------------------------------------------------------------
  // The game
  // ---------------------------------------------------------------------

  class Game {
    /** `canvas.width` and `canvas.height`. */
    const width: real
    const height: real
    var player: Player
    var bullets: seq<Bullet>
    var enemies: seq<Enemy>
    var score: int
    var lives: int
    var running: bool
    var paused: bool
    var lastTime: real
    var enemySpawnTimer: real
    var bulletSpawnTimer: real
    /** A frame callback is pending (`requestAnimationFrame(gameLoop)`). */
    var frameRequested: bool

    /** Each bullet and each enemy is in its pool once, the score is never
        negative, and a running game has lives left. */
    predicate Valid()
      reads this`bullets, this`enemies, this`score, this`lives, this`running
    {
      Distinct(bullets) && Distinct(enemies) && 0 <= score && (running ==> 0 < lives)
    }

    /** `init`: the player is placed and the first frame is requested; the
        game itself waits for the start button. */
    constructor(cw: real, ch: real)
      ensures Valid() && width == cw && height == ch && fresh(player)
      ensures player.x == cw / 2.0 - PlayerWidth / 2.0 && player.y == ch - PlayerHeight - PlayerLift
      ensures bullets == [] && enemies == [] && score == 0 && lives == StartLives
      ensures !running && !paused && lastTime == 0.0 && enemySpawnTimer == 0.0 && bulletSpawnTimer == 0.0
      ensures frameRequested
    {
      width, height := cw, ch;
      player := new Player(cw, ch);
      bullets, enemies := [], [];
      score, lives := 0, StartLives;
      running, paused := false, false;
      lastTime, enemySpawnTimer, bulletSpawnTimer := 0.0, 0.0, 0.0;
      frameRequested := true;
    }

    /** `startGame`: a fresh round with the same player object. */
    method StartGame()
      modifies this`running, this`paused, this`score, this`lives, this`bullets, this`enemies
      ensures running && !paused && score == 0 && lives == StartLives && bullets == [] && enemies == []
      ensures Valid()
    {
      running := true;
      paused := false;
      score := 0;
      lives := StartLives;
      bullets := [];
      enemies := [];
    }

    method PauseGame()
      modifies this`paused
      ensures paused
    {
      paused := true;
    }

    method ResumeGame()
      modifies this`paused
      ensures !paused
    {
      paused := false;
    }

    /** `restartGame`: as `startGame`, and a new player back at the start. */
    method RestartGame()
      modifies this`running, this`paused, this`score, this`lives, this`bullets, this`enemies, this`player
      ensures running && !paused && score == 0 && lives == StartLives && bullets == [] && enemies == []
      ensures fresh(player) && player.x == width / 2.0 - PlayerWidth / 2.0 && player.y == height - PlayerHeight - PlayerLift
      ensures Valid()
    {
      running := true;
      paused := false;
      score := 0;
      lives := StartLives;
      bullets := [];
      enemies := [];
      player := new Player(width, height);
    }

    method GameOver()
      modifies this`running
      ensures !running
    {
      running := false;
    }

    /** Auto-fire: a bullet from the middle of the player's nose once more
        than 200 milliseconds have passed since the last one. */
    method Fire(timestamp: real)
      modifies this`bullets, this`bulletSpawnTimer
      ensures timestamp - old(bulletSpawnTimer) > FireGap ==>
          |bullets| == |old(bullets)| + 1 && bullets[..|old(bullets)|] == old(bullets) && fresh(bullets[|old(bullets)|]) &&
          bullets[|old(bullets)|].x == player.x + PlayerWidth / 2.0 - 2.0 && bullets[|old(bullets)|].y == player.y &&
          bulletSpawnTimer == timestamp
      ensures timestamp - old(bulletSpawnTimer) <= FireGap ==> bullets == old(bullets) && bulletSpawnTimer == old(bulletSpawnTimer)
      ensures Distinct(old(bullets)) ==> Distinct(bullets)
    {
      if timestamp - bulletSpawnTimer > FireGap {
        var b := new Bullet(player.x + player.width / 2.0 - 2.0, player.y);
        bullets := bullets + [b];
        bulletSpawnTimer := timestamp;
      }
    }

    /** The splice of one turn of the bullet loop, at index `i` of the pool
        `pool`: up to `i` it is as it was (`bs`), after it are the survivors
        of the turns taken, and `onScreen` is what the bullet at `i`
        answered. */
    static method CullBullet(pool: seq<Bullet>, i: int, onScreen: bool, ghost bs: seq<Bullet>) returns (kept: seq<Bullet>)
      requires 0 <= i < |bs| && (onScreen <==> bs[i].y > -BulletHeight)
      requires pool == bs[..i + 1] + Above(bs[i + 1..])
      ensures kept == bs[..i] + Above(bs[i..])
    {
      AboveStep(bs, i);
      kept := pool;
      if onScreen {
        PrefixJoin(bs, Above(bs[i + 1..]), i);
      } else {
        SpliceJoin(bs, Above(bs[i + 1..]), i);
        kept := Splice(kept, i);
      }
    }

    /** The splice of one turn of the enemy loop. */
    method CullEnemy(i: int, onScreen: bool, ghost es: seq<Enemy>)
      requires 0 <= i < |es| && (onScreen <==> es[i].y < height)
      requires enemies == es[..i + 1] + Below(es[i + 1..], height)
      modifies this`enemies
      ensures enemies == es[..i] + Below(es[i..], height)
    {
      BelowStep(es, i, height);
      if onScreen {
        PrefixJoin(es, Below(es[i + 1..], height), i);
      } else {
        SpliceJoin(es, Below(es[i + 1..], height), i);
        enemies := Splice(enemies, i);
      }
    }

    /** `bs[i].update()`, which leaves the other bullets of `bs` where they
        were. */
    static method Advance(b: Bullet, ghost bs: seq<Bullet>, ghost i: int) returns (onScreen: bool)
      requires 0 <= i < |bs| && b == bs[i] && b !in bs[i + 1..]
      requires forall k :: 0 <= k < |bs| && k != i ==> bs[k] != b
      modifies b
      ensures b.y == old(b.y) - BulletSpeed && (onScreen <==> b.y > -BulletHeight)
      ensures forall k :: 0 <= k < |bs| && k != i ==> bs[k].y == old(bs[k].y)
      ensures Above(bs[i + 1..]) == old(Above(bs[i + 1..]))
    {
      onScreen := b.Update();
    }

    /** `es[i].update()`, which leaves the other enemies of `es` where they
        were. */
    method Descend(e: Enemy, ghost es: seq<Enemy>, ghost i: int) returns (onScreen: bool)
      requires 0 <= i < |es| && e == es[i] && e !in es[i + 1..]
      requires forall k :: 0 <= k < |es| && k != i ==> es[k] != e
      modifies e
      ensures e.y == old(e.y) + e.speed && (onScreen <==> e.y < height)
      ensures forall k :: 0 <= k < |es| && k != i ==> es[k].y == old(es[k].y)
      ensures Below(es[i + 1..], height) == old(Below(es[i + 1..], height))
    {
      onScreen := e.Update(height);
    }

    /** The bullet loop, from the end of the pool: each bullet moves once and
        is spliced out when it has left through the top. */
    method MoveBullets()
      requires Distinct(bullets)
      modifies this`bullets, bullets
      ensures forall k :: 0 <= k < |old(bullets)| ==> old(bullets)[k].y == old(bullets[k].y) - BulletSpeed
      ensures bullets == Above(old(bullets))
    {
      ghost var bs := bullets;
      BulletLoop(bs, seq(|bs|, k requires 0 <= k < |bs| reads bs => bs[k].y));
    }

    /** The bullet loop over the pool `bs`, whose bullets start at the
        heights `ys`. */
    method BulletLoop(ghost bs: seq<Bullet>, ghost ys: seq<real>)
      requires bullets == bs && Distinct(bs)
      requires ys == seq(|bs|, k requires 0 <= k < |bs| reads bs => bs[k].y)
      modifies this`bullets, bs
      ensures forall k :: 0 <= k < |bs| ==> bs[k].y == ys[k] - BulletSpeed
      ensures bullets == Above(bs)
    {
      var i := |bullets| - 1;
      while i >= 0
        invariant -1 <= i < |bs|
        invariant bullets == bs[..i + 1] + Above(bs[i + 1..])
        invariant forall k :: 0 <= k <= i ==> bs[k].y == ys[k]
        invariant forall k :: i < k < |bs| ==> bs[k].y == ys[k] - BulletSpeed
      {
        DistinctAt(bs, i);
        TurnBullet(i, bs, ys);
        i := i - 1;
      }
      assert bs[..0] == [] && bs[0..] == bs;
    }

    /** One turn of the bullet loop, at index `i`: up to `i` the bullets of
        the original pool `bs` are where they were (`ys`), after it they have
        moved and the pool holds the survivors. */
    method TurnBullet(i: int, ghost bs: seq<Bullet>, ghost ys: seq<real>)
      requires 0 <= i < |bs| == |ys|
      requires forall k :: 0 <= k < |bs| && k != i ==> bs[k] != bs[i]
      requires bullets == bs[..i + 1] + Above(bs[i + 1..])
      requires forall k :: 0 <= k <= i ==> bs[k].y == ys[k]
      requires forall k :: i < k < |bs| ==> bs[k].y == ys[k] - BulletSpeed
      modifies this`bullets, bs[i]
      ensures bullets == bs[..i] + Above(bs[i..])
      ensures forall k :: 0 <= k < i ==> bs[k].y == ys[k]
      ensures forall k :: i <= k < |bs| ==> bs[k].y == ys[k] - BulletSpeed
    {
      var onScreen := Advance(bullets[i], bs, i);
      bullets := CullBullet(bullets, i, onScreen, bs);
    }

    /** The spawn: an enemy of a drawn kind at a drawn place, once more than
        1000 milliseconds have passed since the last one. */
    method SpawnEnemy(timestamp: real, kindDraw: Draw, xDraw: Draw)
      modifies this`enemies, this`enemySpawnTimer
      ensures timestamp - old(enemySpawnTimer) > SpawnGap ==>
          |enemies| == |old(enemies)| + 1 && enemies[..|old(enemies)|] == old(enemies) && fresh(enemies[|old(enemies)|]) &&
          enemies[|old(enemies)|].kind == KindOf(kindDraw) &&
          enemies[|old(enemies)|].x == SpawnX(xDraw, width - EnemyWidth(KindOf(kindDraw))) &&
          enemies[|old(enemies)|].y == -EnemyHeight(KindOf(kindDraw)) &&
          enemies[|old(enemies)|].speed == EnemySpeed(KindOf(kindDraw)) &&
          enemySpawnTimer == timestamp
      ensures timestamp - old(enemySpawnTimer) <= SpawnGap ==> enemies == old(enemies) && enemySpawnTimer == old(enemySpawnTimer)
      ensures Distinct(old(enemies)) ==> Distinct(enemies)
    {
      if timestamp - enemySpawnTimer > SpawnGap {
        var e := new Enemy(KindOf(kindDraw), xDraw, width);
        enemies := enemies + [e];
        enemySpawnTimer := timestamp;
      }
    }

    /** The enemy loop, from the end of the pool: each enemy moves once and
        is spliced out when it has left through the bottom. */
    method MoveEnemies()
      requires Distinct(enemies)
      modifies this`enemies, enemies
      ensures forall k :: 0 <= k < |old(enemies)| ==> old(enemies)[k].y == old(enemies[k].y) + old(enemies)[k].speed
      ensures enemies == Below(old(enemies), height)
    {
      ghost var es := enemies;
      EnemyLoop(es, seq(|es|, k requires 0 <= k < |es| reads es => es[k].y));
    }

    /** The enemy loop over the pool `es`, whose enemies start at the
        heights `ys`. */
    method EnemyLoop(ghost es: seq<Enemy>, ghost ys: seq<real>)
      requires enemies == es && Distinct(es)
      requires ys == seq(|es|, k requires 0 <= k < |es| reads es => es[k].y)
      modifies this`enemies, es
      ensures forall k :: 0 <= k < |es| ==> es[k].y == ys[k] + es[k].speed
      ensures enemies == Below(es, height)
    {
      var i := |enemies| - 1;
      while i >= 0
        invariant -1 <= i < |es|
        invariant enemies == es[..i + 1] + Below(es[i + 1..], height)
        invariant forall k :: 0 <= k <= i ==> es[k].y == ys[k]
        invariant forall k :: i < k < |es| ==> es[k].y == ys[k] + es[k].speed
      {
        DistinctAt(es, i);
        TurnEnemy(i, es, ys);
        i := i - 1;
      }
      assert es[..0] == [] && es[0..] == es;
    }

    /** One turn of the enemy loop, at index `i`: up to `i` the enemies of
        the original pool `es` are where they were (`ys`), after it they have
        moved and the pool holds the survivors. */
    method TurnEnemy(i: int, ghost es: seq<Enemy>, ghost ys: seq<real>)
      requires 0 <= i < |es| == |ys|
      requires forall k :: 0 <= k < |es| && k != i ==> es[k] != es[i]
      requires enemies == es[..i + 1] + Below(es[i + 1..], height)
      requires forall k :: 0 <= k <= i ==> es[k].y == ys[k]
      requires forall k :: i < k < |es| ==> es[k].y == ys[k] + es[k].speed
      modifies this`enemies, es[i]
      ensures enemies == es[..i] + Below(es[i..], height)
      ensures forall k :: 0 <= k < i ==> es[k].y == ys[k]
      ensures forall k :: i <= k < |es| ==> es[k].y == ys[k] + es[k].speed
    {
      var onScreen := Descend(enemies[i], es, i);
      CullEnemy(i, onScreen, es);
    }

    /** The first half of `checkCollisions`, on the pools and the score as
        they stand; the answer says whether it threw. */
    static method ShootEnemies(bs0: seq<Bullet>, es0: seq<Enemy>, score0: int)
      returns (bs: seq<Bullet>, es: seq<Enemy>, score: int, crashed: bool)
      ensures ShootDown(bs0, es0, |bs0| - 1, score0) == Shootout(bs, es, score, crashed)
    {
      bs, es, score := bs0, es0, score0;
      var i := |bs| - 1;
      while i >= 0
        invariant -1 <= i < |bs|
        invariant ShootDown(bs, es, i, score) == ShootDown(bs0, es0, |bs0| - 1, score0)
      {
        bs, es, score, crashed := Aim(bs, es, score, i);
        if crashed {
          return;
        }
        i := i - 1;
      }
      return bs, es, score, false;
    }

    /** One turn of the bullet-enemy pass, for the bullet at index `i`: the
        scan for the enemy it hits, and the hit, if there is one. */
    static method Aim(bs0: seq<Bullet>, es0: seq<Enemy>, score0: int, i: int)
      returns (bs: seq<Bullet>, es: seq<Enemy>, score: int, crashed: bool)
      requires 0 <= i < |bs0|
      ensures i - 1 < |bs|
      ensures ShootDown(bs0, es0, i, score0) ==
        if crashed then Shootout(bs, es, score, true) else ShootDown(bs, es, i - 1, score)
    {
      bs, es, score := bs0, es0, score0;
      var j := Scan(bs[i], es);
      ShootDownStep(bs, es, i, score);
      if j >= 0 {
        bs := Splice(bs, i);
        es := Splice(es, j);
        if j == |es| {
          // `enemies[j]` is undefined and reading its `type` throws
          return bs, es, score, true;
        }
        score := score + Points(es[j].kind);
      }
      return bs, es, score, false;
    }

    /** The inner loop of the bullet-enemy pass: the enemies from the end
        down to the first whose box overlaps the bullet's. */
    static method Scan(b: Bullet, es: seq<Enemy>) returns (j: int)
      ensures j == LastHit(b, es)
    {
      j := |es| - 1;
      while j >= 0 && !Overlaps(b.Hitbox(), es[j].Hitbox())
        invariant -1 <= j < |es|
        invariant forall k :: j < k < |es| ==> !Overlaps(b.Hitbox(), es[k].Hitbox())
      {
        j := j - 1;
      }
      LastHitIs(b, es, j);
    }

    /** The second half of `checkCollisions`. */
    method RamPlayer()
      modifies this`enemies, this`lives, this`running
      ensures var r := Rammed(old(enemies), |old(enemies)| - 1, player.Hitbox(), old(lives), old(running));
        enemies == r.enemies && lives == r.lives && running == r.running
    {
      enemies, lives, running := Ram(enemies, player.Hitbox(), lives, running);
    }

    /** The player-enemy loop on the enemies `es0` and the player's box `p`;
        `gameOver()` clears the running flag. */
    static method Ram(es0: seq<Enemy>, p: Box, lives0: int, running0: bool)
      returns (es: seq<Enemy>, lives: int, running: bool)
      ensures Rammed(es0, |es0| - 1, p, lives0, running0) == Impact(es, lives, running)
    {
      es, lives, running := es0, lives0, running0;
      var i := |es| - 1;
      while i >= 0
        invariant -1 <= i < |es|
        invariant Rammed(es, i, p, lives, running) == Rammed(es0, |es0| - 1, p, lives0, running0)
      {
        if Overlaps(p, es[i].Hitbox()) {
          es := Splice(es, i);
          lives := lives - 1;
          if lives <= 0 {
            running := false;
          }
        }
        i := i - 1;
      }
    }

    /** `checkCollisions`: the bullet-enemy pass, then, unless it threw, the
        player-enemy pass. */
    method CheckCollisions() returns (crashed: bool)
      modifies this`bullets, this`enemies, this`score, this`lives, this`running
      ensures var v := old(ShootDown(bullets, enemies, |bullets| - 1, score));
        bullets == v.bullets && score == v.score && crashed == v.crashed
      ensures var v := old(ShootDown(bullets, enemies, |bullets| - 1, score));
        crashed ==> enemies == v.enemies && lives == old(lives) && running == old(running)
      ensures var v := old(ShootDown(bullets, enemies, |bullets| - 1, score));
        !crashed ==> Impact(enemies, lives, running) == Rammed(v.enemies, |v.enemies| - 1, player.Hitbox(), old(lives), old(running))
    {
      ghost var v := ShootDown(bullets, enemies, |bullets| - 1, score);
      bullets, enemies, score, crashed := ShootEnemies(bullets, enemies, score);
      if !crashed {
        RamPlayer();
      }
    }

    /** The pools after the moving phases of an active frame: every bullet
        is below the top edge and every enemy's top above the bottom edge. */
    predicate OnScreen()
      reads this`bullets, this`enemies, bullets, enemies
    {
      (forall b :: b in bullets ==> b.y > -BulletHeight) && (forall e :: e in enemies ==> e.y < height)
    }

    /** No bullet overlaps an enemy and no enemy overlaps the player, as a
        collision check that does not throw leaves things. */
    predicate Settled()
      reads this`player, this`bullets, this`enemies, player, bullets, enemies
    {
      (forall b, e :: b in bullets && e in enemies ==> !Overlaps(b.Hitbox(), e.Hitbox())) &&
      (forall e :: e in enemies ==> !Overlaps(player.Hitbox(), e.Hitbox()))
    }

    /** The moving phases of an active frame: the player, then its bullets
        (the shot, if it is time, and the bullet loop over the pool `fired`),
        then the enemies (the spawn, if it is time, and the enemy loop over
        the pool `spawned`). */
    method Move(timestamp: real, keys: Keys, kindDraw: Draw, xDraw: Draw)
      returns (ghost fired: seq<Bullet>, ghost spawned: seq<Enemy>)
      requires Valid()
      modifies player, this`bullets, this`enemies, this`bulletSpawnTimer, this`enemySpawnTimer, bullets, enemies
      ensures Valid() && OnScreen()
      ensures player.x == Walk(old(player.x), keys.a, keys.d, width - PlayerWidth)
      ensures player.y == Walk(old(player.y), keys.w, keys.s, height - PlayerHeight)
      ensures Grown(fired, old(bullets), timestamp - old(bulletSpawnTimer) > FireGap) && bullets == Above(fired)
      ensures forall k :: 0 <= k < |old(bullets)| ==> old(bullets)[k].y == old(bullets[k].y) - BulletSpeed
      ensures forall k :: |old(bullets)| <= k < |fired| ==>
        fresh(fired[k]) && fired[k].x == player.x + PlayerWidth / 2.0 - 2.0 && fired[k].y == player.y - BulletSpeed
      ensures Grown(spawned, old(enemies), timestamp - old(enemySpawnTimer) > SpawnGap) && enemies == Below(spawned, height)
      ensures forall k :: 0 <= k < |old(enemies)| ==> old(enemies)[k].y == old(enemies[k].y) + old(enemies)[k].speed
      ensures forall k :: |old(enemies)| <= k < |spawned| ==> fresh(spawned[k]) && Spawned(spawned[k], kindDraw, xDraw)
      ensures bulletSpawnTimer == if timestamp - old(bulletSpawnTimer) > FireGap then timestamp else old(bulletSpawnTimer)
      ensures enemySpawnTimer == if timestamp - old(enemySpawnTimer) > SpawnGap then timestamp else old(enemySpawnTimer)
    {
      player.Update(keys, width, height);
      fired, spawned := Shift(timestamp, kindDraw, xDraw);
    }

    /** The pool phases of an active frame after the player moved: the
        bullets as `Fly` says, then the enemies as `Invade` says. */
    method Shift(timestamp: real, kindDraw: Draw, xDraw: Draw)
      returns (ghost fired: seq<Bullet>, ghost spawned: seq<Enemy>)
      requires Valid()
      modifies this`bullets, this`enemies, this`bulletSpawnTimer, this`enemySpawnTimer, bullets, enemies
      ensures Valid() && OnScreen()
      ensures Grown(fired, old(bullets), timestamp - old(bulletSpawnTimer) > FireGap) && bullets == Above(fired)
      ensures forall k :: 0 <= k < |old(bullets)| ==> old(bullets)[k].y == old(bullets[k].y) - BulletSpeed
      ensures forall k :: |old(bullets)| <= k < |fired| ==>
        fresh(fired[k]) && fired[k].x == player.x + PlayerWidth / 2.0 - 2.0 && fired[k].y == player.y - BulletSpeed
      ensures Grown(spawned, old(enemies), timestamp - old(enemySpawnTimer) > SpawnGap) && enemies == Below(spawned, height)
      ensures forall k :: 0 <= k < |old(enemies)| ==> old(enemies)[k].y == old(enemies[k].y) + old(enemies)[k].speed
      ensures forall k :: |old(enemies)| <= k < |spawned| ==> fresh(spawned[k]) && Spawned(spawned[k], kindDraw, xDraw)
      ensures bulletSpawnTimer == if timestamp - old(bulletSpawnTimer) > FireGap then timestamp else old(bulletSpawnTimer)
      ensures enemySpawnTimer == if timestamp - old(enemySpawnTimer) > SpawnGap then timestamp else old(enemySpawnTimer)
    {
      fired := Fly(timestamp);
      spawned := Invade(timestamp, kindDraw, xDraw);
    }

    /** The player fires if it is time, and the bullet loop runs over the
        resulting pool `pool`: every bullet of it moves up once, the new one
        from the player's nose, and the pool keeps those below the top edge. */
    method Fly(timestamp: real) returns (ghost pool: seq<Bullet>)
      requires Distinct(bullets)
      modifies this`bullets, this`bulletSpawnTimer, bullets
      ensures Grown(pool, old(bullets), timestamp - old(bulletSpawnTimer) > FireGap) && bullets == Above(pool)
      ensures forall k :: 0 <= k < |old(bullets)| ==> old(bullets)[k].y == old(bullets[k].y) - BulletSpeed
      ensures forall k :: |old(bullets)| <= k < |pool| ==>
        fresh(pool[k]) && pool[k].x == player.x + PlayerWidth / 2.0 - 2.0 && pool[k].y == player.y - BulletSpeed
      ensures Distinct(bullets) && forall b :: b in bullets ==> b.y > -BulletHeight
      ensures bulletSpawnTimer == if timestamp - old(bulletSpawnTimer) > FireGap then timestamp else old(bulletSpawnTimer)
    {
      Fire(timestamp);
      pool := bullets;
      MoveBullets();
      AboveIsFilter(pool);
    }

    /** An enemy spawns if it is time, and the enemy loop runs over the
        resulting pool `pool`: every enemy of it moves down once, the new one
        from just above the top edge, and the pool keeps those whose top is
        above the bottom edge. */
    method Invade(timestamp: real, kindDraw: Draw, xDraw: Draw) returns (ghost pool: seq<Enemy>)
      requires Distinct(enemies)
      modifies this`enemies, this`enemySpawnTimer, enemies
      ensures Grown(pool, old(enemies), timestamp - old(enemySpawnTimer) > SpawnGap) && enemies == Below(pool, height)
      ensures forall k :: 0 <= k < |old(enemies)| ==> old(enemies)[k].y == old(enemies[k].y) + old(enemies)[k].speed
      ensures forall k :: |old(enemies)| <= k < |pool| ==> fresh(pool[k]) && Spawned(pool[k], kindDraw, xDraw)
      ensures Distinct(enemies) && forall e :: e in enemies ==> e.y < height
      ensures enemySpawnTimer == if timestamp - old(enemySpawnTimer) > SpawnGap then timestamp else old(enemySpawnTimer)
    {
      SpawnEnemy(timestamp, kindDraw, xDraw);
      pool := enemies;
      assert Grown(pool, old(enemies), timestamp - old(enemySpawnTimer) > SpawnGap);
      MoveEnemies();
      BelowIsFilter(pool, height);
    }

    /** An enemy as the spawn makes it from the two draws, after its first
        move down. */
    predicate Spawned(e: Enemy, kindDraw: Draw, xDraw: Draw)
      reads e
    {
      var k := KindOf(kindDraw);
      e.kind == k && e.speed == EnemySpeed(k) && e.x == SpawnX(xDraw, width - EnemyWidth(k)) &&
      e.y == -EnemyHeight(k) + EnemySpeed(k)
    }

    /** An active frame: the moving phases, then the collision check over the
        moved pools; the answer says whether the check threw. */
    method Play(timestamp: real, keys: Keys, kindDraw: Draw, xDraw: Draw)
      returns (crashed: bool, ghost fired: seq<Bullet>, ghost spawned: seq<Enemy>)
      requires Valid() && running
      modifies player, this`bullets, this`enemies, this`score, this`lives, this`running, this`bulletSpawnTimer,
        this`enemySpawnTimer, this`frameRequested, bullets, enemies
      ensures Valid() && OnScreen()
      ensures old(score) <= score && lives <= old(lives)
      ensures crashed ==> running && lives == old(lives)
      ensures !crashed ==> Settled()
      ensures player.x == Walk(old(player.x), keys.a, keys.d, width - PlayerWidth)
      ensures player.y == Walk(old(player.y), keys.w, keys.s, height - PlayerHeight)
      ensures Grown(fired, old(bullets), timestamp - old(bulletSpawnTimer) > FireGap)
      ensures Grown(spawned, old(enemies), timestamp - old(enemySpawnTimer) > SpawnGap)
      ensures frameRequested == !crashed
      ensures Collided(ShootDown(Above(fired), Below(spawned, height), |Above(fired)| - 1, old(score)), old(lives), crashed)
      ensures bulletSpawnTimer == if timestamp - old(bulletSpawnTimer) > FireGap then timestamp else old(bulletSpawnTimer)
      ensures enemySpawnTimer == if timestamp - old(enemySpawnTimer) > SpawnGap then timestamp else old(enemySpawnTimer)
    {
      fired, spawned := Move(timestamp, keys, kindDraw, xDraw);
      crashed := Collide(fired, spawned);
    }

    /** The pools, score, lives and running flag are what `checkCollisions`
        makes of a running game with `lv` lives whose bullet-enemy pass came
        out as `v`: the bullets and the score of that pass, whether it threw
        (`crashed`), and, when it did not, the player-enemy pass over the
        enemies it left. */
    predicate Collided(v: Shootout, lv: int, crashed: bool)
      reads this`bullets, this`enemies, this`score, this`lives, this`running, this`player, player, v.enemies
    {
      && bullets == v.bullets && score == v.score && crashed == v.crashed
      && (crashed ==> enemies == v.enemies && lives == lv && running)
      && (!crashed ==> Impact(enemies, lives, running) == Rammed(v.enemies, |v.enemies| - 1, player.Hitbox(), lv, true))
    }

    /** The collision check of an active frame, over the bullets kept from
        the pool `fired` and the enemies kept from the pool `spawned`, and
        the request of the next frame that follows it in `gameLoop`: the
        result is that of `checkCollisions` on them, with the guarantees of
        `Settle`, and the next frame is requested exactly when the check did
        not throw. */
    method Collide(ghost fired: seq<Bullet>, ghost spawned: seq<Enemy>) returns (crashed: bool)
      requires Valid() && running && OnScreen()
      requires bullets == Above(fired) && enemies == Below(spawned, height)
      modifies this`bullets, this`enemies, this`score, this`lives, this`running, this`frameRequested
      ensures Valid() && OnScreen()
      ensures old(score) <= score && lives <= old(lives)
      ensures crashed ==> running && lives == old(lives)
      ensures !crashed ==> Settled()
      ensures Collided(ShootDown(Above(fired), Below(spawned, height), |Above(fired)| - 1, old(score)), old(lives), crashed)
      ensures frameRequested == !crashed
    {
      ghost var v := ShootDown(bullets, enemies, |bullets| - 1, score);
      crashed := Settle();
      assert unchanged(fired) && unchanged(spawned) && unchanged(old(bullets)) && unchanged(old(enemies));
      assert Above(fired) == old(bullets) && Below(spawned, height) == old(enemies);
      assert ShootDown(old(bullets), old(enemies), |old(bullets)| - 1, old(score)) == v;
      assert ShootDown(Above(fired), Below(spawned, height), |Above(fired)| - 1, old(score)) == v;
    }

    /** The collision check of an active frame, from pools on screen, and
        the request of the next frame: the result is that of
        `checkCollisions`; the next frame is requested exactly when it did
        not throw; the invariant holds and the pools stay on screen, the
        score does not drop nor the lives rise, and a check that does not
        throw leaves nothing overlapping. */
    method Settle() returns (crashed: bool)
      requires Valid() && running && OnScreen()
      modifies this`bullets, this`enemies, this`score, this`lives, this`running, this`frameRequested
      ensures frameRequested == !crashed
      ensures Valid() && OnScreen()
      ensures old(score) <= score && lives <= old(lives)
      ensures crashed ==> running && lives == old(lives)
      ensures !crashed ==> Settled()
      ensures Collided(old(ShootDown(bullets, enemies, |bullets| - 1, score)), old(lives), crashed)
    {
      ghost var bs, es, sc := bullets, enemies, score;
      ghost var v := ShootDown(bs, es, |bs| - 1, sc);
      crashed := CheckCollisions();
      // an exception in the check ends the callback before the request
      frameRequested := !crashed;
      assert v == ShootDown(bs, es, |bs| - 1, sc);
      ShootDownSettles(bs, es, sc);
      if !crashed {
        RammedSettles(v.enemies, player.Hitbox(), old(lives), true);
      }
    }

    /** The part of `gameLoop` after the clock is read: a running game that
        is not paused plays a frame (over the pools `fired` and `spawned` its
        moving phases produce), any other game only asks for the next frame;
        in both cases the next frame is requested exactly when no collision
        check threw. */
    method Tick(timestamp: real, keys: Keys, kindDraw: Draw, xDraw: Draw)
      returns (ghost fired: seq<Bullet>, ghost spawned: seq<Enemy>)
      requires Valid() && frameRequested
      modifies player, this`bullets, this`enemies, this`score, this`lives, this`running, this`bulletSpawnTimer,
        this`enemySpawnTimer, this`frameRequested, bullets, enemies
      ensures Valid()
      ensures old(running) && !old(paused) ==>
        && OnScreen() && old(score) <= score && lives <= old(lives) && (frameRequested ==> Settled())
        && Collided(ShootDown(Above(fired), Below(spawned, height), |Above(fired)| - 1, old(score)), old(lives), !frameRequested)
        && player.x == Walk(old(player.x), keys.a, keys.d, width - PlayerWidth)
        && player.y == Walk(old(player.y), keys.w, keys.s, height - PlayerHeight)
        && Grown(fired, old(bullets), timestamp - old(bulletSpawnTimer) > FireGap)
        && Grown(spawned, old(enemies), timestamp - old(enemySpawnTimer) > SpawnGap)
        && bulletSpawnTimer == (if timestamp - old(bulletSpawnTimer) > FireGap then timestamp else old(bulletSpawnTimer))
        && enemySpawnTimer == (if timestamp - old(enemySpawnTimer) > SpawnGap then timestamp else old(enemySpawnTimer))
      ensures !(old(running) && !old(paused)) ==>
        frameRequested && unchanged(player) && bullets == old(bullets) && enemies == old(enemies) &&
        score == old(score) && lives == old(lives) && running == old(running) &&
        bulletSpawnTimer == old(bulletSpawnTimer) && enemySpawnTimer == old(enemySpawnTimer)
    {
      fired, spawned := bullets, enemies;
      if running && !paused {
        var crashed;
        crashed, fired, spawned := Play(timestamp, keys, kindDraw, xDraw);
      } else {
        frameRequested := true;
      }
    }

    /** `gameLoop(timestamp)`, run by the pending frame callback: the clock is
        stamped with `timestamp` (the frame's time difference is never used),
        then the frame is played as `Tick` says. */
    method GameLoop(timestamp: real, keys: Keys, kindDraw: Draw, xDraw: Draw)
      returns (ghost fired: seq<Bullet>, ghost spawned: seq<Enemy>)
      requires Valid() && frameRequested
      modifies this, player, bullets, enemies
      ensures Valid() && lastTime == timestamp && paused == old(paused) && player == old(player)
      ensures old(running) && !old(paused) ==>
        && OnScreen() && old(score) <= score && lives <= old(lives) && (frameRequested ==> Settled())
        && Collided(ShootDown(Above(fired), Below(spawned, height), |Above(fired)| - 1, old(score)), old(lives), !frameRequested)
        && player.x == Walk(old(player.x), keys.a, keys.d, width - PlayerWidth)
        && player.y == Walk(old(player.y), keys.w, keys.s, height - PlayerHeight)
        && Grown(fired, old(bullets), timestamp - old(bulletSpawnTimer) > FireGap)
        && Grown(spawned, old(enemies), timestamp - old(enemySpawnTimer) > SpawnGap)
        && bulletSpawnTimer == (if timestamp - old(bulletSpawnTimer) > FireGap then timestamp else old(bulletSpawnTimer))
        && enemySpawnTimer == (if timestamp - old(enemySpawnTimer) > SpawnGap then timestamp else old(enemySpawnTimer))
      ensures !(old(running) && !old(paused)) ==>
        frameRequested && unchanged(player) && bullets == old(bullets) && enemies == old(enemies) &&
        score == old(score) && lives == old(lives) && running == old(running) &&
        bulletSpawnTimer == old(bulletSpawnTimer) && enemySpawnTimer == old(enemySpawnTimer)
    {
      lastTime := timestamp;
      fired, spawned := Tick(timestamp, keys, kindDraw, xDraw);
    }
  }
}