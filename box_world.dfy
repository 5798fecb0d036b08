/*
 * The entities of script.js: the player, its bullets and the enemies, each
 * an object whose `update` moves it in place, the boxes they occupy, and
 * what the backward culling loops keep of the bullet and enemy pools.
 */
module BoxWorld {
  import opened Splicing

  /** The held keys (`keys.w`, `keys.a`, `keys.s`, `keys.d`). */
  datatype Keys = Keys(w: bool, a: bool, s: bool, d: bool)

  const PlayerWidth: real := 50.0
  const PlayerHeight: real := 40.0
  const PlayerSpeed: real := 5.0
  /** The gap under a new player's box. */
  const PlayerLift: real := 20.0
  const BulletWidth: real := 4.0
  const BulletHeight: real := 15.0
  const BulletSpeed: real := 8.0
  /** Milliseconds between two shots, and between two spawns. */
  const FireGap: real := 200.0
  const SpawnGap: real := 1000.0
  const StartLives: int := 3

  /** An axis-aligned box: its top-left corner and its size. */
  datatype Box = Box(x: real, y: real, width: real, height: real)

  /** The collision test: the boxes overlap strictly, so boxes that only
      share an edge do not collide. */
  predicate Overlaps(p: Box, q: Box)
  {
    p.x < q.x + q.width && p.x + p.width > q.x && p.y < q.y + q.height && p.y + p.height > q.y
  }

  /** It does not matter which box is tested against which. */
  lemma OverlapsSymmetric(p: Box, q: Box)
    ensures Overlaps(p, q) <==> Overlaps(q, p)
  {
  }

  // ---------------------------------------------------------------------
  // The player
  // ---------------------------------------------------------------------

  /** One axis of `Player.update`: a step back while the coordinate is above
      0, then a step forth while it is below `hi`, each only if its key is held. */
  function Walk(p: real, back: bool, forth: bool, hi: real): real
  {
    var q := if back && p > 0.0 then p - PlayerSpeed else p;
    if forth && q < hi then q + PlayerSpeed else q
  }

  /** A held key moves the player one step along its axis exactly when the
      player is strictly inside that edge; so from anywhere less than a step
      outside the edges, the player stays less than a step outside them. */
  lemma WalkSteps(p: real, back: bool, forth: bool, hi: real)
    ensures !back && !forth ==> Walk(p, back, forth, hi) == p
    ensures back && !forth ==> Walk(p, back, forth, hi) == if p > 0.0 then p - PlayerSpeed else p
    ensures forth && !back ==> Walk(p, back, forth, hi) == if p < hi then p + PlayerSpeed else p
    ensures -PlayerSpeed < p < hi + PlayerSpeed ==> -PlayerSpeed < Walk(p, back, forth, hi) < hi + PlayerSpeed
  {
  }

  class Player {
    var x: real
    var y: real
    const width: real := PlayerWidth
    const height: real := PlayerHeight
    const speed: real := PlayerSpeed

    /** `new Player()` on a canvas of `cw` by `ch`: centred, 20 above the bottom. */
    constructor(cw: real, ch: real)
      ensures x == cw / 2.0 - PlayerWidth / 2.0 && y == ch - PlayerHeight - PlayerLift
    {
      x := cw / 2.0 - PlayerWidth / 2.0;
      y := ch - PlayerHeight - PlayerLift;
    }

    function Hitbox(): Box
      reads this
    {
      Box(x, y, width, height)
    }

    /** `update`: each held key moves the player by one step, the edge tests
        reading the position as the earlier keys left it. */
    method Update(keys: Keys, cw: real, ch: real)
      modifies this
      ensures x == Walk(old(x), keys.a, keys.d, cw - PlayerWidth)
      ensures y == Walk(old(y), keys.w, keys.s, ch - PlayerHeight)
    {
      if keys.a && x > 0.0 { x := x - speed; }
      if keys.d && x < cw - width { x := x + speed; }
      if keys.w && y > 0.0 { y := y - speed; }
      if keys.s && y < ch - height { y := y + speed; }
    }
  }

  // ---------------------------------------------------------------------
  // Bullets
  // ---------------------------------------------------------------------

  class Bullet {
    const x: real
    var y: real
    const width: real := BulletWidth
    const height: real := BulletHeight
    const speed: real := BulletSpeed

    constructor(x0: real, y0: real)
      ensures x == x0 && y == y0
    {
      x, y := x0, y0;
    }

    function Hitbox(): Box
      reads this
    {
      Box(x, y, width, height)
    }

    /** `update`: up by one step; the answer says whether any of the bullet
        is still below the top edge. */
    method Update() returns (onScreen: bool)
      modifies this
      ensures y == old(y) - BulletSpeed && (onScreen <==> y > -BulletHeight)
    {
      y := y - speed;
      onScreen := y > -height;
    }
  }

  /** The bullets still below the top edge, in pool order. */
  function Above(bs: seq<Bullet>): (r: seq<Bullet>)
    reads bs
  {
    if bs == [] then [] else (if bs[0].y > -BulletHeight then [bs[0]] else []) + Above(bs[1..])
  }

  /** `Above` from index `i`: the bullet there, if it is kept, then the rest. */
  lemma AboveStep(bs: seq<Bullet>, i: nat)
    requires i < |bs|
    ensures bs[i].y > -BulletHeight ==> Above(bs[i..]) == [bs[i]] + Above(bs[i + 1..])
    ensures bs[i].y <= -BulletHeight ==> Above(bs[i..]) == Above(bs[i + 1..])
  {
    assert bs[i..][1..] == bs[i + 1..];
  }

  /** `Above` keeps exactly the bullets below the top edge, each once. */
  lemma {:induction false} AboveIsFilter(bs: seq<Bullet>)
    ensures forall b :: b in Above(bs) <==> b in bs && b.y > -BulletHeight
    ensures |Above(bs)| <= |bs|
    ensures Distinct(bs) ==> Distinct(Above(bs))
  {
    if bs != [] {
      AboveIsFilter(bs[1..]);
      if Distinct(bs) {
        assert Distinct(bs[1..]);
        assert bs[0] !in bs[1..];
      }
    }
  }

  // ---------------------------------------------------------------------
  // Enemies
  // ---------------------------------------------------------------------

  datatype Kind = Plane | Asteroid

  /** `Math.random() > 0.5 ? 'plane' : 'asteroid'`. */
  function KindOf(u: Draw): Kind
  {
    if u > 0.5 then Plane else Asteroid
  }

  function EnemyWidth(k: Kind): real
  {
    if k == Plane then 40.0 else 50.0
  }

  function EnemyHeight(k: Kind): real
  {
    if k == Plane then 30.0 else 50.0
  }

  function EnemySpeed(k: Kind): real
  {
    if k == Plane then 3.0 else 2.0
  }

  /** What shooting one down is worth. */
  function Points(k: Kind): (n: int)
    ensures n == 5 || n == 10
  {
    if k == Plane then 10 else 5
  }

  /** `Math.random() * (canvas.width - width)`: the left edge of a new
      enemy, `room` being how far the canvas is wider than the enemy. */
  function SpawnX(u: Draw, room: real): real
  {
    u * room
  }

  /** A new enemy starts with its whole box inside the canvas horizontally,
      never touching the right edge, whenever the canvas is wider than it. */
  lemma SpawnXInside(u: Draw, room: real)
    requires 0.0 < room
    ensures 0.0 <= SpawnX(u, room) < room
  {
    Scale(u, room);
  }

  lemma Scale(a: real, b: real)
    requires 0.0 <= a < 1.0 && 0.0 < b
    ensures 0.0 <= a * b < b
  {
  }

  class Enemy {
    const kind: Kind
    const width: real
    const height: real
    const speed: real
    const x: real
    var y: real

    /** `new Enemy(type)` on a canvas `cw` wide, placed by the draw `u`:
        just above the top edge. */
    constructor(k: Kind, u: Draw, cw: real)
      ensures kind == k && width == EnemyWidth(k) && height == EnemyHeight(k) && speed == EnemySpeed(k)
      ensures x == SpawnX(u, cw - width) && y == -height
    {
      kind := k;
      width := EnemyWidth(k);
      height := EnemyHeight(k);
      x := SpawnX(u, cw - EnemyWidth(k));
      y := -EnemyHeight(k);
      speed := EnemySpeed(k);
    }

    function Hitbox(): Box
      reads this
    {
      Box(x, y, width, height)
    }

    /** `update`: down by the enemy's speed; the answer says whether its top
        is still above the bottom edge of a canvas `ch` high. */
    method Update(ch: real) returns (onScreen: bool)
      modifies this
      ensures y == old(y) + speed && (onScreen <==> y < ch)
    {
      y := y + speed;
      onScreen := y < ch;
    }
  }

  /** The enemies whose top is above the bottom edge, in pool order. */
  function Below(es: seq<Enemy>, ch: real): (r: seq<Enemy>)
    reads es
  {
    if es == [] then [] else (if es[0].y < ch then [es[0]] else []) + Below(es[1..], ch)
  }

  /** `Below` from index `i`: the enemy there, if it is kept, then the rest. */
  lemma BelowStep(es: seq<Enemy>, i: nat, ch: real)
    requires i < |es|
    ensures es[i].y < ch ==> Below(es[i..], ch) == [es[i]] + Below(es[i + 1..], ch)
    ensures es[i].y >= ch ==> Below(es[i..], ch) == Below(es[i + 1..], ch)
  {
    assert es[i..][1..] == es[i + 1..];
  }

  /** `Below` keeps exactly the enemies above the bottom edge, each once. */
  lemma {:induction false} BelowIsFilter(es: seq<Enemy>, ch: real)
    ensures forall e :: e in Below(es, ch) <==> e in es && e.y < ch
    ensures |Below(es, ch)| <= |es|
    ensures Distinct(es) ==> Distinct(Below(es, ch))
  {
    if es != [] {
      BelowIsFilter(es[1..], ch);
      if Distinct(es) {
        assert Distinct(es[1..]);
        assert es[0] !in es[1..];
      }
    }
  }
}
