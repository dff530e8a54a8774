/** The entity record and the type tables of `spawnEntity`, with the queries
    the tick makes over the entity array. */
module Entities {
  import opened Options
  import opened Units
  import opened Geometry

  /** The `type` tag of an entity. */
  datatype Kind =
    | Tree | Rock | Bush | Grass | Flint | Stick | Rabbit | Sapling
    | Campfire | Tower | Bed | Beacon | Nightling | BossWolf | Arrow

  /** The kinds spawnEntity snaps to the grid and records in the occupancy set. */
  predicate NeedsGrid(k: Kind) {
    match k
    case Campfire | Tower | Sapling | Tree | Rock | Bush | Flint | Stick | Grass | Bed | Beacon => true
    case Rabbit | Nightling | BossWolf | Arrow => false
  }

  /** Side of the square footprint: trees and towers take 2x2 cells, the rest one. */
  function Size(k: Kind): (n: nat)
    ensures n == 1 || n == 2
    ensures n == 2 <==> k == Tree || k == Tower
  {
    if k == Tree || k == Tower then 2 else 1
  }

  /** The creatures towers and arrows aim at. */
  predicate Hostile(k: Kind) {
    k == Nightling || k == BossWolf
  }

  /** Initial life by kind: boss wolf 1000, nightling 60, tower 350, anything
      else 100 (in UNITs). */
  function InitialLife(k: Kind): (hp: int)
    ensures k == BossWolf ==> hp == 1000 * UNIT
    ensures k == Nightling ==> hp == 60 * UNIT
    ensures k == Tower ==> hp == 350 * UNIT
    ensures k !in {BossWolf, Nightling, Tower} ==> hp == 100 * UNIT
  {
    match k
    case BossWolf => 1000 * UNIT
    case Nightling => 60 * UNIT
    case Tower => 350 * UNIT
    case _ => 100 * UNIT
  }

  /** One element of `state.entities`. The random id and drawing offset are
      not part of the model. */
  datatype Entity = Entity(
    kind: Kind, x: int, y: int,
    life: int, maxLife: int, dir: int,
    attackTimer: int, growthTimer: int, cooldown: int,
    vx: int, vy: int, damage: int, ttl: int,
    range: Option<int>, atk: Option<int>)

  /** The record spawnEntity pushes for an entity of kind `k` at (x, y). */
  function NewEntity(k: Kind, x: int, y: int): (e: Entity)
    ensures e.kind == k && e.x == x && e.y == y
    ensures e.life == e.maxLife == InitialLife(k)
    ensures e.attackTimer == e.growthTimer == e.cooldown == e.ttl == 0
    ensures e.range.Some? <==> k == Tower
    ensures k == Tower ==> e.range == Some(320) && e.atk == Some(35 * UNIT)
  {
    var hp := InitialLife(k);
    Entity(k, x, y, hp, hp, 1, 0, 0, 0, 0, 0, 0, 0,
           if k == Tower then Some(320) else None,
           if k == Tower then Some(35 * UNIT) else None)
  }

  /** An arrow leaves a tower at the tower's position with velocity (vx, vy),
      lives 120 ticks and hurts by the tower's attack, `e.atk || 35`: 35 when
      the tower has none or it is 0. */
  function NewArrow(tower: Entity, vx: int, vy: int): (a: Entity)
    ensures a.kind == Arrow && a.x == tower.x && a.y == tower.y
    ensures a.ttl == 120 && a.vx == vx && a.vy == vy
    ensures tower.atk.Some? && tower.atk.value != 0 ==> a.damage == tower.atk.value
    ensures tower.atk.None? || tower.atk == Some(0) ==> a.damage == 35 * UNIT
  {
    Entity(Arrow, tower.x, tower.y, UNIT, UNIT, 1, 0, 0, 0, vx, vy,
           if tower.atk.Some? && tower.atk.value != 0 then tower.atk.value else 35 * UNIT,
           120, None, None)
  }

  /** Square of the distance between two positions. */
  function DistSq(x1: int, y1: int, x2: int, y2: int): (d: int)
    ensures d >= 0
  {
    (x1 - x2) * (x1 - x2) + (y1 - y2) * (y1 - y2)
  }

  /** `entities.filter(e => e.type === k).length`. */
  function Count(es: seq<Entity>, k: Kind): (n: nat)
    ensures n <= |es|
    decreases |es|
  {
    if es == [] then 0
    else (if es[0].kind == k then 1 else 0) + Count(es[1..], k)
  }

  /** The count is 0 exactly when no entity has kind k, and the length of
      the array exactly when all have. */
  lemma {:induction false} CountExtremes(es: seq<Entity>, k: Kind)
    ensures Count(es, k) == 0 <==> forall i :: 0 <= i < |es| ==> es[i].kind != k
    ensures Count(es, k) == |es| <==> forall i :: 0 <= i < |es| ==> es[i].kind == k
    decreases |es|
  {
    if es != [] {
      CountExtremes(es[1..], k);
      assert forall i :: 1 <= i < |es| ==> es[i] == es[1..][i - 1];
    }
  }

  /** Appending an entity adds one to the count of its own kind only. */
  lemma {:induction false} CountAppend(es: seq<Entity>, e: Entity, k: Kind)
    ensures Count(es + [e], k) == Count(es, k) + if e.kind == k then 1 else 0
    decreases |es|
  {
    if es != [] {
      assert (es + [e])[1..] == es[1..] + [e];
      CountAppend(es[1..], e, k);
    }
  }

  /** `splice(i, 1)`: removes the element at index i; an index past the end
      removes nothing. */
  function RemoveAt(s: seq<Entity>, i: nat): (r: seq<Entity>)
    ensures i < |s| ==> |r| == |s| - 1
    ensures i < |s| ==> forall j :: 0 <= j < |r| ==> r[j] == if j < i then s[j] else s[j + 1]
    ensures i >= |s| ==> r == s
  {
    if i < |s| then s[..i] + s[i + 1..] else s
  }

  /** The count over two arrays laid end to end is the sum of their counts. */
  lemma {:induction false} CountConcat(a: seq<Entity>, b: seq<Entity>, k: Kind)
    ensures Count(a + b, k) == Count(a, k) + Count(b, k)
    decreases |a|
  {
    if a == [] {
      assert a + b == b;
    } else {
      assert (a + b)[1..] == a[1..] + b;
      CountConcat(a[1..], b, k);
    }
  }

  /** Appending to an array never lowers a count. */
  lemma CountPrefix(es: seq<Entity>, es': seq<Entity>, k: Kind)
    requires es <= es'
    ensures Count(es, k) <= Count(es', k)
  {
    assert es' == es + es'[|es|..];
    CountConcat(es, es'[|es|..], k);
  }

  /** `splice(i, 1)` lowers the count of the removed entity's kind by one
      and leaves every other count alone. */
  lemma CountRemoveAt(s: seq<Entity>, i: nat, k: Kind)
    ensures Count(RemoveAt(s, i), k) == Count(s, k) - if i < |s| && s[i].kind == k then 1 else 0
  {
    if i < |s| {
      assert s == s[..i] + [s[i]] + s[i + 1..];
      assert [s[i]][1..] == [];
      CountConcat(s[..i] + [s[i]], s[i + 1..], k);
      CountConcat(s[..i], [s[i]], k);
      CountConcat(s[..i], s[i + 1..], k);
    }
  }

  /** Replacing an entity by one of the same kind changes no count. */
  lemma CountReplace(s: seq<Entity>, i: nat, e: Entity, k: Kind)
    requires i < |s| && e.kind == s[i].kind
    ensures Count(s[i := e], k) == Count(s, k)
  {
    assert s == s[..i] + [s[i]] + s[i + 1..];
    assert s[i := e] == s[..i] + [e] + s[i + 1..];
    assert [s[i]][1..] == [] && [e][1..] == [];
    CountConcat(s[..i] + [s[i]], s[i + 1..], k);
    CountConcat(s[..i], [s[i]], k);
    CountConcat(s[..i] + [e], s[i + 1..], k);
    CountConcat(s[..i], [e], k);
  }

  /** An arrow at (x, y) hits a hostile creature closer than 16 pixels. */
  predicate HitBy(e: Entity, x: int, y: int) {
    Hostile(e.kind) && DistSq(e.x, e.y, x, y) < 16 * 16
  }

  /** `findIndex` of the first hostile creature an arrow at (x, y) hits. */
  function FirstHit(es: seq<Entity>, x: int, y: int): (r: Option<nat>)
    ensures r.Some? ==> r.value < |es| && HitBy(es[r.value], x, y)
    ensures r.Some? ==> forall j :: 0 <= j < r.value ==> !HitBy(es[j], x, y)
    ensures r.None? ==> forall j :: 0 <= j < |es| ==> !HitBy(es[j], x, y)
    decreases |es|
  {
    if es == [] then None
    else if HitBy(es[0], x, y) then Some(0)
    else
      match FirstHit(es[1..], x, y)
      case Some(j) => Some(j + 1)
      case None => None
  }

  /** The lights that count in `checkNearFire`: a campfire lights a radius of
      2.5 times its fuel (life / 400 pixels with life in UNITs), a tower a
      radius of 180 pixels. */
  predicate Lights(e: Entity, px: int, py: int) {
    var d := DistSq(e.x, e.y, px, py);
    (e.kind == Campfire && e.life > 0 && 400 * 400 * d < e.life * e.life)
    || (e.kind == Tower && d < 180 * 180)
  }

  /** `checkNearFire`: some campfire or tower lights (px, py). */
  function NearFire(es: seq<Entity>, px: int, py: int): (lit: bool)
    ensures lit <==> exists i :: 0 <= i < |es| && Lights(es[i], px, py)
    decreases |es|
  {
    if es == [] then false
    else
      var rest := NearFire(es[1..], px, py);
      assert rest <==> exists i :: 1 <= i < |es| && Lights(es[i], px, py) by {
        if rest {
          var i :| 0 <= i < |es| - 1 && Lights(es[1..][i], px, py);
          assert Lights(es[i + 1], px, py);
        }
        if exists i :: 1 <= i < |es| && Lights(es[i], px, py) {
          var i :| 1 <= i < |es| && Lights(es[i], px, py);
          assert Lights(es[1..][i - 1], px, py);
        }
      }
      Lights(es[0], px, py) || rest
  }

  /** A creature a tower at (tx, ty) may shoot: hostile and strictly inside
      its range (a range of 0 or less reaches nothing). */
  predicate InRange(e: Entity, tx: int, ty: int, range: int) {
    Hostile(e.kind) && range > 0 && DistSq(e.x, e.y, tx, ty) < range * range
  }

  /** The tower's target search over the entities from index i on, with
      the best candidate so far `best` at squared distance dmin: a creature
      in range replaces the candidate when there is none yet or when it is
      strictly nearer. */
  function NearestFrom(es: seq<Entity>, tx: int, ty: int, range: int, i: nat, best: Option<nat>, dmin: int): Option<nat>
    requires i <= |es|
    decreases |es| - i
  {
    if i == |es| then best
    else
      var d := DistSq(es[i].x, es[i].y, tx, ty);
      if InRange(es[i], tx, ty, range) && (best.None? || d < dmin)
      then NearestFrom(es, tx, ty, range, i + 1, Some(i), d)
      else NearestFrom(es, tx, ty, range, i + 1, best, dmin)
  }

  /** The target a tower at (tx, ty) with range `range` picks. */
  function Nearest(es: seq<Entity>, tx: int, ty: int, range: int): Option<nat> {
    NearestFrom(es, tx, ty, range, 0, None, 0)
  }

  /** The search from index i keeps what it has found below i: if the
      candidate is the nearest creature in range below i (the first of the
      nearest ones), the result is the nearest in range overall, the first
      of the nearest ones, and there is none only when no creature is in
      range. */
  lemma {:induction false} NearestFromSpec(es: seq<Entity>, tx: int, ty: int, range: int, i: nat, best: Option<nat>, dmin: int)
    requires i <= |es|
    requires best.None? <==> forall j :: 0 <= j < i ==> !InRange(es[j], tx, ty, range)
    requires best.Some? ==> best.value < i && InRange(es[best.value], tx, ty, range)
    requires best.Some? ==> dmin == DistSq(es[best.value].x, es[best.value].y, tx, ty)
    requires best.Some? ==> forall j :: 0 <= j < i && InRange(es[j], tx, ty, range) ==>
      dmin <= DistSq(es[j].x, es[j].y, tx, ty)
    requires best.Some? ==> forall j :: 0 <= j < best.value && InRange(es[j], tx, ty, range) ==>
      dmin < DistSq(es[j].x, es[j].y, tx, ty)
    ensures var r := NearestFrom(es, tx, ty, range, i, best, dmin);
      && (r.None? <==> forall j :: 0 <= j < |es| ==> !InRange(es[j], tx, ty, range))
      && (r.Some? ==> r.value < |es| && InRange(es[r.value], tx, ty, range))
      && (r.Some? ==> forall j :: 0 <= j < |es| && InRange(es[j], tx, ty, range) ==>
           DistSq(es[r.value].x, es[r.value].y, tx, ty) <= DistSq(es[j].x, es[j].y, tx, ty))
      && (r.Some? ==> forall j :: 0 <= j < r.value && InRange(es[j], tx, ty, range) ==>
           DistSq(es[r.value].x, es[r.value].y, tx, ty) < DistSq(es[j].x, es[j].y, tx, ty))
    decreases |es| - i
  {
    if i < |es| {
      var d := DistSq(es[i].x, es[i].y, tx, ty);
      if InRange(es[i], tx, ty, range) && (best.None? || d < dmin) {
        NearestFromSpec(es, tx, ty, range, i + 1, Some(i), d);
      } else {
        NearestFromSpec(es, tx, ty, range, i + 1, best, dmin);
      }
    }
  }

  /** The tower shoots at nothing exactly when no hostile creature is in
      range; otherwise at one in range that is nearest, and among equally
      near ones at the first in the array. */
  lemma NearestSpec(es: seq<Entity>, tx: int, ty: int, range: int)
    ensures var r := Nearest(es, tx, ty, range);
      && (r.None? <==> forall j :: 0 <= j < |es| ==> !InRange(es[j], tx, ty, range))
      && (r.Some? ==> r.value < |es| && InRange(es[r.value], tx, ty, range))
      && (r.Some? ==> forall j :: 0 <= j < |es| && InRange(es[j], tx, ty, range) ==>
           DistSq(es[r.value].x, es[r.value].y, tx, ty) <= DistSq(es[j].x, es[j].y, tx, ty))
      && (r.Some? ==> forall j :: 0 <= j < r.value && InRange(es[j], tx, ty, range) ==>
           DistSq(es[r.value].x, es[r.value].y, tx, ty) < DistSq(es[j].x, es[j].y, tx, ty))
  {
    NearestFromSpec(es, tx, ty, range, 0, None, 0);
  }

  /** The tower's loop over `targets`, keeping the nearest creature strictly
      inside its range. */
  method NearestTarget(es: seq<Entity>, tx: int, ty: int, range: int) returns (r: Option<nat>)
    ensures r == Nearest(es, tx, ty, range)
  {
    r := None;
    var dmin := 0;
    var i := 0;
    while i < |es|
      invariant 0 <= i <= |es|
      invariant NearestFrom(es, tx, ty, range, i, r, dmin) == Nearest(es, tx, ty, range)
    {
      var t := es[i];
      if Hostile(t.kind) {
        var d := DistSq(t.x, t.y, tx, ty);
        if (r.None? || d < dmin) && range > 0 && d < range * range {
          r := Some(i);
          dmin := d;
        }
      }
      i := i + 1;
    }
  }

  /** The base range of a tower, `e.range || 320`: a missing or zero range
      counts as 320. */
  function TowerRange(e: Entity): (r: int)
    ensures e.range.Some? && e.range.value != 0 ==> r == e.range.value
    ensures e.range.None? || e.range == Some(0) ==> r == 320
  {
    if e.range.Some? && e.range.value != 0 then e.range.value else 320
  }
}
