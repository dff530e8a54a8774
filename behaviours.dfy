/** What each entity does on its turn of the tick loop (`update`'s
    `state.entities.forEach`), as functions over the part of the state the
    loop touches: the entity array, the occupancy set, the player's health
    and the inventory. The loop visits the indices 0 .. n - 1 of the array
    as it was when the loop began, and skips an index once the array has
    become shorter than that index; removals in between shift the entities
    behind them, so the one that moves into a removed entity's index is not
    visited on this tick. */
module Behaviours {
  import opened Options
  import opened Units
  import opened Geometry
  import opened Entities
  import opened Occupancy
  import opened Timers
  import opened Items

  /** The part of the state the entity loop changes. */
  datatype Scene = Scene(es: seq<Entity>, occ: set<Cell>, health: int, inv: Inventory)

  /** What the loop reads but does not change: whether it is night, the
      player's position, and the drawn or floating-point quantities given as
      functions: where a creature steps to, a tower's effective range for its
      base range (fog shortens it), and the velocity of an arrow a tower
      shoots at a target. */
  datatype Ctx = Ctx(
    night: bool, px: int, py: int,
    steer: Entity -> (int, int),
    range: int -> int,
    aim: (Entity, Entity) -> (int, int))

  /** Fuel a campfire burns per tick (0.025). */
  const BURN: int := 25
  /** Reach and bite of a nightling and of a boss wolf. */
  const NIGHTLING_REACH: int := 55
  const NIGHTLING_BITE: int := 8 * UNIT
  const BOSS_REACH: int := 60
  const BOSS_BITE: int := 25 * UNIT

  /** A campfire burns 0.025 of fuel; once out it is removed and the one cell
      under its position is freed. */
  function Burn(s: Scene, i: nat): (r: Scene)
    requires i < |s.es|
  {
    var e := s.es[i];
    var life := e.life - BURN;
    if life <= 0 then s.(es := RemoveAt(s.es, i), occ := s.occ - {WorldToGrid(e.x, e.y)})
    else s.(es := s.es[i := e.(life := life)])
  }

  /** A sapling counts its growth; past 1200 ticks it is removed and a tree
      is spawned at its position. */
  function Grow(s: Scene, i: nat): (r: Scene)
    requires i < |s.es|
  {
    var e := s.es[i];
    var t := e.growthTimer + 1;
    if t > GROWTH_WAIT then
      var placed := Spawned(RemoveAt(s.es, i), s.occ, Tree, e.x, e.y);
      s.(es := placed.0, occ := placed.1)
    else s.(es := s.es[i := e.(growthTimer := t)])
  }

  /** A rabbit steps to where `steer` says. */
  function Roam(s: Scene, i: nat, ctx: Ctx): (r: Scene)
    requires i < |s.es|
  {
    var e := s.es[i];
    var to := ctx.steer(e);
    s.(es := s.es[i := e.(x := to.0, y := to.1)])
  }

  /** A nightling (reach 55, wait 50, bite 8) or a boss wolf (reach 60, wait
      60, bite 25): it steps towards the player; if the player was within
      reach before the step, its attack timer ticks and, when it strikes,
      the player loses `bite` health. Outside the night it is removed. */
  function Hunt(s: Scene, i: nat, ctx: Ctx, reach: int, wait: int, bite: int): (r: Scene)
    requires i < |s.es|
  {
    var e := s.es[i];
    var near := DistSq(ctx.px, ctx.py, e.x, e.y) < reach * reach;
    var st := if near then Strike(e.attackTimer, wait) else (e.attackTimer, false);
    var to := ctx.steer(e);
    var es := s.es[i := e.(x := to.0, y := to.1, attackTimer := st.0)];
    var health := s.health - if st.1 then bite else 0;
    Scene(if ctx.night then es else RemoveAt(es, i), s.occ, health, s.inv)
  }

  /** A tower reloads and, with a creature in range and the cooldown run
      out, appends an arrow aimed at the nearest one. */
  function Guard(s: Scene, i: nat, ctx: Ctx): (r: Scene)
    requires i < |s.es|
  {
    var e := s.es[i];
    var target := Nearest(s.es, e.x, e.y, ctx.range(TowerRange(e)));
    var reload := Reload(e.cooldown, target.Some?);
    var es := s.es[i := e.(cooldown := reload.0)];
    if reload.1 && target.Some? && target.value < |s.es| then
      var v := ctx.aim(e, s.es[target.value]);
      s.(es := es + [NewArrow(e, v.0, v.1)])
    else s.(es := es)
  }

  /** An arrow ages; once its time is up it is removed. Otherwise it flies
      one step and lands. */
  function Fly(s: Scene, i: nat): (r: Scene)
    requires i < |s.es|
  {
    var e := s.es[i];
    if e.ttl - 1 <= 0 then s.(es := RemoveAt(s.es, i))
    else Land(s.(es := s.es[i := Moved(e)]), i, Moved(e))
  }

  /** An arrow one step further on, with one tick less to live. */
  function Moved(e: Entity): Entity {
    e.(ttl := e.ttl - 1, x := e.x + e.vx, y := e.y + e.vy)
  }

  /** An arrow with time left moves and then lands. */
  lemma FlyMoves(s: Scene, i: nat)
    requires i < |s.es| && s.es[i].ttl - 1 > 0
    ensures Fly(s, i) == Land(s.(es := s.es[i := Moved(s.es[i])]), i, Moved(s.es[i]))
  {
  }

  /** The arrow `a`, at index i, looks for the first creature it hits. */
  function Land(s: Scene, i: nat, a: Entity): (r: Scene)
    requires i < |s.es|
  {
    match FirstHit(s.es, a.x, a.y)
    case None => s
    case Some(h) => Wound(s, i, h, a.damage)
  }

  /** The creature at index h loses `damage` life and, when killed, is
      removed and looted; then the entry at the arrow's index i is removed.
      When the creature stood before the arrow, that index holds the entity
      after the arrow by then. */
  function Wound(s: Scene, i: nat, h: nat, damage: int): (r: Scene)
    requires i < |s.es| && h < |s.es|
  {
    var t := s.es[h];
    var life := t.life - damage;
    var hurt := s.es[h := t.(life := life)];
    if life <= 0 then s.(es := RemoveAt(RemoveAt(hurt, h), i), inv := Loot(s.inv, t.kind))
    else s.(es := RemoveAt(hurt, i))
  }

  /** The tower's kill pays a meat for a nightling, a big meat and 2 gold
      for a boss wolf. */
  function Loot(inv: Inventory, k: Kind): (r: Inventory)
    ensures Covers(r, inv)
    ensures k == Nightling ==> r == inv.(meat := inv.meat + 1)
    ensures k != Nightling ==> r == inv.(bigmeat := inv.bigmeat + 1, gold := inv.gold + 2)
  {
    if k == Nightling then inv.(meat := inv.meat + 1)
    else inv.(bigmeat := inv.bigmeat + 1, gold := inv.gold + 2)
  }

  /** The turn of the entity at index i. Resources and buildings other than
      campfires and towers do nothing. */
  function StepAt(s: Scene, i: nat, ctx: Ctx): (r: Scene)
    requires i < |s.es|
  {
    match s.es[i].kind
    case Campfire => Burn(s, i)
    case Sapling => Grow(s, i)
    case Rabbit => Roam(s, i, ctx)
    case Nightling => Hunt(s, i, ctx, NIGHTLING_REACH, NIGHTLING_WAIT, NIGHTLING_BITE)
    case BossWolf => Hunt(s, i, ctx, BOSS_REACH, BOSS_WAIT, BOSS_BITE)
    case Tower => Guard(s, i, ctx)
    case Arrow => Fly(s, i)
    case _ => s
  }

  /** The loop from index i to n - 1: an index the array no longer reaches
      is skipped. */
  function Visit(s: Scene, i: nat, n: nat, ctx: Ctx): (r: Scene)
    decreases n - i
  {
    if i >= n then s
    else Visit(if i < |s.es| then StepAt(s, i, ctx) else s, i + 1, n, ctx)
  }

  /** The whole loop of one tick. */
  function Turns(s: Scene, ctx: Ctx): (r: Scene) {
    Visit(s, 0, |s.es|, ctx)
  }

  /** The invariants of the loop's state: the world-grid invariant, no
      negative count in the inventory. */
  ghost predicate SceneOk(s: Scene) {
    GridOk(s.es, s.occ) && NonNegative(s.inv)
  }

  /** One turn keeps the world-grid invariant and the inventory
      non-negative, never heals the player, and only ever adds to the
      inventory. */
  lemma StepAtKeeps(s: Scene, i: nat, ctx: Ctx)
    requires i < |s.es| && SceneOk(s)
    ensures var r := StepAt(s, i, ctx);
      SceneOk(r) && r.health <= s.health && Covers(r.inv, s.inv)
  {
    var e := s.es[i];
    match e.kind
    case Campfire =>
      if e.life - BURN <= 0 {
        AnchorInFootprint(e);
        RemoveKeepsGridOk(s.es, s.occ, i, {WorldToGrid(e.x, e.y)});
      } else {
        ReplaceKeepsGridOk(s.es, s.occ, i, e.(life := e.life - BURN));
      }
    case Sapling =>
      if e.growthTimer + 1 > GROWTH_WAIT {
        DropKeepsGridOk(s.es, s.occ, i);
        SpawnedKeepsGridOk(RemoveAt(s.es, i), s.occ, Tree, e.x, e.y);
      } else {
        ReplaceKeepsGridOk(s.es, s.occ, i, e.(growthTimer := e.growthTimer + 1));
      }
    case Rabbit =>
      var to := ctx.steer(e);
      ReplaceKeepsGridOk(s.es, s.occ, i, e.(x := to.0, y := to.1));
    case Nightling => HuntKeeps(s, i, ctx, NIGHTLING_REACH, NIGHTLING_WAIT, NIGHTLING_BITE);
    case BossWolf => HuntKeeps(s, i, ctx, BOSS_REACH, BOSS_WAIT, BOSS_BITE);
    case Tower => GuardKeeps(s, i, ctx);
    case Arrow => FlyKeeps(s, i);
    case _ =>
  }

  lemma HuntKeeps(s: Scene, i: nat, ctx: Ctx, reach: int, wait: int, bite: int)
    requires i < |s.es| && SceneOk(s) && Hostile(s.es[i].kind) && bite >= 0
    ensures var r := Hunt(s, i, ctx, reach, wait, bite);
      SceneOk(r) && r.health <= s.health && r.inv == s.inv
  {
    var e := s.es[i];
    var near := DistSq(ctx.px, ctx.py, e.x, e.y) < reach * reach;
    var st := if near then Strike(e.attackTimer, wait) else (e.attackTimer, false);
    var to := ctx.steer(e);
    var e' := e.(x := to.0, y := to.1, attackTimer := st.0);
    ReplaceKeepsGridOk(s.es, s.occ, i, e');
    DropKeepsGridOk(s.es[i := e'], s.occ, i);
  }

  lemma GuardKeeps(s: Scene, i: nat, ctx: Ctx)
    requires i < |s.es| && SceneOk(s) && s.es[i].kind == Tower
    ensures var r := Guard(s, i, ctx);
      SceneOk(r) && r.health == s.health && r.inv == s.inv
  {
    var e := s.es[i];
    var target := Nearest(s.es, e.x, e.y, ctx.range(TowerRange(e)));
    var reload := Reload(e.cooldown, target.Some?);
    var e' := e.(cooldown := reload.0);
    ReplaceKeepsGridOk(s.es, s.occ, i, e');
    if reload.1 && target.Some? && target.value < |s.es| {
      var v := ctx.aim(e, s.es[target.value]);
      AppendFreeKeepsGridOk(s.es[i := e'], s.occ, NewArrow(e, v.0, v.1));
    }
  }

  lemma FlyKeeps(s: Scene, i: nat)
    requires i < |s.es| && SceneOk(s) && s.es[i].kind == Arrow
    ensures var r := Fly(s, i);
      SceneOk(r) && r.health == s.health && Covers(r.inv, s.inv)
  {
    var e := s.es[i];
    if e.ttl - 1 <= 0 {
      assert Fly(s, i) == s.(es := RemoveAt(s.es, i));
      DropKeepsGridOk(s.es, s.occ, i);
    } else {
      FlyMoves(s, i);
      FlightKeeps(s, i, Moved(e));
    }
  }

  lemma FlightKeeps(s: Scene, i: nat, a: Entity)
    requires i < |s.es| && SceneOk(s) && a.kind == Arrow && s.es[i].kind == Arrow
    ensures var r := Land(s.(es := s.es[i := a]), i, a);
      SceneOk(r) && r.health == s.health && Covers(r.inv, s.inv)
  {
    ReplaceKeepsGridOk(s.es, s.occ, i, a);
    LandKeeps(s.(es := s.es[i := a]), i, a);
  }

  lemma LandKeeps(s: Scene, i: nat, a: Entity)
    requires i < |s.es| && SceneOk(s)
    ensures var r := Land(s, i, a);
      SceneOk(r) && r.health == s.health && Covers(r.inv, s.inv)
  {
    match FirstHit(s.es, a.x, a.y)
    case None =>
    case Some(h) => WoundKeeps(s, i, h, a.damage);
  }

  lemma WoundKeeps(s: Scene, i: nat, h: nat, damage: int)
    requires i < |s.es| && h < |s.es| && SceneOk(s) && Hostile(s.es[h].kind)
    ensures var r := Wound(s, i, h, damage);
      SceneOk(r) && r.health == s.health && Covers(r.inv, s.inv)
  {
    var t := s.es[h];
    var hurt := s.es[h := t.(life := t.life - damage)];
    ReplaceKeepsGridOk(s.es, s.occ, h, t.(life := t.life - damage));
    var r := Wound(s, i, h, damage);
    if t.life - damage <= 0 {
      DropKeepsGridOk(hurt, s.occ, h);
      DropKeepsGridOk(RemoveAt(hurt, h), s.occ, i);
      assert r.es == RemoveAt(RemoveAt(hurt, h), i) && r.inv == Loot(s.inv, t.kind);
    } else {
      DropKeepsGridOk(hurt, s.occ, i);
      assert r.es == RemoveAt(hurt, i) && r.inv == s.inv;
    }
  }

  /** The whole loop keeps the world-grid invariant and a non-negative
      inventory, never heals the player and never takes from the
      inventory. */
  lemma {:induction false} VisitKeeps(s: Scene, i: nat, n: nat, ctx: Ctx)
    requires SceneOk(s)
    ensures var r := Visit(s, i, n, ctx);
      SceneOk(r) && r.health <= s.health && Covers(r.inv, s.inv)
    decreases n - i
  {
    if i < n {
      var s' := if i < |s.es| then StepAt(s, i, ctx) else s;
      if i < |s.es| {
        StepAtKeeps(s, i, ctx);
      }
      VisitKeeps(s', i + 1, n, ctx);
    }
  }

  /** A turn makes no entity but a tower's arrow and the tree of a grown
      sapling: the count of every other kind never goes up. */
  lemma StepAtCounts(s: Scene, i: nat, ctx: Ctx, k: Kind)
    requires i < |s.es| && k != Arrow && k != Tree
    ensures Count(StepAt(s, i, ctx).es, k) <= Count(s.es, k)
  {
    var e := s.es[i];
    match e.kind
    case Campfire =>
      CountRemoveAt(s.es, i, k);
      CountReplace(s.es, i, e.(life := e.life - BURN), k);
    case Sapling => GrowCounts(s, i, k);
    case Rabbit =>
      var to := ctx.steer(e);
      CountReplace(s.es, i, e.(x := to.0, y := to.1), k);
    case Nightling => HuntCounts(s, i, ctx, NIGHTLING_REACH, NIGHTLING_WAIT, NIGHTLING_BITE, k);
    case BossWolf => HuntCounts(s, i, ctx, BOSS_REACH, BOSS_WAIT, BOSS_BITE, k);
    case Tower => GuardCounts(s, i, ctx, k);
    case Arrow => FlyCounts(s, i, k);
    case _ =>
  }

  lemma GrowCounts(s: Scene, i: nat, k: Kind)
    requires i < |s.es| && k != Tree
    ensures Count(Grow(s, i).es, k) <= Count(s.es, k)
  {
    var e := s.es[i];
    var rest := RemoveAt(s.es, i);
    CountRemoveAt(s.es, i, k);
    CountReplace(s.es, i, e.(growthTimer := e.growthTimer + 1), k);
    SpawnedSpec(rest, s.occ, Tree, e.x, e.y);
    var placed := Spawned(rest, s.occ, Tree, e.x, e.y);
    if placed.0 != rest {
      assert placed.0 == rest + [placed.0[|rest|]];
      CountAppend(rest, placed.0[|rest|], k);
    }
  }

  lemma HuntCounts(s: Scene, i: nat, ctx: Ctx, reach: int, wait: int, bite: int, k: Kind)
    requires i < |s.es|
    ensures Count(Hunt(s, i, ctx, reach, wait, bite).es, k) <= Count(s.es, k)
  {
    var e := s.es[i];
    var near := DistSq(ctx.px, ctx.py, e.x, e.y) < reach * reach;
    var st := if near then Strike(e.attackTimer, wait) else (e.attackTimer, false);
    var to := ctx.steer(e);
    var e' := e.(x := to.0, y := to.1, attackTimer := st.0);
    CountReplace(s.es, i, e', k);
    CountRemoveAt(s.es[i := e'], i, k);
  }

  lemma GuardCounts(s: Scene, i: nat, ctx: Ctx, k: Kind)
    requires i < |s.es| && k != Arrow
    ensures Count(Guard(s, i, ctx).es, k) <= Count(s.es, k)
  {
    var e := s.es[i];
    var target := Nearest(s.es, e.x, e.y, ctx.range(TowerRange(e)));
    var reload := Reload(e.cooldown, target.Some?);
    var e' := e.(cooldown := reload.0);
    CountReplace(s.es, i, e', k);
    if reload.1 && target.Some? && target.value < |s.es| {
      var v := ctx.aim(e, s.es[target.value]);
      CountAppend(s.es[i := e'], NewArrow(e, v.0, v.1), k);
    }
  }

  lemma FlyCounts(s: Scene, i: nat, k: Kind)
    requires i < |s.es|
    ensures Count(Fly(s, i).es, k) <= Count(s.es, k)
  {
    var e := s.es[i];
    if e.ttl - 1 <= 0 {
      assert Fly(s, i) == s.(es := RemoveAt(s.es, i));
      CountRemoveAt(s.es, i, k);
    } else {
      FlyMoves(s, i);
      var s' := s.(es := s.es[i := Moved(e)]);
      CountReplace(s.es, i, Moved(e), k);
      match FirstHit(s'.es, Moved(e).x, Moved(e).y)
      case None =>
      case Some(h) => WoundCounts(s', i, h, Moved(e).damage, k);
    }
  }

  lemma WoundCounts(s: Scene, i: nat, h: nat, damage: int, k: Kind)
    requires i < |s.es| && h < |s.es|
    ensures Count(Wound(s, i, h, damage).es, k) <= Count(s.es, k)
  {
    var t := s.es[h];
    var hurt := s.es[h := t.(life := t.life - damage)];
    CountReplace(s.es, h, t.(life := t.life - damage), k);
    var r := Wound(s, i, h, damage);
    if t.life - damage <= 0 {
      CountRemoveAt(hurt, h, k);
      CountRemoveAt(RemoveAt(hurt, h), i, k);
      assert r.es == RemoveAt(RemoveAt(hurt, h), i);
    } else {
      CountRemoveAt(hurt, i, k);
      assert r.es == RemoveAt(hurt, i);
    }
  }

  /** Over the whole loop, likewise: the loop never adds a creature, a
      campfire or a resource other than a tree. */
  lemma {:induction false} VisitCounts(s: Scene, i: nat, n: nat, ctx: Ctx, k: Kind)
    requires k != Arrow && k != Tree
    ensures Count(Visit(s, i, n, ctx).es, k) <= Count(s.es, k)
    decreases n - i
  {
    if i < n {
      var s' := if i < |s.es| then StepAt(s, i, ctx) else s;
      if i < |s.es| {
        StepAtCounts(s, i, ctx, k);
      }
      VisitCounts(s', i + 1, n, ctx, k);
    }
  }

  /** A sapling never becomes a tree: the cell under a live sapling is in
      the occupancy set and is not freed when the sapling is removed, and
      it lies in the 2 x 2 square the tree would need, so the tree is never
      placed. The grown sapling just disappears and its cell stays taken. */
  lemma SaplingNeverGrows(s: Scene, i: nat)
    requires i < |s.es| && GridOk(s.es, s.occ)
    requires s.es[i].kind == Sapling && s.es[i].growthTimer >= GROWTH_WAIT
    ensures Grow(s, i) == s.(es := RemoveAt(s.es, i))
  {
    var e := s.es[i];
    var g := WorldToGrid(e.x, e.y);
    AnchorInFootprint(e);
    assert g in s.occ;
    assert g in Area(g, Size(Tree), Size(Tree));
  }

  /** An arrow that kills a creature standing before it in the array
      removes the entity right behind itself instead of itself: the arrow
      stays, and of the others only the creature and the entity after the
      arrow are gone. */
  lemma KillBehindRemovesNext(s: Scene, i: nat, h: nat, damage: int)
    requires h < i < |s.es| && s.es[h].life - damage <= 0
    ensures var r := Wound(s, i, h, damage);
      && (i + 1 < |s.es| ==> r.es == s.es[..h] + s.es[h + 1..i + 1] + s.es[i + 2..])
      && (i + 1 == |s.es| ==> r.es == s.es[..h] + s.es[h + 1..])
      && r.es[i - 1] == s.es[i]
  {
    var t := s.es[h];
    var hurt := s.es[h := t.(life := t.life - damage)];
    var once := s.es[..h] + s.es[h + 1..];
    assert RemoveAt(hurt, h) == once by {
      assert hurt[..h] == s.es[..h] && hurt[h + 1..] == s.es[h + 1..];
    }
    var r := Wound(s, i, h, damage);
    assert r.es == RemoveAt(once, i);
    if i + 1 < |s.es| {
      assert once[..i] == s.es[..h] + s.es[h + 1..i + 1];
      assert once[i + 1..] == s.es[i + 2..];
    } else {
      assert once[..i] == once;
    }
    assert once[i - 1] == s.es[i];
  }

  /** An arrow that kills a creature standing after it removes exactly the
      creature and itself. */
  lemma KillAheadRemovesArrow(s: Scene, i: nat, h: nat, damage: int)
    requires i < h < |s.es| && s.es[h].life - damage <= 0
    ensures Wound(s, i, h, damage).es == s.es[..i] + s.es[i + 1..h] + s.es[h + 1..]
  {
    var t := s.es[h];
    var hurt := s.es[h := t.(life := t.life - damage)];
    var once := s.es[..h] + s.es[h + 1..];
    assert RemoveAt(hurt, h) == once by {
      assert hurt[..h] == s.es[..h] && hurt[h + 1..] == s.es[h + 1..];
    }
    assert once[..i] == s.es[..i];
    assert once[i + 1..] == s.es[i + 1..h] + s.es[h + 1..];
  }

  /** A removal lets the next entity skip its turn: of two campfires about
      to go out, the first is removed and the second, moved into its index,
      keeps burning untouched until the next tick. */
  lemma RemovalSkipsNext(occ: set<Cell>, inv: Inventory, ctx: Ctx)
    ensures var first := NewEntity(Campfire, 25, 25).(life := BURN);
      var second := NewEntity(Campfire, 75, 25).(life := BURN);
      Turns(Scene([first, second], occ, 0, inv), ctx).es == [second]
  {
    var first := NewEntity(Campfire, 25, 25).(life := BURN);
    var second := NewEntity(Campfire, 75, 25).(life := BURN);
    var s := Scene([first, second], occ, 0, inv);
    var s1 := Burn(s, 0);
    assert s1.es == [second];
    assert Visit(s1, 1, 2, ctx) == Visit(s1, 2, 2, ctx);
  }

  /** Replacing the entry at i and then removing it is removing it. */
  lemma RemoveReplaced(es: seq<Entity>, i: nat, e: Entity)
    requires i < |es|
    ensures RemoveAt(es[i := e], i) == RemoveAt(es, i)
  {
    assert es[i := e][..i] == es[..i];
    assert es[i := e][i + 1..] == es[i + 1..];
  }

  /** n turns in a row of the campfire at index i, with nothing else
      happening in between and no refuelling, stopping once it is out. */
  function Burns(s: Scene, i: nat, n: nat): (r: Scene)
    requires i < |s.es|
    decreases n
  {
    if n == 0 then s
    else if s.es[i].life - BURN <= 0 then Burn(s, i)
    else Burns(Burn(s, i), i, n - 1)
  }

  /** While its fuel lasts, a campfire loses 0.025 a turn and nothing else
      in the scene changes. */
  lemma {:induction false} BurnsDown(s: Scene, i: nat, n: nat)
    requires i < |s.es| && s.es[i].life - BURN * n > 0
    ensures Burns(s, i, n) == s.(es := s.es[i := s.es[i].(life := s.es[i].life - BURN * n)])
    decreases n
  {
    if n > 0 {
      var e := s.es[i];
      var s1 := Burn(s, i);
      assert s1 == s.(es := s.es[i := e.(life := e.life - BURN)]);
      BurnsDown(s1, i, n - 1);
      assert s1.es[i := s1.es[i].(life := s1.es[i].life - BURN * (n - 1))]
          == s.es[i := e.(life := e.life - BURN * n)];
    }
  }

  /** A campfire with fuel f goes out on its turn number ceil(f / 0.025):
      it is removed and the cell under it is freed, and nothing else in the
      scene changes. */
  lemma {:induction false} GoesOut(s: Scene, i: nat)
    requires i < |s.es| && s.es[i].life > 0
    ensures var e := s.es[i];
      Burns(s, i, (e.life + BURN - 1) / BURN)
        == s.(es := RemoveAt(s.es, i), occ := s.occ - {WorldToGrid(e.x, e.y)})
    decreases s.es[i].life
  {
    var e := s.es[i];
    var k := (e.life + BURN - 1) / BURN;
    if e.life - BURN > 0 {
      var s1 := Burn(s, i);
      assert s1 == s.(es := s.es[i := e.(life := e.life - BURN)]);
      assert (s1.es[i].life + BURN - 1) / BURN == k - 1;
      GoesOut(s1, i);
      RemoveReplaced(s.es, i, e.(life := e.life - BURN));
    }
  }

  /** A freshly built campfire (fuel 100) still burns, at 0.025, after 3999
      turns and goes out on its 4000th. */
  lemma FreshCampfireLasts4000Turns(s: Scene, i: nat)
    requires i < |s.es| && s.es[i].kind == Campfire && s.es[i].life == 100 * UNIT
    ensures Burns(s, i, 3999) == s.(es := s.es[i := s.es[i].(life := BURN)])
    ensures Burns(s, i, 4000)
         == s.(es := RemoveAt(s.es, i), occ := s.occ - {WorldToGrid(s.es[i].x, s.es[i].y)})
  {
    BurnsDown(s, i, 3999);
    GoesOut(s, i);
  }

  /** The arrow `a` after k steps: k velocities further on, with k ticks
      less to live. */
  function Path(a: Entity, k: int): (p: Entity)
    ensures p.kind == a.kind && p.ttl == a.ttl - k
  {
    a.(ttl := a.ttl - k, x := a.x + k * a.vx, y := a.y + k * a.vy)
  }

  /** One step and then k more is k + 1 steps. */
  lemma PathShift(a: Entity, k: int)
    ensures Path(Moved(a), k) == Path(a, k + 1)
  {
    assert (k + 1) * a.vx == k * a.vx + a.vx;
    assert (k + 1) * a.vy == k * a.vy + a.vy;
  }

  /** No creature of `es` is hit at the arrow's k-th position. */
  predicate Clear(es: seq<Entity>, a: Entity, k: int) {
    FirstHit(es, Path(a, k).x, Path(a, k).y).None?
  }

  /** The arrow's own entry never stops another arrow: a harmless entry can
      be replaced by another one without changing what is hit. */
  lemma FirstHitIgnores(es: seq<Entity>, i: nat, b: Entity, x: int, y: int)
    requires i < |es| && !Hostile(es[i].kind) && !Hostile(b.kind)
    ensures FirstHit(es[i := b], x, y) == FirstHit(es, x, y)
  {
    var es' := es[i := b];
    assert forall j :: 0 <= j < |es| ==> (HitBy(es'[j], x, y) <==> HitBy(es[j], x, y));
    var r, r' := FirstHit(es, x, y), FirstHit(es', x, y);
    if r.Some? && r'.Some? {
      assert !(r.value < r'.value) && !(r'.value < r.value);
    }
  }

  /** n arrow turns in a row of the arrow at index i, with nothing else
      happening in between, stopping once an entry has been removed. */
  function Flights(s: Scene, i: nat, n: nat): (r: Scene)
    requires i < |s.es|
    decreases n
  {
    if n == 0 then s
    else
      var f := Fly(s, i);
      if n == 1 || |f.es| != |s.es| then f
      else Flights(f, i, n - 1)
  }

  /** The first step of an arrow that hits nothing there. */
  lemma FlyClear(s: Scene, i: nat)
    requires i < |s.es| && s.es[i].kind == Arrow && s.es[i].ttl > 1 && Clear(s.es, s.es[i], 1)
    ensures Fly(s, i) == s.(es := s.es[i := Path(s.es[i], 1)])
  {
    var a := s.es[i];
    assert Moved(a) == Path(a, 1);
    FirstHitIgnores(s.es, i, Moved(a), Moved(a).x, Moved(a).y);
  }

  /** What is clear for the arrow at its k + 1-th position is clear for
      the arrow one step on (entry `moved` of `es'`) at its k-th. */
  lemma ClearShift(es: seq<Entity>, i: nat, n: nat, es': seq<Entity>, moved: Entity)
    requires i < |es| && es[i].kind == Arrow
    requires moved == Moved(es[i]) && es' == es[i := moved]
    requires forall k :: 1 <= k <= n ==> Clear(es, es[i], k)
    ensures forall k :: 1 <= k < n ==> Clear(es', moved, k)
  {
    var a := es[i];
    forall k | 1 <= k < n
      ensures Clear(es', moved, k)
    {
      PathShift(a, k);
      assert Clear(es, a, k + 1);
      FirstHitIgnores(es, i, moved, Path(a, k + 1).x, Path(a, k + 1).y);
    }
  }

  /** An arrow that hits nothing on its way flies one velocity a turn for
      its first n turns, n below its time to live, and nothing else in the
      scene changes. */
  lemma {:induction false} FliesOn(s: Scene, i: nat, n: nat)
    requires i < |s.es| && s.es[i].kind == Arrow && n < s.es[i].ttl
    requires forall k :: 1 <= k <= n ==> Clear(s.es, s.es[i], k)
    ensures Flights(s, i, n) == s.(es := s.es[i := Path(s.es[i], n)])
    decreases n
  {
    var a := s.es[i];
    if n == 0 {
      assert s.es[i := Path(a, 0)] == s.es;
    } else {
      FlyClear(s, i);
      var f := Fly(s, i);
      if n > 1 {
        ClearShift(s.es, i, n, f.es, Moved(a));
        assert Path(a, 1) == Moved(a);
        FliesOn(f, i, n - 1);
        PathShift(a, n - 1);
        assert f.es[i := Path(Moved(a), n - 1)] == s.es[i := Path(a, n)];
      }
    }
  }

  /** An arrow that hits nothing on its way is removed on its turn number
      ttl, and nothing else in the scene changes. */
  lemma {:induction false} ArrowExpires(s: Scene, i: nat)
    requires i < |s.es| && s.es[i].kind == Arrow && s.es[i].ttl >= 1
    requires forall k :: 1 <= k < s.es[i].ttl ==> Clear(s.es, s.es[i], k)
    ensures Flights(s, i, s.es[i].ttl) == s.(es := RemoveAt(s.es, i))
    decreases s.es[i].ttl
  {
    var a := s.es[i];
    if a.ttl > 1 {
      FlyClear(s, i);
      var f := Fly(s, i);
      assert Path(a, 1) == Moved(a);
      ClearShift(s.es, i, a.ttl - 1, f.es, Moved(a));
      ArrowExpires(f, i);
      RemoveReplaced(s.es, i, Moved(a));
    }
  }

  /** A tower's fresh arrow that hits nothing flies 119 times and is
      removed on its 120th turn. */
  lemma FreshArrowLasts120Turns(s: Scene, i: nat, tower: Entity, vx: int, vy: int)
    requires i < |s.es| && s.es[i] == NewArrow(tower, vx, vy)
    requires forall k :: 1 <= k < 120 ==> Clear(s.es, s.es[i], k)
    ensures Flights(s, i, 119) == s.(es := s.es[i := Path(s.es[i], 119)])
    ensures Path(s.es[i], 119).ttl == 1
    ensures Flights(s, i, 120) == s.(es := RemoveAt(s.es, i))
  {
    FliesOn(s, i, 119);
    ArrowExpires(s, i);
  }
}
