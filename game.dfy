/** The game-rule engine: the state object of the source (clock, player,
    entity array, occupancy set, generated chunks, achievements and popup
    queue) as one class whose methods change it step by step. */
module World {
  import opened Options
  import opened Units
  import opened Geometry
  import opened Entities
  import opened Occupancy
  import opened Clock
  import opened Timers
  import opened Items
  import opened Achievements
  import opened Behaviours
  import opened Respawn
  import opened Survival

  /** The resources generateChunk scatters over a fresh chunk, in its
      order, and how many of each. */
  const ChunkKinds: seq<Kind> := [Tree, Rock, Bush, Grass, Flint, Stick, Rabbit]

  /** The position of a kind in ChunkKinds; 7 for the other kinds. */
  function KindIndex(k: Kind): (t: nat)
    ensures t <= |ChunkKinds|
    ensures t < |ChunkKinds| <==> k in ChunkKinds
    ensures t < |ChunkKinds| ==> ChunkKinds[t] == k
  {
    match k
    case Tree => 0
    case Rock => 1
    case Bush => 2
    case Grass => 3
    case Flint => 4
    case Stick => 5
    case Rabbit => 6
    case _ => 7
  }

  function Quota(k: Kind): nat {
    match k
    case Tree => 8
    case Rock => 5
    case Bush => 4
    case Grass => 6
    case Flint => 3
    case Stick => 5
    case Rabbit => 1
    case _ => 0
  }

  /** The positions of the resources of kind k of chunk c: the centre
      displaced by the drawn offsets. */
  function Around(centreX: int, centreY: int, c: Cell, k: Kind, offset: (Cell, Kind, nat) -> (int, int)): nat -> (int, int) {
    (i: nat) => (centreX + offset(c, k, i).0, centreY + offset(c, k, i).1)
  }

  /** The 5 x 5 block of chunks around chunk pc that loadChunksAroundPlayer
      covers. */
  function Window(pc: Cell): set<Cell> {
    Area((pc.0 - 2, pc.1 - 2), 5, 5)
  }

  /** What the first t kinds of ChunkKinds may add to kind k. */
  ghost function QuotaSoFar(k: Kind, t: int): int {
    if KindIndex(k) < t then Quota(k) else 0
  }

  /** Generating the kind at index t of ChunkKinds widens the quota of that
      kind alone. */
  lemma QuotaStep(k: Kind, t: int)
    requires 0 <= t < |ChunkKinds| && ChunkKinds[t] == k
    ensures QuotaSoFar(k, t) == 0 && QuotaSoFar(k, t + 1) == Quota(k)
    ensures forall k' :: k' != k ==> QuotaSoFar(k', t + 1) == QuotaSoFar(k', t)
  {
  }

  /** Once every kind of ChunkKinds is generated, each kind has its quota. */
  lemma QuotaDone()
    ensures forall k :: QuotaSoFar(k, |ChunkKinds|) == Quota(k)
  {
  }

  /** What the first t kinds of RefreshKinds may add to kind k. */
  ghost function Allowance(before: seq<Entity>, k: Kind, t: int): int {
    if KindIndex(k) < t then RefreshCount(Count(before, k), Target(k), Cap(k)) else 0
  }

  /** Refreshing the kind at index t of RefreshKinds widens the allowance
      of that kind alone. */
  lemma AllowanceStep(before: seq<Entity>, k: Kind, t: int)
    requires 0 <= t < |RefreshKinds| && RefreshKinds[t] == k
    ensures Allowance(before, k, t) == 0
    ensures Allowance(before, k, t + 1) == RefreshCount(Count(before, k), Target(k), Cap(k))
    ensures forall k' :: k' != k ==> Allowance(before, k', t + 1) == Allowance(before, k', t)
  {
    assert RefreshKinds == ChunkKinds;
  }

  /** A refresh that adds at most RefreshCount of each kind leaves every
      kind at most at its target, or at its count before if that was more. */
  lemma RefreshBounded(before: seq<Entity>, after: seq<Entity>)
    requires forall k :: Count(after, k) <= Count(before, k) + RefreshCount(Count(before, k), Target(k), Cap(k))
    ensures forall k :: Count(after, k) <= Max(Count(before, k), Target(k))
  {
    forall k ensures Count(after, k) <= Max(Count(before, k), Target(k)) {
      RefreshWithinShortfall(Count(before, k), Target(k), Cap(k));
    }
  }

  /** Appending one entity of kind k adds one to the count of k and leaves
      the other counts alone. */
  lemma CountOneMore(es: seq<Entity>, es': seq<Entity>, k: Kind)
    requires |es'| == |es| + 1 && es'[..|es|] == es && es'[|es|].kind == k
    ensures Count(es', k) == Count(es, k) + 1
    ensures forall k' :: k' != k ==> Count(es', k') == Count(es, k')
  {
    assert es' == es + [es'[|es|]];
    forall k' ensures Count(es', k') == Count(es, k') + if k' == k then 1 else 0 {
      CountAppend(es, es'[|es|], k');
    }
  }

  /** A summoning appends at most a nightling and then at most a boss wolf:
      the counts of those two kinds grow by what was appended and no other
      count moves. */
  lemma SummonedCounts(es: seq<Entity>, hunt: bool, n: Entity, rise: bool, b: Entity)
    requires n.kind == Nightling && b.kind == BossWolf
    ensures var es' := es + (if hunt then [n] else []) + (if rise then [b] else []);
      && es <= es'
      && (forall j :: |es| <= j < |es'| ==> es'[j].kind in {Nightling, BossWolf})
      && Count(es', Nightling) == Count(es, Nightling) + (if hunt then 1 else 0)
      && Count(es', BossWolf) == Count(es, BossWolf) + (if rise then 1 else 0)
      && (forall k :: k != Nightling && k != BossWolf ==> Count(es', k) == Count(es, k))
  {
    var mid := es + (if hunt then [n] else []);
    var es' := mid + (if rise then [b] else []);
    forall k
      ensures Count(es', k) == Count(es, k) + (if hunt && k == Nightling then 1 else 0)
                                            + (if rise && k == BossWolf then 1 else 0)
    {
      if hunt { CountAppend(es, n, k); } else { assert mid == es; }
      if rise { CountAppend(mid, b, k); } else { assert es' == mid; }
    }
  }

  /** The counters each checkAchievements call of `gather` sees, in order,
      after it removes an entity of kind k (`bonus`: the rock's gold draw).
      Removing anything else calls no check. */
  function Tally(c: Counters, k: Kind, bonus: bool): (cs: seq<Counters>)
    ensures forall i :: 0 <= i < |cs| ==> Dominates(cs[i], c)
    ensures forall i :: 0 < i < |cs| ==> Dominates(cs[i], cs[i - 1])
    ensures |cs| <= 2 && (|cs| == 2 <==> k == Rock && bonus)
  {
    match k
    case BossWolf =>
      [c.(killedBossWolves := c.killedBossWolves + 1, totalGold := c.totalGold + 2, totalMeat := c.totalMeat + 1)]
    case Nightling => [c.(killedNightlings := c.killedNightlings + 1, totalMeat := c.totalMeat + 1)]
    case Rabbit => [c.(totalMeat := c.totalMeat + 1)]
    case Tree => [c.(totalWood := c.totalWood + 3)]
    case Rock =>
      var gold := c.(totalGold := c.totalGold + if bonus then 1 else 0);
      (if bonus then [gold] else []) + [gold.(totalStone := c.totalStone + 2)]
    case _ => []
  }

  /** Successive checkAchievements calls, one per counters value. */
  function CheckAll(cs: seq<Counters>, unlocked: set<Badge>, p: Popup): (r: (set<Badge>, Popup))
    decreases |cs|
  {
    if cs == [] then (unlocked, p)
    else
      var first := Check(cs[0], unlocked, p);
      CheckAll(cs[1..], first.0, first.1)
  }

  /** A run of one check is that check. */
  lemma CheckAllOne(c: Counters, unlocked: set<Badge>, p: Popup)
    ensures CheckAll([c], unlocked, p) == Check(c, unlocked, p)
  {
    assert [c][1..] == [];
  }

  /** A run of two checks is the second applied to the result of the first. */
  lemma CheckAllPair(c: Counters, c': Counters, unlocked: set<Badge>, p: Popup)
    ensures var first := Check(c, unlocked, p);
      CheckAll([c, c'], unlocked, p) == Check(c', first.0, first.1)
  {
    var first := Check(c, unlocked, p);
    assert [c, c'][1..] == [c'];
    CheckAllOne(c', first.0, first.1);
  }

  /** Over counters that only grow, a run of checks raises exactly the flags
      of the badges the last counters reach: a check in between loses
      nothing and adds nothing. */
  lemma {:induction false} CheckAllRaises(cs: seq<Counters>, unlocked: set<Badge>, p: Popup)
    requires cs != []
    requires forall i :: 0 < i < |cs| ==> Dominates(cs[i], cs[i - 1])
    ensures forall b :: b in CheckAll(cs, unlocked, p).0 <==> b in unlocked || Reached(cs[|cs| - 1], b)
    decreases |cs|
  {
    var first := Check(cs[0], unlocked, p);
    if |cs| > 1 {
      CheckAllRaises(cs[1..], first.0, first.1);
      forall b | Reached(cs[0], b) ensures Reached(cs[|cs| - 1], b) {
        DominatesChain(cs, b);
      }
    }
  }

  /** Along a growing run of counters, a badge reached by the first is
      reached by the last. */
  lemma {:induction false} DominatesChain(cs: seq<Counters>, b: Badge)
    requires cs != []
    requires forall i :: 0 < i < |cs| ==> Dominates(cs[i], cs[i - 1])
    requires Reached(cs[0], b)
    ensures Reached(cs[|cs| - 1], b)
    decreases |cs|
  {
    if |cs| > 1 {
      ReachedStays(cs[0], cs[1], b);
      DominatesChain(cs[1..], b);
    }
  }

  /** The entity after a gather that leaves it in place, with life `life`:
      a creature is also knocked back to `knock`. */
  function Struck(e: Entity, life: int, knock: (int, int)): (e': Entity)
    ensures e'.kind == e.kind && e'.life == life
    ensures Footprint(e') == Footprint(e)
    ensures !Hostile(e.kind) ==> (e'.x, e'.y) == (e.x, e.y)
  {
    if Hostile(e.kind) then e.(life := life, x := knock.0, y := knock.1) else e.(life := life)
  }

  /** The counters, flags and popup after `craft` has paid for `item`:
      campfires and towers are counted, and the count is checked at once. */
  function Tallied(item: Item, c: Counters, unlocked: set<Badge>, p: Popup): (Counters, set<Badge>, Popup) {
    match item
    case CampfireItem =>
      var c' := c.(builtCampfires := c.builtCampfires + 1);
      var k := Check(c', unlocked, p);
      (c', k.0, k.1)
    case TowerItem =>
      var c' := c.(builtTowers := c.builtTowers + 1);
      var k := Check(c', unlocked, p);
      (c', k.0, k.1)
    case _ => (c, unlocked, p)
  }

  /** Only a campfire or a tower is counted, by one, and only then can a
      flag go up; no other counter moves. */
  lemma TalliedSpec(item: Item, c: Counters, unlocked: set<Badge>, p: Popup)
    ensures var r := Tallied(item, c, unlocked, p);
      && (item == CampfireItem ==> r.0 == c.(builtCampfires := c.builtCampfires + 1))
      && (item == TowerItem ==> r.0 == c.(builtTowers := c.builtTowers + 1))
      && (item in {CampfireItem, TowerItem} ==> (r.1, r.2) == Check(r.0, unlocked, p))
      && (item !in {CampfireItem, TowerItem} ==> r == (c, unlocked, p))
      && Dominates(r.0, c) && unlocked <= r.1
  {
  }

  /** The base marker after `craft` has paid for `item`: a bed always moves
      it 60 pixels right of the player; a beacon only founds one. */
  function Based(item: Item, hasBase: bool, baseX: int, baseY: int, px: int, py: int): (bool, int, int) {
    match item
    case BedItem => (true, px + 60, py)
    case BeaconItem => if hasBase then (hasBase, baseX, baseY) else (true, px + 60, py)
    case _ => (hasBase, baseX, baseY)
  }

  /** Once there is a base there stays one; only a bed moves an existing
      base, and nothing but a bed or a beacon touches the marker. */
  lemma BasedSpec(item: Item, hasBase: bool, baseX: int, baseY: int, px: int, py: int)
    ensures var r := Based(item, hasBase, baseX, baseY, px, py);
      && (hasBase ==> r.0)
      && (item == BedItem || (item == BeaconItem && !hasBase) ==> r == (true, px + 60, py))
      && (!(item == BedItem || (item == BeaconItem && !hasBase)) ==> r == (hasBase, baseX, baseY))
  {
  }

  /** What one tick of `update` reads from outside the state: the held
      direction keys, and the quantities the source draws at random or
      computes in floating point. */
  datatype TickInput = TickInput(
    up: bool, down: bool, left: bool, right: bool,
    // The step length: 5 pixels, less in rain, fog, snow or a storm.
    speed: int,
    // The offsets generateChunk draws for the chunks that get loaded.
    offset: (Cell, Kind, nat) -> (int, int),
    // Whether the nightling spawn draw succeeds, and where, relative to the
    // player, a nightling and a boss wolf appear.
    nightlingRoll: bool,
    nightlingAt: (int, int),
    bossAt: (int, int),
    // Where the i-th respawned resource of kind k appears.
    respawnAt: (Kind, nat) -> (int, int),
    // The entity loop's steering, tower range and aim (see Behaviours.Ctx).
    steer: Entity -> (int, int),
    towerRange: int -> int,
    aim: (Entity, Entity) -> (int, int))

  /** Whether the player holds a direction key on this tick. */
  predicate Moving(input: TickInput) {
    input.up || input.down || input.left || input.right
  }

  /** The survival part of a tick took the bars (`before`, `timer`) to
      (`after`, `timer'`) in cycle c, moved or not, lit or not: hunger,
      sanity and the darkness timer as Survive says, and health as it says
      or lower, for the creatures' bites come after. */
  predicate Endured(before: Vitals, timer: int, c: Cycle, moved: bool, lit: bool, after: Vitals, timer': int) {
    var r := Survive(before, timer, c, moved, lit);
    && timer' == r.timer
    && after == r.vitals.(health := after.health)
    && after.health <= r.vitals.health
  }

  /** The movement of `update`: the player at (x, y) facing `dir` ends at
      (x', y') facing `dir'`, by `speed` along each held key, turned by
      left and right. */
  predicate Moves(input: TickInput, x: int, y: int, dir: int, x': int, y': int, dir': int) {
    && x' == x - (if input.left then input.speed else 0) + (if input.right then input.speed else 0)
    && y' == y - (if input.up then input.speed else 0) + (if input.down then input.speed else 0)
    && dir' == if input.right then 1 else if input.left then -1 else dir
  }

  /** `loadChunksAroundPlayer` took the marks from `before` to `after`: the
      block around the player's chunk is marked, no other mark changed. */
  ghost predicate Loaded(px: int, py: int, before: map<Cell, bool>, after: map<Cell, bool>) {
    && (forall c :: c in Window(WorldToChunk(px, py)) ==> c in after && after[c])
    && (forall c :: c !in Window(WorldToChunk(px, py)) ==>
          (c in after <==> c in before) && (c in after ==> after[c] == before[c]))
  }

  /** Whether a tick's nightling draw brings one: it is night, fewer than
      the day's cap are about, and the draw succeeds. */
  predicate Hunts(es: seq<Entity>, day: int, cycle: Cycle, roll: bool) {
    cycle == Night && Count(es, Nightling) < MaxNightlings(day) && roll
  }

  /** The entities `es` after a tick's spawns, with the player at (x, y):
      a nightling at nightlingAt from them when `hunt`, then a boss wolf
      at bossAt from them when the blood moon rises. */
  function Summoned(es: seq<Entity>, hunt: bool, rise: bool, x: int, y: int,
                    nightlingAt: (int, int), bossAt: (int, int)): seq<Entity> {
    es + (if hunt then [NewEntity(Nightling, x + nightlingAt.0, y + nightlingAt.1)] else [])
       + (if rise then [NewEntity(BossWolf, x + bossAt.0, y + bossAt.1)] else [])
  }

  /** `respawnResources` took the entities from `before` to `after`: only
      resources and rabbits are appended, each kind by at most its
      RefreshCount and never past its target. */
  ghost predicate Refreshed(before: seq<Entity>, after: seq<Entity>) {
    && before <= after
    && (forall j :: |before| <= j < |after| ==> after[j].kind in RefreshKinds)
    && (forall k :: Count(after, k) <= Count(before, k) + RefreshCount(Count(before, k), Target(k), Cap(k)))
    && (forall k :: Count(after, k) <= Max(Count(before, k), Target(k)))
  }

  /** The entities after a tick's rollover check: the `summoned` ones,
      refreshed when the day ended (`rolled`) and unchanged otherwise. */
  ghost predicate Dawned(rolled: bool, summoned: seq<Entity>, after: seq<Entity>) {
    if rolled then Refreshed(summoned, after) else after == summoned
  }

  /** The badges and the popup after a tick's rollover check: a tick that
      ended the day checks the achievements on the new counters `c`; any
      other tick leaves the flags and the popup alone, so it shows no new
      badge. */
  ghost predicate Checked(rolled: bool, c: Counters, unlocked: set<Badge>, p: Popup, unlocked': set<Badge>, p': Popup) {
    if rolled then (unlocked', p') == Check(c, unlocked, p) else unlocked' == unlocked && p' == p
  }

  class Game {
    // The clock: `state.time`, `state.day`, `state.isBloodMoon`,
    // `state.darknessTimer`.
    var time: int
    var day: int
    var isBloodMoon: bool
    var darknessTimer: int
    // The base marker set by a bed or a beacon.
    var hasBase: bool
    var baseX: int
    var baseY: int
    // The player: position, facing, vitals, inventory and tools.
    var px: int
    var py: int
    var pdir: int
    var vitals: Vitals
    var inventory: Inventory
    var tools: Tools
    // The world: `state.entities`, `gridOccupied` and `state.chunks`
    // (keyed by cell rather than by its "x,y" string, see Keys).
    var entities: seq<Entity>
    var gridOccupied: set<Cell>
    var chunks: map<Cell, bool>
    // Achievements: the counters, the raised `unlocked_*` flags, and the
    // popup with `player.isPaused` and `pendingAchievements`.
    var counters: Counters
    var unlocked: set<Badge>
    var popup: Popup
    // Whether the craft, inventory or achievements panel is open.
    var panelOpen: bool

    /** The state invariant: the world-grid invariant, no negative count,
        every equipped tool has durability, vitals within their bars, and a
        clock within one day. */
    ghost predicate Valid()
      reads this
    {
      && GridOk(entities, gridOccupied)
      && NonNegative(inventory)
      && ToolsOk(tools)
      && VitalsOk(vitals)
      && 0 <= time < DAY_LENGTH
      && day >= 1
      && 0 <= darknessTimer <= DARKNESS_WAIT
    }

    /** `isGridAreaOccupied`: whether some cell of the w x h rectangle with
        top-left cell (gx, gy) is occupied. */
    method IsGridAreaOccupied(gx: int, gy: int, w: nat, h: nat) returns (b: bool)
      ensures b <==> exists c :: c in gridOccupied && InRect(c, (gx, gy), w, h)
      ensures b <==> !(Area((gx, gy), w, h) !! gridOccupied)
    {
      var dx := 0;
      while dx < w
        invariant 0 <= dx <= w
        invariant forall c :: c in gridOccupied ==> !InRect(c, (gx, gy), dx, h)
      {
        var dy := 0;
        while dy < h
          invariant 0 <= dy <= h
          invariant forall c :: c in gridOccupied ==> !InRect(c, (gx, gy), dx, h)
          invariant forall c :: c in gridOccupied ==> !InRect(c, (gx + dx, gy), 1, dy)
        {
          if (gx + dx, gy + dy) in gridOccupied {
            assert InRect((gx + dx, gy + dy), (gx, gy), w, h);
            return true;
          }
          dy := dy + 1;
        }
        dx := dx + 1;
      }
      return false;
    }

    /** `occupyGridArea`: adds exactly the cells of the rectangle. */
    method OccupyGridArea(gx: int, gy: int, w: nat, h: nat)
      modifies this`gridOccupied
      ensures gridOccupied == old(gridOccupied) + Area((gx, gy), w, h)
    {
      var dx := 0;
      while dx < w
        invariant 0 <= dx <= w
        invariant gridOccupied == old(gridOccupied) + Area((gx, gy), dx, h)
      {
        var dy := 0;
        while dy < h
          invariant 0 <= dy <= h
          invariant gridOccupied == old(gridOccupied) + Area((gx, gy), dx, h) + Area((gx + dx, gy), 1, dy)
        {
          AreaAddCell((gx + dx, gy), dy);
          gridOccupied := gridOccupied + {(gx + dx, gy + dy)};
          dy := dy + 1;
        }
        AreaAddColumn((gx, gy), dx, h);
        dx := dx + 1;
      }
    }

    /** `freeGridArea`: removes exactly the cells of the rectangle. */
    method FreeGridArea(gx: int, gy: int, w: nat, h: nat)
      modifies this`gridOccupied
      ensures gridOccupied == old(gridOccupied) - Area((gx, gy), w, h)
    {
      var dx := 0;
      while dx < w
        invariant 0 <= dx <= w
        invariant gridOccupied == old(gridOccupied) - Area((gx, gy), dx, h)
      {
        var dy := 0;
        while dy < h
          invariant 0 <= dy <= h
          invariant gridOccupied == old(gridOccupied) - (Area((gx, gy), dx, h) + Area((gx + dx, gy), 1, dy))
        {
          AreaAddCell((gx + dx, gy), dy);
          gridOccupied := gridOccupied - {(gx + dx, gy + dy)};
          dy := dy + 1;
        }
        AreaAddColumn((gx, gy), dx, h);
        dx := dx + 1;
      }
    }

    /** `spawnEntity(k, x, y)` with an explicit position. `placed` (not
        returned by the source) tells whether anything was added. */
    method SpawnAt(k: Kind, x: int, y: int) returns (placed: bool)
      requires GridOk(entities, gridOccupied)
      modifies this`entities, this`gridOccupied
      ensures unchanged(this`inventory, this`tools, this`vitals, this`time, this`day, this`counters, this`unlocked, this`popup)
      ensures (entities, gridOccupied) == Spawned(old(entities), old(gridOccupied), k, x, y)
      ensures placed <==> |entities| == |old(entities)| + 1
      ensures GridOk(entities, gridOccupied)
    {
      SpawnedKeepsGridOk(entities, gridOccupied, k, x, y);
      if NeedsGrid(k) {
        var g := WorldToGrid(x, y);
        var size := Size(k);
        var taken := IsGridAreaOccupied(g.0, g.1, size, size);
        if taken {
          return false;
        }
        var p := FootprintCentre(g, size);
        OccupyGridArea(g.0, g.1, size, size);
        entities := entities + [NewEntity(k, p.0, p.1)];
      } else {
        entities := entities + [NewEntity(k, x, y)];
      }
      return true;
    }

    /** One explicit spawn, seen from the counts: at most one entity, of
        kind k, is appended. */
    method SpawnOne(k: Kind, x: int, y: int)
      requires GridOk(entities, gridOccupied)
      modifies this`entities, this`gridOccupied
      ensures GridOk(entities, gridOccupied)
      ensures old(entities) <= entities && |entities| <= |old(entities)| + 1
      ensures forall j :: |old(entities)| <= j < |entities| ==> entities[j].kind == k
      ensures Count(entities, k) <= Count(old(entities), k) + 1
      ensures forall k' :: k' != k ==> Count(entities, k') == Count(old(entities), k')
    {
      var before := entities;
      var placed := SpawnAt(k, x, y);
      SpawnedSpec(before, old(gridOccupied), k, x, y);
      if placed {
        CountOneMore(before, entities, k);
      }
    }

    /** Spawns n entities of kind k, the i-th at position at(i). */
    method SpawnMany(k: Kind, n: nat, at: nat -> (int, int))
      requires GridOk(entities, gridOccupied)
      modifies this`entities, this`gridOccupied
      ensures GridOk(entities, gridOccupied)
      ensures old(entities) <= entities
      ensures forall j :: |old(entities)| <= j < |entities| ==> entities[j].kind == k
      ensures Count(entities, k) <= Count(old(entities), k) + n
      ensures forall k' :: k' != k ==> Count(entities, k') == Count(old(entities), k')
    {
      var i := 0;
      while i < n
        invariant 0 <= i <= n
        invariant GridOk(entities, gridOccupied)
        invariant old(entities) <= entities
        invariant forall j :: |old(entities)| <= j < |entities| ==> entities[j].kind == k
        invariant Count(entities, k) <= Count(old(entities), k) + i
        invariant forall k' :: k' != k ==> Count(entities, k') == Count(old(entities), k')
      {
        var p := at(i);
        SpawnOne(k, p.0, p.1);
        i := i + 1;
      }
    }

    /** `generateChunk`: scatters the resources of a fresh chunk around its
        centre, the i-th of kind k displaced by offset((cx, cy), k, i) (the
        source draws each offset at random). Spawns that land on occupied
        cells place nothing. */
    method GenerateChunk(cx: int, cy: int, offset: (Cell, Kind, nat) -> (int, int))
      requires GridOk(entities, gridOccupied)
      modifies this`entities, this`gridOccupied
      ensures GridOk(entities, gridOccupied)
      ensures old(entities) <= entities
      ensures forall j :: |old(entities)| <= j < |entities| ==> entities[j].kind in ChunkKinds
      ensures forall k :: Count(entities, k) <= Count(old(entities), k) + Quota(k)
      ensures forall k :: k !in ChunkKinds ==> Count(entities, k) == Count(old(entities), k)
    {
      var centreX := cx * CHUNK_PIXELS + CHUNK_PIXELS / 2;
      var centreY := cy * CHUNK_PIXELS + CHUNK_PIXELS / 2;
      var t := 0;
      while t < |ChunkKinds|
        invariant 0 <= t <= |ChunkKinds|
        invariant GridOk(entities, gridOccupied)
        invariant old(entities) <= entities
        invariant forall j :: |old(entities)| <= j < |entities| ==> entities[j].kind in ChunkKinds[..t]
        invariant forall k :: Count(entities, k) <= Count(old(entities), k) + QuotaSoFar(k, t)
      {
        var k := ChunkKinds[t];
        QuotaStep(k, t);
        SpawnMany(k, Quota(k), Around(centreX, centreY, (cx, cy), k, offset));
        t := t + 1;
      }
      assert ChunkKinds[..t] == ChunkKinds;
      QuotaDone();
      forall k ensures Count(old(entities), k) <= Count(entities, k) {
        CountPrefix(old(entities), entities, k);
      }
    }

    /** One step of loadChunksAroundPlayer: generates chunk c unless it is
        marked, and marks it. */
    method LoadChunk(c: Cell, offset: (Cell, Kind, nat) -> (int, int))
      requires GridOk(entities, gridOccupied)
      modifies this`entities, this`gridOccupied, this`chunks
      ensures GridOk(entities, gridOccupied)
      ensures old(entities) <= entities
      ensures chunks == old(chunks)[c := true]
      ensures forall k :: k !in ChunkKinds ==> Count(entities, k) == Count(old(entities), k)
      ensures c in old(chunks) && old(chunks)[c] ==> entities == old(entities) && gridOccupied == old(gridOccupied)
    {
      if !(c in chunks && chunks[c]) {
        GenerateChunk(c.0, c.1, offset);
        chunks := chunks[c := true];
      }
    }

    /** The inner loop of loadChunksAroundPlayer: loads the chunks
        (cx, cy - 2) .. (cx, cy + 2). */
    method LoadColumn(cx: int, cy: int, offset: (Cell, Kind, nat) -> (int, int))
      requires GridOk(entities, gridOccupied)
      modifies this`entities, this`gridOccupied, this`chunks
      ensures GridOk(entities, gridOccupied)
      ensures old(entities) <= entities
      ensures forall k :: k !in ChunkKinds ==> Count(entities, k) == Count(old(entities), k)
      ensures forall c :: InRect(c, (cx, cy - 2), 1, 5) ==> c in chunks && chunks[c]
      ensures forall c :: !InRect(c, (cx, cy - 2), 1, 5) ==>
        (c in chunks <==> c in old(chunks)) && (c in chunks ==> chunks[c] == old(chunks)[c])
      ensures (forall c :: InRect(c, (cx, cy - 2), 1, 5) ==> c in old(chunks) && old(chunks)[c]) ==>
        entities == old(entities) && gridOccupied == old(gridOccupied)
    {
      ghost var allMarked := forall c :: InRect(c, (cx, cy - 2), 1, 5) ==> c in chunks && chunks[c];
      var dy := -2;
      while dy <= 2
        invariant -2 <= dy <= 3
        invariant GridOk(entities, gridOccupied)
        invariant old(entities) <= entities
        invariant forall k :: k !in ChunkKinds ==> Count(entities, k) == Count(old(entities), k)
        invariant forall c :: InRect(c, (cx, cy - 2), 1, dy + 2) ==> c in chunks && chunks[c]
        invariant forall c :: !InRect(c, (cx, cy - 2), 1, dy + 2) ==>
          (c in chunks <==> c in old(chunks)) && (c in chunks ==> chunks[c] == old(chunks)[c])
        invariant allMarked ==> entities == old(entities) && gridOccupied == old(gridOccupied)
      {
        assert InRect((cx, cy + dy), (cx, cy - 2), 1, 5);
        LoadChunk((cx, cy + dy), offset);
        dy := dy + 1;
      }
    }

    /** `loadChunksAroundPlayer`: generates every chunk of the 5 x 5 block
        around the player's chunk that is not marked yet, and marks it. */
    method LoadChunksAroundPlayer(offset: (Cell, Kind, nat) -> (int, int))
      requires GridOk(entities, gridOccupied)
      modifies this`entities, this`gridOccupied, this`chunks
      ensures GridOk(entities, gridOccupied)
      ensures old(entities) <= entities
      // Only resources and rabbits are generated.
      ensures forall k :: k !in ChunkKinds ==> Count(entities, k) == Count(old(entities), k)
      // Every chunk of the block is marked afterwards; no other mark changes.
      ensures forall c :: c in Window(WorldToChunk(px, py)) ==> c in chunks && chunks[c]
      ensures forall c :: c !in Window(WorldToChunk(px, py)) ==>
        (c in chunks <==> c in old(chunks)) && (c in chunks ==> chunks[c] == old(chunks)[c])
      // Marked chunks are never generated again: with the whole block marked
      // already, nothing at all is spawned.
      ensures (forall c :: c in Window(WorldToChunk(px, py)) ==> c in old(chunks) && old(chunks)[c]) ==>
        entities == old(entities) && gridOccupied == old(gridOccupied)
    {
      var pc := WorldToChunk(px, py);
      var corner := (pc.0 - 2, pc.1 - 2);
      ghost var allMarked := forall c :: InRect(c, corner, 5, 5) ==> c in chunks && chunks[c];
      var dx := -2;
      while dx <= 2
        invariant -2 <= dx <= 3
        invariant GridOk(entities, gridOccupied)
        invariant old(entities) <= entities
        invariant forall k :: k !in ChunkKinds ==> Count(entities, k) == Count(old(entities), k)
        invariant forall c :: InRect(c, corner, dx + 2, 5) ==> c in chunks && chunks[c]
        invariant forall c :: !InRect(c, corner, dx + 2, 5) ==>
          (c in chunks <==> c in old(chunks)) && (c in chunks ==> chunks[c] == old(chunks)[c])
        invariant allMarked ==> entities == old(entities) && gridOccupied == old(gridOccupied)
      {
        LoadColumn(pc.0 + dx, pc.1, offset);
        dx := dx + 1;
      }
    }

    /** `checkAchievements`. */
    method CheckAchievements()
      modifies this`unlocked, this`popup
      ensures unchanged(this`entities, this`gridOccupied, this`inventory, this`tools, this`vitals, this`time, this`day, this`counters)
      ensures (unlocked, popup) == Check(counters, old(unlocked), old(popup))
    {
      var r := Check(counters, unlocked, popup);
      unlocked := r.0;
      popup := r.1;
    }

    /** `closeAchievementPopup`. */
    method CloseAchievementPopup()
      modifies this`popup
      ensures popup == Close(old(popup))
    {
      if popup.pending != [] {
        popup := Popup(true, Some(popup.pending[0]), popup.pending[1..]);
      } else {
        popup := NoPopup;
      }
    }

    /** `gather(entities[index], index)`: strikes, harvests or refuels the
        entity; `bonus` is the chance draw of a felled tree or a broken
        rock, and `knock` where a struck creature is knocked back to. */
    method Gather(index: nat, bonus: bool, knock: (int, int))
      requires Valid() && index < |entities|
      modifies this`entities, this`gridOccupied, this`inventory, this`tools
      modifies this`counters, this`unlocked, this`popup
      ensures Valid()
      ensures var e := old(entities)[index];
        var g := Items.Gather(e.kind, e.life, old(tools), old(inventory), bonus);
        && inventory == g.inv && tools == g.tools
        // A removed entity leaves the array; a grid-bound one frees the one
        // cell that holds its position and no other.
        && (g.removed ==> entities == RemoveAt(old(entities), index))
        && (g.removed && NeedsGrid(e.kind) ==> gridOccupied == old(gridOccupied) - {WorldToGrid(e.x, e.y)})
        && (!g.removed || !NeedsGrid(e.kind) ==> gridOccupied == old(gridOccupied))
        && (!g.removed ==> entities == old(entities)[index := Struck(e, g.life, knock)])
        // The counters a removal raises are checked once each, in order.
        && var cs := if g.removed then Tally(old(counters), e.kind, bonus) else [];
           && counters == (if cs == [] then old(counters) else cs[|cs| - 1])
           && (unlocked, popup) == CheckAll(cs, old(unlocked), old(popup))
    {
      var e := entities[index];
      var removed := Harvest(index, bonus, knock);
      if removed {
        Reward(e.kind, bonus);
      }
    }

    /** The part of `gather` that changes the world and the inventory;
        returns whether the entity was removed. */
    method Harvest(index: nat, bonus: bool, knock: (int, int)) returns (removed: bool)
      requires Valid() && index < |entities|
      modifies this`entities, this`gridOccupied, this`inventory, this`tools
      ensures Valid()
      ensures unchanged(this`counters, this`unlocked, this`popup)
      ensures var e := old(entities)[index];
        var g := Items.Gather(e.kind, e.life, old(tools), old(inventory), bonus);
        && removed == g.removed
        && inventory == g.inv && tools == g.tools
        && (g.removed ==> entities == RemoveAt(old(entities), index))
        && (g.removed && NeedsGrid(e.kind) ==> gridOccupied == old(gridOccupied) - {WorldToGrid(e.x, e.y)})
        && (!g.removed || !NeedsGrid(e.kind) ==> gridOccupied == old(gridOccupied))
        && (!g.removed ==> entities == old(entities)[index := Struck(e, g.life, knock)])
    {
      var e := entities[index];
      var g := Items.Gather(e.kind, e.life, tools, inventory, bonus);
      inventory := g.inv;
      tools := g.tools;
      removed := g.removed;
      if !removed {
        entities := entities[index := Struck(e, g.life, knock)];
        return;
      }
      if NeedsGrid(e.kind) {
        AnchorInFootprint(e);
        RemoveKeepsGridOk(entities, gridOccupied, index, {WorldToGrid(e.x, e.y)});
        gridOccupied := gridOccupied - {WorldToGrid(e.x, e.y)};
      } else {
        DropKeepsGridOk(entities, gridOccupied, index);
      }
      entities := RemoveAt(entities, index);
    }

    /** The part of `gather` that counts a removal of kind k and checks the
        achievements after each raise. */
    method Reward(k: Kind, bonus: bool)
      modifies this`counters, this`unlocked, this`popup
      ensures unchanged(this`entities, this`gridOccupied, this`inventory, this`tools, this`vitals, this`time, this`day)
      ensures var cs := Tally(old(counters), k, bonus);
        && counters == (if cs == [] then old(counters) else cs[|cs| - 1])
        && (unlocked, popup) == CheckAll(cs, old(unlocked), old(popup))
    {
      match k {
        case BossWolf =>
          RecordOne(counters.(killedBossWolves := counters.killedBossWolves + 1,
                              totalGold := counters.totalGold + 2,
                              totalMeat := counters.totalMeat + 1));
        case Nightling =>
          RecordOne(counters.(killedNightlings := counters.killedNightlings + 1,
                              totalMeat := counters.totalMeat + 1));
        case Rabbit =>
          RecordOne(counters.(totalMeat := counters.totalMeat + 1));
        case Tree =>
          RecordOne(counters.(totalWood := counters.totalWood + 3));
        case Rock =>
          RewardRock(bonus);
        case _ =>
      }
    }

    /** A broken rock: the gold of the chance draw is counted and checked
        first, then the stone. */
    method RewardRock(bonus: bool)
      modifies this`counters, this`unlocked, this`popup
      ensures unchanged(this`entities, this`gridOccupied, this`inventory, this`tools, this`vitals, this`time, this`day)
      ensures var cs := Tally(old(counters), Rock, bonus);
        && counters == cs[|cs| - 1]
        && (unlocked, popup) == CheckAll(cs, old(unlocked), old(popup))
    {
      if bonus {
        var gold := counters.(totalGold := counters.totalGold + 1);
        CheckAllPair(gold, gold.(totalStone := gold.totalStone + 2), unlocked, popup);
        Record(gold);
      }
      RecordOne(counters.(totalStone := counters.totalStone + 2));
    }

    /** Raises the counters to c and runs checkAchievements, as a run of one
        check. */
    method RecordOne(c: Counters)
      modifies this`counters, this`unlocked, this`popup
      ensures unchanged(this`entities, this`gridOccupied, this`inventory, this`tools, this`vitals, this`time, this`day)
      ensures counters == c
      ensures (unlocked, popup) == CheckAll([c], old(unlocked), old(popup))
    {
      CheckAllOne(c, unlocked, popup);
      Record(c);
    }

    /** `plantSapling`: with a pinecone, spends it, plants a sapling 20
        pixels below the player and counts it as planted (whether or not
        the cell was free). */
    method PlantSapling()
      requires Valid()
      modifies this`entities, this`gridOccupied, this`inventory
      modifies this`counters, this`unlocked, this`popup
      ensures Valid()
      ensures old(inventory.pinecone) > 0 ==>
        && inventory == old(inventory).(pinecone := old(inventory.pinecone) - 1)
        && (entities, gridOccupied) == Spawned(old(entities), old(gridOccupied), Sapling, px, py + 20)
        && counters == old(counters).(plantedTrees := old(counters.plantedTrees) + 1)
        && (unlocked, popup) == Check(counters, old(unlocked), old(popup))
      ensures old(inventory.pinecone) <= 0 ==> unchanged(this)
    {
      if inventory.pinecone > 0 {
        Plant();
        Record(counters.(plantedTrees := counters.plantedTrees + 1));
      }
    }

    /** Spends a pinecone and places the sapling. */
    method Plant()
      requires GridOk(entities, gridOccupied) && NonNegative(inventory) && inventory.pinecone > 0
      modifies this`entities, this`gridOccupied, this`inventory
      ensures inventory == old(inventory).(pinecone := old(inventory.pinecone) - 1)
      ensures NonNegative(inventory)
      ensures (entities, gridOccupied) == Spawned(old(entities), old(gridOccupied), Sapling, px, py + 20)
      ensures GridOk(entities, gridOccupied)
    {
      var placed := SpawnAt(Sapling, px, py + 20);
      inventory := inventory.(pinecone := inventory.pinecone - 1);
    }

    /** Raises the counters to c and runs checkAchievements. */
    method Record(c: Counters)
      modifies this`counters, this`unlocked, this`popup
      ensures unchanged(this`entities, this`gridOccupied, this`inventory, this`tools, this`vitals, this`time, this`day)
      ensures counters == c
      ensures (unlocked, popup) == Check(c, old(unlocked), old(popup))
    {
      counters := c;
      CheckAchievements();
    }

    /** `craft(item)`: when the inventory covers the recipe, pays it and
        either equips the tool or places the structure to the right of the
        player. The structure's materials are spent even when its cells
        are taken; a bed always moves the base marker, a beacon sets it
        only when there is none. */
    method Craft(item: Item)
      requires Valid()
      modifies this`entities, this`gridOccupied, this`inventory, this`tools
      modifies this`counters, this`unlocked, this`popup, this`hasBase, this`baseX, this`baseY
      ensures Valid()
      ensures (inventory, tools) == Items.Craft(old(inventory), old(tools), item)
      ensures var paid := Covers(old(inventory), Cost(item));
        && (paid && Builds(item).Some? ==>
              (entities, gridOccupied)
              == Spawned(old(entities), old(gridOccupied), Builds(item).value, px + BuildOffset(item), py))
        && (!paid || Builds(item).None? ==> entities == old(entities) && gridOccupied == old(gridOccupied))
        && (paid ==> (counters, unlocked, popup) == Tallied(item, old(counters), old(unlocked), old(popup))
                     && (hasBase, baseX, baseY) == Based(item, old(hasBase), old(baseX), old(baseY), px, py))
        && (!paid ==> counters == old(counters) && unlocked == old(unlocked) && popup == old(popup)
                      && hasBase == old(hasBase) && (baseX, baseY) == (old(baseX), old(baseY)))
    {
      var paid := Covers(inventory, Cost(item));
      Pay(item);
      if paid {
        Build(item);
      }
    }

    /** The part of `craft` that checks and pays the recipe and equips a
        crafted tool. */
    method Pay(item: Item)
      modifies this`inventory, this`tools
      ensures unchanged(this`entities, this`gridOccupied, this`vitals, this`time, this`day, this`counters, this`unlocked, this`popup, this`hasBase, this`baseX, this`baseY)
      ensures (inventory, tools) == Items.Craft(old(inventory), old(tools), item)
    {
      var r := Items.Craft(inventory, tools, item);
      inventory, tools := r.0, r.1;
    }

    /** What `craft` does once the recipe is paid: places the structure, if
        the item is one, and settles its counters and the base marker. */
    method Build(item: Item)
      requires GridOk(entities, gridOccupied)
      modifies this`entities, this`gridOccupied
      modifies this`counters, this`unlocked, this`popup, this`hasBase, this`baseX, this`baseY
      ensures GridOk(entities, gridOccupied)
      ensures unchanged(this`inventory, this`tools, this`vitals, this`time, this`day)
      ensures Builds(item).Some? ==>
        (entities, gridOccupied) == Spawned(old(entities), old(gridOccupied), Builds(item).value, px + BuildOffset(item), py)
      ensures Builds(item).None? ==> entities == old(entities) && gridOccupied == old(gridOccupied)
      ensures (counters, unlocked, popup) == Tallied(item, old(counters), old(unlocked), old(popup))
      ensures (hasBase, baseX, baseY) == Based(item, old(hasBase), old(baseX), old(baseY), px, py)
    {
      if Builds(item).Some? {
        var placed := SpawnAt(Builds(item).value, px + BuildOffset(item), py);
      }
      ghost var world := (entities, gridOccupied);
      CountBuilt(item);
      Found(item);
      assert (entities, gridOccupied) == world;
    }

    /** What `craft` does after placing a structure: counts campfires and
        towers and checks the achievements. */
    method CountBuilt(item: Item)
      modifies this`counters, this`unlocked, this`popup
      ensures unchanged(this`entities, this`gridOccupied, this`inventory, this`tools, this`vitals, this`time, this`day)
      ensures (counters, unlocked, popup) == Tallied(item, old(counters), old(unlocked), old(popup))
    {
      match item {
        case CampfireItem =>
          Record(counters.(builtCampfires := counters.builtCampfires + 1));
        case TowerItem =>
          Record(counters.(builtTowers := counters.builtTowers + 1));
        case _ =>
      }
    }

    /** A bed, or a beacon when there is no base yet, marks the base 60
        pixels right of the player. */
    method Found(item: Item)
      modifies this`hasBase, this`baseX, this`baseY
      ensures (hasBase, baseX, baseY) == Based(item, old(hasBase), old(baseX), old(baseY), px, py)
    {
      match item {
        case BedItem =>
          baseX, baseY := px + 60, py;
          hasBase := true;
        case BeaconItem =>
          if !hasBase {
            baseX, baseY := px + 60, py;
            hasBase := true;
          }
        case _ =>
      }
    }

    /** `eat(food)`. */
    method Eat(food: Food)
      requires NonNegative(inventory) && VitalsOk(vitals)
      modifies this`inventory, this`vitals
      ensures NonNegative(inventory) && VitalsOk(vitals)
      ensures old(Valid()) ==> Valid()
      ensures (inventory, vitals) == Items.Eat(food, old(inventory), old(vitals))
    {
      var r := Items.Eat(food, inventory, vitals);
      inventory := r.0;
      vitals := r.1;
    }

    /** The part of the state the entity loop changes. */
    function Now(): Scene
      reads this
    {
      Scene(entities, gridOccupied, vitals.health, inventory)
    }

    /** `freeGrid`: frees one cell. */
    method FreeGrid(gx: int, gy: int)
      modifies this`gridOccupied
      ensures gridOccupied == old(gridOccupied) - {(gx, gy)}
    {
      gridOccupied := gridOccupied - {(gx, gy)};
    }

    /** A campfire's turn. */
    method CampfireTurn(i: nat)
      requires i < |entities| && entities[i].kind == Campfire
      modifies this`entities, this`gridOccupied
      ensures unchanged(this`inventory, this`vitals, this`tools, this`time, this`day, this`counters, this`unlocked, this`popup)
      ensures Now() == Burn(old(Now()), i)
    {
      var e := entities[i];
      var life := e.life - BURN;
      if life <= 0 {
        var g := WorldToGrid(e.x, e.y);
        FreeGrid(g.0, g.1);
        entities := RemoveAt(entities, i);
      } else {
        entities := entities[i := e.(life := life)];
      }
    }

    /** A sapling's turn. */
    method SaplingTurn(i: nat)
      requires i < |entities| && entities[i].kind == Sapling && GridOk(entities, gridOccupied)
      modifies this`entities, this`gridOccupied
      ensures unchanged(this`inventory, this`vitals, this`tools, this`time, this`day, this`counters, this`unlocked, this`popup)
      ensures Now() == Grow(old(Now()), i)
    {
      var e := entities[i];
      var t := e.growthTimer + 1;
      if t > GROWTH_WAIT {
        DropKeepsGridOk(entities, gridOccupied, i);
        entities := RemoveAt(entities, i);
        var placed := SpawnAt(Tree, e.x, e.y);
      } else {
        entities := entities[i := e.(growthTimer := t)];
      }
    }

    /** A rabbit's turn. */
    method RabbitTurn(i: nat, ctx: Ctx)
      requires i < |entities|
      modifies this`entities
      ensures unchanged(this`gridOccupied, this`inventory, this`vitals, this`tools, this`time, this`day, this`counters, this`unlocked, this`popup)
      ensures Now() == Roam(old(Now()), i, ctx)
    {
      var e := entities[i];
      var to := ctx.steer(e);
      entities := entities[i := e.(x := to.0, y := to.1)];
    }

    /** The turn of a nightling or a boss wolf. */
    method HunterTurn(i: nat, ctx: Ctx, reach: int, wait: int, bite: int)
      requires i < |entities| && (ctx.px, ctx.py) == (px, py)
      modifies this`entities, this`vitals
      ensures unchanged(this`gridOccupied, this`inventory, this`tools, this`time, this`day, this`counters, this`unlocked, this`popup)
      ensures vitals == old(vitals).(health := vitals.health)
      ensures Now() == Hunt(old(Now()), i, ctx, reach, wait, bite)
    {
      var e := entities[i];
      var near := DistSq(px, py, e.x, e.y) < reach * reach;
      var st := if near then Strike(e.attackTimer, wait) else (e.attackTimer, false);
      if st.1 {
        Hurt(bite);
      }
      var to := ctx.steer(e);
      entities := entities[i := e.(x := to.0, y := to.1, attackTimer := st.0)];
      if !ctx.night {
        entities := RemoveAt(entities, i);
      }
    }

    /** The player loses `amount` health. */
    method Hurt(amount: int)
      modifies this`vitals
      ensures vitals == old(vitals).(health := old(vitals.health) - amount)
    {
      vitals := vitals.(health := vitals.health - amount);
    }

    /** A tower's turn. */
    method TowerTurn(i: nat, ctx: Ctx)
      requires i < |entities| && entities[i].kind == Tower
      modifies this`entities
      ensures unchanged(this`gridOccupied, this`inventory, this`vitals, this`tools, this`time, this`day, this`counters, this`unlocked, this`popup)
      ensures Now() == Guard(old(Now()), i, ctx)
    {
      var e := entities[i];
      var target := NearestTarget(entities, e.x, e.y, ctx.range(TowerRange(e)));
      var reload := Reload(e.cooldown, target.Some?);
      var all := entities;
      entities := entities[i := e.(cooldown := reload.0)];
      if reload.1 && target.Some? && target.value < |all| {
        var v := ctx.aim(e, all[target.value]);
        entities := entities + [NewArrow(e, v.0, v.1)];
      }
    }

    /** An arrow's turn. */
    method ArrowTurn(i: nat)
      requires i < |entities| && entities[i].kind == Arrow
      modifies this`entities, this`inventory
      ensures unchanged(this`gridOccupied, this`vitals, this`tools, this`time, this`day, this`counters, this`unlocked, this`popup)
      ensures Now() == Fly(old(Now()), i)
    {
      var e := entities[i];
      if e.ttl - 1 <= 0 {
        Discard(i);
      } else {
        ArrowFlies(i);
      }
    }

    /** The entity at index i is removed, as by `splice(i, 1)`. */
    method Discard(i: nat)
      modifies this`entities
      ensures entities == RemoveAt(old(entities), i)
    {
      entities := RemoveAt(entities, i);
    }

    /** The arrow at index i, with time to live left, moves one step and
        then lands. */
    method ArrowFlies(i: nat)
      requires i < |entities| && entities[i].ttl - 1 > 0
      modifies this`entities, this`inventory
      ensures unchanged(this`gridOccupied, this`vitals, this`tools, this`time, this`day, this`counters, this`unlocked, this`popup)
      ensures Now() == Fly(old(Now()), i)
    {
      ghost var s0 := Now();
      var e := entities[i];
      var a := Moved(e);
      FlyMoves(s0, i);
      Place(i, a);
      ArrowLands(i, a);
    }

    /** The entity at index i becomes `e`. */
    method Place(i: nat, e: Entity)
      requires i < |entities|
      modifies this`entities
      ensures entities == old(entities)[i := e]
    {
      entities := entities[i := e];
    }

    /** The arrow `a`, at index i, hits the first creature it reaches. */
    method ArrowLands(i: nat, a: Entity)
      requires i < |entities|
      modifies this`entities, this`inventory
      ensures unchanged(this`gridOccupied, this`vitals, this`tools, this`time, this`day, this`counters, this`unlocked, this`popup)
      ensures Now() == Land(old(Now()), i, a)
    {
      var hit := FirstHit(entities, a.x, a.y);
      if hit.Some? {
        var h := hit.value;
        var t := entities[h];
        var life := t.life - a.damage;
        var hurt := entities[h := t.(life := life)];
        if life <= 0 {
          // The creature is spliced out and looted before the arrow is.
          entities := RemoveAt(RemoveAt(hurt, h), i);
          inventory := Loot(inventory, t.kind);
        } else {
          entities := RemoveAt(hurt, i);
        }
      }
    }

    /** The turn of the entity at index i. */
    method EntityTurn(i: nat, ctx: Ctx)
      requires i < |entities| && GridOk(entities, gridOccupied) && (ctx.px, ctx.py) == (px, py)
      modifies this`entities, this`gridOccupied, this`vitals, this`inventory
      ensures unchanged(this`tools, this`time, this`day, this`counters, this`unlocked, this`popup)
      ensures vitals == old(vitals).(health := vitals.health)
      ensures Now() == StepAt(old(Now()), i, ctx)
    {
      match entities[i].kind {
        case Campfire => CampfireTurn(i);
        case Sapling => SaplingTurn(i);
        case Rabbit => RabbitTurn(i, ctx);
        case Nightling => HunterTurn(i, ctx, NIGHTLING_REACH, NIGHTLING_WAIT, NIGHTLING_BITE);
        case BossWolf => HunterTurn(i, ctx, BOSS_REACH, BOSS_WAIT, BOSS_BITE);
        case Tower => TowerTurn(i, ctx);
        case Arrow => ArrowTurn(i);
        case _ =>
      }
    }

    /** The entity loop of `update`: each index of the array as it was when
        the loop began gets its turn, unless removals have made the array
        too short to reach it. */
    method UpdateEntities(ctx: Ctx)
      requires GridOk(entities, gridOccupied) && NonNegative(inventory) && (ctx.px, ctx.py) == (px, py)
      modifies this`entities, this`gridOccupied, this`vitals, this`inventory
      ensures unchanged(this`tools, this`time, this`day, this`counters, this`unlocked, this`popup)
      ensures vitals == old(vitals).(health := vitals.health)
      ensures Now() == Turns(old(Now()), ctx)
      ensures GridOk(entities, gridOccupied) && NonNegative(inventory)
      ensures vitals.health <= old(vitals.health) && Covers(inventory, old(inventory))
      // The loop makes no entity but arrows and trees.
      ensures forall k :: k != Arrow && k != Tree ==> Count(entities, k) <= Count(old(entities), k)
    {
      var n := |entities|;
      VisitKeeps(Now(), 0, n, ctx);
      forall k | k != Arrow && k != Tree
        ensures Count(Turns(old(Now()), ctx).es, k) <= Count(old(entities), k)
      {
        VisitCounts(old(Now()), 0, n, ctx, k);
      }
      var i := 0;
      while i < n
        invariant 0 <= i <= n
        invariant Visit(Now(), i, n, ctx) == Turns(old(Now()), ctx)
        invariant GridOk(entities, gridOccupied) && NonNegative(inventory)
        invariant unchanged(this`tools, this`time, this`day, this`counters, this`unlocked, this`popup)
        invariant vitals == old(vitals).(health := vitals.health)
      {
        if i < |entities| {
          ghost var before := Now();
          StepAtKeeps(before, i, ctx);
          EntityTurn(i, ctx);
        }
        i := i + 1;
      }
    }

    /** `respawnResources`, at dawn: for each kind of RefreshKinds, in
        order, RefreshCount tries for the count the kind had before the
        refresh; the i-th try of kind k spawns at at(k, i). */
    method RespawnResources(at: (Kind, nat) -> (int, int))
      requires GridOk(entities, gridOccupied)
      modifies this`entities, this`gridOccupied
      ensures GridOk(entities, gridOccupied)
      ensures old(entities) <= entities
      ensures forall j :: |old(entities)| <= j < |entities| ==> entities[j].kind in RefreshKinds
      ensures forall k :: Count(entities, k) <= Count(old(entities), k) + RefreshCount(Count(old(entities), k), Target(k), Cap(k))
      // A refresh never takes a kind past its target: a kind below it
      // ends at most at it, and any other kind keeps its count.
      ensures forall k :: Count(entities, k) <= Max(Count(old(entities), k), Target(k))
    {
      var before := entities;
      assert RefreshKinds == ChunkKinds;
      var t := 0;
      while t < |RefreshKinds|
        invariant 0 <= t <= |RefreshKinds|
        invariant GridOk(entities, gridOccupied)
        invariant before <= entities
        invariant forall j :: |before| <= j < |entities| ==> entities[j].kind in RefreshKinds[..t]
        invariant forall k :: Count(entities, k) <= Count(before, k) + Allowance(before, k, t)
      {
        var k := RefreshKinds[t];
        AllowanceStep(before, k, t);
        SpawnMany(k, RefreshCount(Count(before, k), Target(k), Cap(k)), (i: nat) => at(k, i));
        t := t + 1;
      }
      RefreshBounded(before, entities);
    }

    /** The movement part of `update`: each held key moves the player by
        `speed`, and left or right turns them (right wins when both are
        held). */
    method Move(up: bool, down: bool, left: bool, right: bool, speed: int) returns (moved: bool)
      modifies this`px, this`py, this`pdir
      ensures px == old(px) - (if left then speed else 0) + (if right then speed else 0)
      ensures py == old(py) - (if up then speed else 0) + (if down then speed else 0)
      ensures pdir == if right then 1 else if left then -1 else old(pdir)
      ensures moved <==> up || down || left || right
    {
      moved := false;
      if up { py := py - speed; moved := true; }
      if down { py := py + speed; moved := true; }
      if left { px := px - speed; pdir := -1; moved := true; }
      if right { px := px + speed; pdir := 1; moved := true; }
    }

    /** The spawns of `update` in cycle `cycle`: a nightling at
        nightlingAt from the player, at night, while there are fewer than
        the day's cap and the draw succeeds; then the blood-moon machine,
        whose rising brings a boss wolf at bossAt from the player. */
    method Summon(cycle: Cycle, roll: bool, nightlingAt: (int, int), bossAt: (int, int))
      requires GridOk(entities, gridOccupied)
      modifies this`entities, this`gridOccupied, this`isBloodMoon
      ensures GridOk(entities, gridOccupied)
      ensures isBloodMoon == BloodMoon(old(isBloodMoon), day, cycle).0
      // Neither kind claims grid cells, so neither spawn can be refused:
      // the nightling and the boss wolf are appended at their positions.
      ensures gridOccupied == old(gridOccupied)
      ensures entities == Summoned(old(entities), Hunts(old(entities), day, cycle, roll),
                                   BloodMoon(old(isBloodMoon), day, cycle).1, px, py, nightlingAt, bossAt)
      // Nothing appears outside the night.
      ensures cycle != Night ==> entities == old(entities)
      // Exactly one nightling joins when it is night, fewer than the cap
      // are about and the draw succeeds; so the cap is never passed.
      ensures Count(entities, Nightling) == Count(old(entities), Nightling)
        + (if cycle == Night && Count(old(entities), Nightling) < MaxNightlings(day) && roll then 1 else 0)
      ensures Count(entities, Nightling) <= Max(Count(old(entities), Nightling), MaxNightlings(day))
      // Exactly one boss wolf comes as the blood moon rises.
      ensures Count(entities, BossWolf) == Count(old(entities), BossWolf) + (if BloodMoon(old(isBloodMoon), day, cycle).1 then 1 else 0)
      // Nothing but nightlings and boss wolves appears.
      ensures forall k :: k != Nightling && k != BossWolf ==> Count(entities, k) == Count(old(entities), k)
      ensures old(entities) <= entities
      ensures forall j :: |old(entities)| <= j < |entities| ==> entities[j].kind in {Nightling, BossWolf}
    {
      ghost var hunt := cycle == Night && Count(entities, Nightling) < MaxNightlings(day) && roll;
      ghost var rise := BloodMoon(isBloodMoon, day, cycle).1;
      SummonedCounts(entities, hunt, NewEntity(Nightling, px + nightlingAt.0, py + nightlingAt.1),
                     rise, NewEntity(BossWolf, px + bossAt.0, py + bossAt.1));
      if cycle == Night && Count(entities, Nightling) < MaxNightlings(day) && roll {
        SpawnCreature(Nightling, px + nightlingAt.0, py + nightlingAt.1);
      }
      var moon := BloodMoon(isBloodMoon, day, cycle);
      isBloodMoon := moon.0;
      if moon.1 {
        SpawnCreature(BossWolf, px + bossAt.0, py + bossAt.1);
      }
    }

    /** `spawnEntity` of a kind that claims no grid cell: it is always
        appended, exactly at (x, y). */
    method SpawnCreature(k: Kind, x: int, y: int)
      requires GridOk(entities, gridOccupied) && !NeedsGrid(k)
      modifies this`entities, this`gridOccupied
      ensures GridOk(entities, gridOccupied)
      ensures entities == old(entities) + [NewEntity(k, x, y)] && gridOccupied == old(gridOccupied)
    {
      var _ := SpawnAt(k, x, y);
    }

    /** The day rollover of `update`: the clock restarts on the next day,
        the day is counted as survived and as the longest run if it is,
        achievements are checked and resources respawn. */
    method Dawn(at: (Kind, nat) -> (int, int))
      requires GridOk(entities, gridOccupied)
      modifies this`time, this`day, this`counters, this`unlocked, this`popup, this`entities, this`gridOccupied
      ensures time == 0 && day == old(day) + 1
      ensures counters == old(counters).(survivedDays := old(counters).survivedDays + 1,
                                         maxDays := Max(old(counters).maxDays, day))
      ensures (unlocked, popup) == Check(counters, old(unlocked), old(popup))
      ensures GridOk(entities, gridOccupied) && old(entities) <= entities
      // The refresh: only resources and rabbits are added, each kind by at
      // most its RefreshCount and never past its target.
      ensures forall j :: |old(entities)| <= j < |entities| ==> entities[j].kind in RefreshKinds
      ensures forall k :: Count(entities, k) <= Count(old(entities), k) + RefreshCount(Count(old(entities), k), Target(k), Cap(k))
      ensures forall k :: Count(entities, k) <= Max(Count(old(entities), k), Target(k))
    {
      time := 0;
      day := day + 1;
      counters := counters.(survivedDays := counters.survivedDays + 1, maxDays := Max(counters.maxDays, day));
      CheckAchievements();
      RespawnResources(at);
    }

    /** Whether `update` does nothing: the achievement popup has paused the
        game, or a panel is open. */
    predicate Paused()
      reads this
    {
      popup.paused || panelOpen
    }

    /** `update`: one tick of the game rules. Paused, nothing changes.
        Otherwise the player moves, the chunks around them load, the clock
        advances, nightlings and the blood moon's boss may appear, a new
        day counts itself and respawns resources, the player's hunger,
        sanity and darkness timer move on, and every entity takes its turn
        in the light of the tick after the rollover. */
    method Update(input: TickInput)
      requires Valid()
      modifies this
      ensures Valid()
      ensures old(Paused()) ==> unchanged(this)
      // A tick never touches the tools, the base marker or the panels.
      ensures unchanged(this`tools, this`hasBase, this`baseX, this`baseY, this`panelOpen)
      // The clock: one tick, with the rollover at DAY_LENGTH.
      ensures !old(Paused()) ==>
        var tick := Advance(old(time), old(day));
        time == tick.time && day == tick.day
      // The blood-moon flag follows the cycle of the tick before the
      // rollover.
      ensures !old(Paused()) ==>
        isBloodMoon == BloodMoon(old(isBloodMoon), old(day), GetCycle(old(time) + 1)).0
      // A day is counted exactly when it ends.
      ensures !old(Paused()) ==>
        counters == if Advance(old(time), old(day)).rolled
          then old(counters).(survivedDays := old(counters).survivedDays + 1,
                              maxDays := Max(old(counters).maxDays, old(day) + 1))
          else old(counters)
      ensures !old(Paused()) ==> old(unlocked) <= unlocked
      // Only a tick that ends the day checks the achievements: any other
      // tick shows no new badge.
      ensures !old(Paused()) ==>
        Checked(Advance(old(time), old(day)).rolled, counters, old(unlocked), old(popup), unlocked, popup)
      // Hunger drains by the movement; the darkness only counts at night.
      ensures !old(Paused()) ==> vitals.hunger == Max(0, old(vitals.hunger) - HungerDrain(Moving(input)))
      ensures !old(Paused()) && GetCycle(old(time) + 1) != Night ==> darknessTimer == 0
      // Sanity, the darkness timer and health move as Survive says, unlit
      // or lit as the player stands once the tick's spawns are done; the
      // creatures' bites may take more health.
      ensures !old(Paused()) ==>
        || Endured(old(vitals), old(darknessTimer), GetCycle(old(time) + 1), Moving(input), false, vitals, darknessTimer)
        || Endured(old(vitals), old(darknessTimer), GetCycle(old(time) + 1), Moving(input), true, vitals, darknessTimer)
      // The player moves by the held keys, and the chunks around where
      // they end up are marked loaded.
      ensures !old(Paused()) ==> Moves(input, old(px), old(py), old(pdir), px, py, pdir)
      ensures !old(Paused()) ==> Loaded(px, py, old(chunks), chunks)
      // Nothing is ever taken from the inventory.
      ensures Covers(inventory, old(inventory))
    {
      if !Paused() {
        Step(input);
      }
    }

    /** An unpaused tick of `update`. */
    method Step(input: TickInput)
      requires Valid()
      modifies this`px, this`py, this`pdir, this`entities, this`gridOccupied, this`chunks
      modifies this`time, this`day, this`isBloodMoon, this`counters, this`unlocked, this`popup
      modifies this`vitals, this`darknessTimer, this`inventory
      ensures Valid()
      ensures var tick := Advance(old(time), old(day));
        time == tick.time && day == tick.day
      ensures isBloodMoon == BloodMoon(old(isBloodMoon), old(day), GetCycle(old(time) + 1)).0
      ensures counters == if Advance(old(time), old(day)).rolled
          then old(counters).(survivedDays := old(counters).survivedDays + 1,
                              maxDays := Max(old(counters).maxDays, old(day) + 1))
          else old(counters)
      ensures old(unlocked) <= unlocked
      // Only a tick that ends the day checks the achievements.
      ensures Checked(Advance(old(time), old(day)).rolled, counters, old(unlocked), old(popup), unlocked, popup)
      ensures Moves(input, old(px), old(py), old(pdir), px, py, pdir)
      ensures Loaded(px, py, old(chunks), chunks)
      ensures vitals.hunger == Max(0, old(vitals.hunger) - HungerDrain(Moving(input)))
      ensures || Endured(old(vitals), old(darknessTimer), GetCycle(old(time) + 1), Moving(input), false, vitals, darknessTimer)
              || Endured(old(vitals), old(darknessTimer), GetCycle(old(time) + 1), Moving(input), true, vitals, darknessTimer)
      ensures GetCycle(old(time) + 1) != Night ==> darknessTimer == 0
      ensures Covers(inventory, old(inventory))
    {
      var cycle, moved := Daybreak(input);
      ghost var lit := NearFire(entities, px, py);
      ghost var rolled := Advance(old(time), old(day)).rolled;
      ghost var badges := (unlocked, popup);
      Dusk(input, cycle, moved);
      assert (unlocked, popup) == badges;
      assert Endured(old(vitals), old(darknessTimer), cycle, moved, lit, vitals, darknessTimer);
    }

    /** The first half of a tick: the player moves, the chunks around them
        load, the clock advances, nightlings and the boss may appear, and a
        day that ends is counted and refreshes the resources. */
    method Daybreak(input: TickInput) returns (cycle: Cycle, moved: bool)
      requires GridOk(entities, gridOccupied) && 0 <= time < DAY_LENGTH && day >= 1
      modifies this`px, this`py, this`pdir, this`entities, this`gridOccupied, this`chunks
      modifies this`time, this`day, this`isBloodMoon, this`counters, this`unlocked, this`popup
      ensures GridOk(entities, gridOccupied) && 0 <= time < DAY_LENGTH && day >= 1
      ensures cycle == GetCycle(old(time) + 1) && (moved <==> Moving(input))
      ensures Moves(input, old(px), old(py), old(pdir), px, py, pdir)
      ensures Loaded(px, py, old(chunks), chunks)
      ensures var tick := Advance(old(time), old(day));
        time == tick.time && day == tick.day
      ensures isBloodMoon == BloodMoon(old(isBloodMoon), old(day), cycle).0
      ensures counters == if Advance(old(time), old(day)).rolled
          then old(counters).(survivedDays := old(counters).survivedDays + 1,
                              maxDays := Max(old(counters).maxDays, old(day) + 1))
          else old(counters)
      // The achievements are checked only when the day runs out.
      ensures Checked(Advance(old(time), old(day)).rolled, counters, old(unlocked), old(popup), unlocked, popup)
      ensures old(unlocked) <= unlocked
    {
      moved := Travel(input);
      cycle := Tock(input);
    }

    /** The player moves and the chunks around them load. Loading makes
        only resources and rabbits. */
    method Travel(input: TickInput) returns (moved: bool)
      requires GridOk(entities, gridOccupied)
      modifies this`px, this`py, this`pdir, this`entities, this`gridOccupied, this`chunks
      ensures GridOk(entities, gridOccupied) && (moved <==> Moving(input))
      ensures Moves(input, old(px), old(py), old(pdir), px, py, pdir)
      ensures Loaded(px, py, old(chunks), chunks)
      ensures old(entities) <= entities
      ensures forall k :: k !in ChunkKinds ==> Count(entities, k) == Count(old(entities), k)
    {
      moved := Move(input.up, input.down, input.left, input.right, input.speed);
      LoadChunksAroundPlayer(input.offset);
    }

    /** The clock advances; nightlings and the boss may appear; a day that
        ends is counted and refreshes the resources. */
    method Tock(input: TickInput) returns (cycle: Cycle)
      requires GridOk(entities, gridOccupied) && 0 <= time < DAY_LENGTH && day >= 1
      modifies this`entities, this`gridOccupied, this`time, this`day, this`isBloodMoon
      modifies this`counters, this`unlocked, this`popup
      ensures GridOk(entities, gridOccupied) && 0 <= time < DAY_LENGTH && day >= 1
      ensures cycle == GetCycle(old(time) + 1)
      ensures var tick := Advance(old(time), old(day));
        time == tick.time && day == tick.day
      ensures isBloodMoon == BloodMoon(old(isBloodMoon), old(day), cycle).0
      ensures counters == if Advance(old(time), old(day)).rolled
          then old(counters).(survivedDays := old(counters).survivedDays + 1,
                              maxDays := Max(old(counters).maxDays, old(day) + 1))
          else old(counters)
      // The tick's spawns; then, when the day runs out, the dawn's check
      // and refresh, and otherwise nothing else.
      ensures Dawned(Advance(old(time), old(day)).rolled,
                     Summoned(old(entities), Hunts(old(entities), old(day), cycle, input.nightlingRoll),
                              BloodMoon(old(isBloodMoon), old(day), cycle).1, px, py, input.nightlingAt, input.bossAt),
                     entities)
      ensures !Advance(old(time), old(day)).rolled ==> gridOccupied == old(gridOccupied)
      ensures Checked(Advance(old(time), old(day)).rolled, counters, old(unlocked), old(popup), unlocked, popup)
      ensures old(unlocked) <= unlocked
    {
      ghost var tick := Advance(time, day);
      cycle := GetCycle(time + 1);
      time := time + 1;
      assert tick.rolled == (time >= DAY_LENGTH);
      Summon(cycle, input.nightlingRoll, input.nightlingAt, input.bossAt);
      Rollover(input.respawnAt);
    }

    /** The rollover check of `update`, just after the clock has ticked:
        a day that has run out starts the next one. */
    method Rollover(at: (Kind, nat) -> (int, int))
      requires GridOk(entities, gridOccupied) && 1 <= time <= DAY_LENGTH && day >= 1
      modifies this`entities, this`gridOccupied, this`time, this`day
      modifies this`counters, this`unlocked, this`popup
      ensures GridOk(entities, gridOccupied) && day >= 1
      ensures var tick := Advance(old(time) - 1, old(day));
        && time == tick.time && day == tick.day
        && counters == if tick.rolled
          then old(counters).(survivedDays := old(counters).survivedDays + 1,
                              maxDays := Max(old(counters).maxDays, old(day) + 1))
          else old(counters)
      // A day that ran out runs the achievement check on the new counters
      // and refreshes the resources; otherwise nothing else changes.
      ensures Checked(old(time) >= DAY_LENGTH, counters, old(unlocked), old(popup), unlocked, popup)
      ensures Dawned(old(time) >= DAY_LENGTH, old(entities), entities)
      ensures old(time) < DAY_LENGTH ==> gridOccupied == old(gridOccupied)
      ensures old(unlocked) <= unlocked
    {
      if time >= DAY_LENGTH {
        Dawn(at);
      }
    }

    /** The second half of a tick: hunger, sanity, the darkness timer and
        health move on, then every entity takes its turn. */
    method Dusk(input: TickInput, cycle: Cycle, moved: bool)
      requires GridOk(entities, gridOccupied) && NonNegative(inventory) && VitalsOk(vitals)
      requires 0 <= darknessTimer <= DARKNESS_WAIT
      modifies this`vitals, this`darknessTimer, this`entities, this`gridOccupied, this`inventory
      ensures GridOk(entities, gridOccupied) && NonNegative(inventory) && VitalsOk(vitals)
      ensures 0 <= darknessTimer <= DARKNESS_WAIT
      ensures vitals.hunger == Max(0, old(vitals.hunger) - HungerDrain(moved))
      ensures cycle != Night ==> darknessTimer == 0
      // The bars move as Survive says, lit by the campfires and towers
      // around the player before any entity's turn; then the entities take
      // their turns from the health that leaves, in the light of the clock.
      ensures Endured(old(vitals), old(darknessTimer), cycle, moved, NearFire(old(entities), px, py), vitals, darknessTimer)
      ensures var r := Survive(old(vitals), old(darknessTimer), cycle, moved, NearFire(old(entities), px, py));
        Now() == Turns(Scene(old(entities), old(gridOccupied), r.vitals.health, old(inventory)),
                       Ctx(GetCycle(time) == Night, px, py, input.steer, input.towerRange, input.aim))
      ensures forall k :: k != Arrow && k != Tree ==> Count(entities, k) <= Count(old(entities), k)
      ensures Covers(inventory, old(inventory))
    {
      Endure(cycle, moved);
      UpdateEntities(Ctx(GetCycle(time) == Night, px, py, input.steer, input.towerRange, input.aim));
    }

    /** The survival part of `update`, lit by the campfires and towers
        around the player. */
    method Endure(cycle: Cycle, moved: bool)
      modifies this`vitals, this`darknessTimer
      ensures var r := Survive(old(vitals), old(darknessTimer), cycle, moved, NearFire(entities, px, py));
        vitals == r.vitals && darknessTimer == r.timer
    {
      var r := Survive(vitals, darknessTimer, cycle, moved, NearFire(entities, px, py));
      vitals := r.vitals;
      darknessTimer := r.timer;
    }

    /** The constructor's initial state, before the world is loaded: day 1
        at time 0, full bars, an empty inventory and no tools, every
        counter zero, no flag raised, and no entity, mark or chunk. */
    constructor()
      ensures Valid()
      ensures time == 0 && day == 1 && !isBloodMoon && darknessTimer == 0
      ensures (px, py, pdir) == (0, 0, 1)
      ensures vitals == Vitals(MAX_STAT, MAX_STAT, MAX_STAT)
      ensures inventory == EmptyInventory && tools == NoTools
      ensures !hasBase && (baseX, baseY) == (0, 0) && !panelOpen
      ensures counters == ZeroCounters && unlocked == {} && popup == NoPopup
      ensures entities == [] && gridOccupied == {} && chunks == map[]
    {
      time := 0;
      day := 1;
      isBloodMoon := false;
      darknessTimer := 0;
      hasBase := false;
      baseX := 0;
      baseY := 0;
      px := 0;
      py := 0;
      pdir := 1;
      vitals := Vitals(MAX_STAT, MAX_STAT, MAX_STAT);
      inventory := EmptyInventory;
      tools := NoTools;
      entities := [];
      gridOccupied := {};
      chunks := map[];
      counters := ZeroCounters;
      unlocked := {};
      popup := NoPopup;
      panelOpen := false;
    }

    /** The end of the constructor when no save is stored: `loadGame` falls
        back to `initWorld`, then `checkAchievements` runs once. */
    method Start(offset: (Cell, Kind, nat) -> (int, int))
      requires Valid()
      modifies this`entities, this`gridOccupied, this`chunks, this`unlocked, this`popup
      ensures Valid()
      ensures forall k :: k !in ChunkKinds ==> Count(entities, k) == 0
      ensures chunks.Keys == old(chunks.Keys) + Window(WorldToChunk(px, py))
      ensures Loaded(px, py, old(chunks), chunks)
      ensures (unlocked, popup) == Check(counters, old(unlocked), old(popup))
    {
      InitWorld(offset);
      CheckAchievements();
    }

    /** `initWorld`: clears the entities and the grid, keeps the chunk marks
        already made, and loads the 5 x 5 block around the player. */
    method InitWorld(offset: (Cell, Kind, nat) -> (int, int))
      modifies this`entities, this`gridOccupied, this`chunks
      ensures GridOk(entities, gridOccupied)
      ensures forall k :: k !in ChunkKinds ==> Count(entities, k) == 0
      ensures chunks.Keys == old(chunks.Keys) + Window(WorldToChunk(px, py))
      ensures Loaded(px, py, old(chunks), chunks)
    {
      entities := [];
      gridOccupied := {};
      LoadChunksAroundPlayer(offset);
      assert forall c :: c in chunks.Keys <==> c in old(chunks.Keys) + Window(WorldToChunk(px, py));
    }
  }
}
