/** The player's inventory and tools, and the pure rules of `gather`,
    `craft` and `eat` over them. */
module Items {
  import opened Options
  import opened Units
  import opened Entities

  /** `player.inventory`: one count per resource kind. */
  datatype Inventory = Inventory(
    twig: int, flint: int, wood: int, stone: int, grass: int,
    berry: int, meat: int, bigmeat: int, gold: int, pinecone: int)

  const EmptyInventory := Inventory(0, 0, 0, 0, 0, 0, 0, 0, 0, 0)

  /** No count is negative. */
  predicate NonNegative(inv: Inventory) {
    && inv.twig >= 0 && inv.flint >= 0 && inv.wood >= 0 && inv.stone >= 0 && inv.grass >= 0
    && inv.berry >= 0 && inv.meat >= 0 && inv.bigmeat >= 0 && inv.gold >= 0 && inv.pinecone >= 0
  }

  /** Every count of `a` is at least the matching count of `b`. */
  predicate Covers(a: Inventory, b: Inventory) {
    && a.twig >= b.twig && a.flint >= b.flint && a.wood >= b.wood && a.stone >= b.stone
    && a.grass >= b.grass && a.berry >= b.berry && a.meat >= b.meat && a.bigmeat >= b.bigmeat
    && a.gold >= b.gold && a.pinecone >= b.pinecone
  }

  function Minus(a: Inventory, b: Inventory): (r: Inventory)
    ensures Covers(a, b) && NonNegative(b) ==> NonNegative(r) && Covers(a, r)
    ensures Covers(a, b) ==> Covers(r, EmptyInventory)
  {
    Inventory(a.twig - b.twig, a.flint - b.flint, a.wood - b.wood, a.stone - b.stone,
              a.grass - b.grass, a.berry - b.berry, a.meat - b.meat, a.bigmeat - b.bigmeat,
              a.gold - b.gold, a.pinecone - b.pinecone)
  }

  /** `player.tools`: a flag and a durability per tool. */
  datatype Tools = Tools(
    axe: bool, pickaxe: bool, spear: bool,
    axeDurability: int, pickaxeDurability: int, spearDurability: int)

  const NoTools := Tools(false, false, false, 0, 0, 0)

  datatype Tool = Axe | Pickaxe | Spear

  function Equipped(t: Tools, tool: Tool): bool {
    match tool
    case Axe => t.axe
    case Pickaxe => t.pickaxe
    case Spear => t.spear
  }

  function Durability(t: Tools, tool: Tool): int {
    match tool
    case Axe => t.axeDurability
    case Pickaxe => t.pickaxeDurability
    case Spear => t.spearDurability
  }

  /** A tool counts only if its flag is set and its durability is above 0. */
  predicate Usable(t: Tools, tool: Tool) {
    Equipped(t, tool) && Durability(t, tool) > 0
  }

  /** The tool invariant: a tool whose flag is set has durability left. */
  predicate ToolsOk(t: Tools) {
    && (t.axe ==> t.axeDurability > 0)
    && (t.pickaxe ==> t.pickaxeDurability > 0)
    && (t.spear ==> t.spearDurability > 0)
  }

  /** The tool `gather` strikes with: the spear, else the axe, else the
      pickaxe, whichever is usable first; None for bare hands. */
  function Weapon(t: Tools): (w: Option<Tool>)
    ensures w == Some(Spear) <==> Usable(t, Spear)
    ensures w == Some(Axe) <==> !Usable(t, Spear) && Usable(t, Axe)
    ensures w == Some(Pickaxe) <==> !Usable(t, Spear) && !Usable(t, Axe) && Usable(t, Pickaxe)
    ensures w == None <==> !Usable(t, Spear) && !Usable(t, Axe) && !Usable(t, Pickaxe)
  {
    if Usable(t, Spear) then Some(Spear)
    else if Usable(t, Axe) then Some(Axe)
    else if Usable(t, Pickaxe) then Some(Pickaxe)
    else None
  }

  /** Damage of a blow against a creature: 30 with the spear, 10 with the
      axe or the pickaxe, 5 bare-handed. */
  function Damage(t: Tools): (d: int)
    ensures Usable(t, Spear) ==> d == 30 * UNIT
    ensures !Usable(t, Spear) && (Usable(t, Axe) || Usable(t, Pickaxe)) ==> d == 10 * UNIT
    ensures Weapon(t) == None ==> d == 5 * UNIT
  {
    match Weapon(t)
    case Some(Spear) => 30 * UNIT
    case Some(_) => 10 * UNIT
    case None => 5 * UNIT
  }

  /** Wears a tool by `cost`; the flag is cleared as soon as durability is 0
      or less. The other tools are untouched. */
  function Wear(t: Tools, tool: Tool, cost: int): (r: Tools)
    ensures Durability(r, tool) == Durability(t, tool) - cost
    ensures Equipped(r, tool) <==> Equipped(t, tool) && Durability(r, tool) > 0
    ensures forall o :: o != tool ==> Equipped(r, o) == Equipped(t, o) && Durability(r, o) == Durability(t, o)
    ensures ToolsOk(t) ==> ToolsOk(r)
  {
    match tool
    case Axe =>
      var d := t.axeDurability - cost;
      t.(axeDurability := d, axe := t.axe && d > 0)
    case Pickaxe =>
      var d := t.pickaxeDurability - cost;
      t.(pickaxeDurability := d, pickaxe := t.pickaxe && d > 0)
    case Spear =>
      var d := t.spearDurability - cost;
      t.(spearDurability := d, spear := t.spear && d > 0)
  }

  /** Wears the spear by `cost` when it was the weapon of the blow. */
  function WearSpear(t: Tools, used: Option<Tool>, cost: int): (r: Tools)
    ensures used == Some(Spear) ==> r == Wear(t, Spear, cost)
    ensures used != Some(Spear) ==> r == t
  {
    if used == Some(Spear) then Wear(t, Spear, cost) else t
  }

  /** Refuelling a campfire of fuel `life`: wood first (+40), else grass
      (+15), else a twig (+10), capped at 100; exactly one unit of the fuel
      used is taken, and nothing happens without fuel. */
  function Refuel(life: int, inv: Inventory): (r: (int, Inventory))
    ensures inv.wood > 0 ==> r == (Min(100 * UNIT, life + 40 * UNIT), inv.(wood := inv.wood - 1))
    ensures inv.wood <= 0 && inv.grass > 0 ==> r == (Min(100 * UNIT, life + 15 * UNIT), inv.(grass := inv.grass - 1))
    ensures inv.wood <= 0 && inv.grass <= 0 && inv.twig > 0 ==> r == (Min(100 * UNIT, life + 10 * UNIT), inv.(twig := inv.twig - 1))
    ensures inv.wood <= 0 && inv.grass <= 0 && inv.twig <= 0 ==> r == (life, inv)
    ensures NonNegative(inv) ==> NonNegative(r.1)
  {
    if inv.wood > 0 then (Min(100 * UNIT, life + 40 * UNIT), inv.(wood := inv.wood - 1))
    else if inv.grass > 0 then (Min(100 * UNIT, life + 15 * UNIT), inv.(grass := inv.grass - 1))
    else if inv.twig > 0 then (Min(100 * UNIT, life + 10 * UNIT), inv.(twig := inv.twig - 1))
    else (life, inv)
  }

  /** What one `gather` does to the target's life, the tools and the
      inventory, and whether the target is removed. */
  datatype Gathered = Gathered(life: int, tools: Tools, inv: Inventory, removed: bool)

  /** Life a tree or a rock loses to one gather, whatever the tool. */
  const CHOP: int := 25 * UNIT

  /** `gather` on an entity of kind `k` with life `life`. `bonus` is the
      chance draw of the source: a twig from a felled tree (random > 0.6), a
      gold nugget from a broken rock (random > 0.7). */
  function Gather(k: Kind, life: int, t: Tools, inv: Inventory, bonus: bool): (r: Gathered)
    ensures NonNegative(inv) ==> NonNegative(r.inv)
    ensures ToolsOk(t) ==> ToolsOk(r.tools)
    ensures k != Campfire ==> Covers(r.inv, inv)
    // Durability is spent only on the blow that fells a tree, breaks a rock
    // or hits a creature with the spear.
    ensures Durability(r.tools, Axe) != Durability(t, Axe) ==> k == Tree && r.removed
    ensures Durability(r.tools, Pickaxe) != Durability(t, Pickaxe) ==> k == Rock && r.removed
    ensures Durability(r.tools, Spear) != Durability(t, Spear) ==> Hostile(k) && Weapon(t) == Some(Spear)
    ensures r.removed ==> k in {BossWolf, Nightling, Rabbit, Stick, Flint, Grass, Bush, Tree, Rock}
    ensures k in {Rabbit, Stick, Flint, Grass, Bush} ==> r.removed
    ensures k in {Tree, Rock} && r.removed ==> r.life <= 0
  {
    var used := Weapon(t);
    var dmg := Damage(t);
    match k
    case BossWolf =>
      var l := life - dmg;
      if l <= 0 then Gathered(l, WearSpear(t, used, 5), inv.(bigmeat := inv.bigmeat + 1, gold := inv.gold + 2), true)
      else Gathered(l, WearSpear(t, used, 1), inv, false)
    case Nightling =>
      var l := life - dmg;
      if l <= 0 then Gathered(l, WearSpear(t, used, 1), inv.(meat := inv.meat + 1), true)
      else Gathered(l, t, inv, false)
    case Rabbit => Gathered(life, t, inv.(meat := inv.meat + 1), true)
    case Stick => Gathered(life, t, inv.(twig := inv.twig + 1), true)
    case Flint => Gathered(life, t, inv.(flint := inv.flint + 1), true)
    case Grass => Gathered(life, t, inv.(grass := inv.grass + 1), true)
    case Bush => Gathered(life, t, inv.(berry := inv.berry + 1), true)
    case Tree =>
      if !Usable(t, Axe) then Gathered(life, t, inv, false)
      else
        var l := life - CHOP;
        if l <= 0 then
          Gathered(l, Wear(t, Axe, 2),
                   inv.(wood := inv.wood + 3, pinecone := inv.pinecone + 1,
                        twig := inv.twig + if bonus then 1 else 0), true)
        else Gathered(l, t, inv, false)
    case Rock =>
      if !Usable(t, Pickaxe) then Gathered(life, t, inv, false)
      else
        var l := life - CHOP;
        if l <= 0 then
          Gathered(l, Wear(t, Pickaxe, 2),
                   inv.(stone := inv.stone + 2, flint := inv.flint + 1,
                        gold := inv.gold + if bonus then 1 else 0), true)
        else Gathered(l, t, inv, false)
    case Campfire =>
      var f := Refuel(life, inv);
      Gathered(f.0, t, f.1, false)
    case Sapling | Tower | Bed | Beacon | Arrow => Gathered(life, t, inv, false)
  }

  /** Life and removal: a creature loses the weapon's damage and dies at 0
      life or less; a tree or a rock loses 25 to its tool and nothing
      without it. */
  lemma GatherLife(k: Kind, life: int, t: Tools, inv: Inventory, bonus: bool)
    ensures var r := Gather(k, life, t, inv, bonus);
      && (Hostile(k) ==> r.life == life - Damage(t) && (r.removed <==> r.life <= 0))
      && (k == Tree && Usable(t, Axe) ==> r.life == life - CHOP && (r.removed <==> r.life <= 0))
      && (k == Rock && Usable(t, Pickaxe) ==> r.life == life - CHOP && (r.removed <==> r.life <= 0))
      && ((k == Tree && !Usable(t, Axe)) || (k == Rock && !Usable(t, Pickaxe)) ==> r == Gathered(life, t, inv, false))
  {
  }

  /** What each removal pays; a blow that removes nothing pays nothing. */
  lemma GatherPays(k: Kind, life: int, t: Tools, inv: Inventory, bonus: bool)
    ensures var r := Gather(k, life, t, inv, bonus);
      && (k == BossWolf && r.removed ==> r.inv == inv.(bigmeat := inv.bigmeat + 1, gold := inv.gold + 2))
      && (k in {Nightling, Rabbit} ==> r.inv == if r.removed then inv.(meat := inv.meat + 1) else inv)
      && (k == Stick ==> r.inv == inv.(twig := inv.twig + 1))
      && (k == Flint ==> r.inv == inv.(flint := inv.flint + 1))
      && (k == Grass ==> r.inv == inv.(grass := inv.grass + 1))
      && (k == Bush ==> r.inv == inv.(berry := inv.berry + 1))
      && (k == Tree && r.removed ==>
          r.inv == inv.(wood := inv.wood + 3, pinecone := inv.pinecone + 1, twig := inv.twig + if bonus then 1 else 0))
      && (k == Rock && r.removed ==>
          r.inv == inv.(stone := inv.stone + 2, flint := inv.flint + 1, gold := inv.gold + if bonus then 1 else 0))
      && (k in {BossWolf, Tree, Rock} && !r.removed ==> r.inv == inv)
      && (k == Campfire ==> (r.life, r.inv) == Refuel(life, inv) && !r.removed)
  {
  }

  /** What each blow costs its tool: 2 for the axe or the pickaxe on the
      blow that fells or breaks; for the spear 1 on each blow at a boss wolf
      and 5 on the one that kills it, and 1 on the blow that kills a
      nightling. */
  lemma GatherWear(k: Kind, life: int, t: Tools, inv: Inventory, bonus: bool)
    ensures var r := Gather(k, life, t, inv, bonus);
      && (k == Tree && r.removed ==> r.tools == Wear(t, Axe, 2))
      && (k == Rock && r.removed ==> r.tools == Wear(t, Pickaxe, 2))
      && (k == BossWolf ==> r.tools == WearSpear(t, Weapon(t), if r.removed then 5 else 1))
      && (k == Nightling ==> r.tools == if r.removed then WearSpear(t, Weapon(t), 1) else t)
      && (!(k in {BossWolf, Nightling, Tree, Rock}) ==> r.tools == t)
  {
  }

  /** n gathers in a row on one entity of kind k (stopping once it is
      removed), with no chance draw: the final Gathered state. */
  function Hits(k: Kind, life: int, t: Tools, inv: Inventory, n: nat): (r: Gathered)
    decreases n
  {
    var g := Gather(k, life, t, inv, false);
    if n == 0 then Gathered(life, t, inv, false)
    else if n == 1 || g.removed then g
    else Hits(k, g.life, g.tools, g.inv, n - 1)
  }

  /** One more gather after n that removed nothing is one more blow on
      what the n left. */
  lemma {:induction false} HitsStep(k: Kind, life: int, t: Tools, inv: Inventory, n: nat)
    requires n >= 1 && !Hits(k, life, t, inv, n).removed
    ensures var h := Hits(k, life, t, inv, n);
      Hits(k, life, t, inv, n + 1) == Gather(k, h.life, h.tools, h.inv, false)
    decreases n
  {
    if n > 1 {
      var g := Gather(k, life, t, inv, false);
      HitsStep(k, g.life, g.tools, g.inv, n - 1);
    }
  }

  /** A fresh tree (life 100) and a usable axe: three gathers leave it
      standing at 25 with the axe unworn and nothing gained; the fourth fells
      it, gives 3 wood and 1 pinecone, and wears the axe by 2 in all. */
  lemma TreeFallsOnFourthChop(t: Tools, inv: Inventory)
    requires Usable(t, Axe)
    ensures Hits(Tree, 100 * UNIT, t, inv, 3) == Gathered(25 * UNIT, t, inv, false)
    ensures var r := Hits(Tree, 100 * UNIT, t, inv, 4);
      && r.removed
      && r.inv == inv.(wood := inv.wood + 3, pinecone := inv.pinecone + 1)
      && Durability(r.tools, Axe) == Durability(t, Axe) - 2
      && (Equipped(r.tools, Axe) <==> Durability(t, Axe) > 2)
  {
    assert Hits(Tree, 100 * UNIT, t, inv, 4) == Hits(Tree, 75 * UNIT, t, inv, 3);
    assert Hits(Tree, 75 * UNIT, t, inv, 3) == Hits(Tree, 50 * UNIT, t, inv, 2);
    assert Hits(Tree, 50 * UNIT, t, inv, 2) == Hits(Tree, 25 * UNIT, t, inv, 1);
  }

  /** A fresh rock (life 100) and a usable pickaxe: three gathers leave it
      at 25; the fourth breaks it for 2 stone and 1 flint and wears the
      pickaxe by 2. */
  lemma RockBreaksOnFourthHit(t: Tools, inv: Inventory)
    requires Usable(t, Pickaxe)
    ensures Hits(Rock, 100 * UNIT, t, inv, 3) == Gathered(25 * UNIT, t, inv, false)
    ensures var r := Hits(Rock, 100 * UNIT, t, inv, 4);
      && r.removed
      && r.inv == inv.(stone := inv.stone + 2, flint := inv.flint + 1)
      && Durability(r.tools, Pickaxe) == Durability(t, Pickaxe) - 2
  {
    assert Hits(Rock, 100 * UNIT, t, inv, 4) == Hits(Rock, 75 * UNIT, t, inv, 3);
    assert Hits(Rock, 75 * UNIT, t, inv, 3) == Hits(Rock, 50 * UNIT, t, inv, 2);
    assert Hits(Rock, 50 * UNIT, t, inv, 2) == Hits(Rock, 25 * UNIT, t, inv, 1);
  }

  /** n spear blows at a boss wolf that survives them all wear the spear
      by 1 each and take 30 life each. */
  lemma {:induction false} SpearBlows(life: int, t: Tools, inv: Inventory, n: nat)
    requires Usable(t, Spear) && t.spearDurability > n
    requires life - 30 * UNIT * n > 0
    ensures Hits(BossWolf, life, t, inv, n)
         == Gathered(life - 30 * UNIT * n, t.(spearDurability := t.spearDurability - n), inv, false)
    decreases n
  {
    if n > 0 {
      var t' := t.(spearDurability := t.spearDurability - 1);
      assert Gather(BossWolf, life, t, inv, false) == Gathered(life - 30 * UNIT, t', inv, false);
      if n > 1 {
        SpearBlows(life - 30 * UNIT, t', inv, n - 1);
      }
    }
  }

  /** A fresh boss wolf (life 1000) dies on the 34th spear blow, paying a
      big meat and 2 gold; the spear loses 1 on each of the 33 blows before
      and 5 on the last, 38 in all. */
  lemma BossWolfFallsOn34thBlow(t: Tools, inv: Inventory)
    requires Usable(t, Spear) && t.spearDurability > 33
    ensures Hits(BossWolf, 1000 * UNIT, t, inv, 33).life == 10 * UNIT
    ensures !Hits(BossWolf, 1000 * UNIT, t, inv, 33).removed
    ensures var r := Hits(BossWolf, 1000 * UNIT, t, inv, 34);
      && r.removed
      && r.inv == inv.(bigmeat := inv.bigmeat + 1, gold := inv.gold + 2)
      && Durability(r.tools, Spear) == Durability(t, Spear) - 38
  {
    SpearBlows(1000 * UNIT, t, inv, 33);
    HitsStep(BossWolf, 1000 * UNIT, t, inv, 33);
  }

  /** Without a usable axe a tree cannot be chopped at all. */
  lemma TreeNeedsAxe(life: int, t: Tools, inv: Inventory, bonus: bool)
    requires !Usable(t, Axe)
    ensures Gather(Tree, life, t, inv, bonus) == Gathered(life, t, inv, false)
  {
  }

  /** The craftable items. */
  datatype Item = AxeItem | PickaxeItem | SpearItem | CampfireItem | TowerItem | BedItem | BeaconItem

  /** What each recipe takes from the inventory. */
  function Cost(item: Item): (c: Inventory)
    ensures NonNegative(c)
  {
    match item
    case AxeItem => EmptyInventory.(twig := 2, flint := 2)
    case PickaxeItem => EmptyInventory.(twig := 2, flint := 2)
    case SpearItem => EmptyInventory.(wood := 1, gold := 1)
    case CampfireItem => EmptyInventory.(wood := 3, stone := 2)
    case TowerItem => EmptyInventory.(wood := 8, stone := 6, gold := 2)
    case BedItem => EmptyInventory.(wood := 6, grass := 8)
    case BeaconItem => EmptyInventory.(stone := 10, gold := 5)
  }

  /** The structure a building recipe places, None for a tool. */
  function Builds(item: Item): (k: Option<Kind>)
    ensures k.Some? ==> NeedsGrid(k.value)
  {
    match item
    case CampfireItem => Some(Campfire)
    case TowerItem => Some(Tower)
    case BedItem => Some(Bed)
    case BeaconItem => Some(Beacon)
    case _ => None
  }

  /** How far to the right of the player a structure is placed: 50 pixels
      for a campfire, 60 for the others. */
  function BuildOffset(item: Item): int {
    if item == CampfireItem then 50 else 60
  }

  /** The pure part of `craft`: when the inventory covers the recipe its cost
      is taken, and a tool recipe equips that tool with full durability
      (axe and pickaxe 30, spear 100). Otherwise nothing changes. The
      building recipes place their structure in the class, after paying. */
  function Craft(inv: Inventory, t: Tools, item: Item): (r: (Inventory, Tools))
    ensures Covers(inv, Cost(item)) ==> r.0 == Minus(inv, Cost(item))
    ensures !Covers(inv, Cost(item)) ==> r == (inv, t)
    ensures NonNegative(inv) ==> NonNegative(r.0)
    ensures ToolsOk(t) ==> ToolsOk(r.1)
    ensures Covers(inv, Cost(item)) && item == AxeItem ==> r.1 == t.(axe := true, axeDurability := 30)
    ensures Covers(inv, Cost(item)) && item == PickaxeItem ==> r.1 == t.(pickaxe := true, pickaxeDurability := 30)
    ensures Covers(inv, Cost(item)) && item == SpearItem ==> r.1 == t.(spear := true, spearDurability := 100)
    ensures Builds(item).Some? ==> r.1 == t
  {
    if !Covers(inv, Cost(item)) then (inv, t)
    else
      var paid := Minus(inv, Cost(item));
      match item
      case AxeItem => (paid, t.(axe := true, axeDurability := 30))
      case PickaxeItem => (paid, t.(pickaxe := true, pickaxeDurability := 30))
      case SpearItem => (paid, t.(spear := true, spearDurability := 100))
      case _ => (paid, t)
  }

  /** Health, hunger and sanity, in UNITs. */
  datatype Vitals = Vitals(health: int, hunger: int, sanity: int)

  predicate VitalsOk(v: Vitals) {
    v.health <= MAX_STAT && 0 <= v.hunger <= MAX_STAT && 0 <= v.sanity <= MAX_STAT
  }

  datatype Food = Berry | Meat | BigMeat

  /** `eat`: when the player has the food, one is taken and hunger, health
      and sanity rise by its amounts (berry 10/2/0, meat 25/5/5, big meat
      50/50/50), each capped at 100. Without the food nothing changes. */
  function Eat(food: Food, inv: Inventory, v: Vitals): (r: (Inventory, Vitals))
    ensures food == Berry && inv.berry > 0 ==>
      r == (inv.(berry := inv.berry - 1),
            Vitals(Min(MAX_STAT, v.health + 2 * UNIT), Min(MAX_STAT, v.hunger + 10 * UNIT), v.sanity))
    ensures food == Meat && inv.meat > 0 ==>
      r == (inv.(meat := inv.meat - 1),
            Vitals(Min(MAX_STAT, v.health + 5 * UNIT), Min(MAX_STAT, v.hunger + 25 * UNIT), Min(MAX_STAT, v.sanity + 5 * UNIT)))
    ensures food == BigMeat && inv.bigmeat > 0 ==>
      r == (inv.(bigmeat := inv.bigmeat - 1),
            Vitals(Min(MAX_STAT, v.health + 50 * UNIT), Min(MAX_STAT, v.hunger + 50 * UNIT), Min(MAX_STAT, v.sanity + 50 * UNIT)))
    ensures ((food == Berry && inv.berry <= 0) || (food == Meat && inv.meat <= 0)
             || (food == BigMeat && inv.bigmeat <= 0)) ==> r == (inv, v)
    ensures NonNegative(inv) ==> NonNegative(r.0)
    ensures VitalsOk(v) ==> VitalsOk(r.1)
    ensures VitalsOk(v) ==> r.1.health >= v.health && r.1.hunger >= v.hunger && r.1.sanity >= v.sanity
  {
    match food
    case Berry =>
      if inv.berry > 0 then
        (inv.(berry := inv.berry - 1),
         v.(hunger := Min(MAX_STAT, v.hunger + 10 * UNIT), health := Min(MAX_STAT, v.health + 2 * UNIT)))
      else (inv, v)
    case Meat =>
      if inv.meat > 0 then
        (inv.(meat := inv.meat - 1),
         Vitals(Min(MAX_STAT, v.health + 5 * UNIT), Min(MAX_STAT, v.hunger + 25 * UNIT), Min(MAX_STAT, v.sanity + 5 * UNIT)))
      else (inv, v)
    case BigMeat =>
      if inv.bigmeat > 0 then
        (inv.(bigmeat := inv.bigmeat - 1),
         Vitals(Min(MAX_STAT, v.health + 50 * UNIT), Min(MAX_STAT, v.hunger + 50 * UNIT), Min(MAX_STAT, v.sanity + 50 * UNIT)))
      else (inv, v)
  }
}
