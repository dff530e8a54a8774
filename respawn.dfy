/** The arithmetic of `respawnResources`: how many entities of each resource
    kind one dawn tries to add. */
module Respawn {
  import opened Units
  import opened Entities

  /** The kinds refreshed at dawn, in the order the source visits them. */
  const RefreshKinds: seq<Kind> := [Tree, Rock, Bush, Grass, Flint, Stick, Rabbit]

  /** The count a kind is topped up towards. */
  function Target(k: Kind): int {
    match k
    case Tree => 80
    case Rock => 50
    case Bush => 40
    case Grass => 70
    case Flint => 40
    case Stick => 50
    case Rabbit => 15
    case _ => 0
  }

  /** The count above which a kind is never topped up. */
  function Cap(k: Kind): int {
    match k
    case Tree => 120
    case Rock => 80
    case Bush => 60
    case Grass => 100
    case Flint => 60
    case Stick => 80
    case Rabbit => 25
    case _ => 0
  }

  /** `Math.ceil(need * 0.3)` for the shortfall `need` of a kind that is below
      both its target and its cap, written in integers; 0 otherwise. With
      no tree left a dawn tries 24 trees (a shortfall of 80), with 79 trees
      one, with 80 none; with no rabbit left it tries 5 rabbits. */
  function RefreshCount(current: int, target: int, max: int): (n: int)
    // The result is the least whole number at least 3/10 of the shortfall.
    ensures current < target && current < max ==>
      var need := Min(target - current, max - current);
      10 * (n - 1) < 3 * need <= 10 * n
    ensures !(current < target && current < max) ==> n == 0
  {
    if current < target && current < max then
      var need := Min(target - current, max - current);
      (3 * need + 9) / 10
    else 0
  }

  /** A refresh fills at most the shortfall: a kind below its target is
      never pushed past it, nor past its cap, and a kind short of its target
      always gets at least one more try. */
  lemma RefreshWithinShortfall(current: int, target: int, max: int)
    requires target <= max
    ensures var n := RefreshCount(current, target, max);
      && 0 <= n
      && current + n <= (if current < target then target else current)
      && (current < target ==> n >= 1)
  {
  }
}
