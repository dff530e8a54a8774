/** The player's survival step of one tick: hunger drain, the darkness
    attack, sanity drain and recovery, and the health cost of an empty
    hunger or sanity bar. */
module Survival {
  import opened Units
  import opened Clock
  import opened Timers
  import opened Items

  /** Hunger lost per tick: 0.015 when the player moved, 0.005 otherwise. */
  function HungerDrain(moved: bool): int {
    if moved then 15 else 5
  }

  /** The outcome of one tick: the new vitals, the new darkness timer and
      whether the darkness struck. */
  datatype Survived = Survived(vitals: Vitals, timer: int, struck: bool)

  /** One survival tick of a player with vitals `v` and darkness timer
      `timer`, in cycle `c`, who moved or not, and who is lit or not by a
      campfire or tower. */
  function Survive(v: Vitals, timer: int, c: Cycle, moved: bool, lit: bool): (r: Survived)
    // Hunger drains by the amount of the movement, never below 0.
    ensures r.vitals.hunger == Max(0, v.hunger - HungerDrain(moved))
    // The darkness counts unlit night ticks only, and strikes once it
    // passes 90.
    ensures (r.timer, r.struck) == Darkness(timer, c == Night && !lit)
    // Unlit at night sanity drains by 0.05, unlit at dusk by 0.01; otherwise
    // it recovers by 0.08 up to 100.
    ensures c == Night && !lit ==> r.vitals.sanity == Max(0, v.sanity - 50)
    ensures c == Dusk && !lit ==> r.vitals.sanity == Max(0, v.sanity - 10)
    ensures (c == Day || lit) && v.sanity < MAX_STAT ==> r.vitals.sanity == Min(MAX_STAT, v.sanity + 80)
    ensures (c == Day || lit) && v.sanity >= MAX_STAT ==> r.vitals.sanity == v.sanity
    // Health falls by 10 on a darkness strike, by 0.03 with an empty hunger
    // bar and by 0.04 with an empty sanity bar, and by nothing else.
    ensures r.vitals.health == v.health
      - (if r.struck then 10 * UNIT else 0)
      - (if r.vitals.hunger <= 0 then 30 else 0)
      - (if r.vitals.sanity <= 0 then 40 else 0)
    ensures VitalsOk(v) ==> VitalsOk(r.vitals)
  {
    var hunger := Max(0, v.hunger - HungerDrain(moved));
    var dark := c == Night && !lit;
    var d := Darkness(timer, dark);
    var sanity :=
      if dark then Max(0, v.sanity - 50)
      else if c == Dusk && !lit then Max(0, v.sanity - 10)
      else if v.sanity < MAX_STAT then Min(MAX_STAT, v.sanity + 80)
      else v.sanity;
    var health := v.health - (if d.1 then 10 * UNIT else 0);
    var health' := health - (if hunger <= 0 then 30 else 0);
    var health'' := health' - (if sanity <= 0 then 40 else 0);
    Survived(Vitals(health'', hunger, sanity), d.0, d.1)
  }

  /** n survival ticks in a row with the same cycle, movement and light. */
  function SurviveRun(v: Vitals, timer: int, c: Cycle, moved: bool, lit: bool, n: nat): (r: Survived)
    decreases n
  {
    if n == 0 then Survived(v, timer, false)
    else
      var s := Survive(v, timer, c, moved, lit);
      var rest := SurviveRun(s.vitals, s.timer, c, moved, lit, n - 1);
      Survived(rest.vitals, rest.timer, s.struck || rest.struck)
  }

  /** A lit player is never struck by the darkness, and a player standing in
      light with food and sanity left loses no health at all. */
  lemma {:induction false} LightIsSafe(v: Vitals, timer: int, c: Cycle, moved: bool, n: nat)
    requires VitalsOk(v) && v.sanity > 0
    requires v.hunger > HungerDrain(moved) * n
    ensures var r := SurviveRun(v, timer, c, moved, true, n);
      !r.struck && r.vitals.health == v.health && r.vitals.sanity > 0
      && r.vitals.hunger == v.hunger - HungerDrain(moved) * n
    decreases n
  {
    if n > 0 {
      var s := Survive(v, timer, c, moved, true);
      assert s.vitals.sanity > 0;
      LightIsSafe(s.vitals, s.timer, c, moved, n - 1);
    }
  }

  /** An unlit night costs health: with a reset timer, the player is struck
      for the first time on the 91st unlit night tick, and not before. */
  lemma {:induction false} DarknessStrikesOn91st(v: Vitals, moved: bool, n: nat)
    requires n <= 91
    ensures var r := SurviveRun(v, 0, Night, moved, false, n);
      r.struck <==> n == 91
  {
    DarkRun(v, 0, moved, n);
  }

  /** The timer of a run of unlit night ticks from a timer t <= 90 reads t + n
      and has not struck while t + n <= 90; the tick after that strikes. */
  lemma {:induction false} DarkRun(v: Vitals, t: int, moved: bool, n: nat)
    requires 0 <= t <= DARKNESS_WAIT && t + n <= DARKNESS_WAIT + 1
    ensures var r := SurviveRun(v, t, Night, moved, false, n);
      (r.struck <==> t + n == DARKNESS_WAIT + 1)
      && (t + n <= DARKNESS_WAIT ==> r.timer == t + n)
    decreases n
  {
    if n > 0 {
      var s := Survive(v, t, Night, moved, false);
      DarkRun(s.vitals, s.timer, moved, n - 1);
      var rest := SurviveRun(s.vitals, s.timer, Night, moved, false, n - 1);
      assert SurviveRun(v, t, Night, moved, false, n) == Survived(rest.vitals, rest.timer, s.struck || rest.struck);
      if t == DARKNESS_WAIT {
        assert s.struck && n == 1;
      } else {
        assert !s.struck && s.timer == t + 1;
      }
    }
  }
}
