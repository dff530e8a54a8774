/** The counters that per-entity behaviours and the darkness rule advance
    once per tick: attack timers, the growth timer, the darkness timer and
    the tower's reload cooldown. */
module Timers {

  /** Nightling: strikes when its attack timer exceeds 50, for 8 health. */
  const NIGHTLING_WAIT: int := 50
  /** Boss wolf: strikes when its attack timer exceeds 60, for 25 health. */
  const BOSS_WAIT: int := 60
  /** Darkness: strikes when the darkness timer exceeds 90, for 10 health. */
  const DARKNESS_WAIT: int := 90
  /** A sapling grows when its growth timer exceeds 1200. */
  const GROWTH_WAIT: int := 1200
  /** Ticks a tower waits between two shots. */
  const TOWER_RELOAD: int := 25

  /** One tick of a timer that fires once it exceeds `wait`:
      `t++; if (t > wait) { fire; t = 0 }`. The result is (timer, fired). */
  function Strike(timer: int, wait: int): (r: (int, bool))
    ensures r.1 <==> timer >= wait
    ensures r.1 ==> r.0 == 0
    ensures !r.1 ==> r.0 == timer + 1 <= wait
  {
    var t := timer + 1;
    if t > wait then (0, true) else (t, false)
  }

  /** n consecutive firing ticks of a timer: (final timer, number of strikes). */
  function StrikeRun(timer: int, wait: int, n: nat): (r: (int, nat))
    decreases n
  {
    if n == 0 then (timer, 0)
    else
      var s := Strike(timer, wait);
      var rest := StrikeRun(s.0, wait, n - 1);
      (rest.0, rest.1 + if s.1 then 1 else 0)
  }

  /** A timer that starts in [0, wait] strikes once every wait + 1 ticks:
      after n ticks it has struck k times and reads f, where
      k * (wait + 1) + f == timer + n and 0 <= f <= wait. So a nightling
      that stays in reach bites every 51 ticks, a boss wolf every 61, and
      darkness hurts on the 91st unlit night tick, never before. */
  lemma {:induction false} StrikeRunCount(timer: int, wait: int, n: nat)
    requires 0 <= timer <= wait
    ensures var r := StrikeRun(timer, wait, n);
      r.1 * (wait + 1) + r.0 == timer + n && 0 <= r.0 <= wait
    decreases n
  {
    if n > 0 {
      var s := Strike(timer, wait);
      StrikeRunCount(s.0, wait, n - 1);
      var rest := StrikeRun(s.0, wait, n - 1);
      if s.1 {
        calc {
          (rest.1 + 1) * (wait + 1) + rest.0;
          rest.1 * (wait + 1) + rest.0 + (wait + 1);
        }
      }
    }
  }

  /** The darkness timer of one tick: counts unlit night ticks and resets when
      it strikes or when the player is lit or it is not night. */
  function Darkness(timer: int, dark: bool): (r: (int, bool))
    ensures !dark ==> r == (0, false)
    ensures dark ==> r == Strike(timer, DARKNESS_WAIT)
  {
    if dark then Strike(timer, DARKNESS_WAIT) else (0, false)
  }

  /** A run of firing ticks from a reset timer strikes for the first time
      on tick wait + 1, and the timer reads 0 straight after; with the
      darkness wait of 90, an unlit night hurts on its 91st tick. */
  lemma FirstStrike(wait: int)
    requires wait >= 0
    ensures StrikeRun(0, wait, wait) == (wait, 0)
    ensures StrikeRun(0, wait, wait + 1) == (0, 1)
  {
    StrikeRunCount(0, wait, wait);
    StrikeRunCount(0, wait, wait + 1);
    var a := StrikeRun(0, wait, wait);
    var b := StrikeRun(0, wait, wait + 1);
    SmallQuotient(a.1, a.0, wait + 1);
    SmallQuotient(b.1, b.0, wait + 1);
  }

  /** q * d + r with 0 <= r < d pins q down when the sum is below 2 * d. */
  lemma SmallQuotient(q: nat, r: int, d: int)
    requires d > 0 && 0 <= r < d
    ensures q * d + r < d ==> q == 0
    ensures q * d + r == d ==> q == 1 && r == 0
  {
    if q >= 1 {
      assert q * d == (q - 1) * d + d;
    }
    if q >= 2 {
      assert q * d == (q - 2) * d + 2 * d;
    }
  }

  /** One tick of a tower's reload: `cooldown = max(0, cooldown - 1)`, then it
      shoots when it has a target and the cooldown is 0, and a shot sets the
      cooldown to 25. The result is (cooldown, shot). */
  function Reload(cooldown: int, hasTarget: bool): (r: (int, bool))
    ensures r.1 <==> hasTarget && cooldown <= 1
    ensures r.1 ==> r.0 == TOWER_RELOAD
    ensures !r.1 ==> r.0 == if cooldown > 0 then cooldown - 1 else 0
  {
    var c := if cooldown - 1 > 0 then cooldown - 1 else 0;
    if hasTarget && c == 0 then (TOWER_RELOAD, true) else (c, false)
  }

  /** n ticks of a tower that always has a target in range:
      (final cooldown, shots). */
  function ReloadRun(cooldown: int, n: nat): (r: (int, nat))
    decreases n
  {
    if n == 0 then (cooldown, 0)
    else
      var s := Reload(cooldown, true);
      var rest := ReloadRun(s.0, n - 1);
      (rest.0, rest.1 + if s.1 then 1 else 0)
  }

  /** A tower whose cooldown is between 1 and 25 and which always has a
      target fires once every 25 ticks: 25 * shots - cooldown' == n - cooldown. */
  lemma {:induction false} ReloadRunCount(cooldown: int, n: nat)
    requires 1 <= cooldown <= TOWER_RELOAD
    ensures var r := ReloadRun(cooldown, n);
      r.1 * TOWER_RELOAD - r.0 == n - cooldown && 1 <= r.0 <= TOWER_RELOAD
    decreases n
  {
    if n > 0 {
      var s := Reload(cooldown, true);
      ReloadRunCount(s.0, n - 1);
    }
  }

  /** A freshly built tower (cooldown 0) with a target fires on its first
      tick and then every 25 ticks: after n ticks it has fired ceil(n / 25)
      times. */
  lemma FreshTowerShots(n: nat)
    ensures ReloadRun(0, n).1 == (n + TOWER_RELOAD - 1) / TOWER_RELOAD
  {
    if n > 0 {
      ReloadRunCount(TOWER_RELOAD, n - 1);
      var r := ReloadRun(TOWER_RELOAD, n - 1);
      assert ReloadRun(0, n) == (r.0, r.1 + 1);
    }
  }
}
