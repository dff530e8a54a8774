/** The world clock: the in-day tick counter, the day counter, the
    day/dusk/night cycle, the blood-moon flag and the nightling cap. */
module Clock {

  /** Ticks in one day. */
  const DAY_LENGTH: int := 7200

  datatype Cycle = Day | Dusk | Night

  /** `getCycle`: day for the first half of the day, dusk for the next 15%,
      night for the rest. 0.5 * 7200 = 3600 and 0.65 * 7200 = 4680. */
  function GetCycle(time: int): (c: Cycle)
    ensures c == Day <==> time < 3600
    ensures c == Dusk <==> 3600 <= time < 4680
    ensures c == Night <==> 4680 <= time
  {
    if time * 2 < DAY_LENGTH then Day
    else if time * 20 < DAY_LENGTH * 13 then Dusk
    else Night
  }

  function Rank(c: Cycle): nat {
    match c
    case Day => 0
    case Dusk => 1
    case Night => 2
  }

  /** Within a day the cycle only moves forward: day, then dusk, then night. */
  lemma CycleMonotone(t1: int, t2: int)
    requires t1 <= t2
    ensures Rank(GetCycle(t1)) <= Rank(GetCycle(t2))
  {
  }

  /** The clock part of one tick: `time++`, and when time reaches DAY_LENGTH
      it is reset to 0 and the day counter goes up by one. `rolled` says
      whether the day ended on this tick. */
  datatype Tick = Tick(time: int, day: int, rolled: bool)

  function Advance(time: int, day: int): (r: Tick)
    requires 0 <= time < DAY_LENGTH
    ensures 0 <= r.time < DAY_LENGTH
    ensures r.rolled <==> time == DAY_LENGTH - 1
    ensures r.rolled ==> r.time == 0 && r.day == day + 1
    ensures !r.rolled ==> r.time == time + 1 && r.day == day
  {
    var t := time + 1;
    if t >= DAY_LENGTH then Tick(0, day + 1, true) else Tick(t, day, false)
  }

  /** The clock after n ticks. */
  function Run(time: int, day: int, n: nat): (r: (int, int))
    requires 0 <= time < DAY_LENGTH
    decreases n
  {
    if n == 0 then (time, day)
    else
      var s := Advance(time, day);
      Run(s.time, s.day, n - 1)
  }

  /** The day counter never skips and never counts twice: from any point of a
      day, after n ticks the day has gone up by exactly (time + n) / DAY_LENGTH
      and the clock reads (time + n) % DAY_LENGTH. */
  lemma {:induction false} RunDays(time: int, day: int, n: nat)
    requires 0 <= time < DAY_LENGTH
    ensures Run(time, day, n) == ((time + n) % DAY_LENGTH, day + (time + n) / DAY_LENGTH)
    decreases n
  {
    if n > 0 {
      var s := Advance(time, day);
      RunDays(s.time, s.day, n - 1);
      if s.rolled {
        assert time + n == DAY_LENGTH + (n - 1);
      }
    }
  }

  /** The blood-moon state machine of one tick: the flag is raised, and one
      boss wolf is spawned, on the first night tick of a day divisible by 5;
      any tick that is not such a night tick clears the flag. The result is
      (new flag, spawn a boss). */
  function BloodMoon(flag: bool, day: int, c: Cycle): (r: (bool, bool))
    ensures r.0 <==> day % 5 == 0 && c == Night
    ensures r.1 <==> r.0 && !flag
  {
    if day % 5 == 0 && c == Night then
      if !flag then (true, true) else (true, false)
    else (false, false)
  }

  /** Number of bosses spawned over a run of ticks of one day whose cycles
      are `cycles`, starting from blood-moon flag `flag`. */
  function Bosses(flag: bool, day: int, cycles: seq<Cycle>): nat
    decreases |cycles|
  {
    if cycles == [] then 0
    else
      var r := BloodMoon(flag, day, cycles[0]);
      (if r.1 then 1 else 0) + Bosses(r.0, day, cycles[1..])
  }

  /** A night of a day divisible by 5 spawns exactly one boss however many
      ticks it lasts, when the flag was clear as it began; none if it was
      already raised. */
  lemma {:induction false} OneBossPerBloodMoon(flag: bool, day: int, cycles: seq<Cycle>)
    requires day % 5 == 0 && |cycles| > 0
    requires forall i :: 0 <= i < |cycles| ==> cycles[i] == Night
    ensures Bosses(flag, day, cycles) == if flag then 0 else 1
    decreases |cycles|
  {
    if |cycles| > 1 {
      OneBossPerBloodMoon(true, day, cycles[1..]);
    }
  }

  /** No boss is ever spawned on a day not divisible by 5. */
  lemma {:induction false} NoBossOffCycle(flag: bool, day: int, cycles: seq<Cycle>)
    requires day % 5 != 0
    ensures Bosses(flag, day, cycles) == 0
    decreases |cycles|
  {
    if cycles != [] {
      NoBossOffCycle(false, day, cycles[1..]);
    }
  }

  /** The nightling cap `min(1 + floor(day / 4), 5)`: one on the first days,
      one more every four days, never more than five. */
  function MaxNightlings(day: int): (cap: int) {
    var n := 1 + day / 4;
    if n < 5 then n else 5
  }

  /** From day 0 on, the cap is between one and five, and it is five from
      day 16. */
  lemma NightlingCapRange(day: int)
    requires day >= 0
    ensures 1 <= MaxNightlings(day) <= 5
    ensures day >= 16 <==> MaxNightlings(day) == 5
  {
  }

  lemma MaxNightlingsMonotone(d1: int, d2: int)
    requires d1 <= d2
    ensures MaxNightlings(d1) <= MaxNightlings(d2)
  {
  }
}
