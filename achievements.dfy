/** The achievement counters, the twelve unlock flags, and the popup queue
    that pauses the game while unlocks are shown (`checkAchievements`,
    `closeAchievementPopup`). */
module Achievements {
  import opened Options

  /** `state.achievements`: counters that only ever go up. */
  datatype Counters = Counters(
    survivedDays: int, maxDays: int,
    totalWood: int, totalStone: int, totalGold: int,
    killedNightlings: int, killedBossWolves: int,
    builtCampfires: int, builtTowers: int,
    plantedTrees: int, totalMeat: int)

  const ZeroCounters := Counters(0, 0, 0, 0, 0, 0, 0, 0, 0, 0, 0)

  /** Every counter of `a` is at least that of `b`. */
  predicate Dominates(a: Counters, b: Counters) {
    && a.survivedDays >= b.survivedDays && a.maxDays >= b.maxDays
    && a.totalWood >= b.totalWood && a.totalStone >= b.totalStone && a.totalGold >= b.totalGold
    && a.killedNightlings >= b.killedNightlings && a.killedBossWolves >= b.killedBossWolves
    && a.builtCampfires >= b.builtCampfires && a.builtTowers >= b.builtTowers
    && a.plantedTrees >= b.plantedTrees && a.totalMeat >= b.totalMeat
  }

  /** One `unlocked_*` flag each. */
  datatype Badge =
    | Survivor3 | Survivor7 | Survivor15
    | Wood100 | Stone50 | Gold10
    | Kill10 | Boss1
    | Campfire5 | Tower3
    | Plant10 | Meat20

  /** The order in which checkAchievements tests the badges. */
  const Order: seq<Badge> :=
    [Survivor3, Survivor7, Survivor15, Wood100, Stone50, Gold10,
     Kill10, Boss1, Campfire5, Tower3, Plant10, Meat20]

  lemma OrderComplete(b: Badge)
    ensures b in Order
  {
  }

  /** The counter a badge watches. */
  function Progress(c: Counters, b: Badge): int {
    match b
    case Survivor3 | Survivor7 | Survivor15 => c.maxDays
    case Wood100 => c.totalWood
    case Stone50 => c.totalStone
    case Gold10 => c.totalGold
    case Kill10 => c.killedNightlings
    case Boss1 => c.killedBossWolves
    case Campfire5 => c.builtCampfires
    case Tower3 => c.builtTowers
    case Plant10 => c.plantedTrees
    case Meat20 => c.totalMeat
  }

  /** The value the counter must reach. */
  function Threshold(b: Badge): int {
    match b
    case Survivor3 => 3
    case Survivor7 => 7
    case Survivor15 => 15
    case Wood100 => 100
    case Stone50 => 50
    case Gold10 => 10
    case Kill10 => 10
    case Boss1 => 1
    case Campfire5 => 5
    case Tower3 => 3
    case Plant10 => 10
    case Meat20 => 20
  }

  predicate Reached(c: Counters, b: Badge) {
    Progress(c, b) >= Threshold(b)
  }

  /** The badges of `scan.1`, in order, whose counter has reached its
      threshold and whose flag (in `scan.0`) is still down. The flags and
      the badges still to test travel as one pair. */
  function NewlyFrom(c: Counters, scan: (set<Badge>, seq<Badge>)): (r: seq<Badge>)
    ensures forall b :: b in r <==> b in scan.1 && Reached(c, b) && b !in scan.0
    ensures |r| <= |scan.1|
    decreases |scan.1|
  {
    var (unlocked, bs) := scan;
    if bs == [] then []
    else
      var rest := NewlyFrom(c, (unlocked, bs[1..]));
      if Reached(c, bs[0]) && bs[0] !in unlocked then [bs[0]] + rest else rest
  }

  /** The badges one call of checkAchievements unlocks, in its order. */
  function Newly(c: Counters, unlocked: set<Badge>): (r: seq<Badge>)
    ensures forall b :: b in r <==> Reached(c, b) && b !in unlocked
  {
    forall b ensures b in Order { OrderComplete(b); }
    NewlyFrom(c, (unlocked, Order))
  }

  /** No element of `s` occurs twice. */
  predicate Distinct(s: seq<Badge>) {
    forall i, j :: 0 <= i < j < |s| ==> s[i] != s[j]
  }

  /** No badge is listed twice. */
  lemma {:induction false} NewlyFromDistinct(c: Counters, unlocked: set<Badge>, bs: seq<Badge>)
    requires Distinct(bs)
    ensures Distinct(NewlyFrom(c, (unlocked, bs)))
    decreases |bs|
  {
    if bs != [] {
      var tail := bs[1..];
      assert Distinct(tail) by {
        forall i, j | 0 <= i < j < |tail| ensures tail[i] != tail[j] {
          assert tail[i] == bs[i + 1] && tail[j] == bs[j + 1];
        }
      }
      NewlyFromDistinct(c, unlocked, tail);
      var rest := NewlyFrom(c, (unlocked, tail));
      assert bs[0] !in tail by {
        forall k | 0 <= k < |tail| ensures tail[k] != bs[0] {
          assert tail[k] == bs[k + 1];
        }
      }
      var r := NewlyFrom(c, (unlocked, bs));
      if Reached(c, bs[0]) && bs[0] !in unlocked {
        assert r == [bs[0]] + rest;
        forall i, j | 0 <= i < j < |r| ensures r[i] != r[j] {
          assert r[j] == rest[j - 1] && rest[j - 1] in rest;
          if i > 0 {
            assert r[i] == rest[i - 1];
          } else {
            assert rest[j - 1] in tail;
          }
        }
      } else {
        assert r == rest;
      }
    }
  }

  /** One call of checkAchievements never lists a badge twice. */
  lemma NewlyDistinct(c: Counters, unlocked: set<Badge>)
    ensures Distinct(Newly(c, unlocked))
  {
    OrderDistinct();
    NewlyFromDistinct(c, unlocked, Order);
  }

  /** The scan order names each badge once. */
  lemma OrderDistinct()
    ensures Distinct(Order)
  {
    forall i | 0 <= i < |Order| ensures Rank(Order[i]) == i {
    }
  }

  /** A badge's place in the scan order. */
  function Rank(b: Badge): nat {
    match b
    case Survivor3 => 0 case Survivor7 => 1 case Survivor15 => 2
    case Wood100 => 3 case Stone50 => 4 case Gold10 => 5
    case Kill10 => 6 case Boss1 => 7
    case Campfire5 => 8 case Tower3 => 9
    case Plant10 => 10 case Meat20 => 11
  }

  /** The popup state: `player.isPaused`, the badge whose popup is on screen,
      and `pendingAchievements`. */
  datatype Popup = Popup(paused: bool, showing: Option<Badge>, pending: seq<Badge>)

  const NoPopup := Popup(false, None, [])

  /** What checkAchievements does with the badges it unlocked: nothing when
      there are none; otherwise it pauses, shows the first, and when there is
      more than one replaces the pending queue by the others. */
  function Announce(p: Popup, news: seq<Badge>): (r: Popup)
    ensures news == [] ==> r == p
    ensures news != [] ==> r.paused && r.showing == Some(news[0])
    ensures |news| == 1 ==> r.pending == p.pending
    ensures |news| > 1 ==> r.pending == news[1..]
  {
    if news == [] then p
    else Popup(true, Some(news[0]), if |news| > 1 then news[1..] else p.pending)
  }

  /** `checkAchievements`: raises the flag of every badge whose counter has
      reached its threshold, and announces the newly raised ones. */
  function Check(c: Counters, unlocked: set<Badge>, p: Popup): (r: (set<Badge>, Popup))
    ensures forall b :: b in r.0 <==> b in unlocked || Reached(c, b)
    ensures unlocked <= r.0
    ensures r.1.paused <==> p.paused || exists b :: Reached(c, b) && b !in unlocked
    ensures r.1.showing != p.showing ==> r.1.showing.Some? && r.1.showing.value !in unlocked
  {
    var news := Newly(c, unlocked);
    assert news != [] ==> news[0] in news;
    (unlocked + (set b | b in news), Announce(p, news))
  }

  /** A flag once raised is never reported again: a second check with the
      same counters unlocks nothing and changes nothing. */
  lemma CheckIdempotent(c: Counters, unlocked: set<Badge>, p: Popup)
    ensures var r := Check(c, unlocked, p);
      Newly(c, r.0) == [] && Check(c, r.0, r.1) == r
  {
    var r := Check(c, unlocked, p);
    NothingLeft(c, r.0);
    assert r.0 + (set b: Badge | b in []) == r.0;
  }

  /** On a fresh game (every counter zero, no flag raised, no popup) the
      first checkAchievements unlocks nothing and shows nothing. */
  lemma FreshCheck()
    ensures Check(ZeroCounters, {}, NoPopup) == ({}, NoPopup)
  {
    forall b ensures !Reached(ZeroCounters, b) {
      assert Threshold(b) > 0;
    }
    NothingLeft(ZeroCounters, {});
    var r := Check(ZeroCounters, {}, NoPopup);
    assert r.0 == {} by {
      forall b ensures b !in r.0 { }
    }
  }

  lemma NothingLeft(c: Counters, unlocked: set<Badge>)
    requires forall b :: Reached(c, b) ==> b in unlocked
    ensures Newly(c, unlocked) == []
  {
    NothingLeftFrom(c, unlocked, Order);
  }

  lemma {:induction false} NothingLeftFrom(c: Counters, unlocked: set<Badge>, bs: seq<Badge>)
    requires forall b :: Reached(c, b) ==> b in unlocked
    ensures NewlyFrom(c, (unlocked, bs)) == []
    decreases |bs|
  {
    if bs != [] {
      NothingLeftFrom(c, unlocked, bs[1..]);
    }
  }

  /** As counters only grow, a badge once reached stays reached, so its flag
      is raised by the first check after the counter reaches the threshold. */
  lemma ReachedStays(c: Counters, c': Counters, b: Badge)
    requires Dominates(c', c) && Reached(c, b)
    ensures Reached(c', b)
  {
  }

  /** Surviving to day 3 unlocks Survivor3 exactly once: the first check that
      sees maxDays >= 3 announces it, and no later check announces it again
      however far maxDays climbs. */
  lemma Survivor3Once(c: Counters, unlocked: set<Badge>, p: Popup, c': Counters)
    requires c.maxDays >= 3 && Survivor3 !in unlocked
    requires Dominates(c', c)
    ensures var r := Check(c, unlocked, p);
      && Survivor3 in r.0
      && r.1.showing == Some(Survivor3)
      && Survivor3 !in Newly(c', r.0)
  {
    var news := Newly(c, unlocked);
    assert news[0] == Survivor3 by {
      assert Order[0] == Survivor3;
      assert NewlyFrom(c, (unlocked, Order)) == [Survivor3] + NewlyFrom(c, (unlocked, Order[1..]));
    }
  }

  /** `closeAchievementPopup`: shows the next pending badge, keeping the game
      paused; with none left it resumes the game. */
  function Close(p: Popup): (r: Popup)
    ensures p.pending != [] ==> r == Popup(true, Some(p.pending[0]), p.pending[1..])
    ensures p.pending == [] ==> r == NoPopup
  {
    if p.pending != [] then Popup(true, Some(p.pending[0]), p.pending[1..]) else NoPopup
  }

  /** The badges shown by n successive closes, and the state after them. */
  function CloseMany(p: Popup, n: nat): (r: (seq<Badge>, Popup))
    decreases n
  {
    if n == 0 then ([], p)
    else
      var q := Close(p);
      var rest := CloseMany(q, n - 1);
      ((if q.showing.Some? then [q.showing.value] else []) + rest.0, rest.1)
  }

  /** The queue is shown in order, one badge per close, and the close after
      the last one resumes the game. */
  lemma {:induction false} CloseDrains(p: Popup)
    ensures CloseMany(p, |p.pending|).0 == p.pending
    ensures p.pending != [] ==> CloseMany(p, |p.pending|).1 == Popup(true, Some(p.pending[|p.pending| - 1]), [])
    ensures CloseMany(p, |p.pending| + 1).1 == NoPopup
    decreases |p.pending|
  {
    if p.pending != [] {
      var q := Close(p);
      CloseDrains(q);
      if q.pending != [] {
        assert q.pending[|q.pending| - 1] == p.pending[|p.pending| - 1];
      }
    }
  }

  /** Starting from a resumed game, the badges one check unlocks are shown
      in checkAchievements' order, one per popup, each exactly once: the
      first at once and the others by the closes that follow; the close
      after the last one resumes the game. */
  lemma {:induction false} CheckThenCloseAll(c: Counters, unlocked: set<Badge>)
    requires Newly(c, unlocked) != []
    ensures var news := Newly(c, unlocked);
      var p := Check(c, unlocked, NoPopup).1;
      && [p.showing.value] + CloseMany(p, |p.pending|).0 == news
      && CloseMany(p, |p.pending| + 1).1 == NoPopup
  {
    var news := Newly(c, unlocked);
    var p := Check(c, unlocked, NoPopup).1;
    CloseDrains(p);
    assert p.pending == news[1..];
  }
}
