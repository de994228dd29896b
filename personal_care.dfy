/**
 * The personal-care level-up system: XP, levels, badges, a daily streak,
 * smell checks and a list of needed supplies, kept per kid.
 *
 * `Care` is the record as a value, and its member functions say what each operation
 * does to it. `CareRecord` is the record the app updates in place. Each of its methods
 * is proved to follow the matching function. Days are integer day numbers; the
 * task checkbox is a boolean parameter.
 */
module PersonalCare {
  import opened Common

  /** Badge ids of the badge table. */
  datatype BadgeId = Streak3 | Streak7 | ShowerChampion | TeethMaster | SmellDetective | StyleStar | HelpingHand

  /** One smell self-check. `improvement` is the feedback text stored with it. */
  datatype SmellCheck = SmellCheck(timestamp: int, result: string, improvement: string)

  const TopLevel := 6
  /** Number of smell checks that are kept. */
  const SmellHistory := 10

  /** The level table: XP needed for each of the levels 1..6; no other level exists. */
  function XpNeeded(level: int): (r: Option<nat>)
    ensures r.Some? <==> 1 <= level <= TopLevel
  {
    if level == 1 then Some(0)
    else if level == 2 then Some(100)
    else if level == 3 then Some(250)
    else if level == 4 then Some(450)
    else if level == 5 then Some(700)
    else if level == 6 then Some(1000)
    else None
  }

  /** `checkLevelUp`: go up one level when the next level exists and its XP is reached. */
  function LevelUp(level: int, xp: int): int
  {
    if XpNeeded(level + 1).Some? && xp >= XpNeeded(level + 1).value then level + 1 else level
  }

  /** Reference definition: the highest level at or below `top` whose XP threshold is reached. */
  function HighestReached(top: int, xp: int): (l: int)
    requires 1 <= top <= TopLevel
    ensures 1 <= l <= top
    decreases top
  {
    if top == 1 || XpNeeded(top).value <= xp then top else HighestReached(top - 1, xp)
  }

  /** The level that `xp` qualifies for. */
  function LevelFor(xp: int): int
  {
    HighestReached(TopLevel, xp)
  }

  /** `earnBadge` and `addSupplyNeed`: append only if not present yet. */
  function AppendNew<T(==)>(s: seq<T>, x: T): (r: seq<T>)
  {
    if x in s then s else s + [x]
  }

  /** Task-list conditions of the badge check. */
  predicate Showered(tasks: seq<string>) { "shower-daily" in tasks || "shower-bath" in tasks }
  predicate BrushedTeeth(tasks: seq<string>) { "brush-teeth" in tasks || "teeth-floss" in tasks }
  predicate SmellChecked(tasks: seq<string>) { "smell-check" in tasks || "smell-awareness" in tasks }

  /** The per-badge rule that `checkBadgeEarning` applies; the last two badges are never awarded by it. */
  predicate Qualifies(b: BadgeId, streak: int, tasks: seq<string>)
  {
    match b
    case Streak3 => streak >= 3
    case Streak7 => streak >= 7
    case ShowerChampion => Showered(tasks)
    case TeethMaster => BrushedTeeth(tasks)
    case SmellDetective => SmellChecked(tasks)
    case StyleStar => false
    case HelpingHand => false
  }

  /** One check of `checkBadgeEarning`: earn the badge when the condition holds. */
  function EarnIf(badges: seq<BadgeId>, cond: bool, b: BadgeId): seq<BadgeId>
  {
    if cond then AppendNew(badges, b) else badges
  }

  /** `checkBadgeEarning`: the five checks in source order, each earning its badge when it holds. */
  function CheckBadges(badges: seq<BadgeId>, streak: int, tasks: seq<string>): seq<BadgeId>
  {
    var b1 := EarnIf(badges, streak >= 3, Streak3);
    var b2 := EarnIf(b1, streak >= 7, Streak7);
    var b3 := EarnIf(b2, Showered(tasks), ShowerChampion);
    var b4 := EarnIf(b3, BrushedTeeth(tasks), TeethMaster);
    EarnIf(b4, SmellChecked(tasks), SmellDetective)
  }

  /** `recordSmellCheck`'s history rule: append, then keep only the last ten. */
  function KeepRecent(checks: seq<SmellCheck>, check: SmellCheck): seq<SmellCheck>
  {
    var all := checks + [check];
    if |all| > SmellHistory then all[|all| - SmellHistory..] else all
  }

  /** The feedback text `recordSmellCheck` stores with a result. */
  function Improvement(result: string): string
  {
    if result == "fresh" then "Great job!" else "Time for a refresh!"
  }

  /** The personal-care record of one kid. `lastActivity` is None until the first activity. */
  datatype Care = Care(level: int, xp: int, badges: seq<BadgeId>, completedTasks: seq<string>,
                       streak: int, lastActivity: Option<int>, supplies: seq<string>,
                       smellChecks: seq<SmellCheck>)
  {
    /** `updateStreak`: on a new day, extend or restart the streak and clear the day's tasks. */
    function UpdateStreak(today: int): Care
    {
      if lastActivity == Some(today) then this
      else this.(streak := if lastActivity == Some(today - 1) then streak + 1 else 1,
                 lastActivity := Some(today),
                 completedTasks := [])
    }

    /**
     * `completeTask`: a checked task not yet done earns its XP and is recorded, then the
     * level check, the badge check and the streak update run in that order; an unchecked
     * task that was done loses its XP (never below zero) and is removed.
     */
    function CompleteTask(taskId: string, xpReward: int, checked: bool, today: int): Care
    {
      if checked && taskId !in completedTasks then
        var c1 := this.(xp := xp + xpReward, completedTasks := completedTasks + [taskId]);
        var c2 := c1.(level := LevelUp(c1.level, c1.xp));
        var c3 := c2.(badges := CheckBadges(c2.badges, c2.streak, c2.completedTasks));
        c3.UpdateStreak(today)
      else if !checked && taskId in completedTasks then
        this.(xp := Max(0, xp - xpReward), completedTasks := RemoveAll(completedTasks, taskId))
      else this
    }

    function RecordSmellCheck(result: string, now: int): Care
    {
      this.(smellChecks := KeepRecent(smellChecks, SmellCheck(now, result, Improvement(result))))
    }

    function AddSupplyNeed(supply: string): Care
    {
      this.(supplies := AppendNew(supplies, supply))
    }

    function RemoveSupplyNeed(supply: string): Care
    {
      this.(supplies := RemoveAll(supplies, supply))
    }
  }

  /** The record `initializePersonalCare` creates. */
  const InitialCare := Care(1, 0, [], [], 0, None, [], [])

  /** What every reachable record satisfies. */
  ghost predicate CareValid(c: Care)
  {
    && 1 <= c.level <= TopLevel
    && c.xp >= 0
    && c.streak >= 0
    && NoDuplicates(c.badges)
    && NoDuplicates(c.completedTasks)
    && NoDuplicates(c.supplies)
    && |c.smellChecks| <= SmellHistory
  }

  // ---------------------------------------------------------------------------
  // Levels

  /** A level-up goes up by at most one level, and only to a level whose threshold has been reached. */
  lemma LevelUpStep(level: int, xp: int)
    requires 1 <= level <= TopLevel
    ensures var l := LevelUp(level, xp);
      && 1 <= l <= TopLevel
      && (l == level || (l == level + 1 && xp >= XpNeeded(l).value))
      && (l == level + 1 <==> level < TopLevel && xp >= XpNeeded(level + 1).value)
  {
  }

  /** The reference level is the highest level whose threshold is reached. */
  lemma {:induction false} HighestReachedIsHighest(top: int, xp: int)
    requires 1 <= top <= TopLevel && xp >= 0
    ensures var l := HighestReached(top, xp);
      XpNeeded(l).value <= xp && forall k :: l < k <= top ==> XpNeeded(k).value > xp
    decreases top
  {
    if top > 1 && XpNeeded(top).value > xp {
      HighestReachedIsHighest(top - 1, xp);
    }
  }

  /**
   * Level-ups climb towards the level the XP qualifies for, one level per call, and stop there:
   * below it a call moves one level closer, and at it a call changes nothing. A level above it,
   * left behind when unchecking a task took XP back, is kept: levels never go down.
   */
  lemma LevelUpApproachesLevelFor(level: int, xp: int)
    requires 1 <= level && xp >= 0
    ensures level < LevelFor(xp) ==> LevelUp(level, xp) == level + 1
    ensures level >= LevelFor(xp) ==> LevelUp(level, xp) == level
  {
    HighestReachedIsHighest(TopLevel, xp);
    if level < LevelFor(xp) {
      // the threshold of the next level lies between this level's and the qualifying level's
      assert XpNeeded(level + 1).value <= XpNeeded(LevelFor(xp)).value;
    }
  }

  // ---------------------------------------------------------------------------
  // Badges and supplies

  /** Appending only when absent keeps a list free of duplicates, keeps what was there, and adds the item. */
  lemma AppendNewProperties<T>(s: seq<T>, x: T)
    requires NoDuplicates(s)
    ensures NoDuplicates(AppendNew(s, x))
    ensures x in AppendNew(s, x)
    ensures AppendNew(s, x)[..|s|] == s
    ensures forall y :: y in AppendNew(s, x) <==> y in s || y == x
  {
    if x !in s {
      var r := s + [x];
      forall y | y in r ensures multiset(r)[y] == 1 {
        assert multiset(r) == multiset(s) + multiset{x};
      }
    }
  }

  /** Removing a supply undoes adding it, provided it was not already needed. */
  lemma {:induction false} RemoveUndoesAdd(supplies: seq<string>, supply: string)
    requires supply !in supplies
    ensures RemoveAll(AppendNew(supplies, supply), supply) == supplies
  {
    RemoveAllSnoc(supplies, supply, supply);
    RemoveAllAbsent(supplies, supply);
  }

  /** One conditional check keeps the list duplicate-free and keeps any prefix of it. */
  lemma EarnIfKeeps(base: seq<BadgeId>, badges: seq<BadgeId>, cond: bool, b: BadgeId)
    requires NoDuplicates(badges) && |base| <= |badges| && badges[..|base|] == base
    ensures var r := EarnIf(badges, cond, b);
      NoDuplicates(r) && |base| <= |r| && r[..|base|] == base
  {
    AppendNewProperties(badges, b);
    var r := EarnIf(badges, cond, b);
    assert r[..|badges|][..|base|] == r[..|base|];
  }

  /** One conditional check adds its badge exactly when the condition holds. */
  lemma EarnIfMembers(badges: seq<BadgeId>, cond: bool, b: BadgeId, y: BadgeId)
    ensures y in EarnIf(badges, cond, b) <==> y in badges || (cond && y == b)
  {
  }

  /** The badge check keeps the earlier badges first and in order, and never lists a badge twice. */
  lemma CheckBadgesKeeps(badges: seq<BadgeId>, streak: int, tasks: seq<string>)
    requires NoDuplicates(badges)
    ensures var r := CheckBadges(badges, streak, tasks);
      NoDuplicates(r) && |r| >= |badges| && r[..|badges|] == badges
  {
    var c3 := Showered(tasks);
    var c4 := BrushedTeeth(tasks);
    var c5 := SmellChecked(tasks);
    var b1 := EarnIf(badges, streak >= 3, Streak3);
    EarnIfKeeps(badges, badges, streak >= 3, Streak3);
    var b2 := EarnIf(b1, streak >= 7, Streak7);
    EarnIfKeeps(badges, b1, streak >= 7, Streak7);
    var b3 := EarnIf(b2, c3, ShowerChampion);
    EarnIfKeeps(badges, b2, c3, ShowerChampion);
    var b4 := EarnIf(b3, c4, TeethMaster);
    EarnIfKeeps(badges, b3, c4, TeethMaster);
    EarnIfKeeps(badges, b4, c5, SmellDetective);
  }

  /** The badge check awards exactly the badges whose rule holds, besides those already earned. */
  lemma CheckBadgesExact(badges: seq<BadgeId>, streak: int, tasks: seq<string>, b: BadgeId)
    ensures b in CheckBadges(badges, streak, tasks) <==> b in badges || Qualifies(b, streak, tasks)
  {
    var c3 := Showered(tasks);
    var c4 := BrushedTeeth(tasks);
    var c5 := SmellChecked(tasks);
    var b1 := EarnIf(badges, streak >= 3, Streak3);
    EarnIfMembers(badges, streak >= 3, Streak3, b);
    var b2 := EarnIf(b1, streak >= 7, Streak7);
    EarnIfMembers(b1, streak >= 7, Streak7, b);
    var b3 := EarnIf(b2, c3, ShowerChampion);
    EarnIfMembers(b2, c3, ShowerChampion, b);
    var b4 := EarnIf(b3, c4, TeethMaster);
    EarnIfMembers(b3, c4, TeethMaster, b);
    EarnIfMembers(b4, c5, SmellDetective, b);
  }

  // ---------------------------------------------------------------------------
  // Streak

  /** The record after activity on `n` consecutive days starting at `start`. */
  function ActiveOnDays(c: Care, start: int, n: nat): Care
  {
    if n == 0 then c else ActiveOnDays(c, start, n - 1).UpdateStreak(start + n - 1)
  }

  /** A second activity on the same day changes nothing more. */
  lemma UpdateStreakIdempotent(c: Care, today: int)
    ensures c.UpdateStreak(today).UpdateStreak(today) == c.UpdateStreak(today)
  {
  }

  /** Activity on `n` consecutive days after a gap (or for the first time) gives a streak of `n`. */
  lemma {:induction false} ConsecutiveDaysStreak(c: Care, start: int, n: nat)
    requires n >= 1
    requires c.lastActivity.None? || c.lastActivity.value < start - 1
    ensures ActiveOnDays(c, start, n).streak == n
    ensures ActiveOnDays(c, start, n).lastActivity == Some(start + n - 1)
    ensures ActiveOnDays(c, start, n).completedTasks == []
  {
    if n > 1 {
      ConsecutiveDaysStreak(c, start, n - 1);
    }
  }

  // ---------------------------------------------------------------------------
  // Completing tasks

  /** Every operation keeps the record valid. */
  lemma CompleteTaskPreservesValid(c: Care, taskId: string, xpReward: int, checked: bool, today: int)
    requires CareValid(c) && xpReward >= 0
    ensures CareValid(c.CompleteTask(taskId, xpReward, checked, today))
  {
    if checked && taskId !in c.completedTasks {
      AppendNewProperties(c.completedTasks, taskId);
      LevelUpStep(c.level, c.xp + xpReward);
      CheckBadgesKeeps(c.badges, c.streak, c.completedTasks + [taskId]);
    } else if !checked && taskId in c.completedTasks {
      RemoveAllNoDuplicates(c.completedTasks, taskId);
    }
  }

  /**
   * Checking a task not yet done adds exactly its XP and raises the level by at most one.
   * On a day that already had activity the task is recorded; on the first task of a new
   * day the streak update clears the list, so the task just completed is not kept.
   */
  lemma CompleteTaskChecked(c: Care, taskId: string, xpReward: int, today: int)
    requires taskId !in c.completedTasks
    ensures var c' := c.CompleteTask(taskId, xpReward, true, today);
      && c'.xp == c.xp + xpReward
      && (c'.level == c.level || c'.level == c.level + 1)
      && (c.lastActivity == Some(today) ==> c'.completedTasks == c.completedTasks + [taskId])
      && (c.lastActivity != Some(today) ==> c'.completedTasks == [])
      && c'.lastActivity == Some(today)
  {
  }

  /** Unchecking a done task takes its XP back (never below zero), removes it, and leaves the level alone. */
  lemma CompleteTaskUnchecked(c: Care, taskId: string, xpReward: int, today: int)
    requires taskId in c.completedTasks
    ensures var c' := c.CompleteTask(taskId, xpReward, false, today);
      && c'.xp == Max(0, c.xp - xpReward)
      && c'.level == c.level
      && taskId !in c'.completedTasks
      && (forall t :: t in c.completedTasks && t != taskId ==> t in c'.completedTasks)
      && c'.streak == c.streak && c'.badges == c.badges
  {
  }

  /** Checking a task already done, or unchecking one not done, changes nothing. */
  lemma CompleteTaskOtherwiseNoChange(c: Care, taskId: string, xpReward: int, checked: bool, today: int)
    requires checked == (taskId in c.completedTasks)
    ensures c.CompleteTask(taskId, xpReward, checked, today) == c
  {
  }

  /**
   * Because the first task of a new day is cleared again by the streak update, checking the
   * same task a second time that day earns its XP a second time.
   */
  lemma NewDayTaskEarnsTwice(c: Care, taskId: string, xpReward: int, today: int)
    requires taskId !in c.completedTasks && c.lastActivity != Some(today)
    ensures var c1 := c.CompleteTask(taskId, xpReward, true, today);
      c1.CompleteTask(taskId, xpReward, true, today).xp == c.xp + 2 * xpReward
  {
    var c1 := c.CompleteTask(taskId, xpReward, true, today);
    assert c1.completedTasks == [] && c1.lastActivity == Some(today);
  }

  /**
   * The badge check runs before the streak update, so the task that lifts the streak
   * from 2 to 3 does not earn the 3-day badge; only the next task checked reads streak 3.
   */
  lemma StreakBadgeMissesLiftingTask(c: Care, taskId: string, xpReward: int, today: int)
    requires taskId !in c.completedTasks
    requires c.streak == 2 && c.lastActivity == Some(today - 1) && Streak3 !in c.badges
    ensures var c' := c.CompleteTask(taskId, xpReward, true, today);
      c'.streak == 3 && Streak3 !in c'.badges
  {
    CheckBadgesExact(c.badges, c.streak, c.completedTasks + [taskId], Streak3);
  }

  // ---------------------------------------------------------------------------
  // Smell checks

  /** The history keeps the last ten checks, in order, ending with the new one. */
  lemma KeepRecentProperties(checks: seq<SmellCheck>, check: SmellCheck)
    requires |checks| <= SmellHistory
    ensures var r := KeepRecent(checks, check);
      && |r| == Min(SmellHistory, |checks| + 1)
      && r[|r| - 1] == check
      && r == (checks + [check])[|checks| + 1 - |r|..]
  {
  }

  // ---------------------------------------------------------------------------
  // The record as the app updates it in place

  class CareRecord {
    var level: int
    var xp: int
    var badges: seq<BadgeId>
    var completedTasks: seq<string>
    var streak: int
    var lastActivity: Option<int>
    var supplies: seq<string>
    var smellChecks: seq<SmellCheck>

    function State(): Care
      reads this
    {
      Care(level, xp, badges, completedTasks, streak, lastActivity, supplies, smellChecks)
    }

    ghost predicate Valid()
      reads this
    {
      CareValid(State())
    }

    /** `initializePersonalCare`: the fresh record. */
    constructor ()
      ensures Valid() && State() == InitialCare
    {
      level, xp, badges, completedTasks := 1, 0, [], [];
      streak, lastActivity, supplies, smellChecks := 0, None, [], [];
    }

    method CheckLevelUp()
      modifies this`level
      ensures level == LevelUp(old(level), xp)
    {
      var next := XpNeeded(level + 1);
      if next.Some? && xp >= next.value {
        level := level + 1;
      }
    }

    method EarnBadge(badgeId: BadgeId)
      modifies this`badges
      ensures badges == AppendNew(old(badges), badgeId)
    {
      if badgeId !in badges {
        badges := badges + [badgeId];
      }
    }

    method CheckBadgeEarning()
      modifies this`badges
      ensures badges == CheckBadges(old(badges), streak, completedTasks)
    {
      var showered := Showered(completedTasks);
      var brushed := BrushedTeeth(completedTasks);
      var smelled := SmellChecked(completedTasks);
      ghost var b0 := badges;
      if streak >= 3 && Streak3 !in badges {
        EarnBadge(Streak3);
      }
      ghost var b1 := badges;
      assert b1 == EarnIf(b0, streak >= 3, Streak3);
      if streak >= 7 && Streak7 !in badges {
        EarnBadge(Streak7);
      }
      ghost var b2 := badges;
      assert b2 == EarnIf(b1, streak >= 7, Streak7);
      if showered && ShowerChampion !in badges {
        EarnBadge(ShowerChampion);
      }
      ghost var b3 := badges;
      assert b3 == EarnIf(b2, showered, ShowerChampion);
      if brushed && TeethMaster !in badges {
        EarnBadge(TeethMaster);
      }
      ghost var b4 := badges;
      assert b4 == EarnIf(b3, brushed, TeethMaster);
      if smelled && SmellDetective !in badges {
        EarnBadge(SmellDetective);
      }
      assert badges == EarnIf(b4, smelled, SmellDetective);
    }

    method UpdateStreak(today: int)
      modifies this`streak, this`lastActivity, this`completedTasks
      ensures State() == old(State()).UpdateStreak(today)
    {
      if lastActivity != Some(today) {
        if lastActivity == Some(today - 1) {
          streak := streak + 1;
        } else {
          streak := 1;
        }
        lastActivity := Some(today);
        completedTasks := [];
      }
    }

    /** Task XP values in the task tables are all positive. */
    method CompleteTask(taskId: string, xpReward: int, checked: bool, today: int)
      requires Valid() && xpReward >= 0
      modifies this
      ensures Valid()
      ensures State() == old(State()).CompleteTask(taskId, xpReward, checked, today)
    {
      ghost var before := State();
      if checked && taskId !in completedTasks {
        xp := xp + xpReward;
        completedTasks := completedTasks + [taskId];
        ghost var c1 := State();
        assert c1 == before.(xp := before.xp + xpReward, completedTasks := before.completedTasks + [taskId]);
        CheckLevelUp();
        ghost var c2 := State();
        assert c2 == c1.(level := LevelUp(c1.level, c1.xp));
        CheckBadgeEarning();
        ghost var c3 := State();
        assert c3 == c2.(badges := CheckBadges(c2.badges, c2.streak, c2.completedTasks));
        UpdateStreak(today);
      } else if !checked && taskId in completedTasks {
        xp := Max(0, xp - xpReward);
        completedTasks := RemoveAll(completedTasks, taskId);
      }
      CompleteTaskPreservesValid(before, taskId, xpReward, checked, today);
    }

    method RecordSmellCheck(result: string, now: int)
      requires Valid()
      modifies this`smellChecks
      ensures Valid()
      ensures State() == old(State()).RecordSmellCheck(result, now)
    {
      ghost var before := State();
      var check := SmellCheck(now, result, Improvement(result));
      smellChecks := smellChecks + [check];
      if |smellChecks| > SmellHistory {
        smellChecks := smellChecks[|smellChecks| - SmellHistory..];
      }
      assert smellChecks == KeepRecent(before.smellChecks, check);
      assert State() == before.RecordSmellCheck(result, now);
    }

    method AddSupplyNeed(supply: string)
      requires Valid()
      modifies this`supplies
      ensures Valid()
      ensures State() == old(State()).AddSupplyNeed(supply)
    {
      AppendNewProperties(supplies, supply);
      if supply !in supplies {
        supplies := supplies + [supply];
      }
    }

    method RemoveSupplyNeed(supply: string)
      requires Valid()
      modifies this`supplies
      ensures Valid()
      ensures State() == old(State()).RemoveSupplyNeed(supply)
    {
      RemoveAllNoDuplicates(supplies, supply);
      supplies := RemoveAll(supplies, supply);
    }
  }
}
