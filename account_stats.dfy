/**
 * The level-progress panel: where a user's XP total sits inside its
 * current level, as a count of XP into the level and a percentage.
 */
module AccountStats {
  import opened Common
  import opened UserTypes
  import opened UserGame

  /** The user whose stats are shown: the one passed in, else the authenticated one. */
  function ActiveUser(userProp: Option<User>, authUser: Option<User>): (u: Option<User>)
    ensures userProp.Some? ==> u == userProp
    ensures userProp.None? ==> u == authUser
  {
    if userProp.Some? then userProp else authUser
  }

  /** `Number(activeUser?.game?.xp ?? 0)`: the stored XP as it is, 0 where any link is missing. */
  function XpTotalOf(u: Option<User>): (xp: int)
    ensures (u.None? || u.value.game.None? || u.value.game.value.xp.None?) ==> xp == 0
    ensures u.Some? && u.value.game.Some? && u.value.game.value.xp.Some? ==> xp == u.value.game.value.xp.value
  {
    if u.Some? && u.value.game.Some? then u.value.game.value.xp.GetOr(0) else 0
  }

  /** What the panel shows. */
  datatype LevelProgress = LevelProgress(
    level: int,
    levelStartXp: int,
    levelSize: int,
    xpInLevel: int,
    progress: int)

  /**
   * The panel's arithmetic for an XP total. The level's size is never 0,
   * so the percentage is always the rounded share of the level reached.
   */
  function LevelProgressOf(xpTotal: int): (p: LevelProgress)
    ensures p.level == CalcLevelFromXp(xpTotal) && p.level >= 1
    ensures p.levelStartXp == XpRequiredForLevel(p.level)
    ensures p.levelSize == XpRangeForLevel(p.level) >= 100
    ensures 0 <= p.xpInLevel < p.levelSize
    ensures xpTotal >= 0 ==> p.levelStartXp + p.xpInLevel == xpTotal
    ensures xpTotal < 0 ==> p.level == 1 && p.xpInLevel == 0
    ensures 0 <= p.progress <= 100
    ensures 2 * p.levelSize * p.progress <= 200 * p.xpInLevel + p.levelSize < 2 * p.levelSize * (p.progress + 1)
  {
    var level := CalcLevelFromXp(xpTotal);
    var levelStartXp := XpRequiredForLevel(level);
    var levelSize := XpRangeForLevel(level);
    ThresholdStep(level);
    assert xpTotal < 0 ==> level == 1 by {
      if xpTotal < 0 { LevelUnique(level, 1, xpTotal); }
    }
    var xpInLevel := Max(0, xpTotal - levelStartXp);
    var progress := if levelSize > 0 then Min(100, RoundPercent(xpInLevel, levelSize)) else 0;
    LevelProgress(level, levelStartXp, levelSize, xpInLevel, progress)
  }

  /** `AccountStats` for the given prop and authenticated user. */
  function ShownProgress(userProp: Option<User>, authUser: Option<User>): (p: LevelProgress)
    ensures p == LevelProgressOf(XpTotalOf(ActiveUser(userProp, authUser)))
    ensures userProp.Some? ==> p == LevelProgressOf(XpTotalOf(userProp))
  {
    LevelProgressOf(XpTotalOf(ActiveUser(userProp, authUser)))
  }

  /** Reaching a level's threshold shows its level with nothing yet into it. */
  lemma ProgressAtThreshold(level: int)
    requires level >= 1
    ensures LevelProgressOf(XpRequiredForLevel(level)).level == level
    ensures LevelProgressOf(XpRequiredForLevel(level)).xpInLevel == 0
    ensures LevelProgressOf(XpRequiredForLevel(level)).progress == 0
  {
    LevelOfThreshold(level);
  }

  /** The rounded percentage never drops as the share grows. */
  lemma RoundPercentMonotone(a: int, b: int, den: int)
    requires den > 0 && a <= b
    ensures RoundPercent(a, den) <= RoundPercent(b, den)
  {
    var p, q := RoundPercent(a, den), RoundPercent(b, den);
    if p > q {
      MulMonotone(2 * den, q + 1, p);
    }
  }

  /** Within one level, more XP never shows less progress. */
  lemma ProgressMonotoneWithinLevel(x: int, y: int)
    requires 0 <= x <= y && CalcLevelFromXp(x) == CalcLevelFromXp(y)
    ensures LevelProgressOf(x).progress <= LevelProgressOf(y).progress
  {
    var px, py := LevelProgressOf(x), LevelProgressOf(y);
    RoundPercentMonotone(px.xpInLevel, py.xpInLevel, px.levelSize);
  }
}
