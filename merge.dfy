/**
 * keep.ts, updateProfile: the policy-gated copy of post-raid fields onto the
 * pre-raid profile, as a function on profile values. The method that performs
 * it step by step on the profile objects is Keep.KeepEquipment.UpdateProfile.
 */
module ProfileMerge {
  import opened Profile
  import opened KConfig

  /** Every skill record with its per-session points reset to zero, nothing else changed. */
  function WithoutSessionFatigue(common: seq<SkillRecord>): (r: seq<SkillRecord>)
    ensures |r| == |common|
    ensures forall i :: 0 <= i < |r| ==> r[i].PointsEarnedDuringSession == 0.0
    ensures forall i :: 0 <= i < |r| ==> r[i].(PointsEarnedDuringSession := common[i].PointsEarnedDuringSession) == common[i]
  {
    if common == [] then []
    else [common[0].(PointsEarnedDuringSession := 0.0)] + WithoutSessionFatigue(common[1..])
  }

  /** The post-raid profile after the fatigue loop, the first step of updateProfile. */
  function FatigueReset(post: ProfileSnapshot): ProfileSnapshot {
    post.(Skills := post.Skills.(Common := WithoutSessionFatigue(post.Skills.Common)))
  }

  // The steps of updateProfile after the fatigue reset, one per switch. Each
  // writes its own field only.

  function CopyLevel(ps: ProfileSaving, p: ProfileSnapshot, post: ProfileSnapshot): ProfileSnapshot {
    if ps.level then p.(Level := post.Level) else p
  }

  function CopySkills(ps: ProfileSaving, p: ProfileSnapshot, post: ProfileSnapshot): ProfileSnapshot {
    if ps.skills then p.(Skills := post.Skills) else p
  }

  function CopyStats(ps: ProfileSaving, p: ProfileSnapshot, post: ProfileSnapshot): ProfileSnapshot {
    if ps.stats then p.(Eft := post.Eft) else p
  }

  function CopyEncyclopedia(ps: ProfileSaving, p: ProfileSnapshot, post: ProfileSnapshot): ProfileSnapshot {
    if ps.encyclopedia then p.(Encyclopedia := post.Encyclopedia) else p
  }

  function CopyQuestProgress(ps: ProfileSaving, p: ProfileSnapshot, post: ProfileSnapshot): ProfileSnapshot {
    if ps.questProgress then p.(TaskConditionCounters := post.TaskConditionCounters) else p
  }

  function CopySurvivorClass(ps: ProfileSaving, p: ProfileSnapshot, post: ProfileSnapshot): ProfileSnapshot {
    if ps.survivorClass then p.(SurvivorClass := post.SurvivorClass) else p
  }

  /** Adds the session experience recorded in the profile's own stats to its experience, then zeroes it. */
  function FoldExperience(ps: ProfileSaving, p: ProfileSnapshot): ProfileSnapshot {
    if ps.experience then
      p.(Experience := p.Experience + p.Eft.TotalSessionExperience, Eft := p.Eft.(TotalSessionExperience := 0))
    else p
  }

  /**
   * The pre-raid profile after the gated steps, in source order: level, skills,
   * stats, encyclopedia, quest counters, survivor class, then the experience
   * fold, which reads the session experience from the stats as they stand after
   * the stats step. `post` is the post-raid profile after the fatigue reset.
   */
  function UpdatedProfile(ps: ProfileSaving, pre: ProfileSnapshot, post: ProfileSnapshot): ProfileSnapshot {
    var afterLevel := CopyLevel(ps, pre, post);
    var afterSkills := CopySkills(ps, afterLevel, post);
    var afterStats := CopyStats(ps, afterSkills, post);
    var afterEncyclopedia := CopyEncyclopedia(ps, afterStats, post);
    var afterQuests := CopyQuestProgress(ps, afterEncyclopedia, post);
    var afterClass := CopySurvivorClass(ps, afterQuests, post);
    FoldExperience(ps, afterClass)
  }

  /** The stats the experience step reads: the post-raid ones when the stats switch is on. */
  function StatsAfterCopy(ps: ProfileSaving, pre: ProfileSnapshot, post: ProfileSnapshot): EftStats {
    if ps.stats then post.Eft else pre.Eft
  }

  /** The level is copied exactly when its switch is on. */
  lemma LevelGated(ps: ProfileSaving, pre: ProfileSnapshot, post: ProfileSnapshot)
    ensures UpdatedProfile(ps, pre, post).Level == if ps.level then post.Level else pre.Level
  {
  }

  /** The skills are copied exactly when their switch is on. */
  lemma SkillsGated(ps: ProfileSaving, pre: ProfileSnapshot, post: ProfileSnapshot)
    ensures UpdatedProfile(ps, pre, post).Skills == if ps.skills then post.Skills else pre.Skills
  {
  }

  /** The encyclopedia is copied exactly when its switch is on. */
  lemma EncyclopediaGated(ps: ProfileSaving, pre: ProfileSnapshot, post: ProfileSnapshot)
    ensures UpdatedProfile(ps, pre, post).Encyclopedia == if ps.encyclopedia then post.Encyclopedia else pre.Encyclopedia
  {
  }

  /** The quest counters are copied exactly when the quest-progress switch is on. */
  lemma QuestProgressGated(ps: ProfileSaving, pre: ProfileSnapshot, post: ProfileSnapshot)
    ensures UpdatedProfile(ps, pre, post).TaskConditionCounters
         == if ps.questProgress then post.TaskConditionCounters else pre.TaskConditionCounters
  {
  }

  /** The survivor class is copied exactly when its switch is on. */
  lemma SurvivorClassGated(ps: ProfileSaving, pre: ProfileSnapshot, post: ProfileSnapshot)
    ensures UpdatedProfile(ps, pre, post).SurvivorClass == if ps.survivorClass then post.SurvivorClass else pre.SurvivorClass
  {
  }

  /**
   * The stats are copied exactly when their switch is on; the experience fold
   * then only zeroes their session experience. Without the fold, the stats
   * switch affects nothing but the stats.
   */
  lemma StatsGated(ps: ProfileSaving, pre: ProfileSnapshot, post: ProfileSnapshot)
    ensures !ps.experience ==> UpdatedProfile(ps, pre, post).Eft == StatsAfterCopy(ps, pre, post)
    ensures ps.experience ==> UpdatedProfile(ps, pre, post).Eft == StatsAfterCopy(ps, pre, post).(TotalSessionExperience := 0)
  {
  }

  /**
   * The experience fold: with its switch on, the session experience of the stats
   * as they stand after the stats step is added to the experience and then
   * zeroed; with it off, both are left as they are.
   */
  lemma ExperienceFolded(ps: ProfileSaving, pre: ProfileSnapshot, post: ProfileSnapshot)
    ensures var r := UpdatedProfile(ps, pre, post);
      if ps.experience then
        r.Experience == pre.Experience + StatsAfterCopy(ps, pre, post).TotalSessionExperience
        && r.Eft.TotalSessionExperience == 0
      else
        r.Experience == pre.Experience
        && r.Eft.TotalSessionExperience == StatsAfterCopy(ps, pre, post).TotalSessionExperience
  {
  }

  /** The merge writes no field outside the switch table: side, inventory, insurance and health stay. */
  lemma OtherFieldsUntouched(ps: ProfileSaving, pre: ProfileSnapshot, post: ProfileSnapshot)
    ensures var r := UpdatedProfile(ps, pre, post);
      r.Side == pre.Side && r.InventoryItems == pre.InventoryItems && r.FastPanel == pre.FastPanel
      && r.InsuredItems == pre.InsuredItems && r.BodyParts == pre.BodyParts
  {
  }

  /**
   * Skill fatigue is reset whatever the switches: the post-raid skills carry no
   * session points, and neither do the pre-raid ones when they were copied.
   */
  lemma FatigueAlwaysReset(ps: ProfileSaving, pre: ProfileSnapshot, post: ProfileSnapshot)
    ensures forall s :: s in FatigueReset(post).Skills.Common ==> s.PointsEarnedDuringSession == 0.0
    ensures ps.skills ==> forall s :: s in UpdatedProfile(ps, pre, FatigueReset(post)).Skills.Common ==> s.PointsEarnedDuringSession == 0.0
  {
  }
}
