/**
 * keep.ts, class KeepEquipment: the override of the post-raid save handler. When
 * the player did not survive it reconciles the stored (pre-raid) profile with the
 * profile the client sends (post-raid) under the mod's switches, instead of
 * applying the base handler's death penalties.
 */
module Keep {
  import opened Wrappers
  import opened Profile
  import opened KConfig
  import opened Items
  import opened Text
  import opened TaskCounters
  import opened ProfileMerge
  import opened RaidEnd

  /** The pre-raid profile up to and including the vitality branch. */
  function ReconciledBeforeAmulet(cfg: KConfig, h: Helpers, pre: ProfileSnapshot, post: ProfileSnapshot, health: SyncHealth): ProfileSnapshot {
    var merged := UpdatedProfile(cfg.profileSaving, pre, FatigueReset(post));
    merged.(InventoryItems := RetainedInventory(cfg, h, merged.InventoryItems, PostRaidItems(cfg, h, post.InventoryItems, pre.InsuredItems, post.FastPanel)),
            BodyParts := HealthAfterRaid(cfg, h, merged.BodyParts, health))
  }

  /** The pre-raid profile as it is saved, where `location` is the location name the amulet check reads. */
  function Reconciled(cfg: KConfig, h: Helpers, pre: ProfileSnapshot, post: ProfileSnapshot, health: SyncHealth, location: string): ProfileSnapshot {
    var p := ReconciledBeforeAmulet(cfg, h, pre, post, health);
    p.(Eft := p.Eft.(OverallCounters := RemainKillsAfterRaid(cfg.useSacredAmulet, location, post.Side, p.Eft.OverallCounters)))
  }

  /** The post-raid profile once the handler is done with it. */
  function PostAfterReconcile(cfg: KConfig, h: Helpers, pre: ProfileSnapshot, post: ProfileSnapshot): ProfileSnapshot {
    FatigueReset(post).(InventoryItems := PostRaidItems(cfg, h, post.InventoryItems, pre.InsuredItems, post.FastPanel))
  }

  class KeepEquipment {
    const config: KConfig
    const helpers: Helpers

    /** The switches come from the mod's config file and the helpers from the server; both are passed in here. */
    constructor (config: KConfig, helpers: Helpers)
      ensures this.config == config && this.helpers == helpers
    {
      this.config := config;
      this.helpers := helpers;
    }

    /** keep.ts:67-139 with the amulet check reading the raid's location, captured before updateProfile resets it. */
    method SavePmcProgress(server: InraidState, pre: PmcData, request: SaveProgressRequest, post: PmcData)
      returns (effects: seq<SideEffect>, threw: bool)
      requires pre != post && post.Valid()
      modifies server, pre, post
      ensures request.exit == Survived ==>
        effects == [CallBaseHandler] && !threw
        && unchanged(server) && unchanged(pre) && unchanged(post)
      ensures request.exit != Survived ==>
        server.Character == "pmc" && server.Location == LocationAfterUpdate
        && post.Snapshot() == PostAfterReconcile(config, helpers, old(pre.Snapshot()), old(post.Snapshot()))
        && threw == HealthResetThrows(config, old(pre.BodyParts), request.health)
        && (threw ==> effects == [] && pre.Snapshot() == ReconciledBeforeAmulet(config, helpers, old(pre.Snapshot()), old(post.Snapshot()), request.health))
        && (!threw ==>
              pre.Snapshot() == Reconciled(config, helpers, old(pre.Snapshot()), old(post.Snapshot()), request.health, old(server.Location))
              && effects == DeathSideEffects(helpers.isPlayerDead(request.exit), pre.Snapshot(), old(post.Eft.Aggressor), old(post.Eft.Victims)))
    {
      if request.exit == Survived {
        effects, threw := [CallBaseHandler], false;
        return;
      }
      var raidLocation := server.Location;
      var logged;
      logged, threw := ReconcileProfile(server, pre, request, post);
      effects := LogErrors(logged);
      if threw {
        return;
      }
      ApplySacredAmulet(pre, raidLocation, post.Side);
      effects := effects + DeathSideEffects(helpers.isPlayerDead(request.exit), pre.Snapshot(), post.Eft.Aggressor, post.Eft.Victims);
    }

    /** keep.ts:67-139 as written: the amulet check reads the location after updateProfile set it to "none". */
    method SavePmcProgressAsWritten(server: InraidState, pre: PmcData, request: SaveProgressRequest, post: PmcData)
      returns (effects: seq<SideEffect>, threw: bool)
      requires pre != post && post.Valid()
      modifies server, pre, post
      ensures request.exit == Survived ==>
        effects == [CallBaseHandler] && !threw
        && unchanged(server) && unchanged(pre) && unchanged(post)
      ensures request.exit != Survived ==>
        server.Character == "pmc" && server.Location == LocationAfterUpdate
        && post.Snapshot() == PostAfterReconcile(config, helpers, old(pre.Snapshot()), old(post.Snapshot()))
        && threw == HealthResetThrows(config, old(pre.BodyParts), request.health)
        && pre.Snapshot() == ReconciledBeforeAmulet(config, helpers, old(pre.Snapshot()), old(post.Snapshot()), request.health)
        && (threw ==> effects == [])
        && (!threw ==> effects == DeathSideEffects(helpers.isPlayerDead(request.exit), pre.Snapshot(), old(post.Eft.Aggressor), old(post.Eft.Victims)))
    {
      if request.exit == Survived {
        effects, threw := [CallBaseHandler], false;
        return;
      }
      var logged;
      logged, threw := ReconcileProfile(server, pre, request, post);
      effects := LogErrors(logged);
      if threw {
        return;
      }
      ghost var before := pre.Snapshot();
      ApplySacredAmulet(pre, server.Location, post.Side);
      AmuletNeverAppliesAsWritten(config.useSacredAmulet, post.Side, before.Eft.OverallCounters);
      assert pre.Snapshot() == before;
      effects := effects + DeathSideEffects(helpers.isPlayerDead(request.exit), pre.Snapshot(), post.Eft.Aggressor, post.Eft.Victims);
    }

    /** keep.ts:76-114, the steps both versions share: merge, inventory and vitality. */
    method ReconcileProfile(server: InraidState, pre: PmcData, request: SaveProgressRequest, post: PmcData)
      returns (logged: seq<Discrepancy>, threw: bool)
      requires pre != post && post.Valid()
      modifies server, pre, post
      ensures logged == []
      ensures server.Character == "pmc" && server.Location == LocationAfterUpdate
      ensures post.Snapshot() == PostAfterReconcile(config, helpers, old(pre.Snapshot()), old(post.Snapshot()))
      ensures pre.Snapshot() == ReconciledBeforeAmulet(config, helpers, old(pre.Snapshot()), old(post.Snapshot()), request.health)
      ensures threw == HealthResetThrows(config, old(pre.BodyParts), request.health)
    {
      server.Character := "pmc";
      logged := UpdateProfile(pre, post, server);
      ReconcileInventory(pre, post);
      threw := ReconcileHealth(pre, request.health);
    }

    /** keep.ts:141-186. */
    method UpdateProfile(pre: PmcData, post: PmcData, server: InraidState) returns (logged: seq<Discrepancy>)
      requires pre != post && post.Valid()
      modifies pre, post, server
      ensures post.Snapshot() == FatigueReset(old(post.Snapshot()))
      ensures pre.Snapshot() == UpdatedProfile(config.profileSaving, old(pre.Snapshot()), post.Snapshot())
      ensures config.profileSaving.questProgress ==> logged == ValidateTaskConditionCounters(post.TaskConditionCounters, post.TaskConditionCounters)
      ensures logged == []
      ensures server.Location == LocationAfterUpdate && server.Character == old(server.Character)
    {
      var ps := config.profileSaving;
      ResetSkillFatigue(post);
      ghost var source := post.Snapshot();
      ghost var step := pre.Snapshot();
      CopyStatsAndEarlier(pre, post);
      ghost var afterStats := pre.Snapshot();
      if ps.encyclopedia {
        pre.Encyclopedia := post.Encyclopedia;
      }
      assert pre.Snapshot() == CopyEncyclopedia(ps, afterStats, source);
      step := pre.Snapshot();
      logged := CopyQuestProgressAndValidate(pre, post);
      assert pre.Snapshot() == CopyQuestProgress(ps, step, source);
      step := pre.Snapshot();
      if ps.survivorClass {
        pre.SurvivorClass := post.SurvivorClass;
      }
      assert pre.Snapshot() == CopySurvivorClass(ps, step, source);
      step := pre.Snapshot();
      if ps.experience {
        pre.Experience := pre.Experience + pre.Eft.TotalSessionExperience;
        pre.Eft := pre.Eft.(TotalSessionExperience := 0);
      }
      assert pre.Snapshot() == FoldExperience(ps, step);
      server.Location := LocationAfterUpdate;
    }

    /** keep.ts:147-160: the level, skills and stats steps. */
    method CopyStatsAndEarlier(pre: PmcData, post: PmcData)
      requires pre != post
      modifies pre
      ensures pre.Snapshot() == CopyStats(config.profileSaving,
        CopySkills(config.profileSaving, CopyLevel(config.profileSaving, old(pre.Snapshot()), post.Snapshot()), post.Snapshot()),
        post.Snapshot())
    {
      var ps := config.profileSaving;
      if ps.level {
        pre.Level := post.Level;
      }
      if ps.skills {
        pre.Skills := post.Skills;
      }
      if ps.stats {
        pre.Eft := post.Eft;
      }
    }

    /** keep.ts:167-172: copy the quest counters, then validate the copy against its source. */
    method CopyQuestProgressAndValidate(pre: PmcData, post: PmcData) returns (logged: seq<Discrepancy>)
      requires pre != post && post.Valid()
      modifies pre
      ensures pre.Snapshot() == CopyQuestProgress(config.profileSaving, old(pre.Snapshot()), post.Snapshot())
      ensures config.profileSaving.questProgress ==> logged == ValidateTaskConditionCounters(post.TaskConditionCounters, post.TaskConditionCounters)
      ensures logged == []
    {
      logged := [];
      if config.profileSaving.questProgress {
        pre.TaskConditionCounters := post.TaskConditionCounters;
        logged := ValidateTaskConditionCounters(post.TaskConditionCounters, pre.TaskConditionCounters);
        ValidateAfterCopyReportsNothing(post.TaskConditionCounters);
      }
    }

    /** keep.ts:143-145: every common skill loses its per-session points. */
    method ResetSkillFatigue(post: PmcData)
      modifies post
      ensures post.Snapshot() == FatigueReset(old(post.Snapshot()))
    {
      var i := 0;
      while i < |post.Skills.Common|
        invariant |post.Skills.Common| == |old(post.Skills.Common)|
        invariant i <= |post.Skills.Common|
        invariant forall j :: 0 <= j < i ==> post.Skills.Common[j] == old(post.Skills.Common[j]).(PointsEarnedDuringSession := 0.0)
        invariant forall j :: i <= j < |post.Skills.Common| ==> post.Skills.Common[j] == old(post.Skills.Common[j])
        invariant post.Snapshot() == old(post.Snapshot()).(Skills := old(post.Skills).(Common := post.Skills.Common))
      {
        var skill := post.Skills.Common[i];
        post.Skills := post.Skills.(Common := post.Skills.Common[i := skill.(PointsEarnedDuringSession := 0.0)]);
        i := i + 1;
      }
      assert post.Skills.Common == WithoutSessionFatigue(old(post.Skills.Common));
    }

    /** keep.ts:81-99: the post-raid item processing and the retention branch. */
    method ReconcileInventory(pre: PmcData, post: PmcData)
      requires pre != post
      modifies pre, post
      ensures post.Snapshot() == old(post.Snapshot()).(InventoryItems :=
        PostRaidItems(config, helpers, old(post.InventoryItems), old(pre.InsuredItems), old(post.FastPanel)))
      ensures pre.Snapshot() == old(pre.Snapshot()).(InventoryItems := RetainedInventory(config, helpers, old(pre.InventoryItems), post.InventoryItems))
    {
      if !config.retainFoundInRaidStatus {
        post.InventoryItems := helpers.removeSpawnedInSessionPropertyFromItems(post.InventoryItems);
      }
      post.InventoryItems := helpers.replaceIDs(post.InventoryItems, pre.InsuredItems, post.FastPanel);
      post.InventoryItems := helpers.addStackCountToMoneyFromRaid(post.InventoryItems);
      if config.keepItemsFoundInRaid {
        pre.InventoryItems := helpers.setInventory(pre.InventoryItems, post.InventoryItems);
      } else if config.keepItemsInSecureContainer {
        var securedContainer := GetSecuredContainerAndChildren(post.InventoryItems);
        if securedContainer.Some? {
          pre.InventoryItems := helpers.removeSecureContainer(pre.InventoryItems);
          pre.InventoryItems := pre.InventoryItems + securedContainer.value;
        }
      }
    }

    /** keep.ts:101-114: save the reported vitality, or clear every effect (and throw on an unknown body part). */
    method ReconcileHealth(pre: PmcData, health: SyncHealth) returns (threw: bool)
      modifies pre
      ensures threw == HealthResetThrows(config, old(pre.BodyParts), health)
      ensures pre.Snapshot() == old(pre.Snapshot()).(BodyParts := HealthAfterRaid(config, helpers, old(pre.BodyParts), health))
    {
      if config.saveVitality {
        pre.BodyParts := helpers.saveVitality(pre.BodyParts, health);
        threw := false;
      } else {
        ClearBodyPartEffects(pre);
        threw := ClearReportedBodyPartEffects(pre, health);
      }
    }

    /** keep.ts:105-108: every stored body part loses its effects. */
    method ClearBodyPartEffects(pre: PmcData)
      modifies pre
      ensures pre.Snapshot() == old(pre.Snapshot()).(BodyParts := WithoutEffects(old(pre.BodyParts)))
    {
      var remaining := pre.BodyParts.Keys;
      while remaining != {}
        invariant remaining <= pre.BodyParts.Keys == old(pre.BodyParts).Keys
        invariant forall id :: id in pre.BodyParts ==>
          pre.BodyParts[id] == if id in remaining then old(pre.BodyParts)[id] else old(pre.BodyParts)[id].(Effects := None)
        invariant pre.Snapshot() == old(pre.Snapshot()).(BodyParts := pre.BodyParts)
        decreases remaining
      {
        var id :| id in remaining;
        pre.BodyParts := pre.BodyParts[id := pre.BodyParts[id].(Effects := None)];
        remaining := remaining - {id};
      }
      assert pre.BodyParts == WithoutEffects(old(pre.BodyParts));
    }

    /**
     * keep.ts:110-113: clears again the stored body part of every reported body
     * part name. Assigning to a missing body part throws a TypeError.
     */
    method ClearReportedBodyPartEffects(pre: PmcData, health: SyncHealth) returns (threw: bool)
      requires forall id :: id in pre.BodyParts ==> pre.BodyParts[id].Effects == None
      modifies pre
      ensures threw <==> !(health.Health.Keys <= old(pre.BodyParts).Keys)
      ensures pre.Snapshot() == old(pre.Snapshot())
    {
      var remaining := health.Health.Keys;
      threw := false;
      while remaining != {}
        invariant remaining <= health.Health.Keys
        invariant health.Health.Keys - remaining <= pre.BodyParts.Keys
        invariant pre.Snapshot() == old(pre.Snapshot())
        decreases remaining
      {
        var id :| id in remaining;
        if id !in pre.BodyParts {
          threw := true;
          return;
        }
        assert pre.BodyParts[id].(Effects := None) == pre.BodyParts[id];
        pre.BodyParts := pre.BodyParts[id := pre.BodyParts[id].(Effects := None)];
        remaining := remaining - {id};
      }
    }

    /** keep.ts:116-127: the sacred amulet lowers the remaining-kills counter, never below zero. */
    method ApplySacredAmulet(pre: PmcData, location: string, side: string)
      modifies pre
      ensures pre.Snapshot() == old(pre.Snapshot()).(Eft := old(pre.Eft).(OverallCounters :=
        RemainKillsAfterRaid(config.useSacredAmulet, location, side, old(pre.Eft.OverallCounters))))
    {
      if config.useSacredAmulet {
        var locationName := ToLower(location);
        if locationName == "lighthouse" && ToLower(side) == "usec" {
          var counters := pre.Eft.OverallCounters;
          var remaining := FirstWithTag(counters, RemainKillsTag);
          if remaining.Some? && counters[remaining.value].Value > 0 {
            var k := remaining.value;
            pre.Eft := pre.Eft.(OverallCounters := counters[k := counters[k].(Value := counters[k].Value - 1)]);
          }
        }
      }
    }
  }
}
