/**
 * The mod's policy switches (src/KConfig.ts). The record is loaded once from the
 * mod's config file and never changes while a raid is being saved.
 */
module KConfig {

  /** One switch per profile field that `updateProfile` may copy from the post-raid profile. */
  datatype ProfileSaving = ProfileSaving(
    level: bool,
    experience: bool,
    skills: bool,
    encyclopedia: bool,
    questProgress: bool,
    survivorClass: bool,
    stats: bool)

  /**
   * The flat switch record. `useSacredAmulet` is read by `savePmcProgress` but is
   * missing from the declared type, so it is an extra field here. `active`,
   * `keepQuestItems`, `killerMessages` and `victimMessages` are declared but never
   * read by the save handler.
   */
  datatype KConfig = KConfig(
    active: bool,
    keepItemsFoundInRaid: bool,
    keepItemsInSecureContainer: bool,
    retainFoundInRaidStatus: bool,
    saveVitality: bool,
    keepQuestItems: bool,
    killerMessages: bool,
    victimMessages: bool,
    profileSaving: ProfileSaving,
    useSacredAmulet: bool)
}
