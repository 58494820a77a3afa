# KeepEquipment post-raid save handler, modelled in Dafny

The mod replaces the game server's post-raid save handler (`savePmcProgress`).
When the player survived it hands over to the base handler. Otherwise it does not
apply the usual death penalties. Instead it reconciles the stored pre-raid profile
with the post-raid profile the client sends, under the boolean switches of the mod's
config:

- `updateProfile` resets per-session skill fatigue, then copies level, skills, stats,
  encyclopedia, quest condition counters and survivor class, each only when its
  `profileSaving` switch is on. It then folds the session experience into the
  experience and marks the player as no longer in a raid.
- The post-raid items get their identities remapped and their money stacks merged.
- Then one of three things happens. With keep-found-in-raid on, the inventory helper
  adopts the whole post-raid inventory. Otherwise, with keep-secure-container on, the
  secure container and everything in it replace the pre-raid one. In every other case
  the pre-raid inventory stays.
- Body-part effects are cleared unless vitality is saved.
- The sacred amulet is meant to lower a remaining-kills counter. As written it never
  does, because the location it tests was already reset (see Findings).
- The killer message goes out and the bot cache is cleared when the player is dead.
- A victim message lists the PMC-bot victims.

Modules, leaves first:

- `Wrappers`, `Text`: `Option` and an ASCII `toLowerCase`.
- `KConfig`: the switch record.
- `Profile`: the profile datatypes, plus the classes `PmcData` (a profile whose fields
  the handler assigns) and `InraidState` (the account's `inraid` record).
- `Items`: secure-container lookup and subtree collection.
- `TaskCounters`: the counter validator, as a pure function that returns the list of
  discrepancies it would log.
- `ProfileMerge`: `updateProfile` as a function on profile values.
- `RaidEnd`: the retention rules, the amulet counter and the message requests.
- `Keep`: the class `KeepEquipment`. Its methods perform the same steps in source
  order on the profile objects. Each method's `ensures` ties the new object state to
  the functions above.

Collaborators whose bodies are not shown are fields of the datatype
`RaidEnd.Helpers`. Each is an arbitrary function, so nothing is assumed about the
values it returns. Its signature does assume which values it reads and which
profile field it writes (see "## Left out"). These are
`removeSpawnedInSessionPropertyFromItems`, `replaceIDs`,
`addStackCountToMoneyFromRaid`, `setInventory`, `removeSecureContainer`,
`saveVitality` and `isPlayerDead`. The base handler, the error log, the killer and
victim messages and the cache clear are returned in order as `SideEffect` requests.

Behaviour of the code that a reader might not expect:

- The experience fold has its own switch. It reads `TotalSessionExperience` from the
  pre-raid stats after the stats step. So with the stats switch on, the post-raid
  session experience is added.
- The counter validator runs after the counters were copied, and compares the table
  with itself. It can therefore never report anything (`ValidateAfterCopyReportsNothing`).
- The code has no trader-standing clamp, no wishlist copy, no quest-status copy and no
  coupling to `keepQuestItems`. It never reads `killerMessages` or `victimMessages`:
  the messages are sent whatever those switches say. None of this is modelled,
  because the code does not do it.
- The second effect-clearing loop (src/keep.ts:110-113) indexes the pre-raid body
  parts with the body-part names the client reports. After the first loop it changes
  nothing. It throws a TypeError when a reported name is missing from the stored
  profile. The model returns `threw` for that case.

## Model

| member | source | states |
|---|---|---|
| `Keep.KeepEquipment.SavePmcProgress` | src/keep.ts:67-139 | Survived: only the base handler is requested and the profiles and `inraid` record are unchanged. Otherwise: character "pmc", location "none", post-raid profile = fatigue reset plus processed items, pre-raid profile = `Reconciled` with the raid's own location, and requests = `DeathSideEffects` carrying the saved profile. It throws exactly when the reported body parts are not all stored (corrected amulet location, see Findings) |
| `Keep.KeepEquipment.SavePmcProgressAsWritten` | src/keep.ts:67-139 | Same as `SavePmcProgress`, except that the saved profile is `ReconciledBeforeAmulet`: the amulet never changes a counter, because line 117 reads the location after line 185 reset it |
| `Keep.KeepEquipment.ReconcileProfile` | src/keep.ts:76-114 | Sets the character to "pmc" and logs nothing. The pre-raid profile becomes merge + retained inventory + health branch; the post-raid profile becomes fatigue reset + processed items |
| `Keep.KeepEquipment.UpdateProfile` | src/keep.ts:141-186 | The post-raid profile changes only by the fatigue reset. The pre-raid profile becomes `UpdatedProfile` of the old pre-raid and reset post-raid profiles. The log is empty (and is the self-validation when quest progress is on). The location becomes "none" |
| `Keep.KeepEquipment.CopyStatsAndEarlier` | src/keep.ts:147-160 | The pre-raid profile after the level, skills and stats steps, in that order |
| `Keep.KeepEquipment.CopyQuestProgressAndValidate` | src/keep.ts:167-172 | Counters copied exactly when quest progress is on. The validation then runs on the copied table and returns no discrepancy |
| `Keep.KeepEquipment.ResetSkillFatigue` | src/keep.ts:143-145 | Loop: every common skill of the post-raid profile gets zero session points; nothing else changes |
| `Keep.KeepEquipment.ReconcileInventory` | src/keep.ts:81-99 | Post-raid items = strip found-in-raid tags unless they are retained, then remap identities, then stack money. Pre-raid items = `RetainedInventory` of those items. No other field changes |
| `Keep.KeepEquipment.ReconcileHealth` | src/keep.ts:101-114 | Body parts = saved vitality, or every part without effects. Throws exactly when vitality is not saved and a reported part is not stored |
| `Keep.KeepEquipment.ClearBodyPartEffects` | src/keep.ts:105-108 | Loop over the stored parts: each loses its effects and keeps its health; nothing else changes |
| `Keep.KeepEquipment.ClearReportedBodyPartEffects` | src/keep.ts:110-113 | Loop over the reported parts: throws exactly when one is not stored, and otherwise changes nothing, since the effects are already cleared |
| `Keep.KeepEquipment.ApplySacredAmulet` | src/keep.ts:116-127 | The overall counters become `RemainKillsAfterRaid` of the old ones; nothing else changes |
| `ProfileMerge.WithoutSessionFatigue` | src/keep.ts:143-145 | Same length, every record has zero session points and is otherwise the input record |
| `ProfileMerge.FatigueAlwaysReset` | src/keep.ts:142-155 | Whatever the switches: the post-raid skills have no session points, and neither do the pre-raid skills when they were copied |
| `ProfileMerge.LevelGated` | src/keep.ts:148-150 | Level after the merge = post-raid level if the switch is on, else pre-raid level |
| `ProfileMerge.SkillsGated` | src/keep.ts:153-155 | Skills after the merge = post-raid skills if the switch is on, else pre-raid skills |
| `ProfileMerge.StatsGated` | src/keep.ts:158-160 | Stats after the merge = post-raid stats if the switch is on, else pre-raid stats. With the experience switch on, their session experience is then zeroed |
| `ProfileMerge.EncyclopediaGated` | src/keep.ts:163-165 | Encyclopedia after the merge = post-raid one if the switch is on, else pre-raid one |
| `ProfileMerge.QuestProgressGated` | src/keep.ts:168-172 | Counter table after the merge = post-raid table if quest progress is on, else pre-raid table |
| `ProfileMerge.SurvivorClassGated` | src/keep.ts:175-177 | Survivor class after the merge = post-raid one if the switch is on, else pre-raid one |
| `ProfileMerge.ExperienceFolded` | src/keep.ts:158-183 | Switch on: experience' = experience + T and session experience' = 0, where T comes from the post-raid stats if stats are copied, else the pre-raid stats. Switch off: both unchanged |
| `ProfileMerge.OtherFieldsUntouched` | src/keep.ts:141-186 | The merge leaves side, inventory, fast panel, insured items and body parts as they were |
| `TaskCounters.Lookup` | src/keep.ts:206 | `None` exactly when no entry has the key; otherwise the counter of an entry with that key |
| `TaskCounters.ValidateTaskConditionCounters` | src/keep.ts:193-218 | No more discrepancies than post-raid entries. Each one names the key of a post-raid entry whose id is truthy and whose value is defined |
| `TaskCounters.MissingKeyReported` | src/keep.ts:194-211 | "Missing key" is reported for k exactly when some such entry has key k and the pre-raid table lacks k |
| `TaskCounters.MismatchReported` | src/keep.ts:194-216 | A mismatch (k, old, new) is reported exactly when some such entry has key k and value new, the pre-raid counter under k has value old, and old != new |
| `TaskCounters.LookupOwnEntry` | src/keep.ts:206 | In a table with distinct keys, looking up an entry's key finds that entry |
| `TaskCounters.NoDiscrepancyWhenMatching` | src/keep.ts:193-218 | Nothing is reported when every post-raid entry is what the pre-raid table holds under its key |
| `TaskCounters.ValidateAfterCopyReportsNothing` | src/keep.ts:169-171 | Validating a table against itself reports nothing, which is the call `updateProfile` makes |
| `Items.FirstInSlot` | src/keep.ts:221 | `None` exactly when no item sits in the slot; otherwise the index of the first item that does |
| `Items.GetSecuredContainerAndChildren` | src/keep.ts:220-227 | `None` exactly when no item is in the secure-container slot. Otherwise: the first such item, together with its subtree, which contains it |
| `Items.ParentOf` | src/keep.ts:223 | Any owner returned is the `parentId` of an item with that identity |
| `Items.SubtreeOf` | src/keep.ts:223 | Its members are exactly the listed items whose owner chain reaches the root; never longer than the list |
| `Items.ChildrenAsItems` | src/keep.ts:223 | The collected subtree consists of items of the list |
| `Items.ParentOfUnique` | src/keep.ts:223 | With unique identities, the owner of an item's identity is that item's `parentId` |
| `Items.SubtreeHoldsAllDescendants` | src/keep.ts:223 | For acyclic lists with unique identities: an item whose owner is collected is collected too, so every transitive descendant is kept |
| `Items.SubtreeIsClosedUpward` | src/keep.ts:223 | Every collected item other than the root has its owner among the collected items: no dangling owner link |
| `RaidEnd.SecureContainerContentsKept` | src/keep.ts:92-98 | Under the secure-container branch the new inventory starts with what remains of the pre-raid one. After that come the container and all its post-raid descendants. Everything appended is a post-raid item in the container's subtree |
| `RaidEnd.WithoutEffects` | src/keep.ts:105-113 | Same body parts, no effects, health values kept |
| `RaidEnd.FirstWithTag` | src/keep.ts:120-122 | `None` exactly when no counter key holds the tag; otherwise the first counter whose key does |
| `RaidEnd.DecrementRemainKills` | src/keep.ts:119-125 | Same keys. Changes exactly when the first remaining-kills counter is positive, and then only that counter, by -1. A changed value is never below zero |
| `RaidEnd.RemainKillsRule` | src/keep.ts:116-127 | The counters change exactly when the amulet switch is set, the location is lighthouse, the side is usec and the counter is > 0. The change is a decrement by 1 to a value >= 0 |
| `RaidEnd.AmuletNeverAppliesAsWritten` | src/keep.ts:117 | With the location "none" that line 117 reads, the amulet never applies and the counters stay |
| `RaidEnd.AmuletCounterexample` | src/keep.ts:116-127 | A USEC player on lighthouse with 3 remaining kills: the intended rule leaves 2, as written 3 stay |
| `RaidEnd.PmcVictims` | src/keep.ts:135 | Keeps exactly the victims whose role is sptBear or sptUsec, each as often as it occurs |
| `RaidEnd.PmcVictimsNonEmpty` | src/keep.ts:134-135 | The filtered victim list is non-empty exactly when some victim has role sptBear or sptUsec |
| `RaidEnd.LogErrors` | src/keep.ts:208-215 | One error line per discrepancy, in order |
| `RaidEnd.DeathSideEffects` | src/keep.ts:129-138 | Killer response and cache clear exactly when the player is dead, killer first. A victim response exactly when some victim has a PMC role, carrying only those victims. Nothing else and nothing twice: two requests when dead, plus one victim response. Both responses carry the saved profile |

## Left out

- The constructor's dependency injection, the `require` of the config file and the
  `saveServer.getProfile` lookup (src/keep.ts:34-60, 73). The config, the helpers and
  both profiles are parameters.
- The helpers listed in `RaidEnd.Helpers`, and `sendKillerResponse`,
  `sendVictimResponse`, `clearCache` and `super.savePmcProgress`: their bodies are not
  part of this model. Only the field each one writes back is modelled. What else they
  do to a profile is not modelled: for example, `replaceIDs` also rewrites the insured
  list and fast panel in place.
- Helpers that hand back a profile object. src/keep.ts:82 rebinds
  `postRaidData.profile` to the result of `removeSpawnedInSessionPropertyFromItems`,
  and src/keep.ts:96 rebinds `preRaidData` to the result of `removeSecureContainer`.
  The model takes each to return its own argument with only the item list changed.
  Were another object returned, the concat at line 97, the health writes at lines
  105-113, the amulet write at line 124 and the messages at lines 131 and 137 would
  go to that object rather than the stored pre-raid profile. `SavePmcProgress` and
  `ReconcileProfile` state the new stored profile under this assumption.
- Helper inputs are narrowed to what the model assumes each reads. `replaceIDs` does
  not see the post-raid profile it is passed at line 86. `setInventory` sees only the
  two item lists, not the two profiles passed at line 91. `saveVitality` sees only
  the stored body parts, not the profile passed at line 102.
  `addStackCountToMoneyFromRaid` works in place; the model takes its effect as a new
  item list.
- Logger and localisation text (src/keep.ts:208, 214). Only the kind and payload of
  each discrepancy are kept.
- Sharing of sub-objects. After the skills or stats copy, the two profiles share one
  object. The source's later writes through the shared stats (the experience zeroing,
  the amulet decrement) therefore also reach the post-raid stats. The model writes
  only the pre-raid value. Afterwards the post-raid stats are read only for
  `Aggressor` and `Victims`, and those writes do not touch them.
- Numbers: JavaScript numbers are `int` (experience, counters) or `real` (skill
  points). Floating-point rounding is not modelled.
- `toLowerCase` is modelled for the letters A to Z only.
- Items.ChildrenAsItems: `findAndReturnChildrenAsItems` is not part of this model.
  Its contract is assumed: the root plus all transitive descendants via `parentId`,
  in list order (the order is a modelling choice). The closure lemmas assume an
  acyclic owner graph and unique identities (`Items.Acyclic`, `Items.UniqueIds`). When
  the root itself lies on an owner cycle, a walk down `parentId` from the root would
  not end, while the model's bounded walk returns a finite list.
- Exceptions other than the body-part TypeError, such as missing profile fields or a
  missing `Stats.Eft`, are not modelled.

## Findings

| source | as written | input that shows it | evidently intended | confidence | as-written member | corrected member |
|---|---|---|---|---|---|---|
| src/keep.ts:117 | The amulet check reads `currentProfile.inraid.location`. That is after `updateProfile` (line 79) set it to "none" at line 185, so the lighthouse test at line 118 is always false | `useSacredAmulet` on, a USEC character ending a raid on `lighthouse` with remaining-kills counter 3: the counter stays 3 (`RaidEnd.AmuletCounterexample`) | Read the location of the raid that just ended, before line 79, so the counter becomes 2 | high; not executed | `Keep.KeepEquipment.SavePmcProgressAsWritten` | `Keep.KeepEquipment.SavePmcProgress` |
