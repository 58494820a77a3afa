/**
 * The parts of the game's profile and raid-end request that the save handler reads
 * or writes. Field names follow the profile format.
 */
module Profile {
  import opened Wrappers

  /** How the player left the raid (the request's `exit`). */
  datatype ExitState = Survived | Killed | Left | Runner | MissingInAction

  /** An inventory item: a node of the ownership forest, linked to its owner by `parentId`. */
  datatype Item = Item(id: string, tpl: string, parentId: Option<string>, slotId: Option<string>)

  datatype SkillRecord = SkillRecord(Id: string, Progress: real, PointsEarnedDuringSession: real)
  datatype Mastery = Mastery(Id: string, Progress: int)
  /** The profile's `Skills` object. */
  datatype SkillSet = SkillSet(Common: seq<SkillRecord>, Mastering: seq<Mastery>, Points: int)

  /** An overall counter; its key is a list of tags. */
  datatype CounterKeyValue = CounterKeyValue(Key: seq<string>, Value: int)
  datatype Victim = Victim(Name: string, Side: string, Role: string)
  datatype Aggressor = Aggressor(ProfileId: string, Name: string, Side: string)
  /** The profile's `Stats.Eft` object. */
  datatype EftStats = EftStats(
    TotalSessionExperience: int,
    OverallCounters: seq<CounterKeyValue>,
    Victims: seq<Victim>,
    Aggressor: Option<Aggressor>)

  /** A quest condition counter; `id` and `value` may be absent in a request. */
  datatype TaskConditionCounter = TaskConditionCounter(id: Option<string>, sourceId: string, value: Option<int>)
  /** The `TaskConditionCounters` object as its entries in key order. */
  datatype CounterEntry = CounterEntry(key: string, counter: TaskConditionCounter)
  type CounterTable = seq<CounterEntry>

  /** An object's keys are distinct. */
  predicate DistinctKeys(t: CounterTable) {
    forall i, j :: 0 <= i < j < |t| ==> t[i].key != t[j].key
  }

  /** A body part of the stored profile; `Effects == None` is `Effects = undefined`. */
  datatype BodyPart = BodyPart(Current: int, Maximum: int, Effects: Option<map<string, int>>)
  /** The health the client reports at raid end. */
  datatype SyncBodyPart = SyncBodyPart(Current: int, Maximum: int)
  datatype SyncHealth = SyncHealth(Health: map<string, SyncBodyPart>, Hydration: int, Energy: int, Temperature: int)

  datatype InsuredItem = InsuredItem(tid: string, itemId: string)

  /** A value copy of every field of `PmcData`. */
  datatype ProfileSnapshot = ProfileSnapshot(
    Level: int,
    Experience: int,
    Side: string,
    Skills: SkillSet,
    Eft: EftStats,
    Encyclopedia: map<string, bool>,
    TaskConditionCounters: CounterTable,
    SurvivorClass: int,
    InventoryItems: seq<Item>,
    FastPanel: map<string, string>,
    InsuredItems: seq<InsuredItem>,
    BodyParts: map<string, BodyPart>)

  /**
   * A PMC profile. The pre-raid profile is the stored character; the post-raid
   * profile is the one the client sends. The save handler updates both in place.
   */
  class PmcData {
    var Level: int                  // Info.Level
    var Experience: int             // Info.Experience
    var Side: string                // Info.Side
    var Skills: SkillSet
    var Eft: EftStats               // Stats.Eft
    var Encyclopedia: map<string, bool>
    var TaskConditionCounters: CounterTable
    var SurvivorClass: int
    var InventoryItems: seq<Item>   // Inventory.items
    var FastPanel: map<string, string>
    var InsuredItems: seq<InsuredItem>
    var BodyParts: map<string, BodyPart>  // Health.BodyParts

    constructor (s: ProfileSnapshot)
      ensures Snapshot() == s
    {
      Level, Experience, Side := s.Level, s.Experience, s.Side;
      Skills, Eft, Encyclopedia := s.Skills, s.Eft, s.Encyclopedia;
      TaskConditionCounters, SurvivorClass := s.TaskConditionCounters, s.SurvivorClass;
      InventoryItems, FastPanel, InsuredItems := s.InventoryItems, s.FastPanel, s.InsuredItems;
      BodyParts := s.BodyParts;
    }

    /** Its counter table has distinct keys, as every object does. */
    predicate Valid()
      reads this
    {
      DistinctKeys(TaskConditionCounters)
    }

    function Snapshot(): ProfileSnapshot
      reads this
    {
      ProfileSnapshot(Level, Experience, Side, Skills, Eft, Encyclopedia, TaskConditionCounters,
                      SurvivorClass, InventoryItems, FastPanel, InsuredItems, BodyParts)
    }
  }

  /** The stored account's `inraid` record. */
  class InraidState {
    var Character: string
    var Location: string

    constructor (character: string, location: string)
      ensures Character == character && Location == location
    {
      Character, Location := character, location;
    }
  }

  /** The parts of the raid-end request other than the post-raid profile. */
  datatype SaveProgressRequest = SaveProgressRequest(exit: ExitState, health: SyncHealth)
}
