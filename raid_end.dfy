/**
 * The retention rules savePmcProgress applies after updateProfile when the
 * player did not survive: the inventory branch, the health reset, the sacred
 * amulet counter and the killer and victim messages.
 */
module RaidEnd {
  import opened Wrappers
  import opened Profile
  import opened KConfig
  import opened Items
  import opened Text
  import opened TaskCounters

  /**
   * Server helpers whose bodies are not part of this model. Each is given as a
   * function from what it reads to what it writes back into the profile.
   */
  datatype Helpers = Helpers(
    removeSpawnedInSessionPropertyFromItems: seq<Item> -> seq<Item>,
    replaceIDs: (seq<Item>, seq<InsuredItem>, map<string, string>) -> seq<Item>,
    addStackCountToMoneyFromRaid: seq<Item> -> seq<Item>,
    setInventory: (seq<Item>, seq<Item>) -> seq<Item>,
    removeSecureContainer: seq<Item> -> seq<Item>,
    saveVitality: (map<string, BodyPart>, SyncHealth) -> map<string, BodyPart>,
    isPlayerDead: ExitState -> bool)

  /** A request the handler makes of a collaborator, in the order it makes them. */
  datatype SideEffect =
    | CallBaseHandler
    | LogError(discrepancy: Discrepancy)
    | SendKillerResponse(profile: ProfileSnapshot, aggressor: Option<Aggressor>)
    | ClearCache
    | SendVictimResponse(victims: seq<Victim>, profile: ProfileSnapshot)

  // ---------------------------------------------------------------- inventory

  /** The post-raid items once found-in-raid tags, identities and money stacks are processed. */
  function PostRaidItems(cfg: KConfig, h: Helpers, items: seq<Item>, insured: seq<InsuredItem>, fastPanel: map<string, string>): seq<Item> {
    var stripped := if cfg.retainFoundInRaidStatus then items else h.removeSpawnedInSessionPropertyFromItems(items);
    h.addStackCountToMoneyFromRaid(h.replaceIDs(stripped, insured, fastPanel))
  }

  /** The pre-raid inventory after the retention branch, given the processed post-raid items. */
  function RetainedInventory(cfg: KConfig, h: Helpers, preItems: seq<Item>, postItems: seq<Item>): seq<Item> {
    if cfg.keepItemsFoundInRaid then h.setInventory(preItems, postItems)
    else if cfg.keepItemsInSecureContainer then
      match GetSecuredContainerAndChildren(postItems)
      case Some(secured) => h.removeSecureContainer(preItems) + secured
      case None => preItems
    else preItems
  }

  /**
   * Under the secure-container policy nothing the container holds is lost: the
   * container and every item whose owner is kept from the post-raid list are in
   * the new inventory, after what remains of the pre-raid one, and nothing
   * outside the container's subtree is taken from the post-raid list.
   */
  lemma SecureContainerContentsKept(cfg: KConfig, h: Helpers, preItems: seq<Item>, postItems: seq<Item>, k: nat)
    requires !cfg.keepItemsFoundInRaid && cfg.keepItemsInSecureContainer
    requires UniqueIds(postItems) && Acyclic(postItems)
    requires FirstInSlot(postItems, SecuredContainerSlot) == Some(k)
    ensures var r := RetainedInventory(cfg, h, preItems, postItems);
      var kept := r[|h.removeSecureContainer(preItems)|..];
      r[..|h.removeSecureContainer(preItems)|] == h.removeSecureContainer(preItems)
      && postItems[k] in kept
      && (forall x :: x in kept ==> x in postItems && InSubtree(postItems, x.id, postItems[k].id, |postItems|))
      && (forall i, j ::
            0 <= i < |postItems| && 0 <= j < |postItems| && postItems[j] in kept && postItems[i].parentId == Some(postItems[j].id)
            ==> postItems[i] in kept)
  {
    var removed := h.removeSecureContainer(preItems);
    var secured := ChildrenAsItems(postItems, postItems[k].id);
    var r := RetainedInventory(cfg, h, preItems, postItems);
    assert r == removed + secured;
    assert r[|removed|..] == secured;
    assert InSubtree(postItems, postItems[k].id, postItems[k].id, |postItems|);
    forall i, j | 0 <= i < |postItems| && 0 <= j < |postItems| && postItems[j] in secured
      && postItems[i].parentId == Some(postItems[j].id)
      ensures postItems[i] in secured
    {
      SubtreeHoldsAllDescendants(postItems, postItems[k].id, i, j);
    }
  }

  // ------------------------------------------------------------------- health

  /** Every body part with its effects removed and its health values kept. */
  function WithoutEffects(parts: map<string, BodyPart>): (r: map<string, BodyPart>)
    ensures r.Keys == parts.Keys
    ensures forall id :: id in r ==> r[id].Effects == None
    ensures forall id :: id in r ==> r[id].Current == parts[id].Current && r[id].Maximum == parts[id].Maximum
  {
    map id | id in parts :: parts[id].(Effects := None)
  }

  /** The pre-raid body parts after the vitality branch. */
  function HealthAfterRaid(cfg: KConfig, h: Helpers, parts: map<string, BodyPart>, health: SyncHealth): map<string, BodyPart> {
    if cfg.saveVitality then h.saveVitality(parts, health) else WithoutEffects(parts)
  }

  /**
   * The second effect-clearing loop indexes the pre-raid body parts with the
   * reported body-part names; a name the stored profile lacks makes it write to
   * `undefined`, which throws.
   */
  predicate HealthResetThrows(cfg: KConfig, parts: map<string, BodyPart>, health: SyncHealth) {
    !cfg.saveVitality && !(health.Health.Keys <= parts.Keys)
  }

  // ---------------------------------------------------------------- amulet

  /** The tag of the overall counter the sacred amulet decrements. */
  const RemainKillsTag: string := "UsecRaidRemainKills"

  /** The index of the first counter whose key holds `tag`. */
  function FirstWithTag(counters: seq<CounterKeyValue>, tag: string): (r: Option<nat>)
    ensures r.None? <==> forall i :: 0 <= i < |counters| ==> tag !in counters[i].Key
    ensures r.Some? ==> r.value < |counters| && tag in counters[r.value].Key
    ensures r.Some? ==> forall j :: 0 <= j < r.value ==> tag !in counters[j].Key
  {
    if counters == [] then None
    else if tag in counters[0].Key then Some(0)
    else match FirstWithTag(counters[1..], tag)
      case None => None
      case Some(k) => Some(k + 1)
  }

  /** The first remaining-kills counter may be decremented: it exists and is positive. */
  predicate CanDecrement(counters: seq<CounterKeyValue>) {
    match FirstWithTag(counters, RemainKillsTag)
    case None => false
    case Some(k) => counters[k].Value > 0
  }

  /** Decrements the first remaining-kills counter if it is positive. */
  function DecrementRemainKills(counters: seq<CounterKeyValue>): (r: seq<CounterKeyValue>)
    ensures |r| == |counters|
    ensures forall j :: 0 <= j < |r| ==> r[j].Key == counters[j].Key
    ensures r != counters <==> CanDecrement(counters)
    ensures forall j :: 0 <= j < |r| ==>
      r[j] == counters[j]
      || (FirstWithTag(counters, RemainKillsTag) == Some(j) && r[j].Value == counters[j].Value - 1)
    ensures forall j :: 0 <= j < |r| && r[j] != counters[j] ==> r[j].Value >= 0
  {
    match FirstWithTag(counters, RemainKillsTag)
    case None => counters
    case Some(k) =>
      if counters[k].Value > 0 then
        assert counters[k := counters[k].(Value := counters[k].Value - 1)][k] != counters[k];
        counters[k := counters[k].(Value := counters[k].Value - 1)]
      else counters
  }

  /** The sacred amulet applies on Lighthouse to a USEC character when the switch is on. */
  predicate AmuletApplies(useSacredAmulet: bool, location: string, side: string) {
    useSacredAmulet && ToLower(location) == "lighthouse" && ToLower(side) == "usec"
  }

  function RemainKillsAfterRaid(useSacredAmulet: bool, location: string, side: string, counters: seq<CounterKeyValue>): seq<CounterKeyValue> {
    if AmuletApplies(useSacredAmulet, location, side) then DecrementRemainKills(counters) else counters
  }

  /**
   * The counters change exactly when the amulet applies and the first
   * remaining-kills counter is positive, and then only that counter drops by one.
   */
  lemma RemainKillsRule(useSacredAmulet: bool, location: string, side: string, counters: seq<CounterKeyValue>)
    ensures var r := RemainKillsAfterRaid(useSacredAmulet, location, side, counters);
      (r != counters <==> AmuletApplies(useSacredAmulet, location, side) && CanDecrement(counters))
      && (r != counters ==> var k := FirstWithTag(counters, RemainKillsTag).value;
            r == counters[k := counters[k].(Value := counters[k].Value - 1)] && r[k].Value >= 0)
  {
    var r := RemainKillsAfterRaid(useSacredAmulet, location, side, counters);
    if r != counters {
      var k := FirstWithTag(counters, RemainKillsTag).value;
      var d := counters[k := counters[k].(Value := counters[k].Value - 1)];
      assert |r| == |d|;
      forall j | 0 <= j < |r| ensures r[j] == d[j] {
        if j == k {
          assert r[j].Key == counters[j].Key;
        }
      }
    }
  }

  /** The location name as updateProfile leaves it, which is what line 117 reads. */
  const LocationAfterUpdate: string := "none"

  /** As written, the amulet check reads the location after updateProfile reset it, so it never applies. */
  lemma AmuletNeverAppliesAsWritten(useSacredAmulet: bool, side: string, counters: seq<CounterKeyValue>)
    ensures !AmuletApplies(useSacredAmulet, LocationAfterUpdate, side)
    ensures RemainKillsAfterRaid(useSacredAmulet, LocationAfterUpdate, side, counters) == counters
  {
    assert ToLower(LocationAfterUpdate) == "none";
  }

  /** A USEC raid on Lighthouse with three remaining kills: the intended rule leaves two, the code as written three. */
  lemma AmuletCounterexample()
    ensures var counters := [CounterKeyValue([RemainKillsTag], 3)];
      RemainKillsAfterRaid(true, "lighthouse", "Usec", counters) == [CounterKeyValue([RemainKillsTag], 2)]
      && RemainKillsAfterRaid(true, LocationAfterUpdate, "Usec", counters) == counters
  {
    var counters := [CounterKeyValue([RemainKillsTag], 3)];
    ToLowerOfLowerCase("lighthouse");
    ToLowerOfLowerCase("sec");
    assert "Usec" == ['U'] + "sec";
    assert ToLower("Usec") == "usec";
    assert FirstWithTag(counters, RemainKillsTag) == Some(0);
    AmuletNeverAppliesAsWritten(true, "Usec", counters);
  }

  // -------------------------------------------------------------- messages

  predicate IsPmcRole(role: string) {
    role == "sptBear" || role == "sptUsec"
  }

  /** The victims that were player-like bots, in order, each as often as it occurs. */
  function PmcVictims(victims: seq<Victim>): (r: seq<Victim>)
    ensures forall v :: v in r ==> IsPmcRole(v.Role)
    ensures forall v :: multiset(r)[v] == if IsPmcRole(v.Role) then multiset(victims)[v] else 0
    ensures |r| <= |victims|
  {
    if victims == [] then []
    else
      assert victims == [victims[0]] + victims[1..];
      if IsPmcRole(victims[0].Role) then [victims[0]] + PmcVictims(victims[1..])
      else PmcVictims(victims[1..])
  }

  /** Some victim is kept exactly when some victim was a player-like bot. */
  lemma PmcVictimsNonEmpty(victims: seq<Victim>)
    ensures |PmcVictims(victims)| > 0 <==> exists v :: v in victims && IsPmcRole(v.Role)
  {
    var r := PmcVictims(victims);
    if v :| v in victims && IsPmcRole(v.Role) {
      assert multiset(r)[v] > 0;
      assert v in r;
    }
    if |r| > 0 {
      assert r[0] in r && multiset(victims)[r[0]] > 0;
    }
  }

  /** The error lines logged for the discrepancies, in order. */
  function LogErrors(ds: seq<Discrepancy>): (r: seq<SideEffect>)
    ensures |r| == |ds|
    ensures forall i :: 0 <= i < |ds| ==> r[i] == LogError(ds[i])
  {
    if ds == [] then [] else [LogError(ds[0])] + LogErrors(ds[1..])
  }

  /**
   * The requests made after retention: the killer response and the cache clear
   * when the player is dead, then a victim response when some victim was a
   * player-like bot. Both responses carry the reconciled pre-raid profile.
   */
  function DeathSideEffects(isDead: bool, profile: ProfileSnapshot, aggressor: Option<Aggressor>, victims: seq<Victim>): (r: seq<SideEffect>)
    ensures ClearCache in r <==> isDead
    ensures SendKillerResponse(profile, aggressor) in r <==> isDead
    ensures SendVictimResponse(PmcVictims(victims), profile) in r <==> exists v :: v in victims && IsPmcRole(v.Role)
    ensures forall e :: e in r ==>
      e == SendKillerResponse(profile, aggressor) || e == ClearCache || e == SendVictimResponse(PmcVictims(victims), profile)
    ensures isDead ==> |r| >= 2 && r[0] == SendKillerResponse(profile, aggressor) && r[1] == ClearCache
    ensures |r| == (if isDead then 2 else 0) + (if exists v :: v in victims && IsPmcRole(v.Role) then 1 else 0)
  {
    var pmcVictims := PmcVictims(victims);
    PmcVictimsNonEmpty(victims);
    var killer: seq<SideEffect> := if isDead then [SendKillerResponse(profile, aggressor), ClearCache] else [];
    var victim: seq<SideEffect> := if |pmcVictims| > 0 then [SendVictimResponse(pmcVictims, profile)] else [];
    killer + victim
  }
}
