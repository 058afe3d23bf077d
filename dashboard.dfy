/**
 * The page's decisions over the store's state: the team page's stat totals,
 * role counts and bar percentages over the slotted champions, the team count
 * badge, the reset guard, the "already picked" highlight of the catalog list,
 * the routing of a drop onto a slot, and the shop's item list.
 */
module Dashboard {
  import opened Types
  import opened Roster
  import opened StateStore

  /** The team page's modifier map: the four stats it totals. */
  const DashboardStatMap: map<string, string> := map[
    "FlatHPPoolMod" := "hp",
    "FlatArmorMod" := "armor",
    "FlatSpellBlockMod" := "spellblock",
    "FlatPhysicalDamageMod" := "attackdamage"]

  /** The values of the slot record, in the record's key order. */
  function SlotValues(slots: Slots): (r: seq<Option<Champion>>)
    requires HasAllSlots(slots)
    ensures |r| == |AllSlots|
    ensures forall i :: 0 <= i < |AllSlots| ==> r[i] == slots[AllSlots[i]]
  {
    [slots[Top], slots[Jungle], slots[Mid], slots[Support], slots[Bottom]]
  }

  /** The number of non-empty values. */
  function CountFilled(values: seq<Option<Champion>>): nat {
    if values == [] then 0
    else CountFilled(values[..|values| - 1]) + (if values[|values| - 1].Some? then 1 else 0)
  }

  /** The non-empty slot values are the slotted champions, so they number as many. */
  lemma CountFilledSlots(slots: Slots)
    requires HasAllSlots(slots)
    ensures CountFilled(SlotValues(slots)) == |SlottedChampions(slots)|
  {
    var v := SlotValues(slots);
    assert v[..1][..0] == [] && v[..2][..1] == v[..1] && v[..3][..2] == v[..2];
    assert v[..4][..3] == v[..3] && v[..5][..4] == v[..4] && v[..5] == v;
    assert CountFilled(v[..1]) == |Occupant(v[0])|;
    assert CountFilled(v[..2]) == |Occupant(v[0]) + Occupant(v[1])|;
    assert CountFilled(v[..3]) == |Occupant(v[0]) + Occupant(v[1]) + Occupant(v[2])|;
    assert CountFilled(v[..4]) == |Occupant(v[0]) + Occupant(v[1]) + Occupant(v[2]) + Occupant(v[3])|;
  }

  // ---------------------------------------------------------------------
  // The team count badge and the reset guard.

  /** The badge: bench length plus the number of non-empty slots. */
  function TeamCount(team: seq<Champion>, slots: Slots): nat
    requires HasAllSlots(slots)
  {
    |team| + CountFilled(SlotValues(slots))
  }

  /** The badge counts every roster place that holds a champion. */
  lemma TeamCountIsRosterSize(team: seq<Champion>, slots: Slots)
    requires HasAllSlots(slots)
    ensures TeamCount(team, slots) == |RosterChampions(team, slots)|
  {
    CountFilledSlots(slots);
  }

  /** Assigning a bench entry to a slot does not change the badge. */
  lemma TeamCountKeptByAssign(team: seq<Champion>, slots: Slots, s: Slot, k: nat)
    requires HasAllSlots(slots) && k < |team|
    ensures HasAllSlots(slots[s := Some(team[k])])
    ensures TeamCount(team[..k] + team[k + 1..] + Occupant(slots[s]), slots[s := Some(team[k])]) == TeamCount(team, slots)
  {
    var team', slots' := team[..k] + team[k + 1..] + Occupant(slots[s]), slots[s := Some(team[k])];
    AssignKeepsRoster(team, slots, s, k);
    SameBagSameCount(team, slots, team', slots');
  }

  /** Clearing a slot does not change the badge. */
  lemma TeamCountKeptByClear(team: seq<Champion>, slots: Slots, s: Slot)
    requires HasAllSlots(slots) && slots[s].Some?
    ensures HasAllSlots(slots[s := None])
    ensures TeamCount(team + [slots[s].value], slots[s := None]) == TeamCount(team, slots)
  {
    ClearKeepsRoster(team, slots, s);
    SameBagSameCount(team, slots, team + [slots[s].value], slots[s := None]);
  }

  /** Exchanging two slots does not change the badge. */
  lemma TeamCountKeptBySwap(team: seq<Champion>, slots: Slots, from: Slot, to: Slot)
    requires HasAllSlots(slots)
    ensures HasAllSlots(slots[to := slots[from]][from := slots[to]])
    ensures TeamCount(team, slots[to := slots[from]][from := slots[to]]) == TeamCount(team, slots)
  {
    SwapKeepsRoster(team, slots, from, to);
    SameBagSameCount(team, slots, team, slots[to := slots[from]][from := slots[to]]);
  }

  lemma SameBagSameCount(team: seq<Champion>, slots: Slots, team': seq<Champion>, slots': Slots)
    requires HasAllSlots(slots) && HasAllSlots(slots')
    requires multiset(RosterChampions(team', slots')) == multiset(RosterChampions(team, slots))
    ensures TeamCount(team', slots') == TeamCount(team, slots)
  {
    TeamCountIsRosterSize(team, slots);
    TeamCountIsRosterSize(team', slots');
    assert |multiset(RosterChampions(team', slots'))| == |RosterChampions(team', slots')|;
    assert |multiset(RosterChampions(team, slots))| == |RosterChampions(team, slots)|;
  }

  /**
   * Whether the reset button resets: not when the bench and every slot are
   * empty, otherwise exactly when the user confirms.
   */
  function ShouldReset(team: seq<Champion>, slots: Slots, confirmed: bool): bool
    requires HasAllSlots(slots)
  {
    if CountFilled(SlotValues(slots)) == 0 && |team| == 0 then false else confirmed
  }

  /** The guard resets exactly a confirmed, non-empty roster. */
  lemma ShouldResetIff(team: seq<Champion>, slots: Slots, confirmed: bool)
    requires HasAllSlots(slots)
    ensures ShouldReset(team, slots, confirmed) <==> confirmed && (team != [] || exists s :: slots[s].Some?)
  {
    CountFilledSlots(slots);
    if SlottedChampions(slots) != [] {
      SlottedChampionsMembers(slots, SlottedChampions(slots)[0]);
    }
    if exists s :: slots[s].Some? {
      var s :| slots[s].Some?;
      SlottedChampionsMembers(slots, slots[s].value);
    }
  }

  /** The reset button, with the user's answer to the confirmation as input. */
  method HandleReset(store: Store, confirmed: bool)
    requires HasAllSlots(store.slots)
    modifies store`team, store`slots, store`savedTeam, store`savedSlots, store`log
    ensures ShouldReset(old(store.team), old(store.slots), confirmed) ==>
      store.RosterValid() && store.team == [] && store.slots == EmptySlots()
      && store.log == old(store.log) + [store.Sent(TeamChange), store.Sent(StateChange)]
    ensures !ShouldReset(old(store.team), old(store.slots), confirmed) ==>
      store.team == old(store.team) && store.slots == old(store.slots) && store.log == old(store.log)
      && store.savedTeam == old(store.savedTeam) && store.savedSlots == old(store.savedSlots)
  {
    var slotsCount := CountFilled(SlotValues(store.slots));
    var teamCount := |store.team|;
    if slotsCount == 0 && teamCount == 0 {
      return;
    }
    if confirmed {
      store.ResetTeam();
    }
  }

  // ---------------------------------------------------------------------
  // The "already picked" highlight.

  /** The list's check: a bench entry or a non-empty slot value carries the id. */
  predicate PickedOnPage(team: seq<Champion>, slots: Slots, id: string)
    requires HasAllSlots(slots)
  {
    HasId(team, id) || exists v :: v in SlotValues(slots) && v.Some? && v.value.id == id
  }

  /** The list greys out exactly the champions the store counts as picked. */
  lemma PickedOnPageIff(team: seq<Champion>, slots: Slots, id: string)
    requires HasAllSlots(slots)
    ensures PickedOnPage(team, slots, id) <==> IsPicked(team, slots, id)
  {
    var values := SlotValues(slots);
    if exists v :: v in values && v.Some? && v.value.id == id {
      var v :| v in values && v.Some? && v.value.id == id;
      var i :| 0 <= i < |values| && values[i] == v;
      assert Holds(slots, AllSlots[i], id);
      SlotOfNone(slots, id);
    }
    if SlotOf(slots, id).Some? {
      var s := SlotOf(slots, id).value;
      AllSlotsComplete(s);
      var i :| 0 <= i < |AllSlots| && AllSlots[i] == s;
      assert values[i] in values;
    }
  }

  // ---------------------------------------------------------------------
  // Drop routing.

  /** The store call a drop onto a slot makes. */
  datatype DropAction = NoAction | AssignToSlot(slot: string, id: string) | MoveSlotToSlot(from: string, to: string)

  /**
   * The drop handler's decision from the dragged data (the champion id, the
   * source kind and the source slot, each empty when absent) and the slot
   * dropped on.
   */
  function RouteDrop(championId: string, sourceType: string, sourceSlot: string, targetSlot: string): (r: DropAction)
    ensures sourceType == "slot" && sourceSlot == targetSlot ==> r == NoAction
    ensures championId == "" ==> r == NoAction
    ensures r.AssignToSlot? <==> championId != "" && sourceType == "bench"
    ensures r.AssignToSlot? ==> r.slot == targetSlot && r.id == championId
    ensures r.MoveSlotToSlot? <==> championId != "" && sourceType == "slot" && sourceSlot != targetSlot
    ensures r.MoveSlotToSlot? ==> r.from == sourceSlot && r.to == targetSlot
  {
    if sourceType == "slot" && sourceSlot == targetSlot then NoAction
    else if championId != "" then
      if sourceType == "bench" then AssignToSlot(targetSlot, championId)
      else if sourceType == "slot" then MoveSlotToSlot(sourceSlot, targetSlot)
      else NoAction
    else NoAction
  }

  /**
   * The drop handler: makes the routed store call, with the slot names read
   * as slots. A name that is no slot changes nothing.
   */
  method HandleDrop(store: Store, championId: string, sourceType: string, sourceSlot: string, targetSlot: string)
    requires store.RosterValid()
    modifies store`team, store`slots, store`savedTeam, store`savedSlots, store`log
    ensures store.RosterValid()
    ensures var r := RouteDrop(championId, sourceType, sourceSlot, targetSlot);
      r.AssignToSlot? && ParseSlot(r.slot).Some? && old(HasId(store.team, r.id)) ==>
        var s, k := ParseSlot(r.slot).value, IndexOfId(old(store.team), r.id).value;
        && store.team == old(store.team)[..k] + old(store.team)[k + 1..] + Occupant(old(store.slots)[s])
        && store.slots == old(store.slots)[s := Some(old(store.team)[k])]
        && store.log == old(store.log) + [store.Sent(TeamChange)]
    ensures var r := RouteDrop(championId, sourceType, sourceSlot, targetSlot);
      r.MoveSlotToSlot? && ParseSlot(r.from).Some? && ParseSlot(r.to).Some?
      && old(store.slots)[ParseSlot(r.from).value].Some? ==>
        var from, to := ParseSlot(r.from).value, ParseSlot(r.to).value;
        && store.team == old(store.team)
        && store.slots == old(store.slots)[to := old(store.slots)[from]][from := old(store.slots)[to]]
        && store.log == old(store.log) + [store.Sent(TeamChange)]
    ensures DropIsNoOp(RouteDrop(championId, sourceType, sourceSlot, targetSlot), old(store.team), old(store.slots)) ==>
      && store.team == old(store.team) && store.slots == old(store.slots) && store.log == old(store.log)
      && store.savedTeam == old(store.savedTeam) && store.savedSlots == old(store.savedSlots)
  {
    match RouteDrop(championId, sourceType, sourceSlot, targetSlot)
    case NoAction =>
    case AssignToSlot(slotName, id) =>
      var slot := ParseSlot(slotName);
      if slot.Some? {
        store.AssignToSlot(slot.value, id);
      }
    case MoveSlotToSlot(fromName, toName) =>
      var from, to := ParseSlot(fromName), ParseSlot(toName);
      if from.Some? && to.Some? {
        store.MoveSlotToSlot(from.value, to.value);
      }
  }

  /**
   * A drop that leaves the store as it is: no call, a slot name that is no
   * slot, an id not on the bench, or an empty source slot.
   */
  predicate DropIsNoOp(r: DropAction, team: seq<Champion>, slots: Slots)
    requires HasAllSlots(slots)
  {
    match r
    case NoAction => true
    case AssignToSlot(slotName, id) => ParseSlot(slotName).None? || !HasId(team, id)
    case MoveSlotToSlot(fromName, toName) =>
      ParseSlot(fromName).None? || ParseSlot(toName).None? || slots[ParseSlot(fromName).value].None?
  }

  // ---------------------------------------------------------------------
  // The shop.

  /** An item the shop lists: it has a name, an image and a positive total price. */
  predicate Purchasable(item: Item) {
    item.name != "" && item.image.Some? && item.gold.Some? && item.gold.value.total > 0.0
  }

  /** The listed items, in database order. */
  function ShopItems(items: seq<Item>): seq<Item> {
    if items == [] then []
    else ShopItems(items[..|items| - 1]) + (if Purchasable(items[|items| - 1]) then [items[|items| - 1]] else [])
  }

  /** The shop lists every purchasable item as often as the database holds it, and nothing else. */
  lemma {:induction false} ShopItemsContents(items: seq<Item>)
    ensures forall x :: multiset(ShopItems(items))[x] == if Purchasable(x) then multiset(items)[x] else 0
    decreases |items|
  {
    if items != [] {
      var init, last := items[..|items| - 1], items[|items| - 1];
      ShopItemsContents(init);
      assert items == init + [last];
    }
  }

  /** Listing keeps the database order: the list of a concatenation is the concatenation of the lists. */
  lemma {:induction false} ShopItemsAppend(a: seq<Item>, b: seq<Item>)
    ensures ShopItems(a + b) == ShopItems(a) + ShopItems(b)
    decreases |b|
  {
    if b == [] {
      assert a + b == a;
    } else {
      assert (a + b)[..|a + b| - 1] == a + b[..|b| - 1];
      ShopItemsAppend(a, b[..|b| - 1]);
    }
  }

  /** pat occurs in s starting at position j. */
  predicate OccursAt(s: string, pat: string, j: nat) {
    j + |pat| <= |s| && s[j..j + |pat|] == pat
  }

  /** The first position from `from` on where pat occurs in s. */
  function FindFrom(s: string, pat: string, from: nat): (r: Option<nat>)
    ensures r.Some? ==> from <= r.value && OccursAt(s, pat, r.value)
    ensures r.Some? ==> forall j :: from <= j < r.value ==> !OccursAt(s, pat, j)
    ensures r.None? ==> forall j :: from <= j ==> !OccursAt(s, pat, j)
    decreases |s| - from
  {
    if from + |pat| > |s| then None
    else if OccursAt(s, pat, from) then Some(from)
    else FindFrom(s, pat, from + 1)
  }

  /** An item's id: its image file name with the first ".png" taken out. */
  function ItemIdOf(file: string): string {
    match FindFrom(file, ".png", 0)
    case None => file
    case Some(i) => file[..i] + file[i + 4..]
  }

  /** A file name of the form base + ".png", with no dot in base, yields base. */
  lemma ItemIdOfPngFile(base: string)
    requires forall i :: 0 <= i < |base| ==> base[i] != '.'
    ensures ItemIdOf(base + ".png") == base
  {
    var file := base + ".png";
    var found := FindFrom(file, ".png", 0);
    assert OccursAt(file, ".png", |base|) by {
      assert file[|base|..|base| + 4] == ".png";
    }
    var i := found.value;
    forall j | 0 <= j < |base| ensures !OccursAt(file, ".png", j) {
      assert file[j] == base[j];
    }
    assert i == |base|;
    assert file[..i] == base;
  }

  /** A file name without ".png" is its own id. */
  lemma ItemIdOfPlain(file: string)
    requires forall j: nat :: !OccursAt(file, ".png", j)
    ensures ItemIdOf(file) == file
  {
  }

  // ---------------------------------------------------------------------
  // The team page's stat totals.

  /** A slotted champion's value for one of the four stats: base stat plus item modifiers. */
  function ChampionStat(c: Champion, db: map<string, Item>, key: string): real {
    Stat(c, key) + ItemsBonus(ItemsOf(c), db, DashboardStatMap, key)
  }

  /** A team total: the sum of the champions' values. */
  function TeamStat(champs: seq<Champion>, db: map<string, Item>, key: string): real {
    SumOf(champs, c => ChampionStat(c, db, key))
  }

  datatype Totals = Totals(ad: real, hp: real, armor: real, mr: real)

  /** The four totals of the given champions. */
  function TotalsOf(champs: seq<Champion>, db: map<string, Item>): Totals {
    Totals(TeamStat(champs, db, "attackdamage"), TeamStat(champs, db, "hp"),
      TeamStat(champs, db, "armor"), TeamStat(champs, db, "spellblock"))
  }

  /** The four running values of one champion, starting from its base stats. */
  method ChampionTotals(c: Champion, db: map<string, Item>) returns (t: Totals)
    ensures t == Totals(ChampionStat(c, db, "attackdamage"), ChampionStat(c, db, "hp"),
      ChampionStat(c, db, "armor"), ChampionStat(c, db, "spellblock"))
  {
    t := Totals(Stat(c, "attackdamage"), Stat(c, "hp"), Stat(c, "armor"), Stat(c, "spellblock"));
    var items := ItemsOf(c);
    for i := 0 to |items|
      invariant t == Totals(
        Stat(c, "attackdamage") + ItemsBonus(items[..i], db, DashboardStatMap, "attackdamage"),
        Stat(c, "hp") + ItemsBonus(items[..i], db, DashboardStatMap, "hp"),
        Stat(c, "armor") + ItemsBonus(items[..i], db, DashboardStatMap, "armor"),
        Stat(c, "spellblock") + ItemsBonus(items[..i], db, DashboardStatMap, "spellblock"))
    {
      var slot := items[i];
      if IsEquipped(slot) && slot.value in db {
        t := AddStatModifiers(t, db[slot.value].stats);
      }
      StepItems(items, i, db);
    }
    assert items[..|items|] == items;
  }

  lemma StepItems(items: seq<ItemSlot>, i: nat, db: map<string, Item>)
    requires i < |items|
    ensures forall key :: (ItemsBonus(items[..i + 1], db, DashboardStatMap, key)
      == ItemsBonus(items[..i], db, DashboardStatMap, key) + ItemBonus(items[i], db, DashboardStatMap, key))
  {
    forall key ensures ItemsBonus(items[..i + 1], db, DashboardStatMap, key)
      == ItemsBonus(items[..i], db, DashboardStatMap, key) + ItemBonus(items[i], db, DashboardStatMap, key)
    {
      SumOfSnoc(items, i, s => ItemBonus(s, db, DashboardStatMap, key));
    }
  }

  /** Adds each of an item's modifiers to the running value of the stat the map leads it to. */
  method AddStatModifiers(start: Totals, entries: seq<(string, real)>) returns (t: Totals)
    ensures t == Totals(
      start.ad + ModBonus(entries, DashboardStatMap, "attackdamage"),
      start.hp + ModBonus(entries, DashboardStatMap, "hp"),
      start.armor + ModBonus(entries, DashboardStatMap, "armor"),
      start.mr + ModBonus(entries, DashboardStatMap, "spellblock"))
  {
    t := start;
    for j := 0 to |entries|
      invariant t == Totals(
        start.ad + ModBonus(entries[..j], DashboardStatMap, "attackdamage"),
        start.hp + ModBonus(entries[..j], DashboardStatMap, "hp"),
        start.armor + ModBonus(entries[..j], DashboardStatMap, "armor"),
        start.mr + ModBonus(entries[..j], DashboardStatMap, "spellblock"))
    {
      var (modName, value) := entries[j];
      var target := if modName in DashboardStatMap then DashboardStatMap[modName] else "";
      if target == "attackdamage" { t := t.(ad := t.ad + value); }
      if target == "hp" { t := t.(hp := t.hp + value); }
      if target == "armor" { t := t.(armor := t.armor + value); }
      if target == "spellblock" { t := t.(mr := t.mr + value); }
      StepEntries(entries, j);
    }
    assert entries[..|entries|] == entries;
  }

  lemma StepEntries(entries: seq<(string, real)>, j: nat)
    requires j < |entries|
    ensures forall key :: (ModBonus(entries[..j + 1], DashboardStatMap, key)
      == ModBonus(entries[..j], DashboardStatMap, key) + ModValue(entries[j], DashboardStatMap, key))
  {
    forall key ensures ModBonus(entries[..j + 1], DashboardStatMap, key)
      == ModBonus(entries[..j], DashboardStatMap, key) + ModValue(entries[j], DashboardStatMap, key)
    {
      SumOfSnoc(entries, j, e => ModValue(e, DashboardStatMap, key));
    }
  }

  /** The team page's totals over the champions in the slots, in record order. */
  method TeamTotals(slots: Slots, db: map<string, Item>) returns (t: Totals)
    requires HasAllSlots(slots)
    ensures t == TotalsOf(SlottedChampions(slots), db)
  {
    t := SumTotals(SlottedChampions(slots), db);
  }

  /** The four totals over a list of champions, all starting at 0. */
  method SumTotals(active: seq<Champion>, db: map<string, Item>) returns (t: Totals)
    ensures t == TotalsOf(active, db)
  {
    t := Totals(0.0, 0.0, 0.0, 0.0);
    for i := 0 to |active|
      invariant t == TotalsOf(active[..i], db)
    {
      var current := ChampionTotals(active[i], db);
      t := Totals(t.ad + current.ad, t.hp + current.hp, t.armor + current.armor, t.mr + current.mr);
      StepChampions(active, i, db);
    }
    assert active[..|active|] == active;
  }

  lemma StepChampions(champs: seq<Champion>, i: nat, db: map<string, Item>)
    requires i < |champs|
    ensures forall key :: TeamStat(champs[..i + 1], db, key) == TeamStat(champs[..i], db, key) + ChampionStat(champs[i], db, key)
  {
    forall key ensures TeamStat(champs[..i + 1], db, key) == TeamStat(champs[..i], db, key) + ChampionStat(champs[i], db, key) {
      SumOfSnoc(champs, i, c => ChampionStat(c, db, key));
    }
  }

  /**
   * Writing one slot changes a total by the new occupant's value minus the
   * old one's: the bench never enters a total.
   */
  lemma TeamStatSlotWrite(slots: Slots, s: Slot, v: Option<Champion>, db: map<string, Item>, key: string)
    requires HasAllSlots(slots)
    ensures HasAllSlots(slots[s := v])
    ensures TeamStat(SlottedChampions(slots[s := v]), db, key) + TeamStat(Occupant(slots[s]), db, key)
         == TeamStat(SlottedChampions(slots), db, key) + TeamStat(Occupant(v), db, key)
  {
    var f := c => ChampionStat(c, db, key);
    var after, before := SlottedChampions(slots[s := v]), SlottedChampions(slots);
    SlottedUpdate(slots, s, v);
    assert multiset(after + Occupant(slots[s])) == multiset(before + Occupant(v));
    SumOfPermutation(after + Occupant(slots[s]), before + Occupant(v), f);
    SumOfAppend(after, Occupant(slots[s]), f);
    SumOfAppend(before, Occupant(v), f);
  }

  /** Exchanging two slots keeps every total. */
  lemma TeamStatSwap(slots: Slots, from: Slot, to: Slot, db: map<string, Item>, key: string)
    requires HasAllSlots(slots)
    ensures HasAllSlots(slots[to := slots[from]][from := slots[to]])
    ensures TeamStat(SlottedChampions(slots[to := slots[from]][from := slots[to]]), db, key)
         == TeamStat(SlottedChampions(slots), db, key)
  {
    SwapSlotted(slots, from, to);
    SumOfPermutation(SlottedChampions(slots[to := slots[from]][from := slots[to]]), SlottedChampions(slots),
      c => ChampionStat(c, db, key));
  }

  /** Exchanging two slots keeps the slotted champions as a multiset. */
  lemma SwapSlotted(slots: Slots, from: Slot, to: Slot)
    requires HasAllSlots(slots)
    ensures HasAllSlots(slots[to := slots[from]][from := slots[to]])
    ensures multiset(SlottedChampions(slots[to := slots[from]][from := slots[to]])) == multiset(SlottedChampions(slots))
  {
    var a, b := slots[from], slots[to];
    var u1 := slots[to := a];
    SlottedUpdate(slots, to, a);
    SlottedUpdate(u1, from, b);
    assert u1[from] == a;
    Cancel(multiset(SlottedChampions(u1[from := b])), multiset(SlottedChampions(slots)), multiset(Occupant(a)));
  }

  // ---------------------------------------------------------------------
  // Role counts.

  /** The six roles the team page counts. */
  const TrackedRoles: set<string> := {"Fighter", "Tank", "Mage", "Assassin", "Support", "Marksman"}

  /** How often a tag list names a role. */
  function TagCount(tags: seq<string>, role: string): nat {
    if tags == [] then 0
    else TagCount(tags[..|tags| - 1], role) + (if tags[|tags| - 1] == role then 1 else 0)
  }

  /** How often the champions' tags name a role, summed over the champions. */
  function RoleTotal(champs: seq<Champion>, role: string): nat {
    if champs == [] then 0
    else RoleTotal(champs[..|champs| - 1], role) + TagCount(champs[|champs| - 1].tags, role)
  }

  /** Counts, for each tracked role, the tags naming it over the slotted champions; other tags are passed over. */
  method RoleCounts(slots: Slots) returns (counts: map<string, nat>)
    requires HasAllSlots(slots)
    ensures counts.Keys == TrackedRoles
    ensures forall r :: r in TrackedRoles ==> counts[r] == RoleTotal(SlottedChampions(slots), r)
  {
    var active := SlottedChampions(slots);
    counts := map r | r in TrackedRoles :: 0;
    for i := 0 to |active|
      invariant counts.Keys == TrackedRoles
      invariant forall r :: r in TrackedRoles ==> counts[r] == RoleTotal(active[..i], r)
    {
      counts := CountTags(counts, active[i].tags);
      assert active[..i + 1][..i] == active[..i];
    }
    assert active[..|active|] == active;
  }

  /** Increments the bucket of every tag that has one, once per occurrence. */
  method CountTags(start: map<string, nat>, tags: seq<string>) returns (counts: map<string, nat>)
    ensures counts.Keys == start.Keys
    ensures forall r :: r in start ==> counts[r] == start[r] + TagCount(tags, r)
  {
    counts := start;
    for j := 0 to |tags|
      invariant counts.Keys == start.Keys
      invariant forall r :: r in start ==> counts[r] == start[r] + TagCount(tags[..j], r)
    {
      if tags[j] in counts {
        counts := counts[tags[j] := counts[tags[j]] + 1];
      }
      assert tags[..j + 1][..j] == tags[..j];
    }
    assert tags[..|tags|] == tags;
  }

  /** A tag list's count for a role is the number of times the role occurs in it. */
  lemma {:induction false} TagCountIsOccurrences(tags: seq<string>, role: string)
    ensures TagCount(tags, role) == multiset(tags)[role]
    decreases |tags|
  {
    if tags != [] {
      assert tags[..|tags| - 1] + [tags[|tags| - 1]] == tags;
      TagCountIsOccurrences(tags[..|tags| - 1], role);
    }
  }

  // ---------------------------------------------------------------------
  // The bars.

  const HpScale: real := 15000.0
  const AdScale: real := 1500.0
  const ArmorScale: real := 800.0
  const MrScale: real := 600.0

  /** A bar's fill: the total as a percentage of the scale, capped at 100. */
  function Percent(total: real, scale: real): real
    requires scale > 0.0
  {
    var p := total / scale * 100.0;
    if p < 100.0 then p else 100.0
  }

  /** The fill never exceeds 100, reaches 100 exactly at the scale, and grows with the total. */
  lemma PercentBounds(total: real, other: real, scale: real)
    requires scale > 0.0
    ensures Percent(total, scale) <= 100.0
    ensures Percent(total, scale) == 100.0 <==> total >= scale
    ensures total >= 0.0 ==> Percent(total, scale) >= 0.0
    ensures total <= other ==> Percent(total, scale) <= Percent(other, scale)
  {
    var p := total / scale * 100.0;
    assert p < 100.0 <==> total < scale by {
      assert total / scale * scale == total;
    }
    if total <= other {
      assert total / scale <= other / scale;
    }
  }

  datatype Bars = Bars(hp: real, ad: real, armor: real, mr: real)

  /** The four bars of the team page. */
  function BarsOf(t: Totals): (r: Bars)
    ensures r.hp <= 100.0 && r.ad <= 100.0 && r.armor <= 100.0 && r.mr <= 100.0
  {
    PercentBounds(t.hp, t.hp, HpScale);
    PercentBounds(t.ad, t.ad, AdScale);
    PercentBounds(t.armor, t.armor, ArmorScale);
    PercentBounds(t.mr, t.mr, MrScale);
    Bars(Percent(t.hp, HpScale), Percent(t.ad, AdScale), Percent(t.armor, ArmorScale), Percent(t.mr, MrScale))
  }
}
