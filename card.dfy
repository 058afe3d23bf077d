/**
 * The champion card element: the champion it shows, whether it is turned to
 * its back, and the item bonuses it prints next to the base stats.
 */
module Card {
  import opened Types
  import opened Roster

  /** The card's modifier map: an item modifier name and the stat it raises. */
  const CardStatMap: map<string, string> := map[
    "FlatHPPoolMod" := "hp",
    "FlatMPPoolMod" := "mp",
    "FlatArmorMod" := "armor",
    "FlatSpellBlockMod" := "spellblock",
    "FlatPhysicalDamageMod" := "attackdamage",
    "PercentAttackSpeedMod" := "attackspeed",
    "FlatCritChanceMod" := "crit",
    "FlatMovementSpeedMod" := "movespeed",
    "FlatHPRegenMod" := "hpregen"]

  /** The ten stats the card keeps a bonus for. */
  const BonusStats: set<string> :=
    {"hp", "mp", "armor", "spellblock", "attackdamage", "attackspeed", "crit", "movespeed", "hpregen", "mpregen"}

  /** Every stat the modifier map leads to has a bonus. */
  lemma MappedStatsHaveBonus()
    ensures forall m :: m in CardStatMap ==> CardStatMap[m] in BonusStats
  {
  }

  /** The record the card keeps: missing items become six empty positions. */
  function WithDefaultItems(c: Champion): (r: Champion)
    ensures r.items.Some?
    ensures c.items.Some? ==> r == c
    ensures c.items.None? ==> r == c.(items := Some(NoItems))
  {
    if c.items.None? then c.(items := Some(NoItems)) else c
  }

  /** The bonus each of the ten stats receives from a list of equipment positions. */
  ghost function BonusTable(items: seq<ItemSlot>, db: map<string, Item>): map<string, real> {
    map t | t in BonusStats :: ItemsBonus(items, db, CardStatMap, t)
  }

  /**
   * Folds the equipped items into the ten bonuses: every non-empty position
   * whose id the database knows adds its item's modifiers.
   */
  method ItemBonuses(items: seq<ItemSlot>, db: map<string, Item>) returns (bonuses: map<string, real>)
    ensures bonuses.Keys == BonusStats
    ensures forall t :: t in BonusStats ==> bonuses[t] == ItemsBonus(items, db, CardStatMap, t)
  {
    bonuses := map t | t in BonusStats :: 0.0;
    for i := 0 to |items|
      invariant bonuses.Keys == BonusStats
      invariant forall t :: t in BonusStats ==> bonuses[t] == ItemsBonus(items[..i], db, CardStatMap, t)
    {
      var slot := items[i];
      if IsEquipped(slot) && slot.value in db {
        bonuses := AddModifiers(bonuses, db[slot.value].stats);
      }
      forall t | t in BonusStats
        ensures ItemsBonus(items[..i + 1], db, CardStatMap, t) == ItemsBonus(items[..i], db, CardStatMap, t) + ItemBonus(items[i], db, CardStatMap, t)
      {
        SumOfSnoc(items, i, s => ItemBonus(s, db, CardStatMap, t));
      }
    }
    assert items[..|items|] == items;
  }

  /** Adds each modifier the map knows to the bonus of the stat it raises; other modifiers are skipped. */
  method AddModifiers(start: map<string, real>, entries: seq<(string, real)>) returns (bonuses: map<string, real>)
    requires start.Keys == BonusStats
    ensures bonuses.Keys == BonusStats
    ensures forall t :: t in BonusStats ==> bonuses[t] == start[t] + ModBonus(entries, CardStatMap, t)
  {
    MappedStatsHaveBonus();
    bonuses := start;
    for j := 0 to |entries|
      invariant bonuses.Keys == BonusStats
      invariant forall t :: t in BonusStats ==> bonuses[t] == start[t] + ModBonus(entries[..j], CardStatMap, t)
    {
      var (modName, value) := entries[j];
      if modName in CardStatMap {
        var target := CardStatMap[modName];
        bonuses := bonuses[target := bonuses[target] + value];
      }
      forall t | t in BonusStats
        ensures ModBonus(entries[..j + 1], CardStatMap, t) == ModBonus(entries[..j], CardStatMap, t) + ModValue(entries[j], CardStatMap, t)
      {
        SumOfSnoc(entries, j, e => ModValue(e, CardStatMap, t));
      }
    }
    assert entries[..|entries|] == entries;
  }

  /** No modifier raises mana regeneration, so its bonus is always zero. */
  lemma MpRegenBonusZero(items: seq<ItemSlot>, db: map<string, Item>)
    ensures ItemsBonus(items, db, CardStatMap, "mpregen") == 0.0
  {
    ItemsBonusUnmappedTarget(items, db, CardStatMap, "mpregen");
  }

  /** A position that is empty or holds an id the database does not know adds nothing. */
  lemma {:induction false} UnknownPositionAddsNothing(
    items: seq<ItemSlot>, i: nat, db: map<string, Item>, statMap: map<string, string>, target: string)
    requires i < |items|
    requires !IsEquipped(items[i]) || items[i].value !in db
    ensures ItemsBonus(items, db, statMap, target) == ItemsBonus(items[..i] + items[i + 1..], db, statMap, target)
  {
    var f := s => ItemBonus(s, db, statMap, target);
    assert items == items[..i] + [items[i]] + items[i + 1..];
    SumOfAppend(items[..i] + [items[i]], items[i + 1..], f);
    SumOfAppend(items[..i], [items[i]], f);
    SumOfAppend(items[..i], items[i + 1..], f);
    assert SumOf([items[i]], f) == 0.0 by {
      assert [items[i]][..0] == [];
    }
  }

  /** The bonus table does not depend on which position holds which item. */
  lemma BonusTableOrderFree(a: seq<ItemSlot>, b: seq<ItemSlot>, db: map<string, Item>)
    requires multiset(a) == multiset(b)
    ensures BonusTable(a, db) == BonusTable(b, db)
  {
    forall t | t in BonusStats ensures ItemsBonus(a, db, CardStatMap, t) == ItemsBonus(b, db, CardStatMap, t) {
      ItemsBonusPermutation(a, b, db, CardStatMap, t);
    }
  }

  /** An item whose single attack-damage modifier is listed adds exactly that modifier's value. */
  lemma AttackDamageIsListedValue(entries: seq<(string, real)>)
    requires DistinctNames(entries)
    ensures ModBonus(entries, CardStatMap, "attackdamage") == Lookup(entries, "FlatPhysicalDamageMod")
  {
    ModBonusIsLookup(entries, CardStatMap, "attackdamage", "FlatPhysicalDamageMod");
  }

  class ChampionCard {
    /** The champion shown, absent until data is assigned. */
    var champion: Option<Champion>
    var isFlipped: bool

    constructor ()
      ensures champion.None? && !isFlipped
    {
      champion := None;
      isFlipped := false;
    }

    /** The id of the champion shown, none when no champion is set. */
    function ChampionId(): (r: Option<string>)
      reads this`champion
      ensures r.None? <==> champion.None?
      ensures champion.Some? ==> r == Some(champion.value.id)
    {
      if champion.Some? then Some(champion.value.id) else None
    }

    /** Shows a champion, giving it six empty equipment positions when it has none. */
    method SetData(c: Champion)
      modifies this`champion
      ensures champion == Some(WithDefaultItems(c))
      ensures ChampionId() == Some(c.id)
    {
      var shown := c;
      if shown.items.None? {
        shown := shown.(items := Some(NoItems));
      }
      champion := Some(shown);
    }

    /** Turns the card over. */
    method ToggleFlip()
      modifies this`isFlipped
      ensures isFlipped == !old(isFlipped)
    {
      isFlipped := !isFlipped;
    }

    /** The bonuses the card prints: none before a champion is set. */
    method Bonuses(db: map<string, Item>) returns (r: Option<map<string, real>>)
      ensures champion.None? ==> r.None?
      ensures champion.Some? ==> r.Some? && r.value == BonusTable(ItemsOf(champion.value), db)
    {
      if champion.None? {
        return None;
      }
      var bonuses := ItemBonuses(ItemsOf(champion.value), db);
      return Some(bonuses);
    }
  }
}
