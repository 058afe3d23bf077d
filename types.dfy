/**
 * The data model of the team builder: champions and items as they come from the
 * catalog documents, the five role slots, and the sums over item modifiers that
 * both the champion card and the team dashboard compute.
 */
module Types {

  datatype Option<+T> = None | Some(value: T) {
    /** The value, or a default when absent. */
    function GetOr(default: T): T {
      match this
      case Some(v) => v
      case None => default
    }
  }

  /** The five named role positions of the roster. */
  datatype Slot = Top | Jungle | Mid | Support | Bottom

  /** The slot record's keys in the order the store declares them. */
  const AllSlots: seq<Slot> := [Top, Jungle, Mid, Support, Bottom]

  /** Every slot is one of the record's keys. */
  lemma AllSlotsComplete(s: Slot)
    ensures s in AllSlots
  {
    match s
    case Top => assert AllSlots[0] == Top;
    case Jungle => assert AllSlots[1] == Jungle;
    case Mid => assert AllSlots[2] == Mid;
    case Support => assert AllSlots[3] == Support;
    case Bottom => assert AllSlots[4] == Bottom;
  }

  /** The key under which the slot appears in the stored record and in the page. */
  function SlotName(s: Slot): string {
    match s
    case Top => "top"
    case Jungle => "jungle"
    case Mid => "mid"
    case Support => "support"
    case Bottom => "bottom"
  }

  /** The slot a key names, if any. */
  function ParseSlot(name: string): (r: Option<Slot>)
    ensures r.Some? ==> SlotName(r.value) == name
    ensures forall s :: SlotName(s) == name ==> r == Some(s)
  {
    if name == "top" then Some(Top)
    else if name == "jungle" then Some(Jungle)
    else if name == "mid" then Some(Mid)
    else if name == "support" then Some(Support)
    else if name == "bottom" then Some(Bottom)
    else None
  }

  /** One of a champion's six equipment positions: an item id or empty. */
  type ItemSlot = Option<string>

  /**
   * A champion record. `items` is absent on catalog entries until something fills
   * it in; once present it normally holds six item slots.
   */
  datatype Champion = Champion(
    id: string,
    name: string,
    title: string,
    tags: seq<string>,
    stats: map<string, real>,
    items: Option<seq<ItemSlot>>)

  /** A base stat; a stat the record does not carry reads as 0. */
  function Stat(c: Champion, key: string): real {
    if key in c.stats then c.stats[key] else 0.0
  }

  /** The equipped item slots, none when the record has no `items`. */
  function ItemsOf(c: Champion): seq<ItemSlot> {
    c.items.GetOr([])
  }

  datatype Image = Image(full: string)
  datatype Gold = Gold(total: real)

  /**
   * An item record. `stats` lists the item's modifiers (name and numeric delta)
   * in document order; a missing name reads as the empty string.
   */
  datatype Item = Item(
    name: string,
    image: Option<Image>,
    gold: Option<Gold>,
    stats: seq<(string, real)>,
    description: string)

  /** An item slot counts as equipped when it holds a non-empty id. */
  predicate IsEquipped(slot: ItemSlot) {
    slot.Some? && slot.value != ""
  }

  /** The sum of f over s, accumulated from the front. */
  function SumOf<T>(s: seq<T>, f: T -> real): real {
    if s == [] then 0.0 else SumOf(s[..|s| - 1], f) + f(s[|s| - 1])
  }

  lemma {:induction false} SumOfAppend<T>(a: seq<T>, b: seq<T>, f: T -> real)
    ensures SumOf(a + b, f) == SumOf(a, f) + SumOf(b, f)
    decreases |b|
  {
    if b == [] {
      assert a + b == a;
    } else {
      assert (a + b)[..|a + b| - 1] == a + b[..|b| - 1];
      SumOfAppend(a, b[..|b| - 1], f);
    }
  }

  /** Extending a prefix by one element adds that element's term. */
  lemma SumOfSnoc<T>(s: seq<T>, i: nat, f: T -> real)
    requires i < |s|
    ensures SumOf(s[..i + 1], f) == SumOf(s[..i], f) + f(s[i])
  {
    assert s[..i + 1][..i] == s[..i];
  }

  /** A sum does not depend on the order of its terms. */
  lemma {:induction false} SumOfPermutation<T>(a: seq<T>, b: seq<T>, f: T -> real)
    requires multiset(a) == multiset(b)
    ensures SumOf(a, f) == SumOf(b, f)
    decreases |a|
  {
    if a == [] {
      assert |b| == |multiset(b)| == 0;
    } else {
      var x := a[|a| - 1];
      var a' := a[..|a| - 1];
      assert a == a' + [x];
      assert x in multiset(b);
      var j :| 0 <= j < |b| && b[j] == x;
      var b' := b[..j] + b[j + 1..];
      assert b == b[..j] + [x] + b[j + 1..];
      assert multiset(a) == multiset(a') + multiset{x};
      assert multiset(b) == multiset(b[..j]) + multiset{x} + multiset(b[j + 1..]);
      assert multiset(b') == multiset(b[..j]) + multiset(b[j + 1..]);
      assert multiset(a') == multiset(a) - multiset{x};
      assert multiset(b') == multiset(b) - multiset{x};
      SumOfPermutation(a', b', f);
      SumOfAppend(b[..j] + [x], b[j + 1..], f);
      SumOfAppend(b[..j], [x], f);
      SumOfAppend(b[..j], b[j + 1..], f);
      assert SumOf([x], f) == f(x) by {
        assert [x][..0] == [];
      }
    }
  }

  /** The contribution of one modifier entry to `target` under a stat map. */
  function ModValue(entry: (string, real), statMap: map<string, string>, target: string): real {
    if entry.0 in statMap && statMap[entry.0] == target then entry.1 else 0.0
  }

  /** The sum of the values of the modifiers in `entries` that `statMap` maps to `target`. */
  function ModBonus(entries: seq<(string, real)>, statMap: map<string, string>, target: string): real {
    SumOf(entries, e => ModValue(e, statMap, target))
  }

  /** The value an item's modifier list gives `mod`, 0 when it does not list it. */
  function Lookup(entries: seq<(string, real)>, mod: string): real {
    if entries == [] then 0.0
    else if entries[|entries| - 1].0 == mod then entries[|entries| - 1].1
    else Lookup(entries[..|entries| - 1], mod)
  }

  /** The modifier names of a list are pairwise different, as the keys of a document object are. */
  predicate DistinctNames(entries: seq<(string, real)>) {
    forall i, j :: 0 <= i < j < |entries| ==> entries[i].0 != entries[j].0
  }

  /**
   * When exactly one modifier name maps to `target`, the bonus an item gives
   * `target` is the value the item lists for that modifier.
   */
  lemma {:induction false} ModBonusIsLookup(
    entries: seq<(string, real)>, statMap: map<string, string>, target: string, mod: string)
    requires DistinctNames(entries)
    requires mod in statMap && statMap[mod] == target
    requires forall m :: m in statMap && statMap[m] == target ==> m == mod
    ensures ModBonus(entries, statMap, target) == Lookup(entries, mod)
    decreases |entries|
  {
    if entries != [] {
      var init := entries[..|entries| - 1];
      var last := entries[|entries| - 1];
      ModBonusIsLookup(init, statMap, target, mod);
      if last.0 == mod {
        LookupAbsent(init, mod);
      }
    }
  }

  lemma {:induction false} LookupAbsent(entries: seq<(string, real)>, mod: string)
    requires forall i :: 0 <= i < |entries| ==> entries[i].0 != mod
    ensures Lookup(entries, mod) == 0.0
    decreases |entries|
  {
    if entries != [] {
      LookupAbsent(entries[..|entries| - 1], mod);
    }
  }

  /** A modifier no entry of the map leads to `target` adds nothing, wherever it stands. */
  lemma {:induction false} ModBonusIgnoresUnmapped(
    entries: seq<(string, real)>, statMap: map<string, string>, target: string)
    requires forall i :: 0 <= i < |entries| ==> entries[i].0 !in statMap || statMap[entries[i].0] != target
    ensures ModBonus(entries, statMap, target) == 0.0
    decreases |entries|
  {
    if entries != [] {
      ModBonusIgnoresUnmapped(entries[..|entries| - 1], statMap, target);
    }
  }

  /** What one equipment position adds to `target`: nothing when empty or unknown. */
  function ItemBonus(slot: ItemSlot, db: map<string, Item>, statMap: map<string, string>, target: string): real {
    if IsEquipped(slot) && slot.value in db then ModBonus(db[slot.value].stats, statMap, target) else 0.0
  }

  /** What a list of equipment positions adds to `target`. */
  function ItemsBonus(items: seq<ItemSlot>, db: map<string, Item>, statMap: map<string, string>, target: string): real {
    SumOf(items, s => ItemBonus(s, db, statMap, target))
  }

  /** The bonus does not depend on which position holds which item. */
  lemma ItemsBonusPermutation(
    a: seq<ItemSlot>, b: seq<ItemSlot>, db: map<string, Item>, statMap: map<string, string>, target: string)
    requires multiset(a) == multiset(b)
    ensures ItemsBonus(a, db, statMap, target) == ItemsBonus(b, db, statMap, target)
  {
    SumOfPermutation(a, b, s => ItemBonus(s, db, statMap, target));
  }

  /** A target no modifier name maps to receives no bonus from any items. */
  lemma {:induction false} ItemsBonusUnmappedTarget(
    items: seq<ItemSlot>, db: map<string, Item>, statMap: map<string, string>, target: string)
    requires forall m :: m in statMap ==> statMap[m] != target
    ensures ItemsBonus(items, db, statMap, target) == 0.0
    decreases |items|
  {
    if items != [] {
      ItemsBonusUnmappedTarget(items[..|items| - 1], db, statMap, target);
      var last := items[|items| - 1];
      if IsEquipped(last) && last.value in db {
        ModBonusIgnoresUnmapped(db[last.value].stats, statMap, target);
      }
    }
  }
}
