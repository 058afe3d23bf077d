# League team builder: the state store and the page's aggregation logic

This project models the core of a browser app that builds a League of Legends team. The app loads the champion catalog and the item database into one state store. The user filters and sorts the catalog. Champions are picked onto a bench and dragged into five role slots (top, jungle, mid, support, bottom). Each champion can equip up to six items. A team page sums the slotted champions' stats and role tags, and a champion card shows the stat bonuses of its equipped items.

The project has six modules:

- `Types`: the records (champion, item, slot) and the sums over item modifiers that the card and the team page share.
- `Roster`: the bench and slot record, the lookups by id, and the invariant that an id sits in at most one roster place. It also holds the per-champion item write and lemmas about the roster changes. Every roster change keeps ids unique. Assign, clear and swap also keep the roster's champions as a multiset. Add, remove, reset, equip and the slot drop in toggle change the contents.
- `CatalogView`: the store's derived list, meaning the role filter and the comparator sort. These are functions, with proofs that the result is ordered, is a permutation of the filtered catalog, and that re-sorting is idempotent.
- `StateStore`: the `Store` class. Its fields are the state record. Its methods change them in place. Each roster method keeps the uniqueness invariant, mirrors the roster into the persisted copy and records its notifications.
- `Card`: the champion card. This is the `data` setter's six-empty-items default, the `championId` and `isFlipped` accessors, `toggleFlip`, and the bonus fold over the equipped items through the nine-entry modifier map.
- `Dashboard`: the team page's logic without the DOM:
  - stat totals, role counts and capped percentages over the slotted champions;
  - the team count badge and the reset guard;
  - the "already picked" highlight;
  - drop routing;
  - the shop filter and the item id taken from the image file name.

The loops of the source are loops here:
- the team page's `forEach` over champions, items and modifiers;
- the card's fold;
- the slot clearing of `resetTeam`.

Each loop method is proved equal to a recursive specification function. The properties are then proved about those functions. Examples: order independence of the bonus, bench champions never entering a total, and totals kept by a slot swap.

Inputs from outside the program are parameters:
- the answer to the reset confirmation;
- the strings read from a drag's data;
- the stored roster read at start-up.

Notifications are a ghost log of (event, subscribers run) entries. The persisted `lolTeam`/`lolSlots` entries are ghost fields.

## Model

| member | source | states |
|---|---|---|
| Types.ParseSlot | js/lib/store.js:14-20 | a slot name parses exactly to the slot whose record key it is, and any other string to none |
| Types.ModBonusIsLookup | js/components/champion-card.js:262-266 | when exactly one modifier name maps to a stat, an item's bonus to that stat is the value it lists for that modifier |
| Types.ModBonusIgnoresUnmapped | js/components/champion-card.js:262-266 | modifiers the map does not lead to a stat add nothing to it |
| Types.ItemsBonusPermutation | js/components/champion-card.js:257-270 | the bonus from a list of equipment positions does not depend on their order |
| Types.ItemsBonusUnmappedTarget | js/components/champion-card.js:245-255 | a stat no modifier maps to gets bonus 0 from any items |
| Types.SumOfPermutation | js/app.js:435-461 | a sum over champions or items does not depend on their order |
| Roster.EmptySlots | js/lib/store.js:14-20 | the initial record has all five keys, each empty |
| Roster.SlottedChampions | js/app.js:410-412 | definition: the occupied slots' champions in top, jungle, mid, support, bottom order, with the empty slots dropped |
| Roster.SlottedChampionsMembers | js/app.js:410-412 | a champion is among the slotted champions exactly when some slot holds it |
| Roster.SlotOf | js/lib/store.js:76-80 | a slot is found only if it holds a champion with the id |
| Roster.SlotOfFirst | js/lib/store.js:76-80 | the slot found is the first in record order (top, jungle, mid, support, bottom) that holds the id |
| Roster.SlotOfNone | js/lib/store.js:76-80 | no slot is found exactly when no slot holds the id |
| Roster.PickedIffInRoster | js/lib/store.js:97-102 | being on the bench or in a slot is the same as some roster entry carrying the id |
| Roster.IndexOfId | js/lib/store.js:130-133 | the bench index found holds the id and no earlier entry does; it is absent exactly when no bench entry has the id |
| Roster.WithoutId | js/lib/store.js:113 | the filtered bench has no entry with the id |
| Roster.WithoutIdMultiset | js/lib/store.js:113 | the filter keeps each entry with another id as often as the bench has it, and drops every entry with the id |
| Roster.WithoutAbsentId | js/lib/store.js:113 | removing an id not on the bench changes nothing |
| Roster.WithoutIdIdempotent | js/lib/store.js:112-117 | removing an id twice is removing it once |
| Roster.WithoutIdCutsIndex | js/lib/store.js:113 | on a bench with distinct ids, removal cuts exactly the one entry with that id and keeps the order |
| Roster.UniqueRosterAdd | js/lib/store.js:102-107 | appending a champion whose id is nowhere on the roster keeps ids unique |
| Roster.BenchNotSlotted | js/lib/store.js:74-92 | on a unique roster, an id on the bench is in no slot |
| Roster.UniqueBenchDistinct | js/lib/store.js:130-133 | on a unique roster the bench ids are pairwise different |
| Roster.SlottedOnlyThere | js/lib/store.js:84-87 | on a unique roster, emptying the slot that holds an id leaves the id nowhere |
| Roster.AssignKeepsRoster | js/lib/store.js:129-146 | moving bench entry k into a slot, with the old occupant appended to the bench, keeps the roster's champions as a multiset |
| Roster.ClearKeepsRoster | js/lib/store.js:148-156 | moving a slot's occupant to the bench's end keeps the roster's champions |
| Roster.SwapKeepsRoster | js/lib/store.js:158-169 | exchanging two slots keeps the roster's champions |
| Roster.RemoveStep | js/lib/store.js:112-117 | removal by id keeps ids unique |
| Roster.AssignStep | js/lib/store.js:129-146 | the assignment keeps ids unique |
| Roster.ClearStep | js/lib/store.js:148-156 | clearing a slot keeps ids unique |
| Roster.SwapStep | js/lib/store.js:158-169 | the slot exchange keeps ids unique |
| Roster.DropStep | js/lib/store.js:84-87 | emptying a slot keeps ids unique |
| Roster.ClearedIsEmpty | js/lib/store.js:121-123 | a record whose every key has been set to empty is the empty record |
| Roster.EmptyRosterUnique | js/lib/store.js:119-127 | the empty roster satisfies the uniqueness invariant |
| Roster.BenchReplaceStep | js/lib/store.js:172-183 | rewriting a bench entry's items keeps ids unique |
| Roster.SlotReplaceStep | js/lib/store.js:174-183 | rewriting a slotted champion's items keeps ids unique |
| Roster.SetItem | js/lib/store.js:183 | an array store at position i: position i gets the value, other positions are kept, a gap is filled with empties |
| Roster.Equip | js/lib/store.js:180-183 | equipping changes only the champion's items, not its id, name, title, tags or stats |
| Roster.EquipFrame | js/lib/store.js:181-183 | on six positions (or missing items, which become six empties), only position i changes, to the new value |
| Roster.EquipThenClear | js/lib/store.js:181-183 | equipping and then clearing a position leaves it empty and the others as before |
| CatalogView.FilterByRoleKeeps | js/lib/store.js:192-194 | role "all" keeps the catalog as it is; otherwise every kept entry carries the role |
| CatalogView.FilterByRoleMultiset | js/lib/store.js:192-194 | the filter keeps each matching champion as often as the catalog lists it, and no other |
| CatalogView.StrLessTotal | js/lib/store.js:208-209 | two different names are ordered one way or the other |
| CatalogView.StrLessTransitive | js/lib/store.js:208-209 | string order is transitive |
| CatalogView.CompareNotAfter | js/lib/store.js:195-211 | the comparator is non-positive exactly when a may stand before b in the chosen direction |
| CatalogView.CompareAntisymmetric | js/lib/store.js:195-211 | swapping the arguments negates the comparator |
| CatalogView.NotAfterTotal | js/lib/store.js:195-211 | any two champions are comparable |
| CatalogView.NotAfterTransitive | js/lib/store.js:195-211 | the order is transitive, so the comparator is consistent |
| CatalogView.InsertSorted | js/lib/store.js:195-211 | inserting into an ordered list adds exactly that champion and keeps the list ordered |
| CatalogView.SortChampionsSorted | js/lib/store.js:195-211 | the sorted list is ordered by the key (name, or a stat that reads 0 when missing), ascending iff sortAsc, and is a permutation of its input |
| CatalogView.ViewContents | js/lib/store.js:190-212 | the derived list is ordered and holds each matching catalog entry as often as the catalog does |
| CatalogView.SortSorted | js/lib/store.js:195-211 | sorting an ordered list leaves it unchanged |
| CatalogView.SortIdempotent | js/lib/store.js:195-212 | sorting the derived list again with the same key and direction changes nothing |
| CatalogView.FilterAllMatch | js/lib/store.js:191-194 | a list whose every entry matches the role passes the role filter unchanged |
| CatalogView.ViewIdempotent | js/lib/store.js:190-212 | re-deriving the shown list from an already derived list, filter then sort under the same settings, changes nothing |
| StateStore.Store.Callbacks | js/lib/store.js:31 | an event no one subscribed to has no subscribers |
| StateStore.Store.constructor | js/lib/store.js:2-28 | the initial state: empty catalog, default settings, roster restored from the stored entries or empty, invariant established |
| StateStore.Store.Subscribe | js/lib/store.js:30-33 | the callback is appended to the event's list (created when absent); other events are untouched |
| StateStore.Store.Notify | js/lib/store.js:35-39 | one log entry with the event and its current subscribers |
| StateStore.Store.SaveTeamState | js/lib/store.js:41-44 | the persisted copies become the in-memory bench and slots |
| StateStore.Store.ProcessData | js/lib/store.js:190-214 | the derived list becomes the filtered, sorted catalog; one stateChange notification |
| StateStore.Store.SetChampions | js/lib/store.js:46-49 | the catalog is replaced and the derived list recomputed from it |
| StateStore.Store.SetItems | js/lib/store.js:51-53 | the item database is replaced |
| StateStore.Store.GetItem | js/lib/store.js:55-57 | an item is found exactly when the database has the id, and it is the stored item |
| StateStore.Store.SetRole | js/lib/store.js:59-62 | the role is set and the derived list recomputed for it |
| StateStore.Store.SetSort | js/lib/store.js:64-67 | the sort key is set and the derived list recomputed for it |
| StateStore.Store.ToggleSortOrder | js/lib/store.js:69-72 | the direction is negated before the list is recomputed |
| StateStore.Store.ToggleTeamMember | js/lib/store.js:74-92 | a bench entry is removed; otherwise a slot holding the id is emptied and the champion discarded; otherwise the champion is added; picked-ness flips; the notifications in order |
| StateStore.Store.DropFromSlot | js/lib/store.js:84-87 | the slot that holds the id becomes empty and no other part of the record changes; afterwards the id is on neither the bench nor any slot; ids stay unique; one teamChange is sent |
| StateStore.Store.AddToTeam | js/lib/store.js:94-110 | no change at all when the id is picked; otherwise exactly one copy appended and teamChange sent; afterwards the id is picked and ids stay unique |
| StateStore.Store.RemoveFromTeam | js/lib/store.js:112-117 | the bench becomes the entries with another id, in order; teamChange then stateChange |
| StateStore.Store.ResetTeam | js/lib/store.js:119-127 | an empty bench and all five slots empty; saved; teamChange then stateChange |
| StateStore.Store.AssignToSlot | js/lib/store.js:129-146 | no change when the id is not on the bench; otherwise the entry leaves the bench, fills the slot, and the old occupant is appended to the bench |
| StateStore.Store.AssignAt | js/lib/store.js:135-145 | once the champion's bench position k is known: the new bench is the old one without position k followed by the slot's old occupant, if any; the slot holds that champion; ids stay unique; one teamChange is sent |
| StateStore.Store.ClearSlot | js/lib/store.js:148-156 | no change on an empty slot; otherwise the occupant is appended to the bench and only that slot is emptied |
| StateStore.Store.MoveSlotToSlot | js/lib/store.js:158-169 | no change when the source is empty; otherwise the two slots' occupants are exchanged and the bench is untouched |
| StateStore.Store.EquipItem | js/lib/store.js:171-188 | the bench is searched first, then the slots; only that champion's item position changes; no save or notification when the id is not found |
| Card.MappedStatsHaveBonus | js/components/champion-card.js:232-255 | every stat the modifier map leads to has a bonus accumulator |
| Card.WithDefaultItems | js/components/champion-card.js:121-126 | missing items become six empty positions; existing items are kept as they are |
| Card.ItemBonuses | js/components/champion-card.js:232-270 | the ten accumulators, starting at 0, end as the sum over known equipped items of the mapped modifier values |
| Card.AddModifiers | js/components/champion-card.js:262-267 | each mapped modifier of an item adds its value to its stat's bonus; other modifiers are skipped |
| Card.MpRegenBonusZero | js/components/champion-card.js:245-255 | the mana regeneration bonus is always 0 |
| Card.UnknownPositionAddsNothing | js/components/champion-card.js:257-261 | an empty position, or one whose id the database lacks, can be dropped without changing any bonus |
| Card.BonusTableOrderFree | js/components/champion-card.js:257-270 | the bonus table does not depend on which position holds which item |
| Card.AttackDamageIsListedValue | js/components/champion-card.js:245-266 | an item's attack-damage bonus is the value it lists for FlatPhysicalDamageMod |
| Card.ChampionCard.constructor | js/components/champion-card.js:107-112 | a new card has no champion and is not flipped |
| Card.ChampionCard.ChampionId | js/components/champion-card.js:117-119 | none exactly when no champion is set, else the champion's id |
| Card.ChampionCard.SetData | js/components/champion-card.js:121-126 | the card shows the champion with its items defaulted; its id is the champion's |
| Card.ChampionCard.ToggleFlip | js/components/champion-card.js:364-369 | the flipped flag is negated |
| Card.ChampionCard.Bonuses | js/components/champion-card.js:230-270 | no bonuses without a champion; otherwise the bonus table of its items |
| Dashboard.SlotValues | js/app.js:410-412 | the slot record's values, in key order |
| Dashboard.CountFilledSlots | js/app.js:306-308 | the number of non-empty slot values is the number of slotted champions |
| Dashboard.TeamCountIsRosterSize | js/app.js:306-309 | the badge (bench length plus non-empty slots) is the roster's size |
| Dashboard.TeamCountKeptByAssign | js/app.js:306-309 | assigning a bench entry to a slot keeps the badge |
| Dashboard.TeamCountKeptByClear | js/app.js:306-309 | clearing a slot keeps the badge |
| Dashboard.TeamCountKeptBySwap | js/app.js:306-309 | exchanging two slots keeps the badge |
| Dashboard.ShouldResetIff | js/app.js:224-233 | the guard resets exactly when the user confirms and the bench or some slot is non-empty |
| Dashboard.HandleReset | js/app.js:224-233 | a reset (empty roster, notifications) when the guard says so, otherwise nothing changes |
| Dashboard.PickedOnPageIff | js/app.js:287-292 | the list marks a champion exactly when the store counts its id as picked |
| Dashboard.HandleDrop | js/app.js:531-543 | after a drop the roster is still unique; a routed assignment or move has the store call's effect on the named slots; a drop with no call, an unknown slot name, an id not on the bench or an empty source slot changes nothing |
| Dashboard.DropIsNoOp | js/app.js:531-543 | the drops that leave the store unchanged: no call, an unknown slot name, an id not on the bench, or an empty source slot |
| Dashboard.RouteDrop | js/app.js:531-543 | a drop from a slot onto itself and an empty id do nothing; a bench source assigns to the target; a slot source moves from source to target; both directions of each |
| Dashboard.ShopItemsContents | js/app.js:141-145 | the shop keeps every purchasable item as often as the database lists it, and nothing else |
| Dashboard.ShopItemsAppend | js/app.js:141-145 | the listing keeps database order |
| Dashboard.FindFrom | js/app.js:158 | the position found holds the pattern and no earlier one does; none exactly when the pattern does not occur |
| Dashboard.ItemIdOfPngFile | js/app.js:158 | a file named base + ".png", with no dot in base, gives id base |
| Dashboard.ItemIdOfPlain | js/app.js:158 | a file name without ".png" is its own id |
| Dashboard.AddStatModifiers | js/app.js:445-453 | each of an item's modifiers adds to the running value of the stat the four-entry map leads it to; others are ignored |
| Dashboard.ChampionTotals | js/app.js:436-456 | a champion's four values are its base stats plus the mapped modifiers of its known equipped items |
| Dashboard.SumTotals | js/app.js:414-461 | the four totals start at 0 and end as the sums of the champions' values |
| Dashboard.TeamTotals | js/app.js:410-461 | the totals range over the slotted champions, in record order |
| Dashboard.TeamStatSlotWrite | js/app.js:410-461 | writing one slot changes a total by the new occupant's value minus the old one's, so the bench never contributes |
| Dashboard.TeamStatSwap | js/app.js:410-461 | exchanging two slots keeps every total |
| Dashboard.CountTags | js/app.js:462-464 | each tag with a bucket increments it once per occurrence; other tags change nothing |
| Dashboard.RoleCounts | js/app.js:419-426 | the six buckets start at 0 and end as the tracked tag counts over the slotted champions |
| Dashboard.TagCountIsOccurrences | js/app.js:462-464 | a tag list's count for a role is the number of times the role occurs in it, so a role no tag names counts 0 |
| Dashboard.PercentBounds | js/app.js:467-470 | a bar is at most 100, is 100 exactly from the scale up, is non-negative for a non-negative total, and grows with the total |
| Dashboard.BarsOf | js/app.js:467-470 | the four bars with scales 15000, 1500, 800 and 600 never exceed 100 |
| Roster.IsPicked | js/lib/store.js:97-102 | definition: some bench entry or some slot carries the id; related to the whole roster by `Roster.PickedIffInRoster` and to the page's check by `Dashboard.PickedOnPageIff` |
| CatalogView.Matches | js/lib/store.js:192-194 | definition: role "all", or the champion's tags include the role |
| CatalogView.FilterByRole | js/lib/store.js:192-194 | definition: the catalog narrowed to matching champions in catalog order; its properties are stated by `CatalogView.FilterByRoleKeeps` and `CatalogView.FilterByRoleMultiset` |
| CatalogView.StrLess | js/lib/store.js:208-209 | definition: the language's `<` on strings, character by character, a proper prefix first |
| CatalogView.KeyLess | js/lib/store.js:196-209 | definition: compares names, or the chosen stat with a missing stat read as 0 |
| CatalogView.Compare | js/lib/store.js:195-211 | definition: the comparator, -1, 1 or 0 by key and direction; characterised by `CatalogView.CompareNotAfter` and `CatalogView.CompareAntisymmetric` |
| CatalogView.SortChampions | js/lib/store.js:195-211 | definition: insertion sort with the comparator; ordered and a permutation by `CatalogView.SortChampionsSorted` |
| CatalogView.View | js/lib/store.js:190-212 | definition: filter then sort; its contents are stated by `CatalogView.ViewContents` |
| Types.Stat | js/lib/store.js:196-206 | definition: a base stat, read as 0 when the record lacks it |
| Types.ItemBonus | js/components/champion-card.js:257-268 | definition: an empty position or an id the database lacks adds 0; otherwise the mapped modifiers of the item |
| Types.ItemsBonus | js/components/champion-card.js:257-270 | definition: the sum of the positions' bonuses; computed by `Card.ItemBonuses` and `Dashboard.ChampionTotals`, order-free by `Types.ItemsBonusPermutation` |
| Types.ModBonus | js/components/champion-card.js:262-267 | definition: the sum of one item's modifier values that the map leads to the stat |
| Card.BonusTable | js/components/champion-card.js:232-270 | definition: the ten stats' bonuses; computed by `Card.ItemBonuses` |
| Dashboard.CountFilled | js/app.js:306-308 | definition: the number of non-empty slot values; equal to the number of slotted champions by `Dashboard.CountFilledSlots` |
| Dashboard.TeamCount | js/app.js:306-309 | definition: bench length plus non-empty slot values; the roster size by `Dashboard.TeamCountIsRosterSize` |
| Dashboard.ShouldReset | js/app.js:224-233 | definition: the guard of the reset button; characterised by `Dashboard.ShouldResetIff` |
| Dashboard.PickedOnPage | js/app.js:287-292 | definition: a bench entry or a non-empty slot value carries the id; equal to `Roster.IsPicked` by `Dashboard.PickedOnPageIff` |
| Dashboard.Purchasable | js/app.js:144 | definition: a name, an image, a price and a positive total |
| Dashboard.ShopItems | js/app.js:141-145 | definition: the purchasable items in database order; contents by `Dashboard.ShopItemsContents`, order by `Dashboard.ShopItemsAppend` |
| Dashboard.OccursAt | js/app.js:158 | definition: the pattern stands at position j of the string |
| Dashboard.ItemIdOf | js/app.js:158 | definition: the file name with the first ".png" taken out; stated by `Dashboard.ItemIdOfPngFile` and `Dashboard.ItemIdOfPlain` |
| Dashboard.ChampionStat | js/app.js:436-456 | definition: base stat plus the mapped modifiers of the known equipped items; computed by `Dashboard.ChampionTotals` |
| Dashboard.TeamStat | js/app.js:414-461 | definition: the sum of the champions' values; computed by `Dashboard.SumTotals`, kept by a swap by `Dashboard.TeamStatSwap` |
| Dashboard.TotalsOf | js/app.js:414-461 | definition: the four team totals |
| Dashboard.TagCount | js/app.js:462-464 | definition: how often a tag list names a role; the number of occurrences by `Dashboard.TagCountIsOccurrences` |
| Dashboard.RoleTotal | js/app.js:462-464 | definition: the tag counts for a role summed over the champions; computed by `Dashboard.RoleCounts` |
| Dashboard.Percent | js/app.js:467-470 | definition: `min(total / scale * 100, 100)`; stated by `Dashboard.PercentBounds` |

## Left out

- Network loading, all DOM work, the shadow DOM and templates, tooltips, timers and animations are not modelled. They are I/O and presentation.
- `alert` is a no-op. `confirm` is the boolean input of `Dashboard.HandleReset`.
- The `localStorage` JSON round trip is modelled only as ghost copies of the bench and slots. The stored entries are assumed well-formed: five slot keys and unique ids, as the constructor requires. Malformed stored data has no defined meaning in the app.
- The deep copy in `addToTeam` is modelled as the value semantics of the champion record.
- `notify` records an entry in a ghost log instead of running the callbacks. Re-entrant callbacks are not modelled.
- The `favorites` field is never used by the store's operations and is not modelled.
- Slot names are the `Slot` enumeration, so the store methods cannot be called with an unknown slot name. In the app, two such calls add a sixth key to the slot record. `assignToSlot` with an unknown name writes the champion under that name (js/lib/store.js:141). `moveSlotToSlot` from an occupied slot to an unknown name writes the champion under the unknown name and leaves `undefined`, not `null`, in the source slot (js/lib/store.js:164-165). The other calls with an unknown name change nothing: `clearSlot` returns at js/lib/store.js:149, and `moveSlotToSlot` with an unknown source returns at js/lib/store.js:162. `Dashboard.HandleDrop` reads the routed names with `Types.ParseSlot` and does nothing for a name that is no slot.
- Floating-point arithmetic is modelled as exact `real` arithmetic. Rounding and `Math.round` in the display are not modelled.
- Strings are sequences of characters. The app's UTF-16 code-unit comparison is modelled as comparison by character.
- Object keys that collide with prototype properties (for example a tag named `constructor`) are not modelled.
- Dashboard.ChampionStat: a base stat missing from a champion reads as 0, whereas the app gets NaN there. Catalog records carry all four stats.
- CatalogView.SortChampions: it is a stable insertion sort. `Array.prototype.sort` has been required to be stable since ECMAScript 2019, so ties keep catalog order in the app too. Stability itself is not proved; `CatalogView.SortSorted` only states that an already ordered list, ties included, is left unchanged.
- StateStore.Store.AssignToSlot: its ensures gives the new bench and slots exactly. That the roster's champions are kept as a multiset is proved in `Roster.AssignKeepsRoster`, not repeated in the method's contract. The same holds for ClearSlot (`Roster.ClearKeepsRoster`) and MoveSlotToSlot (`Roster.SwapKeepsRoster`).
- StateStore.Store.EquipItem: the app changes the shared champion object in place. The model writes a new record into the bench or slot; there is no aliasing between the store and a card.
- Card.ChampionCard.SetData: the app's setter writes the six empty `items` into the object it is handed (js/components/champion-card.js:123-124). That object is a catalog entry (js/app.js:278) or the store's own bench or slot champion (js/app.js:345, js/app.js:379), and the write is not saved. In the app, the roster in memory can therefore differ from the stored `lolTeam`/`lolSlots` until the next save. The model writes only the card's own copy, and `StateStore.Store.RosterValid` requires the stored copy to equal the roster. Every roster entry already carries `items` when it is added, so this difference has no visible effect.
- StateStore.Store.ResetTeam: the loop clears the keys of a local copy of the slot record, then stores it. The app clears the record's keys in place.
- Drag data plumbing (`dataTransfer`) is not modelled. Only the routing decision is.
