/**
 * The application's single state container: the catalog and its derived list,
 * the item database, the list settings, the roster (bench and five slots),
 * the subscribers per event name, and the roster's persisted copy.
 *
 * Notifications are recorded in a ghost log: each entry is one call of
 * notify, with the subscribers it ran, in order. The stored "lolTeam" and
 * "lolSlots" entries are ghost fields; None stands for an entry not yet
 * written.
 */
module StateStore {
  import opened Types
  import opened Roster
  import opened CatalogView

  /** A subscriber, known by the identity it was registered under. */
  type Callback = nat

  /** One call of notify: the event name and the subscribers it invoked, in order. */
  datatype Notification = Notification(event: string, callbacks: seq<Callback>)

  const TeamChange: string := "teamChange"
  const StateChange: string := "stateChange"

  /** The list settings the store starts with. */
  const DefaultSortBy: string := "name"

  class Store {
    var events: map<string, seq<Callback>>
    var champions: seq<Champion>
    var itemsDatabase: map<string, Item>
    var filteredChampions: seq<Champion>
    var role: string
    var sortBy: string
    var sortAsc: bool
    var team: seq<Champion>
    var slots: Slots
    /** Every notification sent so far, oldest first. */
    ghost var log: seq<Notification>
    /** The persisted bench ("lolTeam"). */
    ghost var savedTeam: Option<seq<Champion>>
    /** The persisted slot record ("lolSlots"). */
    ghost var savedSlots: Option<Slots>

    /**
     * The roster has all five slots, no id twice, and is what restoring the
     * persisted entries gives (an absent entry restores the default).
     */
    ghost predicate RosterValid()
      reads this`team, this`slots, this`savedTeam, this`savedSlots
    {
      && HasAllSlots(slots)
      && UniqueRoster(team, slots)
      && team == savedTeam.GetOr([])
      && slots == savedSlots.GetOr(EmptySlots())
    }

    /** The shown list is the catalog under the current settings. */
    ghost predicate CatalogValid()
      reads this`champions, this`role, this`sortBy, this`sortAsc, this`filteredChampions
    {
      filteredChampions == View(champions, role, sortBy, sortAsc)
    }

    /**
     * The whole invariant. Each method below keeps the half it may change;
     * the other half lies outside its modifies clause and so is kept too.
     */
    ghost predicate Valid()
      reads this
    {
      RosterValid() && CatalogValid()
    }

    /** The subscribers registered for an event, in registration order. */
    function Callbacks(event: string): (r: seq<Callback>)
      reads this`events
      ensures event !in events ==> r == []
    {
      if event in events then events[event] else []
    }

    /** The notification an event sends now. */
    ghost function Sent(event: string): Notification
      reads this`events
    {
      Notification(event, Callbacks(event))
    }

    /**
     * A fresh store. The list settings start at every role, by name,
     * ascending; the roster is restored from the persisted entries when they
     * exist, which are as the store itself writes them.
     */
    constructor (storedTeam: Option<seq<Champion>>, storedSlots: Option<Slots>)
      requires HasAllSlots(storedSlots.GetOr(EmptySlots()))
      requires UniqueRoster(storedTeam.GetOr([]), storedSlots.GetOr(EmptySlots()))
      ensures Valid()
      ensures events == map[] && log == []
      ensures champions == [] && itemsDatabase == map[] && filteredChampions == []
      ensures role == AllRoles && sortBy == DefaultSortBy && sortAsc
      ensures team == storedTeam.GetOr([]) && slots == storedSlots.GetOr(EmptySlots())
      ensures savedTeam == storedTeam && savedSlots == storedSlots
    {
      events := map[];
      champions := [];
      itemsDatabase := map[];
      filteredChampions := [];
      role := AllRoles;
      sortBy := DefaultSortBy;
      sortAsc := true;
      team := [];
      slots := EmptySlots();
      log := [];
      savedTeam := storedTeam;
      savedSlots := storedSlots;
      if storedTeam.Some? {
        team := storedTeam.value;
      }
      if storedSlots.Some? {
        slots := storedSlots.value;
      }
    }

    /** Registers a subscriber at the end of the event's list. */
    method Subscribe(event: string, callback: Callback)
      modifies this`events
      ensures events == old(events)[event := old(Callbacks(event)) + [callback]]
      ensures Callbacks(event) == old(Callbacks(event)) + [callback]
      ensures forall e :: e != event ==> Callbacks(e) == old(Callbacks(e))
    {
      var registered := if event in events then events[event] else [];
      events := events[event := registered + [callback]];
    }

    /** Records that the event was sent to the subscribers registered now. */
    method Notify(event: string)
      modifies this`log
      ensures log == old(log) + [Sent(event)]
    {
      log := log + [Notification(event, Callbacks(event))];
    }

    /** Writes the bench and the slot record to storage. */
    method SaveTeamState()
      modifies this`savedTeam, this`savedSlots
      ensures savedTeam == Some(team) && savedSlots == Some(slots)
      ensures HasAllSlots(slots) && UniqueRoster(team, slots) ==> RosterValid()
    {
      savedTeam := Some(team);
      savedSlots := Some(slots);
    }

    /** Re-derives the shown list from the catalog and the settings, then announces the state. */
    method ProcessData()
      modifies this`filteredChampions, this`log
      ensures CatalogValid()
      ensures filteredChampions == View(champions, role, sortBy, sortAsc)
      ensures log == old(log) + [Sent(StateChange)]
    {
      filteredChampions := SortChampions(FilterByRole(champions, role), sortBy, sortAsc);
      Notify(StateChange);
    }

    /** Replaces the catalog (the values of the champion document, in order). */
    method SetChampions(data: seq<Champion>)
      modifies this`champions, this`filteredChampions, this`log
      ensures CatalogValid()
      ensures champions == data && filteredChampions == View(data, role, sortBy, sortAsc)
      ensures log == old(log) + [Sent(StateChange)]
    {
      champions := data;
      ProcessData();
    }

    /** Replaces the item database; nothing is announced. */
    method SetItems(data: map<string, Item>)
      modifies this`itemsDatabase
      ensures itemsDatabase == data
    {
      itemsDatabase := data;
    }

    /** The item stored under an id, if any. */
    function GetItem(id: string): (r: Option<Item>)
      reads this
      ensures r.Some? <==> id in itemsDatabase
      ensures r.Some? ==> r.value == itemsDatabase[id]
    {
      if id in itemsDatabase then Some(itemsDatabase[id]) else None
    }

    method SetRole(r: string)
      modifies this`role, this`filteredChampions, this`log
      ensures CatalogValid()
      ensures role == r && filteredChampions == View(champions, r, sortBy, sortAsc)
      ensures log == old(log) + [Sent(StateChange)]
    {
      role := r;
      ProcessData();
    }

    method SetSort(key: string)
      modifies this`sortBy, this`filteredChampions, this`log
      ensures CatalogValid()
      ensures sortBy == key && filteredChampions == View(champions, role, key, sortAsc)
      ensures log == old(log) + [Sent(StateChange)]
    {
      sortBy := key;
      ProcessData();
    }

    method ToggleSortOrder()
      modifies this`sortAsc, this`filteredChampions, this`log
      ensures CatalogValid()
      ensures sortAsc == !old(sortAsc) && filteredChampions == View(champions, role, sortBy, sortAsc)
      ensures log == old(log) + [Sent(StateChange)]
    {
      sortAsc := !sortAsc;
      ProcessData();
    }

    /**
     * Puts a copy of the champion at the end of the bench unless its id is
     * already picked, in which case nothing changes (the user is alerted).
     */
    method AddToTeam(champion: Champion)
      requires RosterValid()
      modifies this`team, this`savedTeam, this`savedSlots, this`log
      ensures RosterValid()
      ensures old(IsPicked(team, slots, champion.id)) ==>
        team == old(team) && savedTeam == old(savedTeam) && savedSlots == old(savedSlots) && log == old(log)
      ensures !old(IsPicked(team, slots, champion.id)) ==>
        team == old(team) + [champion] && log == old(log) + [Sent(TeamChange)]
      ensures IsPicked(team, slots, champion.id)
    {
      if HasId(team, champion.id) || SlotOf(slots, champion.id).Some? {
        return;
      }
      UniqueRosterAdd(team, slots, champion);
      team := team + [champion];
      assert team[|team| - 1] == champion;
      SaveTeamState();
      Notify(TeamChange);
    }

    /** Drops every bench entry with this id. */
    method RemoveFromTeam(id: string)
      requires RosterValid()
      modifies this`team, this`savedTeam, this`savedSlots, this`log
      ensures RosterValid()
      ensures team == WithoutId(old(team), id)
      ensures log == old(log) + [Sent(TeamChange), Sent(StateChange)]
    {
      RemoveStep(team, slots, id);
      team := WithoutId(team, id);
      SaveTeamState();
      Notify(TeamChange);
      Notify(StateChange);
    }

    /** Empties the bench and every slot of the record. */
    method ResetTeam()
      modifies this`team, this`slots, this`savedTeam, this`savedSlots, this`log
      ensures RosterValid()
      ensures team == [] && slots == EmptySlots()
      ensures log == old(log) + [Sent(TeamChange), Sent(StateChange)]
    {
      team := [];
      var cleared := slots;
      for i := 0 to |AllSlots|
        invariant forall k :: 0 <= k < i ==> AllSlots[k] in cleared && cleared[AllSlots[k]] == None
      {
        cleared := cleared[AllSlots[i] := None];
      }
      ClearedIsEmpty(cleared);
      slots := cleared;
      EmptyRosterUnique();
      SaveTeamState();
      Notify(TeamChange);
      Notify(StateChange);
    }

    /**
     * Moves the first bench entry with this id into the slot; the slot's
     * previous occupant, if any, goes to the end of the bench. Nothing
     * happens when no bench entry has the id.
     */
    method AssignToSlot(slot: Slot, id: string)
      requires RosterValid()
      modifies this`team, this`slots, this`savedTeam, this`savedSlots, this`log
      ensures RosterValid()
      ensures !old(HasId(team, id)) ==>
        team == old(team) && slots == old(slots) && log == old(log)
        && savedTeam == old(savedTeam) && savedSlots == old(savedSlots)
      ensures old(HasId(team, id)) ==>
        var k := IndexOfId(old(team), id).value;
        && team == old(team)[..k] + old(team)[k + 1..] + Occupant(old(slots)[slot])
        && slots == old(slots)[slot := Some(old(team)[k])]
        && log == old(log) + [Sent(TeamChange)]
    {
      var found := IndexOfId(team, id);
      if found.None? {
        return;
      }
      AssignAt(slot, found.value);
    }

    /** The assignment once the champion's place `k` on the bench is known. */
    method AssignAt(slot: Slot, k: nat)
      requires RosterValid() && k < |team|
      modifies this`team, this`slots, this`savedTeam, this`savedSlots, this`log
      ensures RosterValid()
      ensures team == old(team)[..k] + old(team)[k + 1..] + Occupant(old(slots)[slot])
      ensures slots == old(slots)[slot := Some(old(team)[k])]
      ensures log == old(log) + [Sent(TeamChange)]
    {
      AssignStep(team, slots, slot, k);
      var bench := team[..k] + team[k + 1..];
      if slots[slot].Some? {
        bench := bench + [slots[slot].value];
      }
      assert bench == team[..k] + team[k + 1..] + Occupant(slots[slot]);
      team, slots := bench, slots[slot := Some(team[k])];
      SaveTeamState();
      Notify(TeamChange);
    }

    /** Moves an occupied slot's champion to the end of the bench; an empty slot is left alone. */
    method ClearSlot(slot: Slot)
      requires RosterValid()
      modifies this`team, this`slots, this`savedTeam, this`savedSlots, this`log
      ensures RosterValid()
      ensures old(slots[slot]).None? ==>
        team == old(team) && slots == old(slots) && log == old(log)
        && savedTeam == old(savedTeam) && savedSlots == old(savedSlots)
      ensures old(slots[slot]).Some? ==>
        && team == old(team) + [old(slots[slot]).value]
        && slots == old(slots)[slot := None]
        && log == old(log) + [Sent(TeamChange)]
    {
      if slots[slot].None? {
        return;
      }
      ClearStep(team, slots, slot);
      team := team + [slots[slot].value];
      slots := slots[slot := None];
      SaveTeamState();
      Notify(TeamChange);
    }

    /** Moves an occupied slot's champion to another slot, whose occupant (or emptiness) comes back. */
    method MoveSlotToSlot(from: Slot, to: Slot)
      requires RosterValid()
      modifies this`slots, this`savedTeam, this`savedSlots, this`log
      ensures RosterValid()
      ensures old(slots[from]).None? ==>
        slots == old(slots) && log == old(log) && savedTeam == old(savedTeam) && savedSlots == old(savedSlots)
      ensures old(slots[from]).Some? ==>
        && slots == old(slots)[to := old(slots[from])][from := old(slots[to])]
        && log == old(log) + [Sent(TeamChange)]
    {
      var charFrom := slots[from];
      var charTo := slots[to];
      if charFrom.None? {
        return;
      }
      SwapStep(team, slots, from, to);
      slots := slots[to := charFrom];
      slots := slots[from := charTo];
      SaveTeamState();
      Notify(TeamChange);
    }

    /**
     * Writes an item id (or nothing) into one equipment position of the
     * champion with this id: the first bench entry with it, else the first
     * slot holding it. A champion without items gets six empty positions
     * first. Nothing happens when no champion has the id.
     */
    method EquipItem(id: string, slotIndex: nat, itemId: ItemSlot)
      requires RosterValid()
      modifies this`team, this`slots, this`savedTeam, this`savedSlots, this`log
      ensures RosterValid()
      ensures old(HasId(team, id)) ==>
        var k := IndexOfId(old(team), id).value;
        && team == old(team)[k := Equip(old(team)[k], slotIndex, itemId)]
        && slots == old(slots)
        && log == old(log) + [Sent(TeamChange)]
      ensures !old(HasId(team, id)) && old(SlotOf(slots, id)).Some? ==>
        var s := old(SlotOf(slots, id)).value;
        && team == old(team)
        && slots == old(slots)[s := Some(Equip(old(slots)[s].value, slotIndex, itemId))]
        && log == old(log) + [Sent(TeamChange)]
      ensures !old(IsPicked(team, slots, id)) ==>
        team == old(team) && slots == old(slots) && log == old(log)
        && savedTeam == old(savedTeam) && savedSlots == old(savedSlots)
    {
      var onBench := IndexOfId(team, id);
      if onBench.Some? {
        var k := onBench.value;
        var updated := Equip(team[k], slotIndex, itemId);
        BenchReplaceStep(team, slots, k, updated);
        team := team[k := updated];
      } else {
        var inSlot := SlotOf(slots, id);
        if inSlot.None? {
          return;
        }
        var s := inSlot.value;
        var updated := Equip(slots[s].value, slotIndex, itemId);
        SlotReplaceStep(team, slots, s, updated);
        slots := slots[s := Some(updated)];
      }
      SaveTeamState();
      Notify(TeamChange);
    }

    /** Empties the slot that holds this champion, which leaves it unpicked. */
    method DropFromSlot(s: Slot, id: string)
      requires RosterValid() && Holds(slots, s, id)
      modifies this`slots, this`savedTeam, this`savedSlots, this`log
      ensures RosterValid() && !IsPicked(team, slots, id)
      ensures slots == old(slots)[s := None]
      ensures log == old(log) + [Sent(TeamChange)]
    {
      SlottedOnlyThere(team, slots, s, id);
      DropStep(team, slots, s);
      slots := slots[s := None];
      SaveTeamState();
      Notify(TeamChange);
    }

    /**
     * The catalog's right-click: a picked champion is taken off the roster
     * (from the bench if it is there, else out of its slot), an unpicked one
     * is added to the bench; the state is announced afterwards.
     */
    method ToggleTeamMember(champion: Champion)
      requires RosterValid()
      modifies this`team, this`slots, this`savedTeam, this`savedSlots, this`log
      ensures RosterValid()
      ensures IsPicked(team, slots, champion.id) == !old(IsPicked(team, slots, champion.id))
      ensures old(HasId(team, champion.id)) ==>
        && team == WithoutId(old(team), champion.id) && slots == old(slots)
        && log == old(log) + [Sent(TeamChange), Sent(StateChange), Sent(StateChange)]
      ensures !old(HasId(team, champion.id)) && old(SlotOf(slots, champion.id)).Some? ==>
        && team == old(team) && slots == old(slots)[old(SlotOf(slots, champion.id)).value := None]
        && log == old(log) + [Sent(TeamChange), Sent(StateChange)]
      ensures !old(IsPicked(team, slots, champion.id)) ==>
        && team == old(team) + [champion] && slots == old(slots)
        && log == old(log) + [Sent(TeamChange), Sent(StateChange)]
    {
      var onBench := HasId(team, champion.id);
      var slotKey := SlotOf(slots, champion.id);
      if onBench {
        var k := IndexOfId(team, champion.id).value;
        BenchNotSlotted(team, slots, k);
        RemoveFromTeam(champion.id);
      } else if slotKey.Some? {
        DropFromSlot(slotKey.value, champion.id);
      } else {
        AddToTeam(champion);
      }
      Notify(StateChange);
    }
  }
}
