/**
 * The roster as the store keeps it: a bench list and five named slots, each
 * empty or holding one champion. The functions here are the lookups the store
 * and the page make on it (find by id, find the slot, the occupied slots in
 * record order), the uniqueness invariant, and the per-champion item write.
 */
module Roster {
  import opened Types

  type Slots = map<Slot, Option<Champion>>

  /** The slot record has all five keys. */
  predicate HasAllSlots(slots: Slots) {
    forall s: Slot :: s in slots
  }

  /** A record with the five keys has all slots. */
  lemma CoverAllSlots(slots: Slots)
    requires Top in slots && Jungle in slots && Mid in slots && Support in slots && Bottom in slots
    ensures HasAllSlots(slots)
  {
    forall s: Slot ensures s in slots {
      match s
      case Top =>
      case Jungle =>
      case Mid =>
      case Support =>
      case Bottom =>
    }
  }

  /** The record with every slot empty. */
  function EmptySlots(): (r: Slots)
    ensures HasAllSlots(r)
    ensures forall s :: s in r ==> r[s] == None
  {
    var r := map[Top := None, Jungle := None, Mid := None, Support := None, Bottom := None];
    CoverAllSlots(r);
    r
  }

  /** The champion of one slot, as a list of zero or one. */
  function Occupant(o: Option<Champion>): seq<Champion> {
    if o.Some? then [o.value] else []
  }

  /** The occupied slots' champions, in the order of the slot record's keys. */
  function SlottedChampions(slots: Slots): seq<Champion>
    requires HasAllSlots(slots)
  {
    Occupant(slots[Top]) + Occupant(slots[Jungle]) + Occupant(slots[Mid])
      + Occupant(slots[Support]) + Occupant(slots[Bottom])
  }

  /** A champion is listed among the slotted ones exactly when some slot holds it. */
  lemma SlottedChampionsMembers(slots: Slots, c: Champion)
    requires HasAllSlots(slots)
    ensures c in SlottedChampions(slots) <==> exists s :: slots[s] == Some(c)
  {
    if c in SlottedChampions(slots) {
      if c in Occupant(slots[Top]) { assert slots[Top] == Some(c); }
      else if c in Occupant(slots[Jungle]) { assert slots[Jungle] == Some(c); }
      else if c in Occupant(slots[Mid]) { assert slots[Mid] == Some(c); }
      else if c in Occupant(slots[Support]) { assert slots[Support] == Some(c); }
      else { assert slots[Bottom] == Some(c); }
    }
    if exists s :: slots[s] == Some(c) {
      var s :| slots[s] == Some(c);
      match s
      case Top =>
      case Jungle =>
      case Mid =>
      case Support =>
      case Bottom =>
    }
  }

  /** Writing one slot keeps the record's keys. */
  lemma SlotWriteKeepsKeys(slots: Slots, s: Slot, v: Option<Champion>)
    requires HasAllSlots(slots)
    ensures HasAllSlots(slots[s := v])
  {
  }

  /** Trading x for y between two fixed parts of a list, seen as multisets. */
  lemma TradeMiddle(p: seq<Champion>, x: seq<Champion>, q: seq<Champion>, y: seq<Champion>)
    ensures multiset(p + y + q) + multiset(x) == multiset(p + x + q) + multiset(y)
  {
    var l, r := multiset(p + y + q) + multiset(x), multiset(p + x + q) + multiset(y);
    assert multiset(p + y + q) == multiset(p) + multiset(y) + multiset(q);
    assert multiset(p + x + q) == multiset(p) + multiset(x) + multiset(q);
    forall z ensures l[z] == r[z] {}
  }

  lemma TradeFront(x: seq<Champion>, q: seq<Champion>, y: seq<Champion>)
    ensures multiset(y + q) + multiset(x) == multiset(x + q) + multiset(y)
  {
    TradeMiddle([], x, q, y);
    assert [] + y + q == y + q && [] + x + q == x + q;
  }

  /**
   * Writing one slot replaces that slot's occupant among the slotted champions
   * and nothing else. Each slot has its own lemma below, since each splits the
   * slotted list at a different place.
   */
  lemma SlottedUpdate(slots: Slots, s: Slot, v: Option<Champion>)
    requires HasAllSlots(slots)
    ensures HasAllSlots(slots[s := v])
    ensures multiset(SlottedChampions(slots[s := v])) + multiset(Occupant(slots[s]))
         == multiset(SlottedChampions(slots)) + multiset(Occupant(v))
  {
    SlotWriteKeepsKeys(slots, s, v);
    match s
    case Top => WriteTop(slots, v);
    case Jungle => WriteJungle(slots, v);
    case Mid => WriteMid(slots, v);
    case Support => WriteSupport(slots, v);
    case Bottom => WriteBottom(slots, v);
  }

  lemma WriteTop(slots: Slots, v: Option<Champion>)
    requires HasAllSlots(slots)
    ensures multiset(SlottedChampions(slots[Top := v])) + multiset(Occupant(slots[Top]))
         == multiset(SlottedChampions(slots)) + multiset(Occupant(v))
  {
    var u := slots[Top := v];
    assert u[Top] == v;
    assert u[Jungle] == slots[Jungle] && u[Mid] == slots[Mid] && u[Support] == slots[Support] && u[Bottom] == slots[Bottom];
    var t, j, m, s, b := Occupant(slots[Top]), Occupant(slots[Jungle]), Occupant(slots[Mid]),
      Occupant(slots[Support]), Occupant(slots[Bottom]);
    var o := Occupant(v);
    assert SlottedChampions(u) == o + (j + m + s + b);
    assert SlottedChampions(slots) == t + (j + m + s + b);
    TradeFront(t, j + m + s + b, o);
  }

  lemma WriteJungle(slots: Slots, v: Option<Champion>)
    requires HasAllSlots(slots)
    ensures multiset(SlottedChampions(slots[Jungle := v])) + multiset(Occupant(slots[Jungle]))
         == multiset(SlottedChampions(slots)) + multiset(Occupant(v))
  {
    var u := slots[Jungle := v];
    assert u[Jungle] == v;
    assert u[Top] == slots[Top] && u[Mid] == slots[Mid] && u[Support] == slots[Support] && u[Bottom] == slots[Bottom];
    var t, j, m, s, b := Occupant(slots[Top]), Occupant(slots[Jungle]), Occupant(slots[Mid]),
      Occupant(slots[Support]), Occupant(slots[Bottom]);
    var o := Occupant(v);
    assert SlottedChampions(u) == t + o + (m + s + b);
    assert SlottedChampions(slots) == t + j + (m + s + b);
    TradeMiddle(t, j, m + s + b, o);
  }

  lemma WriteMid(slots: Slots, v: Option<Champion>)
    requires HasAllSlots(slots)
    ensures multiset(SlottedChampions(slots[Mid := v])) + multiset(Occupant(slots[Mid]))
         == multiset(SlottedChampions(slots)) + multiset(Occupant(v))
  {
    var u := slots[Mid := v];
    assert u[Mid] == v;
    assert u[Top] == slots[Top] && u[Jungle] == slots[Jungle] && u[Support] == slots[Support] && u[Bottom] == slots[Bottom];
    var t, j, m, s, b := Occupant(slots[Top]), Occupant(slots[Jungle]), Occupant(slots[Mid]),
      Occupant(slots[Support]), Occupant(slots[Bottom]);
    var o := Occupant(v);
    assert SlottedChampions(u) == t + j + o + (s + b);
    assert SlottedChampions(slots) == t + j + m + (s + b);
    TradeMiddle(t + j, m, s + b, o);
  }

  lemma WriteSupport(slots: Slots, v: Option<Champion>)
    requires HasAllSlots(slots)
    ensures multiset(SlottedChampions(slots[Support := v])) + multiset(Occupant(slots[Support]))
         == multiset(SlottedChampions(slots)) + multiset(Occupant(v))
  {
    var u := slots[Support := v];
    assert u[Support] == v;
    assert u[Top] == slots[Top] && u[Jungle] == slots[Jungle] && u[Mid] == slots[Mid] && u[Bottom] == slots[Bottom];
    var t, j, m, s, b := Occupant(slots[Top]), Occupant(slots[Jungle]), Occupant(slots[Mid]),
      Occupant(slots[Support]), Occupant(slots[Bottom]);
    var o := Occupant(v);
    assert SlottedChampions(u) == t + j + m + o + b;
    assert SlottedChampions(slots) == t + j + m + s + b;
    TradeMiddle(t + j + m, s, b, o);
  }

  lemma WriteBottom(slots: Slots, v: Option<Champion>)
    requires HasAllSlots(slots)
    ensures multiset(SlottedChampions(slots[Bottom := v])) + multiset(Occupant(slots[Bottom]))
         == multiset(SlottedChampions(slots)) + multiset(Occupant(v))
  {
    var u := slots[Bottom := v];
    assert u[Bottom] == v;
    assert u[Top] == slots[Top] && u[Jungle] == slots[Jungle] && u[Mid] == slots[Mid] && u[Support] == slots[Support];
    var t, j, m, s, b := Occupant(slots[Top]), Occupant(slots[Jungle]), Occupant(slots[Mid]),
      Occupant(slots[Support]), Occupant(slots[Bottom]);
    var o := Occupant(v);
    assert SlottedChampions(u) == t + j + m + s + o + [];
    assert SlottedChampions(slots) == t + j + m + s + b + [];
    TradeMiddle(t + j + m + s, b, [], o);
  }

  /** Everybody on the roster: the bench, then the occupied slots. */
  function RosterChampions(team: seq<Champion>, slots: Slots): seq<Champion>
    requires HasAllSlots(slots)
  {
    team + SlottedChampions(slots)
  }

  /** A collection of champions in which no id occurs twice. */
  ghost predicate UniqueIds(m: multiset<Champion>) {
    && (forall c :: m[c] <= 1)
    && (forall c, d :: c in m && d in m && c.id == d.id ==> c == d)
  }

  /** A champion id sits in at most one place among the bench and the five slots. */
  predicate UniqueRoster(team: seq<Champion>, slots: Slots)
    requires HasAllSlots(slots)
  {
    DistinctIds(RosterChampions(team, slots))
  }

  /** The ids of a list are pairwise different. */
  predicate DistinctIds(cs: seq<Champion>) {
    forall i, j :: 0 <= i < j < |cs| ==> cs[i].id != cs[j].id
  }

  /** Some entry of the list carries this id. */
  predicate HasId(cs: seq<Champion>, id: string) {
    exists i :: 0 <= i < |cs| && cs[i].id == id
  }

  /** Slot s holds a champion with this id. */
  predicate Holds(slots: Slots, s: Slot, id: string) {
    s in slots && slots[s].Some? && slots[s].value.id == id
  }

  /** The first slot, in record order, that holds a champion with this id. */
  function SlotOf(slots: Slots, id: string): (r: Option<Slot>)
    ensures r.Some? ==> Holds(slots, r.value, id)
  {
    if Holds(slots, Top, id) then Some(Top)
    else if Holds(slots, Jungle, id) then Some(Jungle)
    else if Holds(slots, Mid, id) then Some(Mid)
    else if Holds(slots, Support, id) then Some(Support)
    else if Holds(slots, Bottom, id) then Some(Bottom)
    else None
  }

  /** The slot found comes before, in record order, every other slot holding the id. */
  lemma SlotOfFirst(slots: Slots, id: string, k: nat)
    requires k < |AllSlots| && SlotOf(slots, id).Some? && AllSlots[k] == SlotOf(slots, id).value
    ensures forall j :: 0 <= j < k ==> !Holds(slots, AllSlots[j], id)
  {
  }

  /** No slot is found exactly when no slot holds the id. */
  lemma SlotOfNone(slots: Slots, id: string)
    ensures SlotOf(slots, id).None? <==> forall s :: !Holds(slots, s, id)
  {
    if SlotOf(slots, id).None? {
      forall s ensures !Holds(slots, s, id) {
        match s
        case Top =>
        case Jungle =>
        case Mid =>
        case Support =>
        case Bottom =>
      }
    }
  }

  /** A champion with this id is on the bench or in some slot. */
  predicate IsPicked(team: seq<Champion>, slots: Slots, id: string) {
    HasId(team, id) || SlotOf(slots, id).Some?
  }

  /** Being picked is the same as some roster entry carrying the id. */
  lemma PickedIffInRoster(team: seq<Champion>, slots: Slots, id: string)
    requires HasAllSlots(slots)
    ensures IsPicked(team, slots, id) <==> HasId(RosterChampions(team, slots), id)
  {
    var all := RosterChampions(team, slots);
    if HasId(team, id) {
      var i :| 0 <= i < |team| && team[i].id == id;
      assert all[i] == team[i];
    } else if SlotOf(slots, id).Some? {
      var s := SlotOf(slots, id).value;
      var c := slots[s].value;
      SlottedChampionsMembers(slots, c);
      var k :| 0 <= k < |SlottedChampions(slots)| && SlottedChampions(slots)[k] == c;
      assert all[|team| + k] == c;
    }
    if HasId(all, id) {
      var i :| 0 <= i < |all| && all[i].id == id;
      if i < |team| {
        assert team[i].id == id;
      } else {
        var c := all[i];
        assert c in SlottedChampions(slots) by {
          assert SlottedChampions(slots)[i - |team|] == c;
        }
        SlottedChampionsMembers(slots, c);
        var s :| slots[s] == Some(c);
        assert Holds(slots, s, id);
        SlotOfNone(slots, id);
      }
    }
  }

  /** An id some entry carries is the id of a member of the list's multiset, and back. */
  lemma HasIdMultiset(cs: seq<Champion>, id: string)
    ensures HasId(cs, id) <==> exists c :: c in multiset(cs) && c.id == id
  {
    if HasId(cs, id) {
      var i :| 0 <= i < |cs| && cs[i].id == id;
      assert cs[i] in multiset(cs);
    }
    if exists c :: c in multiset(cs) && c.id == id {
      var c :| c in multiset(cs) && c.id == id;
      assert c in cs;
      var i :| 0 <= i < |cs| && cs[i] == c;
    }
  }

  /** The index of the first bench entry with this id (the bench's findIndex). */
  function IndexOfId(team: seq<Champion>, id: string): (r: Option<nat>)
    ensures r.Some? ==> r.value < |team| && team[r.value].id == id
    ensures r.Some? ==> forall j :: 0 <= j < r.value ==> team[j].id != id
    ensures r.None? <==> !HasId(team, id)
  {
    if team == [] then None
    else if team[0].id == id then Some(0)
    else
      assert forall i :: 1 <= i < |team| ==> team[i] == team[1..][i - 1];
      match IndexOfId(team[1..], id)
      case None => None
      case Some(k) => Some(k + 1)
  }

  /** The bench without the entries that carry this id (the bench's filter). */
  function WithoutId(team: seq<Champion>, id: string): (r: seq<Champion>)
    ensures !HasId(r, id)
  {
    if team == [] then []
    else
      var rest := WithoutId(team[1..], id);
      assert team == [team[0]] + team[1..];
      if team[0].id == id then rest else [team[0]] + rest
  }

  /** The filter keeps every entry with another id as often as the bench has it, and no entry with this id. */
  lemma {:induction false} WithoutIdMultiset(team: seq<Champion>, id: string)
    ensures forall c :: multiset(WithoutId(team, id))[c] == if c.id == id then 0 else multiset(team)[c]
    ensures multiset(WithoutId(team, id)) <= multiset(team)
    decreases |team|
  {
    if team != [] {
      WithoutIdMultiset(team[1..], id);
      assert team == [team[0]] + team[1..];
      assert multiset(team) == multiset{team[0]} + multiset(team[1..]);
    }
  }

  /** Removing an id that is not on the bench changes nothing. */
  lemma {:induction false} WithoutAbsentId(team: seq<Champion>, id: string)
    requires !HasId(team, id)
    ensures WithoutId(team, id) == team
    decreases |team|
  {
    if team != [] {
      forall i | 0 <= i < |team| - 1 ensures team[1..][i].id != id {
        assert team[1..][i] == team[i + 1];
      }
      WithoutAbsentId(team[1..], id);
      assert team == [team[0]] + team[1..];
    }
  }

  /** Removing by id twice is removing it once. */
  lemma WithoutIdIdempotent(team: seq<Champion>, id: string)
    ensures WithoutId(WithoutId(team, id), id) == WithoutId(team, id)
  {
    WithoutAbsentId(WithoutId(team, id), id);
  }

  /** On a bench with different ids, removing an id cuts out exactly its one entry, keeping the order. */
  lemma {:induction false} WithoutIdCutsIndex(team: seq<Champion>, id: string, k: nat)
    requires DistinctIds(team)
    requires k < |team| && team[k].id == id
    ensures WithoutId(team, id) == team[..k] + team[k + 1..]
    decreases |team|
  {
    var tail := team[1..];
    DistinctTail(team);
    if k == 0 {
      WithoutAbsentId(tail, id);
      assert team[..k] + team[k + 1..] == tail;
    } else {
      WithoutIdCutsIndex(tail, id, k - 1);
      var w := WithoutId(tail, id);
      assert WithoutId(team, id) == [team[0]] + w;
      assert w == team[1..k] + team[k + 1..];
      assert team[..k] == [team[0]] + team[1..k];
    }
  }

  /** Past the head of a list with different ids, the head's id no longer occurs and the ids stay different. */
  lemma DistinctTail(team: seq<Champion>)
    requires DistinctIds(team) && team != []
    ensures !HasId(team[1..], team[0].id)
    ensures DistinctIds(team[1..])
  {
    var tail := team[1..];
    forall i | 0 <= i < |tail| ensures tail[i].id != team[0].id {
      assert tail[i] == team[i + 1];
    }
    forall i, j | 0 <= i < j < |tail| ensures tail[i].id != tail[j].id {
      assert tail[i] == team[i + 1] && tail[j] == team[j + 1];
    }
  }

  /** Uniqueness holds of any part of a unique collection. */
  lemma UniqueIdsSub(m: multiset<Champion>, m': multiset<Champion>)
    requires UniqueIds(m) && m' <= m
    ensures UniqueIds(m')
  {
  }

  /** Adding a champion whose id is absent keeps a collection unique. */
  lemma UniqueIdsAdd(m: multiset<Champion>, c: Champion)
    requires UniqueIds(m)
    requires forall d :: d in m ==> d.id != c.id
    ensures UniqueIds(m + multiset{c})
  {
  }

  /** Replacing a member by a champion with the same id keeps a collection unique. */
  lemma UniqueIdsReplace(m: multiset<Champion>, m': multiset<Champion>, x: Champion, y: Champion)
    requires UniqueIds(m) && x in m && y.id == x.id
    requires m' + multiset{x} == m + multiset{y}
    ensures UniqueIds(m')
  {
    forall c ensures m'[c] + multiset{x}[c] == m[c] + multiset{y}[c] {
      assert (m' + multiset{x})[c] == (m + multiset{y})[c];
    }
  }

  /** Uniqueness survives any change that only drops or rearranges roster champions. */
  lemma UniqueRosterSub(team: seq<Champion>, slots: Slots, team': seq<Champion>, slots': Slots)
    requires HasAllSlots(slots) && HasAllSlots(slots')
    requires UniqueRoster(team, slots)
    requires multiset(RosterChampions(team', slots')) <= multiset(RosterChampions(team, slots))
    ensures UniqueRoster(team', slots')
  {
    DistinctIdsUnique(RosterChampions(team, slots));
    UniqueIdsSub(multiset(RosterChampions(team, slots)), multiset(RosterChampions(team', slots')));
    UniqueDistinctIds(RosterChampions(team', slots'));
  }

  /** Appending a champion whose id is not picked keeps the roster unique. */
  lemma UniqueRosterAdd(team: seq<Champion>, slots: Slots, c: Champion)
    requires HasAllSlots(slots)
    requires UniqueRoster(team, slots)
    requires !IsPicked(team, slots, c.id)
    ensures UniqueRoster(team + [c], slots)
  {
    var before := RosterChampions(team, slots);
    PickedIffInRoster(team, slots, c.id);
    HasIdMultiset(before, c.id);
    assert RosterChampions(team + [c], slots) == team + [c] + SlottedChampions(slots);
    assert multiset(RosterChampions(team + [c], slots)) == multiset(before) + multiset{c};
    DistinctIdsUnique(before);
    UniqueIdsAdd(multiset(before), c);
    UniqueDistinctIds(RosterChampions(team + [c], slots));
  }

  /** A value at two positions of a list occurs at least twice in it. */
  lemma TwoPositions<T>(xs: seq<T>, i: nat, j: nat)
    requires i < j < |xs|
    ensures xs[i] == xs[j] ==> multiset(xs)[xs[i]] >= 2
  {
    var x := xs[i];
    assert xs == xs[..i] + [x] + xs[i + 1..];
    assert multiset(xs) == multiset(xs[..i]) + multiset{x} + multiset(xs[i + 1..]);
    assert xs[i + 1..][j - i - 1] == xs[j];
  }

  /** Two entries of a unique list carry different ids. */
  lemma UniqueListDistinct(xs: seq<Champion>, i: nat, j: nat)
    requires UniqueIds(multiset(xs))
    requires i < j < |xs|
    ensures xs[i].id != xs[j].id
  {
    TwoPositions(xs, i, j);
    assert xs[i] in multiset(xs) && xs[j] in multiset(xs);
  }

  /** A list with pairwise different ids has a unique multiset. */
  lemma {:induction false} DistinctIdsUnique(xs: seq<Champion>)
    requires DistinctIds(xs)
    ensures UniqueIds(multiset(xs))
    decreases |xs|
  {
    if xs != [] {
      var init, x := xs[..|xs| - 1], xs[|xs| - 1];
      assert xs == init + [x];
      assert DistinctIds(init) by {
        forall i, j | 0 <= i < j < |init| ensures init[i].id != init[j].id {
          assert init[i] == xs[i] && init[j] == xs[j];
        }
      }
      DistinctIdsUnique(init);
      forall d | d in multiset(init) ensures d.id != x.id {
        var i :| 0 <= i < |init| && init[i] == d;
        assert xs[i] == d;
      }
      UniqueIdsAdd(multiset(init), x);
    }
  }

  /** A list whose multiset is unique has pairwise different ids. */
  lemma UniqueDistinctIds(xs: seq<Champion>)
    requires UniqueIds(multiset(xs))
    ensures DistinctIds(xs)
  {
    forall i, j | 0 <= i < j < |xs| ensures xs[i].id != xs[j].id {
      UniqueListDistinct(xs, i, j);
    }
  }

  /** On a unique roster, an id on the bench is in no slot. */
  lemma BenchNotSlotted(team: seq<Champion>, slots: Slots, k: nat)
    requires HasAllSlots(slots)
    requires UniqueRoster(team, slots)
    requires k < |team|
    ensures SlotOf(slots, team[k].id).None?
  {
    var id := team[k].id;
    var all, slotted := RosterChampions(team, slots), SlottedChampions(slots);
    forall m | 0 <= m < |slotted| ensures slotted[m].id != id {
      assert all[k] == team[k] && all[|team| + m] == slotted[m];
    }
    forall s ensures !Holds(slots, s, id) {
      if slots[s].Some? {
        SlottedChampionsMembers(slots, slots[s].value);
        var m :| 0 <= m < |slotted| && slotted[m] == slots[s].value;
      }
    }
    SlotOfNone(slots, id);
  }

  /** On a unique roster, the bench entries have different ids. */
  lemma UniqueBenchDistinct(team: seq<Champion>, slots: Slots)
    requires HasAllSlots(slots)
    requires UniqueRoster(team, slots)
    ensures DistinctIds(team)
  {
    var all := RosterChampions(team, slots);
    forall i, j | 0 <= i < j < |team| ensures team[i].id != team[j].id {
      assert all[i] == team[i] && all[j] == team[j];
    }
  }

  /** Taking one member out of a unique collection leaves no other member with its id. */
  lemma UniqueIdsRemove(m: multiset<Champion>, m': multiset<Champion>, c: Champion)
    requires UniqueIds(m) && m' + multiset{c} == m
    ensures forall d :: d in m' ==> d.id != c.id
  {
    assert c in m;
    forall d | d in m' ensures d.id != c.id {
      assert (m' + multiset{c})[d] == m[d];
    }
  }

  /** Trading x for y in the slotted part of a roster trades it in the whole roster. */
  lemma AppendTrade(team: seq<Champion>, a: seq<Champion>, b: seq<Champion>, x: seq<Champion>, y: seq<Champion>)
    requires multiset(b) + multiset(x) == multiset(a) + multiset(y)
    ensures multiset(team + b) + multiset(x) == multiset(team + a) + multiset(y)
  {
    assert multiset(team + b) == multiset(team) + multiset(b);
    assert multiset(team + a) == multiset(team) + multiset(a);
    forall z ensures (multiset(team + b) + multiset(x))[z] == (multiset(team + a) + multiset(y))[z] {
      assert (multiset(b) + multiset(x))[z] == (multiset(a) + multiset(y))[z];
    }
  }

  /** Writing one slot trades its occupant for the new one on the roster. */
  lemma SlotWriteRoster(team: seq<Champion>, slots: Slots, s: Slot, v: Option<Champion>)
    requires HasAllSlots(slots)
    ensures HasAllSlots(slots[s := v])
    ensures multiset(RosterChampions(team, slots[s := v])) + multiset(Occupant(slots[s]))
         == multiset(RosterChampions(team, slots)) + multiset(Occupant(v))
  {
    SlottedUpdate(slots, s, v);
    AppendTrade(team, SlottedChampions(slots), SlottedChampions(slots[s := v]), Occupant(slots[s]), Occupant(v));
  }

  /** On a unique roster, once its slot is emptied an id held by a slot is nowhere. */
  lemma SlottedOnlyThere(team: seq<Champion>, slots: Slots, s: Slot, id: string)
    requires HasAllSlots(slots)
    requires UniqueRoster(team, slots)
    requires Holds(slots, s, id)
    ensures !IsPicked(team, slots[s := None], id)
  {
    var u := slots[s := None];
    SlotWriteRoster(team, slots, s, None);
    assert Occupant(slots[s]) == [slots[s].value];
    DistinctIdsUnique(RosterChampions(team, slots));
    UniqueIdsRemove(multiset(RosterChampions(team, slots)), multiset(RosterChampions(team, u)), slots[s].value);
    HasIdMultiset(RosterChampions(team, u), id);
    PickedIffInRoster(team, u, id);
  }

  /** Moving bench entry k into slot s, and the slot's previous occupant to the bench's end, keeps the roster. */
  lemma AssignKeepsRoster(team: seq<Champion>, slots: Slots, s: Slot, k: nat)
    requires HasAllSlots(slots) && k < |team|
    ensures HasAllSlots(slots[s := Some(team[k])])
    ensures multiset(RosterChampions(team[..k] + team[k + 1..] + Occupant(slots[s]), slots[s := Some(team[k])]))
         == multiset(RosterChampions(team, slots))
  {
    var o := Occupant(slots[s]);
    var bench := team[..k] + team[k + 1..] + o;
    SlotWriteRoster(bench, slots, s, Some(team[k]));
    assert Occupant(Some(team[k])) == [team[k]];
    BenchTrade(team, slots, k, o);
    Cancel(multiset(RosterChampions(bench, slots[s := Some(team[k])])), multiset(RosterChampions(team, slots)), multiset(o));
  }

  /** Cutting entry k out of the bench and appending o trades the one for the other on the roster. */
  lemma BenchTrade(team: seq<Champion>, slots: Slots, k: nat, o: seq<Champion>)
    requires HasAllSlots(slots) && k < |team|
    ensures multiset(RosterChampions(team[..k] + team[k + 1..] + o, slots)) + multiset{team[k]}
         == multiset(RosterChampions(team, slots)) + multiset(o)
  {
    assert team == team[..k] + [team[k]] + team[k + 1..];
    ExchangeSeq(team[..k], team[k], team[k + 1..], o, SlottedChampions(slots));
  }

  /** Taking c out of a list and appending o, seen as multisets. */
  lemma ExchangeSeq<T>(t1: seq<T>, c: T, t2: seq<T>, o: seq<T>, rest: seq<T>)
    ensures multiset(t1 + t2 + o + rest) + multiset{c} == multiset(t1 + [c] + t2 + rest) + multiset(o)
  {
    assert multiset(t1 + t2 + o + rest) == multiset(t1) + multiset(t2) + multiset(o) + multiset(rest);
    assert multiset(t1 + [c] + t2 + rest) == multiset(t1) + multiset{c} + multiset(t2) + multiset(rest);
  }

  /** Moving an occupied slot's champion to the bench's end keeps the roster. */
  lemma ClearKeepsRoster(team: seq<Champion>, slots: Slots, s: Slot)
    requires HasAllSlots(slots) && slots[s].Some?
    ensures HasAllSlots(slots[s := None])
    ensures multiset(RosterChampions(team + [slots[s].value], slots[s := None]))
         == multiset(RosterChampions(team, slots))
  {
    var c := slots[s].value;
    SlotWriteRoster(team + [c], slots, s, None);
    assert Occupant(slots[s]) == [c];
    var mS := multiset(SlottedChampions(slots));
    var before := multiset(RosterChampions(team, slots));
    var after := multiset(RosterChampions(team + [c], slots[s := None]));
    assert multiset(RosterChampions(team + [c], slots)) == before + multiset{c} by {
      assert RosterChampions(team + [c], slots) == team + [c] + SlottedChampions(slots);
      assert RosterChampions(team, slots) == team + SlottedChampions(slots);
      MultisetSwapTail(team, [c], SlottedChampions(slots));
    }
    Cancel(after, before, multiset{c});
  }

  lemma MultisetSwapTail<T>(a: seq<T>, b: seq<T>, c: seq<T>)
    ensures multiset(a + b + c) == multiset(a + c) + multiset(b)
  {
    assert multiset(a + b + c) == multiset(a) + multiset(b) + multiset(c);
    assert multiset(a + c) == multiset(a) + multiset(c);
  }

  lemma Cancel<T>(x: multiset<T>, y: multiset<T>, o: multiset<T>)
    requires x + o == y + o
    ensures x == y
  {
    forall z ensures x[z] == y[z] {
      assert (x + o)[z] == (y + o)[z];
    }
  }

  /** Exchanging the occupants of two slots keeps the roster. */
  lemma SwapKeepsRoster(team: seq<Champion>, slots: Slots, from: Slot, to: Slot)
    requires HasAllSlots(slots)
    ensures HasAllSlots(slots[to := slots[from]][from := slots[to]])
    ensures multiset(RosterChampions(team, slots[to := slots[from]][from := slots[to]]))
         == multiset(RosterChampions(team, slots))
  {
    var a, b := slots[from], slots[to];
    var u1 := slots[to := a];
    SlotWriteRoster(team, slots, to, a);
    SlotWriteRoster(team, u1, from, b);
    assert u1[from] == a;
    var before, mid, after := multiset(RosterChampions(team, slots)), multiset(RosterChampions(team, u1)),
      multiset(RosterChampions(team, u1[from := b]));
    assert after + multiset(Occupant(a)) == mid + multiset(Occupant(b));
    assert mid + multiset(Occupant(b)) == before + multiset(Occupant(a));
    Cancel(after, before, multiset(Occupant(a)));
  }

  /** Rewriting bench entry k trades it for its new value on the roster. */
  lemma BenchWriteRoster(team: seq<Champion>, slots: Slots, k: nat, y: Champion)
    requires HasAllSlots(slots) && k < |team|
    ensures multiset(RosterChampions(team[k := y], slots)) + multiset{team[k]}
         == multiset(RosterChampions(team, slots)) + multiset{y}
  {
    var t := team[k := y];
    assert team == team[..k] + [team[k]] + team[k + 1..];
    assert t == team[..k] + [y] + team[k + 1..];
    TradeMiddle(team[..k], [team[k]], team[k + 1..], [y]);
    TailTrade(t, team, SlottedChampions(slots), [team[k]], [y]);
  }

  /** Trading x for y in the bench part of a roster trades it in the whole roster. */
  lemma TailTrade(a: seq<Champion>, b: seq<Champion>, tail: seq<Champion>, x: seq<Champion>, y: seq<Champion>)
    requires multiset(a) + multiset(x) == multiset(b) + multiset(y)
    ensures multiset(a + tail) + multiset(x) == multiset(b + tail) + multiset(y)
  {
    assert multiset(a + tail) == multiset(a) + multiset(tail);
    assert multiset(b + tail) == multiset(b) + multiset(tail);
    forall z ensures (multiset(a + tail) + multiset(x))[z] == (multiset(b + tail) + multiset(y))[z] {
      assert (multiset(a) + multiset(x))[z] == (multiset(b) + multiset(y))[z];
    }
  }

  /*
   * One lemma per roster operation of the store: the record it leaves still
   * has its five slots and no id twice.
   */

  lemma RemoveStep(team: seq<Champion>, slots: Slots, id: string)
    requires HasAllSlots(slots) && UniqueRoster(team, slots)
    ensures UniqueRoster(WithoutId(team, id), slots)
  {
    WithoutIdMultiset(team, id);
    UniqueRosterSub(team, slots, WithoutId(team, id), slots);
  }

  lemma AssignStep(team: seq<Champion>, slots: Slots, s: Slot, k: nat)
    requires HasAllSlots(slots) && UniqueRoster(team, slots) && k < |team|
    ensures HasAllSlots(slots[s := Some(team[k])])
    ensures UniqueRoster(team[..k] + team[k + 1..] + Occupant(slots[s]), slots[s := Some(team[k])])
  {
    AssignKeepsRoster(team, slots, s, k);
    UniqueRosterSub(team, slots, team[..k] + team[k + 1..] + Occupant(slots[s]), slots[s := Some(team[k])]);
  }

  lemma ClearStep(team: seq<Champion>, slots: Slots, s: Slot)
    requires HasAllSlots(slots) && UniqueRoster(team, slots) && slots[s].Some?
    ensures HasAllSlots(slots[s := None])
    ensures UniqueRoster(team + [slots[s].value], slots[s := None])
  {
    ClearKeepsRoster(team, slots, s);
    UniqueRosterSub(team, slots, team + [slots[s].value], slots[s := None]);
  }

  lemma SwapStep(team: seq<Champion>, slots: Slots, from: Slot, to: Slot)
    requires HasAllSlots(slots) && UniqueRoster(team, slots)
    ensures HasAllSlots(slots[to := slots[from]][from := slots[to]])
    ensures UniqueRoster(team, slots[to := slots[from]][from := slots[to]])
  {
    SwapKeepsRoster(team, slots, from, to);
    UniqueRosterSub(team, slots, team, slots[to := slots[from]][from := slots[to]]);
  }

  lemma DropStep(team: seq<Champion>, slots: Slots, s: Slot)
    requires HasAllSlots(slots) && UniqueRoster(team, slots)
    ensures HasAllSlots(slots[s := None])
    ensures UniqueRoster(team, slots[s := None])
  {
    SlotWriteRoster(team, slots, s, None);
    PartOfSum(multiset(RosterChampions(team, slots[s := None])), multiset(Occupant(slots[s])),
      multiset(RosterChampions(team, slots)), multiset(Occupant(None)));
    UniqueRosterSub(team, slots, team, slots[s := None]);
  }

  lemma PartOfSum<T>(a: multiset<T>, b: multiset<T>, c: multiset<T>, e: multiset<T>)
    requires a + b == c + e && |e| == 0
    ensures a <= c
  {
    forall z ensures a[z] <= c[z] {
      assert (a + b)[z] == (c + e)[z];
    }
  }

  /** A record whose every key in record order is empty is the empty record. */
  lemma ClearedIsEmpty(slots: Slots)
    requires forall k :: 0 <= k < |AllSlots| ==> AllSlots[k] in slots && slots[AllSlots[k]] == None
    ensures slots == EmptySlots()
  {
    forall s: Slot ensures s in slots && slots[s] == None {
      AllSlotsComplete(s);
    }
  }

  lemma EmptyRosterUnique()
    ensures HasAllSlots(EmptySlots())
    ensures UniqueRoster([], EmptySlots())
  {
    assert SlottedChampions(EmptySlots()) == [];
  }

  /** Rewriting a bench entry into a record with the same id keeps the ids unique. */
  lemma BenchReplaceStep(team: seq<Champion>, slots: Slots, k: nat, y: Champion)
    requires HasAllSlots(slots) && UniqueRoster(team, slots) && k < |team| && y.id == team[k].id
    ensures UniqueRoster(team[k := y], slots)
  {
    BenchWriteRoster(team, slots, k, y);
    assert team[k] in multiset(RosterChampions(team, slots)) by {
      assert RosterChampions(team, slots)[k] == team[k];
    }
    DistinctIdsUnique(RosterChampions(team, slots));
    UniqueIdsReplace(multiset(RosterChampions(team, slots)), multiset(RosterChampions(team[k := y], slots)), team[k], y);
    UniqueDistinctIds(RosterChampions(team[k := y], slots));
  }

  /** Rewriting a slot's occupant into a record with the same id keeps the ids unique. */
  lemma SlotReplaceStep(team: seq<Champion>, slots: Slots, s: Slot, y: Champion)
    requires HasAllSlots(slots) && UniqueRoster(team, slots) && slots[s].Some? && y.id == slots[s].value.id
    ensures HasAllSlots(slots[s := Some(y)])
    ensures UniqueRoster(team, slots[s := Some(y)])
  {
    SlotWriteRoster(team, slots, s, Some(y));
    assert Occupant(slots[s]) == [slots[s].value] && Occupant(Some(y)) == [y];
    assert slots[s].value in multiset(RosterChampions(team, slots)) by {
      SlottedChampionsMembers(slots, slots[s].value);
    }
    DistinctIdsUnique(RosterChampions(team, slots));
    UniqueIdsReplace(multiset(RosterChampions(team, slots)), multiset(RosterChampions(team, slots[s := Some(y)])),
      slots[s].value, y);
    UniqueDistinctIds(RosterChampions(team, slots[s := Some(y)]));
  }

  /** Six empty equipment positions. */
  const NoItems: seq<ItemSlot> := [None, None, None, None, None, None]

  /** Writing position i of an item list with the semantics of an array store. */
  function SetItem(items: seq<ItemSlot>, i: nat, v: ItemSlot): (r: seq<ItemSlot>)
    ensures |r| == if i < |items| then |items| else i + 1
    ensures r[i] == v
    ensures forall j :: 0 <= j < |items| && j != i ==> r[j] == items[j]
    ensures forall j :: |items| <= j < i ==> r[j] == None
  {
    if i < |items| then items[i := v] else items + seq(i - |items|, _ => None) + [v]
  }

  /** A champion after equipping v at position i; missing items become six empty positions first. */
  function Equip(c: Champion, i: nat, v: ItemSlot): (r: Champion)
    ensures r.id == c.id && r.name == c.name && r.title == c.title
    ensures r.tags == c.tags && r.stats == c.stats
  {
    c.(items := Some(SetItem(c.items.GetOr(NoItems), i, v)))
  }

  /**
   * On a champion with six positions or none, equipping position i of 0..5
   * sets exactly that position; the other five keep what they held (empty when
   * the champion had no items).
   */
  lemma EquipFrame(c: Champion, i: nat, v: ItemSlot)
    requires i < 6
    requires c.items.None? || |c.items.value| == 6
    ensures |ItemsOf(Equip(c, i, v))| == 6
    ensures ItemsOf(Equip(c, i, v))[i] == v
    ensures forall j :: 0 <= j < 6 && j != i ==> ItemsOf(Equip(c, i, v))[j] == c.items.GetOr(NoItems)[j]
  {
  }

  /** Equipping and then clearing one position leaves it empty and the others as before. */
  lemma EquipThenClear(c: Champion, i: nat, item: string)
    requires i < 6
    requires c.items.None? || |c.items.value| == 6
    ensures Equip(Equip(c, i, Some(item)), i, None) == Equip(c, i, None)
    ensures ItemsOf(Equip(Equip(c, i, Some(item)), i, None))[i] == None
  {
    var once := SetItem(c.items.GetOr(NoItems), i, Some(item));
    assert SetItem(once, i, None) == SetItem(c.items.GetOr(NoItems), i, None);
  }
}
