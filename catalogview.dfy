/**
 * The champion list the catalog shows: the catalog narrowed to one role tag
 * (or all of it) and ordered by name or by one base stat, ascending or
 * descending, with the store's comparator.
 */
module CatalogView {
  import opened Types

  /** The role selector value that shows every champion. */
  const AllRoles: string := "all"

  /** A champion stays in the list when every role is shown or it carries the role tag. */
  predicate Matches(c: Champion, role: string) {
    role == AllRoles || role in c.tags
  }

  /** The catalog narrowed to a role, in catalog order. */
  function FilterByRole(champions: seq<Champion>, role: string): seq<Champion> {
    if role == AllRoles then champions
    else if champions == [] then []
    else
      var rest := FilterByRole(champions[1..], role);
      if role in champions[0].tags then [champions[0]] + rest else rest
  }

  /** Every role shown leaves the catalog as it is; otherwise every entry kept carries the role. */
  lemma {:induction false} FilterByRoleKeeps(champions: seq<Champion>, role: string)
    ensures role == AllRoles ==> FilterByRole(champions, role) == champions
    ensures forall i :: 0 <= i < |FilterByRole(champions, role)| ==> Matches(FilterByRole(champions, role)[i], role)
    ensures |FilterByRole(champions, role)| <= |champions|
    decreases |champions|
  {
    if role != AllRoles && champions != [] {
      FilterByRoleKeeps(champions[1..], role);
    }
  }

  /** The filter keeps each matching champion as often as the catalog lists it, and no other. */
  lemma {:induction false} FilterByRoleMultiset(champions: seq<Champion>, role: string)
    ensures forall c :: multiset(FilterByRole(champions, role))[c]
                     == if Matches(c, role) then multiset(champions)[c] else 0
    decreases |champions|
  {
    if role != AllRoles && champions != [] {
      FilterByRoleMultiset(champions[1..], role);
      assert champions == [champions[0]] + champions[1..];
      assert multiset(champions) == multiset{champions[0]} + multiset(champions[1..]);
    }
  }

  /** String order as the language's `<` on strings: character by character, a proper prefix first. */
  predicate StrLess(a: string, b: string)
    decreases |a|
  {
    if |a| == 0 then |b| > 0
    else if |b| == 0 then false
    else if a[0] != b[0] then a[0] < b[0]
    else StrLess(a[1..], b[1..])
  }

  lemma {:induction false} StrLessIrreflexive(a: string)
    ensures !StrLess(a, a)
    decreases |a|
  {
    if |a| > 0 {
      StrLessIrreflexive(a[1..]);
    }
  }

  lemma {:induction false} StrLessAsymmetric(a: string, b: string)
    ensures StrLess(a, b) ==> !StrLess(b, a)
    decreases |a|
  {
    if |a| > 0 && |b| > 0 && a[0] == b[0] {
      StrLessAsymmetric(a[1..], b[1..]);
    }
  }

  lemma {:induction false} StrLessTransitive(a: string, b: string, c: string)
    ensures StrLess(a, b) && StrLess(b, c) ==> StrLess(a, c)
    decreases |a|
  {
    if |a| > 0 && |b| > 0 && |c| > 0 && a[0] == b[0] && b[0] == c[0] {
      StrLessTransitive(a[1..], b[1..], c[1..]);
    }
  }

  /** Two different strings are ordered one way or the other. */
  lemma {:induction false} StrLessTotal(a: string, b: string)
    ensures a == b || StrLess(a, b) || StrLess(b, a)
    decreases |a|
  {
    if |a| > 0 && |b| > 0 && a[0] == b[0] {
      StrLessTotal(a[1..], b[1..]);
      if a[1..] == b[1..] {
        assert a == [a[0]] + a[1..] && b == [b[0]] + b[1..];
      }
    }
  }

  /** The sort key of a champion: its name, or a base stat that reads 0 when missing. */
  predicate KeyLess(a: Champion, b: Champion, sortBy: string) {
    if sortBy == "name" then StrLess(a.name, b.name) else Stat(a, sortBy) < Stat(b, sortBy)
  }

  /** The store's comparator: negative puts a first, positive puts b first, zero keeps their order. */
  function Compare(a: Champion, b: Champion, sortBy: string, asc: bool): int {
    if KeyLess(a, b, sortBy) then (if asc then -1 else 1)
    else if KeyLess(b, a, sortBy) then (if asc then 1 else -1)
    else 0
  }

  /** a may stand before b: its key is not greater (ascending) or not smaller (descending). */
  predicate NotAfter(a: Champion, b: Champion, sortBy: string, asc: bool) {
    if asc then !KeyLess(b, a, sortBy) else !KeyLess(a, b, sortBy)
  }

  lemma KeyLessAsymmetric(a: Champion, b: Champion, sortBy: string)
    ensures KeyLess(a, b, sortBy) ==> !KeyLess(b, a, sortBy)
  {
    StrLessAsymmetric(a.name, b.name);
  }

  /** The comparator allows a before b exactly when a is not after b. */
  lemma CompareNotAfter(a: Champion, b: Champion, sortBy: string, asc: bool)
    ensures Compare(a, b, sortBy, asc) <= 0 <==> NotAfter(a, b, sortBy, asc)
  {
    KeyLessAsymmetric(a, b, sortBy);
    KeyLessAsymmetric(b, a, sortBy);
  }

  /** The comparator is antisymmetric, as a sort requires of it. */
  lemma CompareAntisymmetric(a: Champion, b: Champion, sortBy: string, asc: bool)
    ensures Compare(a, b, sortBy, asc) == -Compare(b, a, sortBy, asc)
  {
    KeyLessAsymmetric(a, b, sortBy);
  }

  /** Any two champions are comparable one way. */
  lemma NotAfterTotal(a: Champion, b: Champion, sortBy: string, asc: bool)
    ensures NotAfter(a, b, sortBy, asc) || NotAfter(b, a, sortBy, asc)
  {
    KeyLessAsymmetric(a, b, sortBy);
  }

  /** "Not after" is transitive, so the comparator is a consistent order. */
  lemma NotAfterTransitive(a: Champion, b: Champion, c: Champion, sortBy: string, asc: bool)
    ensures NotAfter(a, b, sortBy, asc) && NotAfter(b, c, sortBy, asc) ==> NotAfter(a, c, sortBy, asc)
  {
    if sortBy == "name" {
      StrLessTotal(a.name, b.name);
      StrLessTotal(b.name, c.name);
      StrLessTransitive(c.name, b.name, a.name);
      StrLessTransitive(c.name, a.name, b.name);
      StrLessTransitive(b.name, c.name, a.name);
      StrLessTransitive(a.name, c.name, b.name);
      StrLessTransitive(b.name, a.name, c.name);
      StrLessTransitive(a.name, b.name, c.name);
    }
  }

  /** Every earlier champion may stand before every later one. */
  predicate SortedBy(s: seq<Champion>, sortBy: string, asc: bool) {
    forall i, j :: 0 <= i < j < |s| ==> NotAfter(s[i], s[j], sortBy, asc)
  }

  /** What follows the first entry of an ordered list is ordered. */
  lemma SortedTail(s: seq<Champion>, sortBy: string, asc: bool)
    requires s != [] && SortedBy(s, sortBy, asc)
    ensures SortedBy(s[1..], sortBy, asc)
  {
    var tail := s[1..];
    forall i, j | 0 <= i < j < |tail| ensures NotAfter(tail[i], tail[j], sortBy, asc) {
      assert tail[i] == s[i + 1] && tail[j] == s[j + 1];
    }
  }

  /** x placed before the first champion it may precede. */
  function Insert(x: Champion, s: seq<Champion>, sortBy: string, asc: bool): seq<Champion> {
    if s == [] then [x]
    else if Compare(x, s[0], sortBy, asc) <= 0 then [x] + s
    else [s[0]] + Insert(x, s[1..], sortBy, asc)
  }

  /** x that may precede the first champion of an ordered list may precede all of it. */
  lemma InsertFront(x: Champion, s: seq<Champion>, sortBy: string, asc: bool)
    requires s != [] && SortedBy(s, sortBy, asc) && Compare(x, s[0], sortBy, asc) <= 0
    ensures SortedBy([x] + s, sortBy, asc)
  {
    CompareNotAfter(x, s[0], sortBy, asc);
    forall j | 0 <= j < |s| ensures NotAfter(x, s[j], sortBy, asc) {
      NotAfterTransitive(x, s[0], s[j], sortBy, asc);
    }
    var t := [x] + s;
    forall i, j | 0 <= i < j < |t| ensures NotAfter(t[i], t[j], sortBy, asc) {
      if i == 0 {
        assert t[j] == s[j - 1];
      } else {
        assert t[i] == s[i - 1] && t[j] == s[j - 1];
      }
    }
  }

  /** The first champion still leads when x goes, in order, somewhere after it. */
  lemma InsertBehind(x: Champion, s: seq<Champion>, rest: seq<Champion>, sortBy: string, asc: bool)
    requires s != [] && SortedBy(s, sortBy, asc) && Compare(x, s[0], sortBy, asc) > 0
    requires multiset(rest) == multiset(s[1..]) + multiset{x} && SortedBy(rest, sortBy, asc)
    ensures SortedBy([s[0]] + rest, sortBy, asc)
  {
    CompareNotAfter(x, s[0], sortBy, asc);
    NotAfterTotal(x, s[0], sortBy, asc);
    forall j | 0 <= j < |rest| ensures NotAfter(s[0], rest[j], sortBy, asc) {
      assert rest[j] in multiset(rest);
      if rest[j] != x {
        assert rest[j] in multiset(s[1..]);
        var k :| 0 <= k < |s[1..]| && s[1..][k] == rest[j];
        assert s[k + 1] == rest[j];
      }
    }
    var t := [s[0]] + rest;
    forall i, j | 0 <= i < j < |t| ensures NotAfter(t[i], t[j], sortBy, asc) {
      if i == 0 {
        assert t[j] == rest[j - 1];
      } else {
        assert t[i] == rest[i - 1] && t[j] == rest[j - 1];
      }
    }
  }

  /** Inserting into an ordered list adds x to its contents and keeps it ordered. */
  lemma {:induction false} InsertSorted(x: Champion, s: seq<Champion>, sortBy: string, asc: bool)
    requires SortedBy(s, sortBy, asc)
    ensures multiset(Insert(x, s, sortBy, asc)) == multiset(s) + multiset{x}
    ensures SortedBy(Insert(x, s, sortBy, asc), sortBy, asc)
    decreases |s|
  {
    if s == [] {
    } else if Compare(x, s[0], sortBy, asc) <= 0 {
      InsertFront(x, s, sortBy, asc);
      assert Insert(x, s, sortBy, asc) == [x] + s;
    } else {
      SortedTail(s, sortBy, asc);
      InsertSorted(x, s[1..], sortBy, asc);
      var rest := Insert(x, s[1..], sortBy, asc);
      assert Insert(x, s, sortBy, asc) == [s[0]] + rest;
      assert s == [s[0]] + s[1..];
      InsertBehind(x, s, rest, sortBy, asc);
    }
  }

  /** The list ordered with the store's comparator; a champion goes before the later ones it ties with. */
  function SortChampions(s: seq<Champion>, sortBy: string, asc: bool): seq<Champion> {
    if s == [] then [] else Insert(s[0], SortChampions(s[1..], sortBy, asc), sortBy, asc)
  }

  /** The sort is ordered and a permutation of its input. */
  lemma {:induction false} SortChampionsSorted(s: seq<Champion>, sortBy: string, asc: bool)
    ensures multiset(SortChampions(s, sortBy, asc)) == multiset(s)
    ensures SortedBy(SortChampions(s, sortBy, asc), sortBy, asc)
    decreases |s|
  {
    if s != [] {
      SortChampionsSorted(s[1..], sortBy, asc);
      SortStep(s, sortBy, asc);
    }
  }

  /** Sorting the tail and inserting the head keeps both properties. */
  lemma SortStep(s: seq<Champion>, sortBy: string, asc: bool)
    requires s != []
    requires multiset(SortChampions(s[1..], sortBy, asc)) == multiset(s[1..])
    requires SortedBy(SortChampions(s[1..], sortBy, asc), sortBy, asc)
    ensures multiset(SortChampions(s, sortBy, asc)) == multiset(s)
    ensures SortedBy(SortChampions(s, sortBy, asc), sortBy, asc)
  {
    var rest := SortChampions(s[1..], sortBy, asc);
    assert SortChampions(s, sortBy, asc) == Insert(s[0], rest, sortBy, asc);
    InsertSorted(s[0], rest, sortBy, asc);
    assert multiset(s) == multiset(s[1..]) + multiset{s[0]} by {
      assert s == [s[0]] + s[1..];
    }
  }

  /** The list the catalog shows for a role and an ordering. */
  function View(champions: seq<Champion>, role: string, sortBy: string, asc: bool): seq<Champion> {
    SortChampions(FilterByRole(champions, role), sortBy, asc)
  }

  /**
   * The shown list is ordered, and holds each champion of the role as often
   * as the catalog does and nothing else.
   */
  lemma ViewContents(champions: seq<Champion>, role: string, sortBy: string, asc: bool)
    ensures SortedBy(View(champions, role, sortBy, asc), sortBy, asc)
    ensures forall c :: multiset(View(champions, role, sortBy, asc))[c]
                     == if Matches(c, role) then multiset(champions)[c] else 0
  {
    FilterByRoleMultiset(champions, role);
    SortChampionsSorted(FilterByRole(champions, role), sortBy, asc);
  }

  /** The sort leaves an ordered list as it is, ties included. */
  lemma {:induction false} SortSorted(s: seq<Champion>, sortBy: string, asc: bool)
    requires SortedBy(s, sortBy, asc)
    ensures SortChampions(s, sortBy, asc) == s
    decreases |s|
  {
    if s != [] {
      var tail := s[1..];
      assert s == [s[0]] + tail;
      SortedTail(s, sortBy, asc);
      SortSorted(tail, sortBy, asc);
      var sorted := SortChampions(s, sortBy, asc);
      assert sorted == Insert(s[0], tail, sortBy, asc);
      if tail != [] {
        CompareNotAfter(s[0], s[1], sortBy, asc);
      }
    }
  }

  /** Sorting twice is sorting once: sorting the derived list again changes nothing. */
  lemma SortIdempotent(s: seq<Champion>, sortBy: string, asc: bool)
    ensures SortChampions(SortChampions(s, sortBy, asc), sortBy, asc) == SortChampions(s, sortBy, asc)
  {
    SortChampionsSorted(s, sortBy, asc);
    SortSorted(SortChampions(s, sortBy, asc), sortBy, asc);
  }

  /** A list whose every entry matches the role passes the role filter unchanged. */
  lemma {:induction false} FilterAllMatch(s: seq<Champion>, role: string)
    requires forall i :: 0 <= i < |s| ==> Matches(s[i], role)
    ensures FilterByRole(s, role) == s
    decreases |s|
  {
    if role != AllRoles && s != [] {
      assert forall i :: 0 <= i < |s[1..]| ==> s[1..][i] == s[i + 1];
      FilterAllMatch(s[1..], role);
      assert Matches(s[0], role);
      assert s == [s[0]] + s[1..];
    }
  }

  /** Filtering and sorting the shown list again, under the same settings, gives the same list. */
  lemma ViewIdempotent(champions: seq<Champion>, role: string, sortBy: string, asc: bool)
    ensures View(View(champions, role, sortBy, asc), role, sortBy, asc) == View(champions, role, sortBy, asc)
  {
    var v := View(champions, role, sortBy, asc);
    ViewContents(champions, role, sortBy, asc);
    forall i | 0 <= i < |v| ensures Matches(v[i], role) {
      assert v[i] in multiset(v);
    }
    FilterAllMatch(v, role);
    SortSorted(v, sortBy, asc);
  }
}
