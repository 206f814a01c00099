/**
 Lists kept strictly sorted by an integer id, as the controller keeps the editions of a
 work, the works of an author and the series of an author.

 A sorted list is determined by the finite map from ids to elements that it holds
 (`SortedListsAreEqual`), so an update of a list is specified by what it does to that map.
 */
module SortedList {

  /** Identifiers are Go's `int64`. */
  type ID = x: int | -0x8000_0000_0000_0000 <= x < 0x8000_0000_0000_0000

  ghost predicate Sorted<T>(xs: seq<T>, id: T -> ID) {
    forall i, j :: 0 <= i < j < |xs| ==> id(xs[i]) < id(xs[j])
  }

  /** The map from ids to elements that a sorted list holds. */
  ghost function ToMap<T>(xs: seq<T>, id: T -> ID): map<ID, T> {
    if xs == [] then map[]
    else ToMap(xs[..|xs| - 1], id)[id(xs[|xs| - 1]) := xs[|xs| - 1]]
  }

  ghost predicate Keyed<T>(m: map<ID, T>, id: T -> ID) {
    forall k :: k in m ==> id(m[k]) == k
  }

  lemma {:induction false} MapHas<T>(xs: seq<T>, id: T -> ID, i: nat)
    requires Sorted(xs, id) && i < |xs|
    ensures id(xs[i]) in ToMap(xs, id) && ToMap(xs, id)[id(xs[i])] == xs[i]
  {
    if i < |xs| - 1 { MapHas(xs[..|xs| - 1], id, i); }
  }

  lemma {:induction false} MapAt<T>(xs: seq<T>, id: T -> ID, k: ID) returns (i: nat)
    requires k in ToMap(xs, id)
    ensures i < |xs| && id(xs[i]) == k && xs[i] == ToMap(xs, id)[k]
  {
    i := |xs| - 1;
    if id(xs[i]) != k { i := MapAt(xs[..i], id, k); }
  }

  lemma {:induction false} MapIsKeyed<T>(xs: seq<T>, id: T -> ID)
    ensures Keyed(ToMap(xs, id), id)
  {
    forall k | k in ToMap(xs, id)
      ensures id(ToMap(xs, id)[k]) == k
    {
      var i := MapAt(xs, id, k);
    }
  }

  /** Two sorted lists with the same ids have the same length and the same id at each place. */
  lemma {:induction false} SameIdsSamePlaces<T>(xs: seq<T>, ys: seq<T>, id: T -> ID)
    requires Sorted(xs, id) && Sorted(ys, id)
    requires ToMap(xs, id).Keys == ToMap(ys, id).Keys
    ensures |xs| == |ys|
    ensures forall i :: 0 <= i < |xs| ==> id(xs[i]) == id(ys[i])
  {
    var mx, my := ToMap(xs, id), ToMap(ys, id);
    EmptyIffNoKeys(xs, id);
    EmptyIffNoKeys(ys, id);
    if |xs| > 0 {
      // The greatest ids agree, so they can be dropped from both lists.
      var n, k := |xs| - 1, |ys| - 1;
      var x, y := id(xs[n]), id(ys[k]);
      assert x in mx.Keys && y in my.Keys;
      var i := MapAt(ys, id, x);
      var j := MapAt(xs, id, y);
      assert x == y;
      FrontLacksLast(xs, id);
      FrontLacksLast(ys, id);
      assert ToMap(xs[..n], id).Keys == mx.Keys - {x};
      assert ToMap(ys[..k], id).Keys == my.Keys - {y};
      SameIdsSamePlaces(xs[..n], ys[..k], id);
      forall i | 0 <= i < n
        ensures id(xs[i]) == id(ys[i])
      {
        assert id(xs[..n][i]) == id(ys[..k][i]);
      }
    }
  }

  lemma {:induction false} EmptyIffNoKeys<T>(xs: seq<T>, id: T -> ID)
    ensures |xs| == 0 <==> ToMap(xs, id).Keys == {}
  {
    if |xs| > 0 { assert id(xs[|xs| - 1]) in ToMap(xs, id).Keys; }
  }

  lemma FrontLacksLast<T>(xs: seq<T>, id: T -> ID)
    requires Sorted(xs, id) && |xs| > 0
    ensures id(xs[|xs| - 1]) !in ToMap(xs[..|xs| - 1], id)
  {
    if id(xs[|xs| - 1]) in ToMap(xs[..|xs| - 1], id) {
      var i := MapAt(xs[..|xs| - 1], id, id(xs[|xs| - 1]));
    }
  }

  /** A sorted list is determined by the map it holds. */
  lemma {:induction false} SortedListsAreEqual<T>(xs: seq<T>, ys: seq<T>, id: T -> ID)
    requires Sorted(xs, id) && Sorted(ys, id)
    requires ToMap(xs, id) == ToMap(ys, id)
    ensures xs == ys
  {
    SameIdsSamePlaces(xs, ys, id);
    forall i | 0 <= i < |xs|
      ensures xs[i] == ys[i]
    {
      MapHas(xs, id, i);
      MapHas(ys, id, i);
    }
  }

  ghost function LeastKey<T>(m: map<ID, T>): (k: ID)
    requires |m| > 0
    ensures k in m
    ensures forall j :: j in m ==> k <= j
    decreases |m|
  {
    assert exists i :: i in m.Keys;
    var i :| i in m;
    var rest := m - {i};
    WithoutKeyIsSmaller(m, i);
    assert forall j :: j in m ==> j == i || j in rest;
    if |rest| == 0 then i
    else if i < LeastKey(rest) then i else LeastKey(rest)
  }

  /** The sorted list that holds a given map. */
  ghost function FromMap<T>(m: map<ID, T>, id: T -> ID): (xs: seq<T>)
    requires Keyed(m, id)
    ensures Sorted(xs, id)
    ensures ToMap(xs, id) == m
    decreases |m|
  {
    if |m| == 0 then
      []
    else
      var k := LeastKey(m);
      WithoutKeyIsSmaller(m, k);
      var tail := FromMap(m - {k}, id);
      ConsHolds(m, k, tail, id);
      [m[k]] + tail
  }

  lemma WithoutKeyIsSmaller<T>(m: map<ID, T>, k: ID)
    requires k in m
    ensures |m - {k}| < |m|
  {
    var rest := m - {k};
    assert m.Keys == rest.Keys + {k};
    assert |m.Keys| == |rest.Keys| + 1;
  }

  lemma {:induction false} ConsHolds<T>(m: map<ID, T>, k: ID, tail: seq<T>, id: T -> ID)
    requires Keyed(m, id) && k in m && forall j :: j in m ==> k <= j
    requires Sorted(tail, id) && ToMap(tail, id) == m - {k}
    ensures Sorted([m[k]] + tail, id)
    ensures ToMap([m[k]] + tail, id) == m
  {
    forall i | 0 <= i < |tail|
      ensures id(tail[i]) > k
    {
      MapHas(tail, id, i);
    }
    ConsMap(m[k], tail, id);
    assert m == map[k := m[k]] + (m - {k});
  }

  lemma {:induction false} ConsMap<T>(x: T, tail: seq<T>, id: T -> ID)
    ensures ToMap([x] + tail, id) == map[id(x) := x] + ToMap(tail, id)
  {
    var xs := [x] + tail;
    if tail == [] {
      assert xs[..|xs| - 1] == [];
    } else {
      var n := |tail| - 1;
      assert xs[..|xs| - 1] == [x] + tail[..n];
      ConsMap(x, tail[..n], id);
    }
  }

  /** The sorted list that results when every element of `s` replaces or joins the elements of `xs`. */
  ghost function Merge<T>(xs: seq<T>, s: map<ID, T>, id: T -> ID): (ys: seq<T>)
    requires Sorted(xs, id) && Keyed(s, id)
    ensures Sorted(ys, id)
    ensures ToMap(ys, id) == ToMap(xs, id) + s
  {
    assert Keyed(ToMap(xs, id) + s, id) by { MapIsKeyed(xs, id); }
    FromMap(ToMap(xs, id) + s, id)
  }

  lemma UnionIsAssociative<T>(m: map<ID, T>, s1: map<ID, T>, s2: map<ID, T>)
    ensures m + (s1 + s2) == (m + s1) + s2
  {
  }

  /** Merging twice is merging once with the union, later elements winning. */
  lemma MergeTwice<T>(xs: seq<T>, s1: map<ID, T>, s2: map<ID, T>, id: T -> ID)
    requires Sorted(xs, id) && Keyed(s1, id) && Keyed(s2, id)
    ensures Keyed(s1 + s2, id)
    ensures Merge(Merge(xs, s1, id), s2, id) == Merge(xs, s1 + s2, id)
  {
    UnionIsAssociative(ToMap(xs, id), s1, s2);
  }

  /** Merging elements that the list already holds changes nothing. */
  lemma {:induction false} MergeAbsorbs<T>(xs: seq<T>, s: map<ID, T>, id: T -> ID)
    requires Sorted(xs, id) && Keyed(s, id)
    requires forall k :: k in s ==> k in ToMap(xs, id) && ToMap(xs, id)[k] == s[k]
    ensures Merge(xs, s, id) == xs
  {
    assert ToMap(xs, id) + s == ToMap(xs, id);
    SortedListsAreEqual(Merge(xs, s, id), xs, id);
  }

  /** And only then. */
  lemma {:induction false} MergeAbsorbsOnly<T>(xs: seq<T>, s: map<ID, T>, id: T -> ID, k: ID)
    requires Sorted(xs, id) && Keyed(s, id)
    requires Merge(xs, s, id) == xs && k in s
    ensures k in ToMap(xs, id) && ToMap(xs, id)[k] == s[k]
  {
    assert (ToMap(xs, id) + s)[k] == s[k];
  }

  // ---------------------------------------------------------------------------------------
  // Collections of fetched elements
  // ---------------------------------------------------------------------------------------

  /** Elements with equal ids are equal. */
  ghost predicate UniqueIds<T>(items: set<T>, id: T -> ID) {
    forall x, y :: x in items && y in items && id(x) == id(y) ==> x == y
  }

  /** `s` holds, for each id that occurs in `items`, one element of `items` with that id. */
  ghost predicate Selects<T>(s: map<ID, T>, items: set<T>, id: T -> ID) {
    && (forall k :: k in s ==> s[k] in items && id(s[k]) == k)
    && (forall x :: x in items ==> id(x) in s)
  }

  ghost function Ids<T>(items: set<T>, id: T -> ID): set<ID> {
    set x | x in items :: id(x)
  }

  lemma SelectedIds<T>(s: map<ID, T>, items: set<T>, id: T -> ID)
    requires Selects(s, items, id)
    ensures s.Keys == Ids(items, id)
  {
    forall k | k in s.Keys
      ensures k in Ids(items, id)
    {
      assert s[k] in items && id(s[k]) == k;
    }
  }

  /** The one selection there is when ids are unique. */
  ghost function Index<T>(items: set<T>, id: T -> ID): (s: map<ID, T>)
    requires UniqueIds(items, id)
    ensures Selects(s, items, id)
    ensures Keyed(s, id)
    ensures forall x :: x in items ==> s[id(x)] == x
  {
    map x | x in items :: id(x) := x
  }

  lemma SelectionIsIndex<T>(s: map<ID, T>, items: set<T>, id: T -> ID)
    requires UniqueIds(items, id) && Selects(s, items, id)
    ensures s == Index(items, id)
  {
    var t := Index(items, id);
    forall k | k in t
      ensures k in s
    {
      assert t[k] in items;
    }
  }

  lemma IndexOfUnion<T>(a: set<T>, b: set<T>, id: T -> ID)
    requires UniqueIds(a + b, id)
    ensures UniqueIds(a, id) && UniqueIds(b, id)
    ensures Index(a + b, id) == Index(a, id) + Index(b, id)
  {
    var i, s := Index(a + b, id), Index(a, id) + Index(b, id);
    forall k | k in i
      ensures k in s
    {
      assert i[k] in a + b;
    }
    assert i.Keys == s.Keys;
  }

  // ---------------------------------------------------------------------------------------
  // Upserting one element after another
  // ---------------------------------------------------------------------------------------

  /** What a loop of upserts over `items` does to the map a list holds. */
  ghost function PutAll<T>(m: map<ID, T>, items: seq<T>, id: T -> ID): map<ID, T> {
    if items == [] then m
    else PutAll(m, items[..|items| - 1], id)[id(items[|items| - 1]) := items[|items| - 1]]
  }

  ghost function Elements<T>(xs: seq<T>): set<T> {
    set x | x in xs
  }

  /** Whatever the order of the loop, the outcome merges one selection of the items. */
  lemma {:induction false} PutAllMergesASelection<T>(m: map<ID, T>, items: seq<T>, id: T -> ID) returns (s: map<ID, T>)
    ensures Selects(s, Elements(items), id)
    ensures PutAll(m, items, id) == m + s
  {
    if items == [] {
      s := map[];
    } else {
      var n := |items| - 1;
      var x := items[n];
      var s' := PutAllMergesASelection(m, items[..n], id);
      s := s'[id(x) := x];
      assert Elements(items) == Elements(items[..n]) + {x};
    }
  }

  lemma {:induction false} Enumerate<T>(items: set<T>) returns (xs: seq<T>)
    ensures Elements(xs) == items
    decreases |items|
  {
    if items == {} {
      xs := [];
    } else {
      var x :| x in items;
      var rest := Enumerate(items - {x});
      xs := rest + [x];
      assert Elements(xs) == Elements(rest) + {x};
    }
  }

  /**
   The order in which a child set is walked is irrelevant exactly when no two fetched
   elements share an id while differing: with a clash, the element upserted last wins.
   */
  lemma OrderIsIrrelevantIffIdsAreUnique<T(!new)>(m: map<ID, T>, items: set<T>, id: T -> ID)
    ensures UniqueIds(items, id) <==>
            forall xs, ys :: Elements(xs) == items && Elements(ys) == items ==>
                             PutAll(m, xs, id) == PutAll(m, ys, id)
  {
    if UniqueIds(items, id) {
      forall xs, ys | Elements(xs) == items && Elements(ys) == items
        ensures PutAll(m, xs, id) == PutAll(m, ys, id)
      {
        var s := PutAllMergesASelection(m, xs, id);
        var t := PutAllMergesASelection(m, ys, id);
        SelectionIsIndex(s, items, id);
        SelectionIsIndex(t, items, id);
      }
    } else {
      var x, y :| x in items && y in items && id(x) == id(y) && x != y;
      var xs, ys := EndWith(items, x), EndWith(items, y);
      assert PutAll(m, xs, id)[id(x)] == x;
      assert PutAll(m, ys, id)[id(x)] == y;
    }
  }

  ghost function EndWith<T(!new)>(items: set<T>, x: T): (xs: seq<T>)
    requires x in items
    ensures Elements(xs) == items && |xs| > 0 && xs[|xs| - 1] == x
  {
    assert exists r: seq<T> :: Elements(r) == items - {x} by { var r := Enumerate(items - {x}); }
    var r: seq<T> :| Elements(r) == items - {x};
    assert Elements(r + [x]) == Elements(r) + {x};
    r + [x]
  }

  /** The binary search the loops use: the first place whose id is not below the target. */
  method BinarySearch<T>(xs: seq<T>, target: ID, id: T -> ID) returns (idx: nat, found: bool)
    requires Sorted(xs, id)
    ensures idx <= |xs|
    ensures forall k :: 0 <= k < idx ==> id(xs[k]) < target
    ensures forall k :: idx <= k < |xs| ==> target <= id(xs[k])
    ensures found <==> exists k :: 0 <= k < |xs| && id(xs[k]) == target
    ensures found ==> idx < |xs| && id(xs[idx]) == target
  {
    var i, j := 0, |xs|;
    while i < j
      invariant 0 <= i <= j <= |xs|
      invariant forall k :: 0 <= k < i ==> id(xs[k]) < target
      invariant forall k :: j <= k < |xs| ==> target <= id(xs[k])
    {
      var h := (i + j) / 2;
      if id(xs[h]) < target {
        i := h + 1;
      } else {
        j := h;
      }
    }
    idx := i;
    found := i < |xs| && id(xs[i]) == target;
  }

  /** Replace the element with the id of `x` in place, or insert `x` at its sorted place. */
  method Upsert<T>(xs: seq<T>, x: T, id: T -> ID) returns (ys: seq<T>)
    requires Sorted(xs, id)
    ensures Sorted(ys, id)
    ensures ToMap(ys, id) == ToMap(xs, id)[id(x) := x]
  {
    var idx, found := BinarySearch(xs, id(x), id);
    if found {
      ys := xs[idx := x];
    } else {
      ys := xs[..idx] + [x] + xs[idx..];
    }
    UpsertHolds(xs, x, id, idx, found, ys);
  }

  lemma {:induction false} UpsertHolds<T>(xs: seq<T>, x: T, id: T -> ID, idx: nat, found: bool, ys: seq<T>)
    requires Sorted(xs, id) && idx <= |xs|
    requires forall k :: 0 <= k < idx ==> id(xs[k]) < id(x)
    requires forall k :: idx <= k < |xs| ==> id(x) <= id(xs[k])
    requires found <==> exists k :: 0 <= k < |xs| && id(xs[k]) == id(x)
    requires found ==> idx < |xs| && id(xs[idx]) == id(x)
    requires ys == if found then xs[idx := x] else xs[..idx] + [x] + xs[idx..]
    ensures Sorted(ys, id)
    ensures ToMap(ys, id) == ToMap(xs, id)[id(x) := x]
  {
    var rest := idx + if found then 1 else 0;
    assert Spliced(xs, x, idx, rest, ys);
    assert forall k :: rest <= k < |xs| ==> id(x) < id(xs[k]);
    SplicedIsSorted(xs, x, id, idx, rest, ys);
    SplicedMap(xs, x, id, idx, rest, ys);
  }

  /** `ys` is `xs` with the elements from `idx` up to `rest` replaced by `x`. */
  ghost predicate Spliced<T>(xs: seq<T>, x: T, idx: nat, rest: nat, ys: seq<T>) {
    && idx <= rest <= |xs|
    && |ys| == idx + 1 + |xs| - rest
    && ys[idx] == x
    && (forall i :: 0 <= i < idx ==> ys[i] == xs[i])
    && (forall i :: idx < i < |ys| ==> ys[i] == xs[i - idx - 1 + rest])
  }

  lemma SplicedIsSorted<T>(xs: seq<T>, x: T, id: T -> ID, idx: nat, rest: nat, ys: seq<T>)
    requires Sorted(xs, id) && Spliced(xs, x, idx, rest, ys)
    requires forall k :: 0 <= k < idx ==> id(xs[k]) < id(x)
    requires forall k :: rest <= k < |xs| ==> id(x) < id(xs[k])
    ensures Sorted(ys, id)
  {
  }

  lemma {:induction false} SplicedMap<T>(xs: seq<T>, x: T, id: T -> ID, idx: nat, rest: nat, ys: seq<T>)
    requires Sorted(xs, id) && Spliced(xs, x, idx, rest, ys) && Sorted(ys, id)
    requires forall k :: idx <= k < rest ==> id(xs[k]) == id(x)
    ensures ToMap(ys, id) == ToMap(xs, id)[id(x) := x]
  {
    var mx, my := ToMap(xs, id)[id(x) := x], ToMap(ys, id);
    forall k | k in mx
      ensures k in my && my[k] == mx[k]
    {
      if k == id(x) {
        MapHas(ys, id, idx);
      } else {
        var i := MapAt(xs, id, k);
        var j := if i < idx then i else i - rest + idx + 1;
        assert ys[j] == xs[i];
        MapHas(ys, id, j);
      }
    }
    forall k | k in my
      ensures k in mx
    {
      var i := MapAt(ys, id, k);
      if i != idx { MapHas(xs, id, if i < idx then i else i - idx - 1 + rest); }
    }
  }
}
