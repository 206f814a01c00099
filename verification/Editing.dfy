/**
 What upserting editions makes of a work: the outcome does not depend on the order, batches of
 editions add up, and a work that has changed stays changed.
 */
module Editing {
  import opened Collections
  import opened Options
  import opened SortedList
  import opened Resources
  import opened AuthorPass
  import opened Pipeline

  /** Looked-up editions with the same id are the same. */
  ghost predicate CoherentBooks(up: Upstream) {
    forall b, c ::
      (up.book(b).Some? && |up.book(b).value.books| == 1 && up.book(c).Some? && |up.book(c).value.books| == 1
       && up.book(b).value.books[0].foreignID == up.book(c).value.books[0].foreignID)
      ==> up.book(b).value.books[0] == up.book(c).value.books[0]
  }

  /** An edition the work already has is the one a lookup with that id yields. */
  ghost predicate KnownBooks(up: Upstream, work: Work) {
    forall i, b ::
      (0 <= i < |work.books| && BookOf(up, b).Some? && BookOf(up, b).value.foreignID == work.books[i].foreignID)
      ==> BookOf(up, b).value == work.books[i]
  }

  lemma FetchedAreUnique(up: Upstream, ids: set<ID>)
    requires CoherentBooks(up)
    ensures UniqueIds(FetchedBooks(up, ids), BookID)
  {
    forall x, y | x in FetchedBooks(up, ids) && y in FetchedBooks(up, ids) && BookID(x) == BookID(y)
      ensures x == y
    {
      var b :| b in ids && BookOf(up, b) == Some(x);
      var c :| c in ids && BookOf(up, c) == Some(y);
      assert BookOf(up, b).value.foreignID == BookOf(up, c).value.foreignID;
    }
  }

  /** The one outcome of upserting the editions `ids`, in any order. */
  ghost function Edited(up: Upstream, work: Work, ids: set<ID>): Work
    requires CoherentBooks(up) && Sorted(work.books, BookID)
  {
    FetchedAreUnique(up, ids);
    work.(books := Merge(work.books, Index(FetchedBooks(up, ids), BookID), BookID))
  }

  lemma EditedIsUnique(up: Upstream, work: Work, ids: set<ID>, edited: Work)
    requires CoherentBooks(up) && IsEdited(up, work, ids, edited)
    ensures edited == Edited(up, work, ids)
  {
    FetchedAreUnique(up, ids);
    var s: map<ID, Book> :|
        Selects(s, FetchedBooks(up, ids), BookID) && edited == work.(books := Merge(work.books, s, BookID));
    SelectionIsIndex(s, FetchedBooks(up, ids), BookID);
  }

  lemma FetchedUnion(up: Upstream, a: set<ID>, b: set<ID>)
    requires CoherentBooks(up)
    ensures UniqueIds(FetchedBooks(up, a), BookID) && UniqueIds(FetchedBooks(up, b), BookID)
    ensures UniqueIds(FetchedBooks(up, a + b), BookID)
    ensures Index(FetchedBooks(up, a + b), BookID) ==
              Index(FetchedBooks(up, a), BookID) + Index(FetchedBooks(up, b), BookID)
  {
    assert FetchedBooks(up, a + b) == FetchedBooks(up, a) + FetchedBooks(up, b);
    FetchedAreUnique(up, a + b);
    IndexOfUnion(FetchedBooks(up, a), FetchedBooks(up, b), BookID);
  }

  /** Upserting one batch of editions and then another is upserting their union. */
  lemma EditingTwice(up: Upstream, work: Work, a: set<ID>, b: set<ID>)
    requires CoherentBooks(up) && Sorted(work.books, BookID)
    ensures Sorted(Edited(up, work, a).books, BookID)
    ensures Edited(up, Edited(up, work, a), b) == Edited(up, work, a + b)
  {
    FetchedUnion(up, a, b);
    MergeTwice(work.books, Index(FetchedBooks(up, a), BookID), Index(FetchedBooks(up, b), BookID), BookID);
  }

  lemma EditingNothing(up: Upstream, work: Work)
    requires CoherentBooks(up) && Sorted(work.books, BookID)
    ensures Edited(up, work, {}) == work
  {
    assert FetchedBooks(up, {}) == {};
    MergeAbsorbs(work.books, Index({}, BookID), BookID);
  }

  /** Repeating an upsert changes nothing, so the write is skipped. */
  lemma EditingAgain(up: Upstream, work: Work, ids: set<ID>)
    requires CoherentBooks(up) && Sorted(work.books, BookID)
    ensures Sorted(Edited(up, work, ids).books, BookID)
    ensures Edited(up, Edited(up, work, ids), ids) == Edited(up, work, ids)
  {
    EditingTwice(up, work, ids, ids);
    assert ids + ids == ids;
  }

  lemma MergeStaysDifferent(books: seq<Book>, ia: map<ID, Book>, iab: map<ID, Book>)
    requires Sorted(books, BookID) && Keyed(ia, BookID) && Keyed(iab, BookID)
    requires forall k :: k in ia ==> k in iab && ia[k] == iab[k]
    requires Merge(books, ia, BookID) != books
    ensures Merge(books, iab, BookID) != books
  {
    if Merge(books, iab, BookID) == books {
      forall k | k in ia
        ensures k in ToMap(books, BookID) && ToMap(books, BookID)[k] == ia[k]
      {
        MergeAbsorbsOnly(books, iab, BookID, k);
      }
      MergeAbsorbs(books, ia, BookID);
    }
  }

  lemma FetchedAgree(up: Upstream, a: set<ID>, b: set<ID>, k: ID)
    requires CoherentBooks(up)
    requires UniqueIds(FetchedBooks(up, a), BookID) && UniqueIds(FetchedBooks(up, b), BookID)
    requires k in Index(FetchedBooks(up, a), BookID) && k in Index(FetchedBooks(up, b), BookID)
    ensures Index(FetchedBooks(up, a), BookID)[k] == Index(FetchedBooks(up, b), BookID)[k]
  {
    var x, y := Index(FetchedBooks(up, a), BookID)[k], Index(FetchedBooks(up, b), BookID)[k];
    var i :| i in a && BookOf(up, i) == Some(x);
    var j :| j in b && BookOf(up, j) == Some(y);
    assert BookOf(up, i).value.foreignID == BookOf(up, j).value.foreignID;
  }

  /** A work that was changed by an upsert stays different from what it was. */
  lemma ChangePersists(up: Upstream, work: Work, a: set<ID>, b: set<ID>)
    requires CoherentBooks(up) && Sorted(work.books, BookID)
    requires Edited(up, work, a) != work
    ensures Edited(up, work, a + b) != work
  {
    FetchedUnion(up, a, b);
    var fa, fb := FetchedBooks(up, a), FetchedBooks(up, b);
    var ia, ib := Index(fa, BookID), Index(fb, BookID);
    forall k | k in ia && k in ib
      ensures ia[k] == ib[k]
    {
      FetchedAgree(up, a, b, k);
    }
    MergeStaysDifferent(work.books, ia, ia + ib);
  }

  /** A newer copy of a work: the same work, never less rated, never emptied of editions. */
  ghost predicate Supersedes(newer: Work, older: Work) {
    && newer == older.(books := newer.books)
    && (WorkRatings(newer).0 == 0 ==> WorkRatings(older).0 == 0)
    && (older.books != [] ==> newer.books != [])
  }

  lemma KnownBookStays(up: Upstream, work: Work, ids: set<ID>, i: nat)
    requires CoherentBooks(up) && Sorted(work.books, BookID) && KnownBooks(up, work) && i < |work.books|
    ensures work.books[i] in Edited(up, work, ids).books
  {
    FetchedAreUnique(up, ids);
    var fetched := FetchedBooks(up, ids);
    var edited, batch, k := Edited(up, work, ids), Index(fetched, BookID), work.books[i].foreignID;
    MapHas(work.books, BookID, i);
    if k in batch {
      assert batch[k] in fetched;
      var b :| b in ids && BookOf(up, b) == Some(batch[k]);
      assert BookOf(up, b).value.foreignID == work.books[i].foreignID;
    }
    var j := MapAt(edited.books, BookID, k);
    assert edited.books[j] == work.books[i];
  }

  /** An edited work supersedes the work it was made from. */
  lemma EditedSupersedes(up: Upstream, work: Work, ids: set<ID>)
    requires CoherentBooks(up) && Sorted(work.books, BookID) && KnownBooks(up, work)
    ensures Supersedes(Edited(up, work, ids), work)
  {
    var edited := Edited(up, work, ids);
    EditedKeepsIdentity(up, work, ids);
    NeverEmptied(up, work, ids);
    forall i | 0 <= i < |work.books|
      ensures work.books[i] in edited.books
    {
      KnownBookStays(up, work, ids, i);
    }
    NoBookRatings(work.books);
    NoBookRatings(edited.books);
  }

  lemma SameLookup(up: Upstream, b: ID, c: ID)
    requires CoherentBooks(up) && BookOf(up, b).Some? && BookOf(up, c).Some?
    requires BookOf(up, b).value.foreignID == BookOf(up, c).value.foreignID
    ensures BookOf(up, b) == BookOf(up, c)
  {
  }

  lemma EntryIsKnown(up: Upstream, work: Work, ids: set<ID>, i: nat, b: ID)
    requires CoherentBooks(up) && Sorted(work.books, BookID) && KnownBooks(up, work)
    requires i < |Edited(up, work, ids).books| && BookOf(up, b).Some?
    requires BookOf(up, b).value.foreignID == Edited(up, work, ids).books[i].foreignID
    ensures BookOf(up, b).value == Edited(up, work, ids).books[i]
  {
    FetchedAreUnique(up, ids);
    var fetched := FetchedBooks(up, ids);
    var edited, batch := Edited(up, work, ids), Index(fetched, BookID);
    MapHas(edited.books, BookID, i);
    var k := edited.books[i].foreignID;
    if k in batch {
      assert batch[k] in fetched;
      var c :| c in ids && BookOf(up, c) == Some(batch[k]);
      SameLookup(up, b, c);
    } else {
      var j := MapAt(work.books, BookID, k);
    }
  }

  lemma EditedIsKnown(up: Upstream, work: Work, ids: set<ID>)
    requires CoherentBooks(up) && Sorted(work.books, BookID) && KnownBooks(up, work)
    ensures KnownBooks(up, Edited(up, work, ids))
  {
    var edited := Edited(up, work, ids);
    forall i, b |
      0 <= i < |edited.books| && BookOf(up, b).Some? && BookOf(up, b).value.foreignID == edited.books[i].foreignID
      ensures BookOf(up, b).value == edited.books[i]
    {
      EntryIsKnown(up, work, ids, i, b);
    }
  }

  lemma EditedKeepsIdentity(up: Upstream, work: Work, ids: set<ID>)
    requires CoherentBooks(up) && Sorted(work.books, BookID)
    ensures Edited(up, work, ids) == work.(books := Edited(up, work, ids).books)
  {
  }

  // ---------------------------------------------------------------------------------------
  // Versions of a work
  // ---------------------------------------------------------------------------------------

  /** The work with some of the editions `ids` upserted. */
  ghost predicate IsVersion(up: Upstream, work: Work, ids: set<ID>, x: Work)
    requires CoherentBooks(up) && Sorted(work.books, BookID)
  {
    exists some :: some <= ids && x == Edited(up, work, some)
  }

  lemma EditedIsVersion(up: Upstream, work: Work, ids: set<ID>)
    requires CoherentBooks(up) && Sorted(work.books, BookID)
    ensures IsVersion(up, work, ids, Edited(up, work, ids))
  {
    assert ids <= ids;
  }

  lemma VersionOfMore(up: Upstream, work: Work, ids: set<ID>, more: set<ID>, x: Work)
    requires CoherentBooks(up) && Sorted(work.books, BookID)
    requires IsVersion(up, work, ids, x) && ids <= more
    ensures IsVersion(up, work, more, x)
  {
    var some :| some <= ids && x == Edited(up, work, some);
    assert some <= more;
  }

  lemma NeverEmptied(up: Upstream, work: Work, ids: set<ID>)
    requires CoherentBooks(up) && Sorted(work.books, BookID)
    ensures work.books != [] ==> Edited(up, work, ids).books != []
  {
    FetchedAreUnique(up, ids);
    EmptyIffNoKeys(work.books, BookID);
    EmptyIffNoKeys(Edited(up, work, ids).books, BookID);
  }

  /** A version is on the way to what all editions make of the work. */
  lemma VersionLeadsOn(up: Upstream, work: Work, ids: set<ID>, x: Work) returns (some: set<ID>)
    requires CoherentBooks(up) && Sorted(work.books, BookID) && IsVersion(up, work, ids, x)
    ensures some <= ids && x == Edited(up, work, some)
    ensures Sorted(x.books, BookID) && Edited(up, x, ids) == Edited(up, work, ids)
  {
    some :| some <= ids && x == Edited(up, work, some);
    EditingMore(up, work, some, ids);
  }

  lemma EditingMore(up: Upstream, work: Work, some: set<ID>, ids: set<ID>)
    requires CoherentBooks(up) && Sorted(work.books, BookID) && some <= ids
    ensures Sorted(Edited(up, work, some).books, BookID)
    ensures Edited(up, Edited(up, work, some), ids) == Edited(up, work, ids)
  {
    UnionOfSubset(some, ids);
    EditingTwice(up, work, some, ids);
  }

  /** What all editions make of a work is never emptier than what some make of it. */
  lemma VersionNotEmptier(up: Upstream, work: Work, ids: set<ID>, x: Work)
    requires CoherentBooks(up) && Sorted(work.books, BookID) && IsVersion(up, work, ids, x)
    ensures x.foreignID == work.foreignID
    ensures x.books != [] ==> Edited(up, work, ids).books != []
  {
    var some := VersionLeadsOn(up, work, ids, x);
    EditedKeepsIdentity(up, work, some);
    NeverEmptied(up, x, ids);
  }

  /** Nor ever less rated. */
  lemma VersionNotMoreRated(up: Upstream, work: Work, ids: set<ID>, x: Work)
    requires CoherentBooks(up) && Sorted(work.books, BookID) && KnownBooks(up, work) && IsVersion(up, work, ids, x)
    ensures WorkRatings(Edited(up, work, ids)).0 == 0 ==> WorkRatings(x).0 == 0
  {
    var some := VersionLeadsOn(up, work, ids, x);
    EditedIsKnown(up, work, some);
    EditedSupersedes(up, x, ids);
  }
}
