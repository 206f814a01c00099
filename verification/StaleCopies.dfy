/**
 Runs on which copies go stale, and runs that disagree: a load that announces nothing, and a work
 that is cached under two ids.
 */
module StaleCopies {
  import opened Collections
  import opened Options
  import opened SortedList
  import opened Resources
  import opened AuthorPass
  import opened Edges
  import opened Pipeline
  import opened Editing
  import opened Freshness
  import opened Histories
  import opened Rest
  import opened Runs
  import opened Confluence

  ghost const FIRST_EDITION := Book(10, "", "", 0, 0, 0)
  ghost const SECOND_EDITION := Book(20, "", "", 0, 0, 0)
  ghost const SMALL_WORK := Work(1, "T", "T", "T", [FIRST_EDITION], [], [5], 0, 0, 0)
  ghost const LARGE_WORK := SMALL_WORK.(books := [FIRST_EDITION, SECOND_EDITION])
  ghost const OWNER := Author(5, [], [], 0, 0.0, 0)

  /** The lookups know one edition. */
  ghost function Knows(b: Book): Upstream {
    Upstream((id: ID) => if id == b.foreignID then Some(SMALL_WORK.(books := [b])) else None,
             (id: ID) => None,
             (t: string) => t)
  }

  lemma KnowsIsCoherent(b: Book)
    ensures CoherentBooks(Knows(b))
    ensures forall id :: BookOf(Knows(b), id) == if id == b.foreignID then Some(b) else None
  {
  }

  lemma FetchedKnown(b: Book, ids: set<ID>)
    requires b.foreignID in ids
    ensures FetchedBooks(Knows(b), ids) == {b}
  {
    assert BookOf(Knows(b), b.foreignID) == Some(b);
  }

  lemma BooksAreSorted()
    ensures Sorted(SMALL_WORK.books, BookID) && Sorted(LARGE_WORK.books, BookID)
    ensures ToMap(SMALL_WORK.books, BookID) == map[10 := FIRST_EDITION]
    ensures ToMap(LARGE_WORK.books, BookID) == map[10 := FIRST_EDITION, 20 := SECOND_EDITION]
  {
    assert SMALL_WORK.books[..0] == [];
    assert LARGE_WORK.books[..1] == SMALL_WORK.books;
  }

  lemma WithKnown(b: Book, work: Work, ids: set<ID>, edited: Work)
    requires b.foreignID in ids && Sorted(work.books, BookID) && Sorted(edited.books, BookID)
    requires edited == work.(books := edited.books)
    requires ToMap(edited.books, BookID) == ToMap(work.books, BookID) + map[b.foreignID := b]
    ensures CoherentBooks(Knows(b)) && Edited(Knows(b), work, ids) == edited
  {
    KnowsIsCoherent(b);
    FetchedKnown(b, ids);
    var sel: map<ID, Book> := map[b.foreignID := b];
    assert Selects(sel, FetchedBooks(Knows(b), ids), BookID);
    SortedListsAreEqual(edited.books, Merge(work.books, sel, BookID), BookID);
    assert IsEdited(Knows(b), work, ids, work.(books := Merge(work.books, sel, BookID)));
    EditedIsUnique(Knows(b), work, ids, edited);
  }

  lemma WithoutKnown(b: Book, work: Work, ids: set<ID>)
    requires b.foreignID !in ids && Sorted(work.books, BookID)
    ensures CoherentBooks(Knows(b)) && Edited(Knows(b), work, ids) == work
  {
    KnowsIsCoherent(b);
    assert FetchedBooks(Knows(b), ids) == {};
    FetchedAreUnique(Knows(b), ids);
    MergeAbsorbs(work.books, Index({}, BookID), BookID);
  }

  lemma SizesDiffer()
    ensures !SameUpToTitles(SMALL_WORK, LARGE_WORK)
  {
    assert |StripTitles(LARGE_WORK).books| == 2 && |StripTitles(SMALL_WORK).books| == 1;
  }

  lemma EmbedsOnly(work: Work, x: Work)
    ensures Embeds(OWNER.(works := [work]), x) <==> SameUpToTitles(work, x)
  {
    assert OWNER.(works := [work]).works[0] == work;
  }

  // ---------------------------------------------------------------------------------------
  // A load that announces nothing
  // ---------------------------------------------------------------------------------------

  /** A work with two editions, embedded by its author. */
  ghost function Embedded(): State {
    State(map[1 := LARGE_WORK], map[5 := OWNER.(works := [LARGE_WORK])], [], [])
  }

  /** The work lapsed and is loaded from its first edition, which was still cached, so that no author is named. */
  ghost const SILENT := Load(1, SMALL_WORK, 0)

  ghost function Reloaded(): State {
    Embedded().(works := map[1 := SMALL_WORK], inFlight := LoadEdges(Knows(FIRST_EDITION), Embedded().works, 1, 0))
  }

  lemma EmbeddedIsFresh()
    ensures FreshState(Embedded()) && Fresh(Embedded()) && Quiescent(Embedded()) && Canonical(Embedded().works)
  {
    BooksAreSorted();
    EmbedsOnly(LARGE_WORK, LARGE_WORK);
    AgreeingIsCovered(Embedded());
  }

  lemma SilentIsSound()
    ensures SoundLoad(Embedded(), SILENT) && Step(Knows(FIRST_EDITION), Embedded(), SILENT, Reloaded())
    ensures SortedState(Reloaded()) && Alone(Reloaded().works, 1)
  {
    BooksAreSorted();
    assert Embedded().works[1 := SMALL_WORK] == map[1 := SMALL_WORK];
    assert Embedded().inFlight + LoadEdges(Knows(FIRST_EDITION), Embedded().works, 1, 0) ==
             LoadEdges(Knows(FIRST_EDITION), Embedded().works, 1, 0);
  }

  /** The edition that can be loaded is put back, which changes nothing. */
  lemma NothingToAdd()
    ensures CoherentBooks(Knows(FIRST_EDITION))
    ensures Edited(Knows(FIRST_EDITION), SMALL_WORK, ToLoad(Knows(FIRST_EDITION), Embedded(), {}, 1)) == SMALL_WORK
  {
    var up, ids := Knows(FIRST_EDITION), ToLoad(Knows(FIRST_EDITION), Embedded(), {}, 1);
    BooksAreSorted();
    KnowsIsCoherent(FIRST_EDITION);
    assert LARGE_WORK.books[0] == FIRST_EDITION;
    assert 10 in KeptBooks(up, Embedded().works, 1);
    assert map[10 := FIRST_EDITION] + map[10 := FIRST_EDITION] == map[10 := FIRST_EDITION];
    WithKnown(FIRST_EDITION, SMALL_WORK, ids, SMALL_WORK);
  }

  lemma NobodyIsTold()
    ensures Triple(AuthorEdge, 5, 1) !in Pending(Embedded()) + {}
    ensures !Embeds(Embedded().authors[5], SMALL_WORK)
  {
    SizesDiffer();
    EmbedsOnly(LARGE_WORK, SMALL_WORK);
  }

  /**
   A load that names no author, after which there is nothing to put back, though the author embeds
   something else.
   */
  ghost predicate Untold(up: Upstream, s: State, l: Label, s': State, a: ID) {
    && CoherentBooks(up) && SortedState(s) && Attributed(s.works, Pending(s))
    && SoundLoad(s, l) && l.authorID == 0 && Step(up, s, l, s') && Alone(s'.works, l.workID)
    && Edited(up, l.loaded, ToLoad(up, s, {}, l.workID)) == l.loaded && l.loaded.books != []
    && a in s.authors && !UnknownAuthor(a) && a in l.loaded.authors
    && Triple(AuthorEdge, a, l.workID) !in Pending(s) + {} && !Embeds(s.authors[a], l.loaded)
  }

  /** However the run goes on, it still does. */
  lemma UntoldAtRest(up: Upstream, s: State, l: Label, s': State, states: seq<State>, labels: seq<Label>, a: ID)
    requires Untold(up, s, l, s', a) && RestsAfter(up, s', {}, states, labels)
    ensures var end := states[|labels|];
            && a in end.authors && l.workID in end.works && end.works[l.workID] == l.loaded
            && !Embeds(end.authors[a], end.works[l.workID])
  {
    LoadedAtRestIff(up, s, l, s', {}, states, labels, a);
  }

  lemma SilentIsUntold()
    ensures Untold(Knows(FIRST_EDITION), Embedded(), SILENT, Reloaded(), 5)
  {
    BooksAreSorted();
    SilentIsSound();
    NothingToAdd();
    NobodyIsTold();
  }

  lemma SilentAtRest(states: seq<State>, labels: seq<Label>)
    requires RestsAfter(Knows(FIRST_EDITION), Reloaded(), {}, states, labels)
    ensures var end := states[|labels|];
            5 in end.authors && 1 in end.works && end.works[1] == SMALL_WORK && !Embeds(end.authors[5], end.works[1])
  {
    SilentIsUntold();
    UntoldAtRest(Knows(FIRST_EDITION), Embedded(), SILENT, Reloaded(), states, labels, 5);
  }

  /** However the run goes on, the author keeps the stale copy. */
  lemma SilentLoadLeavesStale(states: seq<State>, labels: seq<Label>)
    requires RestsAfter(Knows(FIRST_EDITION), Reloaded(), {}, states, labels)
    ensures !Fresh(states[|labels|])
  {
    SilentAtRest(states, labels);
    StaleAtRest(states[|labels|], 5, 1);
  }

  lemma StaleAtRest(end: State, a: ID, w: ID)
    requires Quiescent(end) && Maintained(end, a, w) && !Embeds(end.authors[a], end.works[w])
    ensures !Fresh(end)
  {
    assert !FreshOrPending(end, a, w);
  }

  /** A run from a fresh state at rest to a state at rest that is not fresh. */
  lemma SilentLoadBreaksFreshness() returns (states: seq<State>, labels: seq<Label>)
    ensures Trace(Knows(FIRST_EDITION), states, labels)
    ensures states[0] == Embedded() && FreshState(Embedded()) && Quiescent(Embedded())
    ensures Quiescent(states[|labels|]) && !Fresh(states[|labels|])
  {
    EmbeddedIsFresh();
    SilentIsSound();
    assert Triples([]) == {};
    states, labels := EveryPushComesToRest(Knows(FIRST_EDITION), Reloaded(), []);
    SilentLoadLeavesStale(states, labels);
    TraceOfCons(Knows(FIRST_EDITION), Embedded(), SILENT, states, labels);
    states, labels := [Embedded()] + states, [SILENT] + labels;
  }

  // ---------------------------------------------------------------------------------------
  // A work under two ids
  // ---------------------------------------------------------------------------------------

  /** A work cached under its id 1 and under the alias 2, with all copies agreeing. */
  ghost function Aliased(): State {
    State(map[1 := SMALL_WORK, 2 := SMALL_WORK], map[5 := OWNER.(works := [SMALL_WORK])], [], [])
  }

  /** The second edition is added under the alias. */
  ghost function ToAlias(): Edge {
    Edge(WorkEdge, 2, {20})
  }

  lemma AliasedIsFresh()
    ensures FreshState(Aliased()) && Fresh(Aliased()) && Quiescent(Aliased())
  {
    BooksAreSorted();
    EmbedsOnly(SMALL_WORK, SMALL_WORK);
    AgreeingIsCovered(Aliased());
  }

  /** A state at rest in which all copies are embedded is fresh. */
  lemma AgreeingIsCovered(s: State)
    requires SortedState(s) && Quiescent(s)
    requires forall a, w :: Maintained(s, a, w) ==> Embeds(s.authors[a], s.works[w])
    ensures FreshState(s) && Fresh(s)
  {
    forall a, w | Maintained(s, a, w)
      ensures FreshOrPending(s, a, w) && CoveredPair(s, a, w)
    {
      CoveredBy(s, a, w, w);
    }
  }

  lemma EditionsToAlias()
    ensures 20 in EditionsIn(Triples([ToAlias()]), 2) && 20 !in EditionsIn(Triples([ToAlias()]), 1)
  {
    TriplesOfEdge(ToAlias());
    assert Triple(WorkEdge, 2, 20) in Triples([ToAlias()]);
  }

  lemma NothingPending()
    ensures Pending(Aliased()) == {}
  {
    assert Triples([]) == {};
  }

  lemma EditionAdded(ids: set<ID>)
    ensures CoherentBooks(Knows(SECOND_EDITION)) && Sorted(SMALL_WORK.books, BookID)
    ensures Edited(Knows(SECOND_EDITION), SMALL_WORK, ids) == if 20 in ids then LARGE_WORK else SMALL_WORK
  {
    BooksAreSorted();
    KnowsIsCoherent(SECOND_EDITION);
    if 20 in ids {
      assert map[10 := FIRST_EDITION] + map[20 := SECOND_EDITION] == map[10 := FIRST_EDITION, 20 := SECOND_EDITION];
      WithKnown(SECOND_EDITION, SMALL_WORK, ids, LARGE_WORK);
    } else {
      WithoutKnown(SECOND_EDITION, SMALL_WORK, ids);
    }
  }

  lemma SmallBecomes(s: State, ts: set<Triple>, w: ID)
    requires SortedState(s) && w in s.works && s.works[w] == SMALL_WORK
    ensures CoherentBooks(Knows(SECOND_EDITION))
    ensures Final(Knows(SECOND_EDITION), s, ts, w) == if 20 in EditionsIn(ts, w) then LARGE_WORK else SMALL_WORK
  {
    EditionAdded(EditionsIn(ts, w));
  }

  lemma AliasedIsSorted()
    ensures CoherentBooks(Knows(SECOND_EDITION)) && SortedState(Aliased())
  {
    BooksAreSorted();
    KnowsIsCoherent(SECOND_EDITION);
  }

  /** Whatever the run, the alias comes to have an edition more than the work. */
  lemma AliasesComeApart(s: State, states: seq<State>, labels: seq<Label>)
    requires SortedState(s) && Pending(s) == {}
             && RestsAfter(Knows(SECOND_EDITION), s, Triples([ToAlias()]), states, labels)
    requires 1 in s.works && s.works[1] == SMALL_WORK && 2 in s.works && s.works[2] == SMALL_WORK
    ensures var works := states[|labels|].works;
            1 in works && 2 in works && works[1] == SMALL_WORK && works[2] == LARGE_WORK
  {
    var ts := Triples([ToAlias()]);
    EditionsToAlias();
    SmallBecomes(s, ts, 1);
    SmallBecomes(s, ts, 2);
    EmptyUnion(ts);
    WorksAtRest(Knows(SECOND_EDITION), s, ts, states, labels);
  }

  /** So the author, who embeds one of them, holds a stale copy of the other. */
  lemma AliasesBreakFreshness(states: seq<State>, labels: seq<Label>)
    requires RestsAfter(Knows(SECOND_EDITION), Aliased(), Triples([ToAlias()]), states, labels)
    ensures !Fresh(states[|labels|])
  {
    AliasedIsSorted();
    NothingPending();
    AliasesComeApart(Aliased(), states, labels);
    AuthorsStay(Knows(SECOND_EDITION), Aliased(), Triples([ToAlias()]), states, labels);
    DifferingCopiesAreStale(states[|labels|]);
  }

  lemma DifferingCopiesAreStale(end: State)
    requires SortedState(end) && Quiescent(end) && 5 in end.authors
    requires 1 in end.works && 2 in end.works && end.works[1] == SMALL_WORK && end.works[2] == LARGE_WORK
    ensures !Fresh(end)
  {
    SizesDiffer();
    if Fresh(end) {
      FreshAtRestAgrees(end, 5, 1, 2);
    }
  }

  lemma AuthorsStay(up: Upstream, s: State, ts: set<Triple>, states: seq<State>, labels: seq<Label>)
    requires CoherentBooks(up) && SortedState(s) && Attributed(s.works, Pending(s))
             && RestsAfter(up, s, ts, states, labels)
    ensures states[|labels|].authors.Keys == s.authors.Keys && SortedState(states[|labels|])
  {
    var h := RestKeepsInvariant(up, s, ts, states, labels);
    RunKeepsSorted(up, states, labels);
  }

  /** And there is such a run. */
  lemma AliasesCanBreakFreshness() returns (states: seq<State>, labels: seq<Label>)
    ensures FreshState(Aliased()) && Fresh(Aliased())
    ensures RestsAfter(Knows(SECOND_EDITION), Aliased(), Triples([ToAlias()]), states, labels)
    ensures !Fresh(states[|labels|])
  {
    AliasedIsFresh();
    TriplesOfEdge(ToAlias());
    states, labels := EveryPushComesToRest(Knows(SECOND_EDITION), Aliased(), [ToAlias()]);
    AliasesBreakFreshness(states, labels);
  }

  /** Once the copies differ, runs that push the same author edges no longer agree. */
  lemma AliasesBreakSerializability(up: Upstream, s: State)
    requires SortedState(s) && Quiescent(s)
    requires 1 in s.works && 2 in s.works && s.works[1] == SMALL_WORK && s.works[2] == LARGE_WORK && 5 in s.authors
    ensures !RunsAgree(up, s)
  {
    SizesDiffer();
    if RunsAgree(up, s) {
      AgreeingRunsNeedAgreeingCopies(up, s, 5, 1, 2);
    }
  }
}
