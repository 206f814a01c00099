/**
 When runs that also edit works agree. While works are being edited, an author may be given copies
 of them at different stages. Nothing is lost by that if two batches of copies, the second one
 taken at a later stage of the works, always come to what they come to at once.
 */
module Stages {
  import opened Collections
  import opened SortedList
  import opened Resources
  import opened AuthorPass
  import opened Edges
  import opened Pipeline
  import opened Editing
  import opened Freshness
  import opened Histories
  import opened Rest
  import opened Serializability

  // ---------------------------------------------------------------------------------------
  // Stages of the cached works
  // ---------------------------------------------------------------------------------------

  ghost predicate Within(ts: set<Triple>, all: iset<Triple>) {
    forall t :: t in ts ==> t in all
  }

  /**
   The relationships that may be pushed: where an edition of a work may be, the work may be for
   its authors, as the pipeline does when the edition changes the work.
   */
  ghost predicate Closed(s: State, all: iset<Triple>) {
    forall w, c, a :: Triple(WorkEdge, w, c) in all && w in s.works && a in s.works[w].authors ==>
        Triple(AuthorEdge, a, w) in all
  }

  ghost predicate SortedWorks(works: map<ID, Work>) {
    forall w :: w in works ==> Sorted(works[w].books, BookID)
  }

  ghost predicate EditionsFrom(all: iset<Triple>, w: ID, ids: set<ID>) {
    forall c :: c in ids ==> Triple(WorkEdge, w, c) in all
  }

  /** The work with some of the editions that may be pushed for it. */
  ghost predicate VersionIn(up: Upstream, all: iset<Triple>, w: ID, work: Work, x: Work)
    requires CoherentBooks(up) && Sorted(work.books, BookID)
  {
    exists ids: set<ID> :: EditionsFrom(all, w, ids) && x == Edited(up, work, ids)
  }

  /** Cached works at a later stage. */
  ghost predicate IsStage(up: Upstream, all: iset<Triple>, works: map<ID, Work>, later: map<ID, Work>)
    requires CoherentBooks(up) && SortedWorks(works)
  {
    later.Keys == works.Keys && forall w :: w in works ==> VersionIn(up, all, w, works[w], later[w])
  }

  /** Works that may be requested for the author, who can be loaded. */
  ghost predicate Askable(s: State, all: iset<Triple>, a: ID, ids: set<ID>) {
    && a in s.authors && !UnknownAuthor(a) && ids != {}
    && forall w :: w in ids ==> Triple(AuthorEdge, a, w) in all && (w in s.works ==> a in s.works[w].authors)
  }

  /** Two batches of works for an author, the second one at a later stage. */
  ghost predicate TwoBatches(up: Upstream, s: State, all: iset<Triple>, a: ID,
                             works1: map<ID, Work>, ids1: set<ID>, m1: map<ID, Work>,
                             works2: map<ID, Work>, ids2: set<ID>, m2: map<ID, Work>)
    requires CoherentBooks(up) && SortedState(s)
  {
    && Askable(s, all, a, ids1) && Askable(s, all, a, ids2)
    && IsStage(up, all, s.works, works1) && SortedWorks(works1) && IsStage(up, all, works1, works2)
    && Selects(m1, FetchedWorks(works1, ids1), WorkID) && Selects(m2, FetchedWorks(works2, ids2), WorkID)
  }

  /** The author after one and then the other, and after both at once. */
  ghost predicate TwoStages(up: Upstream, s: State, all: iset<Triple>, a: ID,
                            works1: map<ID, Work>, ids1: set<ID>, m1: map<ID, Work>,
                            works2: map<ID, Work>, ids2: set<ID>, m2: map<ID, Work>, x: Author, y: Author, z: Author)
    requires CoherentBooks(up) && SortedState(s)
  {
    && TwoBatches(up, s, all, a, works1, ids1, m1, works2, ids2, m2)
    && IsDenormalized(up, s.authors[a], m1, x) && IsDenormalized(up, x, m2, y)
    && IsDenormalized(up, s.authors[a], m1 + m2, z)
  }

  ghost predicate StagesCommute(up: Upstream, s: State, all: iset<Triple>)
    requires CoherentBooks(up) && SortedState(s)
  {
    forall a, works1, ids1, m1, works2, ids2, m2, x, y, z ::
      TwoStages(up, s, all, a, works1, ids1, m1, works2, ids2, m2, x, y, z) ==> y == z
  }

  /** Two outcomes of requesting the same works at the same stage. */
  ghost predicate TwoChoices(up: Upstream, s: State, all: iset<Triple>, a: ID, works: map<ID, Work>, ids: set<ID>,
                             m1: map<ID, Work>, m2: map<ID, Work>, x: Author, y: Author)
    requires CoherentBooks(up) && SortedState(s)
  {
    && Askable(s, all, a, ids) && IsStage(up, all, s.works, works)
    && Selects(m1, FetchedWorks(works, ids), WorkID) && Selects(m2, FetchedWorks(works, ids), WorkID)
    && IsDenormalized(up, s.authors[a], m1, x) && IsDenormalized(up, s.authors[a], m2, y)
  }

  ghost predicate ChoicesAgree(up: Upstream, s: State, all: iset<Triple>)
    requires CoherentBooks(up) && SortedState(s)
  {
    forall a, works, ids, m1, m2, x, y :: TwoChoices(up, s, all, a, works, ids, m1, m2, x, y) ==> x == y
  }

  lemma VersionsStaySorted(up: Upstream, all: iset<Triple>, works: map<ID, Work>, later: map<ID, Work>)
    requires CoherentBooks(up) && SortedWorks(works) && IsStage(up, all, works, later)
    ensures SortedWorks(later)
  {
    forall w | w in later
      ensures Sorted(later[w].books, BookID)
    {
      var ids :| EditionsFrom(all, w, ids) && later[w] == Edited(up, works[w], ids);
      EditingTwice(up, works[w], ids, {});
    }
  }

  lemma VersionOfVersion(up: Upstream, all: iset<Triple>, w: ID, work: Work, x: Work, y: Work)
    requires CoherentBooks(up) && Sorted(work.books, BookID) && VersionIn(up, all, w, work, x)
    requires Sorted(x.books, BookID) && VersionIn(up, all, w, x, y)
    ensures VersionIn(up, all, w, work, y)
  {
    var ids :| EditionsFrom(all, w, ids) && x == Edited(up, work, ids);
    var more :| EditionsFrom(all, w, more) && y == Edited(up, x, more);
    EditingTwice(up, work, ids, more);
    EditedIsVersionIn(up, all, w, work, ids + more);
  }

  lemma EditedIsVersionIn(up: Upstream, all: iset<Triple>, w: ID, work: Work, ids: set<ID>)
    requires CoherentBooks(up) && Sorted(work.books, BookID) && EditionsFrom(all, w, ids)
    ensures VersionIn(up, all, w, work, Edited(up, work, ids))
  {
  }

  lemma VersionOfItself(up: Upstream, all: iset<Triple>, w: ID, work: Work)
    requires CoherentBooks(up) && Sorted(work.books, BookID)
    ensures VersionIn(up, all, w, work, work)
  {
    EditingNothing(up, work);
    var none: set<ID> := {};
    assert EditionsFrom(all, w, none);
  }

  lemma VersionKeepsIdentity(up: Upstream, all: iset<Triple>, w: ID, work: Work, x: Work)
    requires CoherentBooks(up) && Sorted(work.books, BookID) && VersionIn(up, all, w, work, x)
    ensures x == work.(books := x.books) && (work.books != [] ==> x.books != [])
  {
    var ids :| EditionsFrom(all, w, ids) && x == Edited(up, work, ids);
    EditedKeepsIdentity(up, work, ids);
    NeverEmptied(up, work, ids);
  }

  // ---------------------------------------------------------------------------------------
  // If stages commute, an author is what its copies make of it at once
  // ---------------------------------------------------------------------------------------

  /** The author was denormalized without finding a work. */
  ghost predicate FoundNothing(s0: State, h: History, s: State, a: ID) {
    exists w :: InPlay(s0, h.pushed, s.works, a, w) && (w in s0.works ==> s0.works[w].books == [])
  }

  ghost predicate IsExact(up: Upstream, s0: State, h: History, s: State, a: ID)
    requires a in h.copies
  {
    && a in s0.authors && a in s.authors
    && IsDenormalized(up, s0.authors[a], h.copies[a], s.authors[a])
    && (h.copies[a] == map[] ==> FoundNothing(s0, h, s, a))
  }

  ghost predicate AllExact(up: Upstream, s0: State, h: History, s: State) {
    forall a :: a in h.copies ==> IsExact(up, s0, h, s, a)
  }

  /** Editions that were processed were pushed. */
  lemma DoneIsWithin(s0: State, all: iset<Triple>, h: History, s: State, w: ID, ids: set<ID>)
    requires NothingInvented(s0, h, s) && Within(h.pushed, all) && ids <= EditionsIn(h.edited, w)
    ensures EditionsFrom(all, w, ids)
  {
    forall c | c in ids
      ensures Triple(WorkEdge, w, c) in all
    {
      assert Triple(WorkEdge, w, c) in h.edited;
    }
  }

  lemma CopyIsVersion(up: Upstream, s0: State, all: iset<Triple>, h: History, s: State, a: ID, k: ID, copy: Work, w: ID)
    requires CoherentBooks(up) && SortedState(s0) && WorksTracked(up, s0, h, s) && NothingInvented(s0, h, s)
    requires Within(h.pushed, all) && IsCopy(up, s0, h, s, a, k, copy, w)
    ensures VersionIn(up, all, w, s0.works[w], copy)
    ensures Sorted(copy.books, BookID) && VersionIn(up, all, w, copy, s.works[w])
  {
    var done := EditionsIn(h.edited, w);
    var some := VersionLeadsOn(up, s0.works[w], done, copy);
    DoneIsWithin(s0, all, h, s, w, some);
    DoneIsWithin(s0, all, h, s, w, done);
  }

  lemma WorkIsVersion(up: Upstream, s0: State, all: iset<Triple>, h: History, s: State, w: ID)
    requires CoherentBooks(up) && SortedState(s0) && WorksTracked(up, s0, h, s) && NothingInvented(s0, h, s)
    requires Within(h.pushed, all) && w in s0.works
    ensures w in s.works && VersionIn(up, all, w, s0.works[w], s.works[w])
  {
    DoneIsWithin(s0, all, h, s, w, EditionsIn(h.edited, w));
  }

  /** What is in play for an author may be requested for it. */
  lemma InPlayMayBeAsked(up: Upstream, s0: State, all: iset<Triple>, h: History, s: State, a: ID, w: ID)
    requires Invariant(up, s0, h, s) && Within(h.pushed, all) && Closed(s0, all) && InPlay(s0, h.pushed, s.works, a, w)
    ensures Triple(AuthorEdge, a, w) in all && (w in s0.works ==> a in s0.works[w].authors)
  {
    if w in s.works { InPlayIsAttributed(up, s0, h, s, a, w); }
    if Triple(AuthorEdge, a, w) !in h.pushed {
      var done := EditionsIn(h.edited, w);
      if done == {} { EditingNothing(up, s0.works[w]); }
      var c :| c in done;
      assert Triple(WorkEdge, w, c) in h.edited;
    }
  }

  /** Where a copy came from. */
  ghost function Source(up: Upstream, s0: State, h: History, s: State, a: ID, k: ID): ID
    requires CoherentBooks(up) && SortedState(s0) && CopiesTracked(up, s0, h, s) && a in h.copies && k in h.copies[a]
  {
    var w :| IsCopy(up, s0, h, s, a, k, h.copies[a][k], w);
    w
  }

  lemma SourceIs(up: Upstream, s0: State, h: History, s: State, a: ID, k: ID)
    requires CoherentBooks(up) && SortedState(s0) && CopiesTracked(up, s0, h, s) && a in h.copies && k in h.copies[a]
    ensures IsCopy(up, s0, h, s, a, k, h.copies[a][k], Source(up, s0, h, s, a, k))
  {
  }

  /** The stage of a work at which it was copied; a work that was not copied is as it was at the start. */
  ghost function StageOfCopy(up: Upstream, s0: State, h: History, s: State, a: ID, w: ID): Work
    requires CoherentBooks(up) && SortedState(s0) && CopiesTracked(up, s0, h, s) && a in h.copies && w in s0.works
  {
    var k := s0.works[w].foreignID;
    if k in h.copies[a] && Source(up, s0, h, s, a, k) == w then h.copies[a][k] else s0.works[w]
  }

  ghost function StageOfCopies(up: Upstream, s0: State, h: History, s: State, a: ID): map<ID, Work>
    requires CoherentBooks(up) && SortedState(s0) && CopiesTracked(up, s0, h, s) && a in h.copies
  {
    map w | w in s0.works :: StageOfCopy(up, s0, h, s, a, w)
  }

  ghost function Sources(up: Upstream, s0: State, h: History, s: State, a: ID): set<ID>
    requires CoherentBooks(up) && SortedState(s0) && CopiesTracked(up, s0, h, s) && a in h.copies
  {
    set k | k in h.copies[a] :: Source(up, s0, h, s, a, k)
  }

  lemma SourceStage(up: Upstream, s0: State, h: History, s: State, a: ID, k: ID)
    requires Invariant(up, s0, h, s) && a in h.copies && k in h.copies[a]
    ensures var w := Source(up, s0, h, s, a, k);
            w in Sources(up, s0, h, s, a) && w in s0.works && StageOfCopies(up, s0, h, s, a)[w] == h.copies[a][k]
  {
    WorksKeepIDs(up, s0, h, s);
    SourceIs(up, s0, h, s, a, k);
  }

  /** `y` is a version of the work on the way from `x` to `z`. */
  ghost predicate Between(up: Upstream, all: iset<Triple>, w: ID, x: Work, y: Work, z: Work)
    requires CoherentBooks(up) && Sorted(x.books, BookID)
  {
    VersionIn(up, all, w, x, y) && Sorted(y.books, BookID) && VersionIn(up, all, w, y, z)
  }

  ghost predicate AllBetween(up: Upstream, all: iset<Triple>, works: map<ID, Work>, between: map<ID, Work>,
                             later: map<ID, Work>)
    requires CoherentBooks(up) && SortedWorks(works)
  {
    && between.Keys == works.Keys && later.Keys == works.Keys
    && forall w {:trigger works[w]} :: w in works ==> Between(up, all, w, works[w], between[w], later[w])
  }

  lemma BetweenAt(up: Upstream, all: iset<Triple>, works: map<ID, Work>, between: map<ID, Work>, later: map<ID, Work>,
                  w: ID)
    requires CoherentBooks(up) && SortedWorks(works) && AllBetween(up, all, works, between, later) && w in works
    ensures VersionIn(up, all, w, works[w], between[w])
    ensures Sorted(between[w].books, BookID) && VersionIn(up, all, w, between[w], later[w])
  {
    assert Between(up, all, w, works[w], between[w], later[w]);
  }

  lemma BetweenIsStage(up: Upstream, all: iset<Triple>, works: map<ID, Work>, between: map<ID, Work>,
                       later: map<ID, Work>)
    requires CoherentBooks(up) && SortedWorks(works) && AllBetween(up, all, works, between, later)
    ensures IsStage(up, all, works, between) && SortedWorks(between)
  {
    forall w | w in works {
      BetweenAt(up, all, works, between, later, w);
    }
  }

  lemma StageBetween(up: Upstream, all: iset<Triple>, works: map<ID, Work>, between: map<ID, Work>,
                     later: map<ID, Work>)
    requires CoherentBooks(up) && SortedWorks(works) && AllBetween(up, all, works, between, later)
    ensures IsStage(up, all, works, between) && SortedWorks(between) && IsStage(up, all, between, later)
  {
    BetweenIsStage(up, all, works, between, later);
    forall w | w in works {
      BetweenAt(up, all, works, between, later, w);
    }
  }

  lemma StageOfCopyIs(up: Upstream, s0: State, all: iset<Triple>, h: History, s: State, a: ID, w: ID)
    requires CoherentBooks(up) && SortedState(s0) && WorksTracked(up, s0, h, s) && NothingInvented(s0, h, s)
    requires CopiesTracked(up, s0, h, s) && Within(h.pushed, all) && a in h.copies && w in s0.works
    ensures w in s.works && Between(up, all, w, s0.works[w], StageOfCopies(up, s0, h, s, a)[w], s.works[w])
  {
    var k := s0.works[w].foreignID;
    if k in h.copies[a] && Source(up, s0, h, s, a, k) == w {
      SourceIs(up, s0, h, s, a, k);
      CopyIsVersion(up, s0, all, h, s, a, k, h.copies[a][k], w);
    } else {
      VersionOfItself(up, all, w, s0.works[w]);
      WorkIsVersion(up, s0, all, h, s, w);
    }
  }

  lemma CopiesAreBetween(up: Upstream, s0: State, all: iset<Triple>, h: History, s: State, a: ID)
    requires CoherentBooks(up) && SortedState(s0) && WorksTracked(up, s0, h, s) && NothingInvented(s0, h, s)
    requires CopiesTracked(up, s0, h, s) && Within(h.pushed, all) && a in h.copies
    ensures AllBetween(up, all, s0.works, StageOfCopies(up, s0, h, s, a), s.works)
  {
    forall w | w in s0.works {
      StageOfCopyIs(up, s0, all, h, s, a, w);
    }
  }

  lemma CopiesAreAStage(up: Upstream, s0: State, all: iset<Triple>, h: History, s: State, a: ID)
    requires Invariant(up, s0, h, s) && Within(h.pushed, all) && a in h.copies
    ensures var works := StageOfCopies(up, s0, h, s, a);
            IsStage(up, all, s0.works, works) && SortedWorks(works) && IsStage(up, all, works, s.works)
  {
    CopiesAreBetween(up, s0, all, h, s, a);
    StageBetween(up, all, s0.works, StageOfCopies(up, s0, h, s, a), s.works);
  }

  /** The copies are what their sources yield at that stage. */
  lemma CopiesAreFetched(up: Upstream, s0: State, h: History, s: State, a: ID)
    requires Invariant(up, s0, h, s) && a in h.copies && Keyed(h.copies[a], WorkID)
    ensures Selects(h.copies[a], FetchedWorks(StageOfCopies(up, s0, h, s, a), Sources(up, s0, h, s, a)), WorkID)
  {
    var copies, works, ids := h.copies[a], StageOfCopies(up, s0, h, s, a), Sources(up, s0, h, s, a);
    forall k | k in copies
      ensures copies[k] in FetchedWorks(works, ids)
    {
      CopyIsFetchedFromSource(up, s0, h, s, a, k);
    }
    forall x | x in FetchedWorks(works, ids)
      ensures x.foreignID in copies
    {
      var w :| w in ids && w in works && works[w].books != [] && works[w] == x;
      var k :| k in copies && Source(up, s0, h, s, a, k) == w;
      SourceStage(up, s0, h, s, a, k);
    }
  }

  lemma CopyIsFetchedFromSource(up: Upstream, s0: State, h: History, s: State, a: ID, k: ID)
    requires Invariant(up, s0, h, s) && a in h.copies && k in h.copies[a]
    ensures h.copies[a][k] in FetchedWorks(StageOfCopies(up, s0, h, s, a), Sources(up, s0, h, s, a))
  {
    SourceStage(up, s0, h, s, a, k);
    SourceIs(up, s0, h, s, a, k);
    FetchedAt(StageOfCopies(up, s0, h, s, a), Sources(up, s0, h, s, a), Source(up, s0, h, s, a, k));
  }

  lemma FetchedAt(works: map<ID, Work>, ids: set<ID>, w: ID)
    requires w in ids && w in works && works[w].books != []
    ensures works[w] in FetchedWorks(works, ids)
  {
  }

  lemma SourcesMayBeAsked(up: Upstream, s0: State, all: iset<Triple>, h: History, s: State, a: ID)
    requires Invariant(up, s0, h, s) && Within(h.pushed, all) && Closed(s0, all) && a in h.copies
             && h.copies[a] != map[]
    ensures Askable(s0, all, a, Sources(up, s0, h, s, a))
  {
    var ids := Sources(up, s0, h, s, a);
    forall w | w in ids
      ensures Triple(AuthorEdge, a, w) in all && (w in s0.works ==> a in s0.works[w].authors)
    {
      var k :| k in h.copies[a] && Source(up, s0, h, s, a, k) == w;
      SourceIs(up, s0, h, s, a, k);
      InPlayMayBeAsked(up, s0, all, h, s, a, w);
    }
    var k :| k in h.copies[a];
    SourceStage(up, s0, h, s, a, k);
  }

  /** The copies of an author are one batch, taken at one stage of the works. */
  lemma CopiesAreABatch(up: Upstream, s0: State, all: iset<Triple>, h: History, s: State, a: ID)
    returns (works: map<ID, Work>, ids: set<ID>)
    requires Invariant(up, s0, h, s) && Within(h.pushed, all) && Closed(s0, all) && a in h.copies
             && IsExact(up, s0, h, s, a)
    ensures IsStage(up, all, s0.works, works) && SortedWorks(works) && IsStage(up, all, works, s.works)
    ensures Askable(s0, all, a, ids) && Selects(h.copies[a], FetchedWorks(works, ids), WorkID)
  {
    works := StageOfCopies(up, s0, h, s, a);
    CopiesAreAStage(up, s0, all, h, s, a);
    if h.copies[a] != map[] {
      ids := Sources(up, s0, h, s, a);
      SourcesMayBeAsked(up, s0, all, h, s, a);
      CopiesAreFetched(up, s0, h, s, a);
    } else {
      ids := NothingWasFetched(up, s0, all, h, s, a, h.copies[a]);
    }
  }

  lemma NothingWasFetched(up: Upstream, s0: State, all: iset<Triple>, h: History, s: State, a: ID, none: map<ID, Work>)
    returns (ids: set<ID>)
    requires Invariant(up, s0, h, s) && Within(h.pushed, all) && Closed(s0, all) && a in h.copies
    requires a in s0.authors && none == h.copies[a] && none.Keys == {} && FoundNothing(s0, h, s, a)
    ensures Askable(s0, all, a, ids) && Selects(none, FetchedWorks(StageOfCopies(up, s0, h, s, a), ids), WorkID)
  {
    var w :| InPlay(s0, h.pushed, s.works, a, w) && (w in s0.works ==> s0.works[w].books == []);
    ids := {w};
    InPlayMayBeAsked(up, s0, all, h, s, a, w);
    var works := StageOfCopies(up, s0, h, s, a);
    if w in works { NotCopiedIsAsAtStart(up, s0, h, s, a, w); }
  }

  lemma NotCopiedIsAsAtStart(up: Upstream, s0: State, h: History, s: State, a: ID, w: ID)
    requires CoherentBooks(up) && SortedState(s0) && CopiesTracked(up, s0, h, s) && a in h.copies
             && h.copies[a].Keys == {}
    requires w in s0.works
    ensures StageOfCopies(up, s0, h, s, a)[w] == s0.works[w]
  {
  }

  lemma EdgeMayBeAsked(up: Upstream, s0: State, all: iset<Triple>, h: History, s: State, a: ID, ids: set<ID>)
    requires Invariant(up, s0, h, s) && Within(h.pushed, all) && Closed(s0, all)
    requires a in s0.authors && !UnknownAuthor(a) && ids != {} && Triples([Edge(AuthorEdge, a, ids)]) <= Pending(s)
    ensures Askable(s0, all, a, ids)
    ensures forall w :: w in ids ==> InPlay(s0, h.pushed, s.works, a, w)
  {
    TriplesOfEdge(Edge(AuthorEdge, a, ids));
    forall w | w in ids
      ensures InPlay(s0, h.pushed, s.works, a, w)
      ensures Triple(AuthorEdge, a, w) in all && (w in s0.works ==> a in s0.works[w].authors)
    {
      assert Triple(AuthorEdge, a, w) in Pending(s);
      InPlayMayBeAsked(up, s0, all, h, s, a, w);
    }
  }

  lemma BothAtOnce(up: Upstream, s: State, all: iset<Triple>, a: ID, works1: map<ID, Work>, ids1: set<ID>,
                   m1: map<ID, Work>,
                   works2: map<ID, Work>, ids2: set<ID>, m2: map<ID, Work>, x: Author, y: Author)
    requires CoherentBooks(up) && SortedState(s) && StagesCommute(up, s, all)
    requires TwoBatches(up, s, all, a, works1, ids1, m1, works2, ids2, m2)
    requires IsDenormalized(up, s.authors[a], m1, x) && IsDenormalized(up, x, m2, y)
    ensures IsDenormalized(up, s.authors[a], m1 + m2, y)
  {
    KeyedUnion(m1, m2);
    var z := SomeDenormalized(up, s.authors[a], m1 + m2);
    OneOutcome(up, s, all, a, works1, ids1, m1, works2, ids2, m2, x, y, z);
  }

  lemma KeyedUnion(m1: map<ID, Work>, m2: map<ID, Work>)
    requires Keyed(m1, WorkID) && Keyed(m2, WorkID)
    ensures Keyed(m1 + m2, WorkID)
  {
  }

  lemma OneOutcome(up: Upstream, s: State, all: iset<Triple>, a: ID, works1: map<ID, Work>, ids1: set<ID>,
                   m1: map<ID, Work>,
                   works2: map<ID, Work>, ids2: set<ID>, m2: map<ID, Work>, x: Author, y: Author, z: Author)
    requires CoherentBooks(up) && SortedState(s) && StagesCommute(up, s, all)
    requires TwoStages(up, s, all, a, works1, ids1, m1, works2, ids2, m2, x, y, z)
    ensures y == z
  {
  }

  /** A further batch is a batch more. */
  lemma FurtherBatch(up: Upstream, s0: State, all: iset<Triple>, h: History, s: State, a: ID, ids: set<ID>,
                     batch: map<ID, Work>, done: Author)
    requires Invariant(up, s0, h, s) && Within(h.pushed, all) && Closed(s0, all) && StagesCommute(up, s0, all)
    requires a in h.copies && IsExact(up, s0, h, s, a) && Askable(s0, all, a, ids)
    requires Selects(batch, FetchedWorks(s.works, ids), WorkID) && IsDenormalized(up, s.authors[a], batch, done)
    ensures IsDenormalized(up, s0.authors[a], h.copies[a] + batch, done)
  {
    var works, sources := CopiesAreABatch(up, s0, all, h, s, a);
    BothAtOnce(up, s0, all, a, works, sources, h.copies[a], s.works, ids, batch, s.authors[a], done);
  }

  lemma EmptyBatch(up: Upstream, s0: State, h: History, s: State, a: ID, ids: set<ID>, batch: map<ID, Work>)
    requires CoherentBooks(up) && SortedState(s0) && WorksTracked(up, s0, h, s)
    requires ids != {} && Selects(batch, FetchedWorks(s.works, ids), WorkID) && batch.Keys == {}
    requires forall w :: w in ids ==> InPlay(s0, h.pushed, s.works, a, w)
    ensures FoundNothing(s0, h, s, a)
  {
    var w :| w in ids;
    if w in s.works {
      if s.works[w].books != [] { FetchedAt(s.works, ids, w); }
      NeverEmptied(up, s0.works[w], EditionsIn(h.edited, w));
    }
  }

  lemma DenormalizedIsExact(up: Upstream, s0: State, all: iset<Triple>, h: History, s: State, a: ID, ids: set<ID>,
                            batch: map<ID, Work>, s': State)
    requires Invariant(up, s0, h, s) && Within(h.pushed, all) && Closed(s0, all) && StagesCommute(up, s0, all)
    requires AllExact(up, s0, h, s) && DenormalizesOne(up, s, a, ids, batch, s')
    ensures IsExact(up, s0, WithCopies(h, a, batch), s', a)
  {
    EdgeMayBeAsked(up, s0, all, h, s, a, ids);
    if a in h.copies {
      FurtherBatch(up, s0, all, h, s, a, ids, batch, s'.authors[a]);
    } else {
      assert AuthorFollows(s0.authors[a], h.copies, a, s.authors[a]);
      EmptyMapUnion(batch);
    }
    var copies := CopiesOf(h, a) + batch;
    if copies == map[] {
      KeysOfUnion(CopiesOf(h, a), batch);
      EmptyBatch(up, s0, h, s, a, ids, batch);
      StillFoundNothing(s0, h, s, WithCopies(h, a, batch), s', a);
    }
  }

  lemma KeysOfUnion(m: map<ID, Work>, n: map<ID, Work>)
    requires m + n == map[]
    ensures n.Keys == {}
  {
    assert (m + n).Keys == m.Keys + n.Keys;
  }

  lemma StillFoundNothing(s0: State, h: History, s: State, h': History, s': State, a: ID)
    requires FoundNothing(s0, h, s, a)
    requires forall w :: InPlay(s0, h.pushed, s.works, a, w) ==> InPlay(s0, h'.pushed, s'.works, a, w)
    ensures FoundNothing(s0, h', s', a)
  {
    var w :| InPlay(s0, h.pushed, s.works, a, w) && (w in s0.works ==> s0.works[w].books == []);
    assert InPlay(s0, h'.pushed, s'.works, a, w);
  }

  /** An author that a step leaves alone. */
  lemma StaysExact(up: Upstream, s0: State, h: History, s: State, h': History, s': State, a: ID)
    requires CoherentBooks(up) && SortedState(s0) && WorksTracked(up, s0, h, s) && WorksTracked(up, s0, h', s')
    requires h.pushed <= h'.pushed && h.edited <= h'.edited
    requires a in h.copies && IsExact(up, s0, h, s, a)
    requires a in h'.copies && h'.copies[a] == h.copies[a] && a in s'.authors && s'.authors[a] == s.authors[a]
    ensures IsExact(up, s0, h', s', a)
  {
    if h.copies[a] == map[] {
      forall w | InPlay(s0, h.pushed, s.works, a, w)
        ensures InPlay(s0, h'.pushed, s'.works, a, w)
      {
        InPlayGrows(up, s0, h, s, h', s', a, w);
      }
      StillFoundNothing(s0, h, s, h', s', a);
    }
  }

  lemma StepStaysExact(up: Upstream, s0: State, all: iset<Triple>, h: History, s: State, h': History, s': State)
    requires Invariant(up, s0, h, s) && Within(h.pushed, all) && Closed(s0, all) && StagesCommute(up, s0, all)
    requires AllExact(up, s0, h, s) && Invariant(up, s0, h', s') && Records(up, h, s, h', s')
    ensures AllExact(up, s0, h', s')
  {
    if h'.copies == h.copies && s'.authors == s.authors {
      forall a | a in h'.copies
        ensures IsExact(up, s0, h', s', a)
      {
        StaysExact(up, s0, h, s, h', s', a);
      }
    } else {
      var b, ids, batch :| DenormalizesOne(up, s, b, ids, batch, s') && h' == WithCopies(h, b, batch);
      DenormalizationStaysExact(up, s0, all, h, s, b, ids, batch, s');
    }
  }

  lemma DenormalizationStaysExact(up: Upstream, s0: State, all: iset<Triple>, h: History, s: State, b: ID,
                                  ids: set<ID>, batch: map<ID, Work>, s': State)
    requires Invariant(up, s0, h, s) && Within(h.pushed, all) && Closed(s0, all) && StagesCommute(up, s0, all)
    requires AllExact(up, s0, h, s) && DenormalizesOne(up, s, b, ids, batch, s')
    ensures AllExact(up, s0, WithCopies(h, b, batch), s')
  {
    var h' := WithCopies(h, b, batch);
    DenormalizedIsExact(up, s0, all, h, s, b, ids, batch, s');
    forall a | a in h'.copies && a != b
      ensures IsExact(up, s0, h', s', a)
    {
      StaysExact(up, s0, h, s, h', s', a);
    }
  }

  /** Every run keeps authors what their copies make of them at once. */
  lemma {:induction false} RunStaysExact(up: Upstream, all: iset<Triple>, states: seq<State>, labels: seq<Label>,
                                         n: nat)
    returns (h: History)
    requires n <= |labels| && Trace(up, states, labels) && Admissible(states[0], labels)
    requires CoherentBooks(up) && SortedState(states[0]) && Attributed(states[0].works, Pending(states[0]))
    requires Closed(states[0], all) && StagesCommute(up, states[0], all)
    requires Within(Pending(states[0]) + Pushed(labels[..n]), all)
    ensures Invariant(up, states[0], h, states[n]) && AllExact(up, states[0], h, states[n])
    ensures h.pushed == Pending(states[0]) + Pushed(labels[..n])
  {
    if n == 0 {
      h := History(Pending(states[0]), {}, map[]);
      StartHolds(up, states[0]);
    } else {
      PushedNext(labels, n - 1);
      var before := RunStaysExact(up, all, states, labels, n - 1);
      h := StepHolds(up, states[0], before, states[n - 1], labels[n - 1], states[n]);
      StepStaysExact(up, states[0], all, before, states[n - 1], h, states[n]);
    }
  }

  // ---------------------------------------------------------------------------------------
  // At rest
  // ---------------------------------------------------------------------------------------

  /** The works that were in play for the author. */
  ghost function Played(s0: State, h: History, s: State, a: ID): set<ID> {
    (set t | t in h.pushed && t.kind == AuthorEdge && t.parentID == a :: t.childID)
    + set w | w in s.works && InPlay(s0, h.pushed, s.works, a, w)
  }

  lemma PlayedAre(s0: State, h: History, s: State, a: ID, w: ID)
    ensures w in Played(s0, h, s, a) <==> InPlay(s0, h.pushed, s.works, a, w)
  {
    if InPlay(s0, h.pushed, s.works, a, w) && w !in s.works { assert Triple(AuthorEdge, a, w) in h.pushed; }
  }

  lemma RestingCopyIsFetched(up: Upstream, s0: State, h: History, s: State, a: ID, k: ID)
    requires Invariant(up, s0, h, s) && Quiescent(s) && a in h.copies && k in h.copies[a]
    ensures h.copies[a][k] in FetchedWorks(s.works, Played(s0, h, s, a))
  {
    var v := RestingCopy(up, s0, h, s, a, k);
    PlayedAre(s0, h, s, a, v);
    FetchedAt(s.works, Played(s0, h, s, a), v);
  }

  lemma PlayedIsCopied(up: Upstream, s0: State, h: History, s: State, a: ID, x: Work)
    requires Invariant(up, s0, h, s) && Quiescent(s) && a in h.copies && x in FetchedWorks(s.works, Played(s0, h, s, a))
    ensures x.foreignID in h.copies[a]
  {
    var w :| w in Played(s0, h, s, a) && w in s.works && s.works[w].books != [] && s.works[w] == x;
    PlayedAre(s0, h, s, a, w);
    var v := RestingPair(up, s0, h, s, a, w);
  }

  /** At rest the copies are one batch, fetched from the cached works. */
  lemma RestingCopiesAreFetched(up: Upstream, s0: State, h: History, s: State, a: ID)
    requires Invariant(up, s0, h, s) && Quiescent(s) && a in h.copies && Keyed(h.copies[a], WorkID)
    ensures Selects(h.copies[a], FetchedWorks(s.works, Played(s0, h, s, a)), WorkID)
  {
    forall k | k in h.copies[a] {
      RestingCopyIsFetched(up, s0, h, s, a, k);
    }
    forall x | x in FetchedWorks(s.works, Played(s0, h, s, a)) {
      PlayedIsCopied(up, s0, h, s, a, x);
    }
  }

  lemma PlayedMayBeAsked(up: Upstream, s0: State, all: iset<Triple>, h: History, s: State, a: ID)
    requires Invariant(up, s0, h, s) && Within(h.pushed, all) && Closed(s0, all) && a in h.copies
    ensures Askable(s0, all, a, Played(s0, h, s, a))
  {
    forall w | w in Played(s0, h, s, a)
      ensures Triple(AuthorEdge, a, w) in all && (w in s0.works ==> a in s0.works[w].authors)
    {
      PlayedAre(s0, h, s, a, w);
      InPlayMayBeAsked(up, s0, all, h, s, a, w);
    }
    var w :| InPlay(s0, h.pushed, s.works, a, w);
    PlayedAre(s0, h, s, a, w);
  }

  lemma WorksAreAStage(up: Upstream, s0: State, all: iset<Triple>, h: History, s: State)
    requires CoherentBooks(up) && SortedState(s0) && WorksTracked(up, s0, h, s) && NothingInvented(s0, h, s)
             && Within(h.pushed, all)
    ensures IsStage(up, all, s0.works, s.works)
  {
    forall w | w in s0.works
      ensures VersionIn(up, all, w, s0.works[w], s.works[w])
    {
      WorkIsVersion(up, s0, all, h, s, w);
    }
  }

  /** An author was denormalized exactly if something was in play for it. */
  lemma CopiedIffPlayed(up: Upstream, s0: State, h: History, s: State, a: ID)
    requires Invariant(up, s0, h, s) && Quiescent(s) && a in s0.authors
    ensures a in h.copies <==> !UnknownAuthor(a) && exists w :: InPlay(s0, h.pushed, s.works, a, w)
  {
    if w :| !UnknownAuthor(a) && InPlay(s0, h.pushed, s.works, a, w) {
      assert Triple(AuthorEdge, a, w) in Pending(s) || WentIn(s0, h, s, a, w);
    }
  }

  lemma SameAuthorAtRest(up: Upstream, s0: State, all: iset<Triple>, h1: History, s1: State, h2: History, s2: State,
                         a: ID)
    requires Invariant(up, s0, h1, s1) && Quiescent(s1) && AllExact(up, s0, h1, s1)
    requires Invariant(up, s0, h2, s2) && Quiescent(s2) && AllExact(up, s0, h2, s2)
    requires h1.pushed == h2.pushed && Within(h1.pushed, all) && Closed(s0, all) && ChoicesAgree(up, s0, all)
    requires s1.works == s2.works && a in s0.authors
    ensures a in s1.authors && a in s2.authors && s1.authors[a] == s2.authors[a]
  {
    CopiedIffPlayed(up, s0, h1, s1, a);
    CopiedIffPlayed(up, s0, h2, s2, a);
    assert AuthorFollows(s0.authors[a], h1.copies, a, s1.authors[a])
           && AuthorFollows(s0.authors[a], h2.copies, a, s2.authors[a]);
    if a in h1.copies {
      var ids := Played(s0, h1, s1, a);
      RestingCopiesAreFetched(up, s0, h1, s1, a);
      RestingCopiesAreFetched(up, s0, h2, s2, a);
      PlayedMayBeAsked(up, s0, all, h1, s1, a);
      WorksAreAStage(up, s0, all, h1, s1);
      assert TwoChoices(up, s0, all, a, s1.works, ids, h1.copies[a], h2.copies[a], s1.authors[a], s2.authors[a]);
    }
  }

  lemma SameWorksAtRest(up: Upstream, s0: State, h1: History, s1: State, h2: History, s2: State)
    requires Invariant(up, s0, h1, s1) && Quiescent(s1) && Invariant(up, s0, h2, s2) && Quiescent(s2)
    requires h1.pushed == h2.pushed
    ensures s1.works == s2.works
  {
    forall w | w in s0.works
      ensures s1.works[w] == s2.works[w]
    {
      RestingWork(up, s0, h1, s1, w);
      RestingWork(up, s0, h2, s2, w);
    }
  }

  lemma SameAtRest(up: Upstream, s0: State, all: iset<Triple>, h1: History, s1: State, h2: History, s2: State)
    requires Invariant(up, s0, h1, s1) && Quiescent(s1) && AllExact(up, s0, h1, s1)
    requires Invariant(up, s0, h2, s2) && Quiescent(s2) && AllExact(up, s0, h2, s2)
    requires h1.pushed == h2.pushed && Within(h1.pushed, all) && Closed(s0, all) && ChoicesAgree(up, s0, all)
    ensures s1 == s2
  {
    SameWorksAtRest(up, s0, h1, s1, h2, s2);
    forall a | a in s0.authors
      ensures s1.authors[a] == s2.authors[a]
    {
      SameAuthorAtRest(up, s0, all, h1, s1, h2, s2, a);
    }
    assert s1.authors == s2.authors;
  }

  /** If stages commute and choices agree, all runs that push the same relationships come to the same rest. */
  lemma CommutingStagesAgree(up: Upstream, s: State, all: iset<Triple>, ts: set<Triple>,
                             states1: seq<State>, labels1: seq<Label>, states2: seq<State>, labels2: seq<Label>)
    requires CoherentBooks(up) && SortedState(s) && Attributed(s.works, Pending(s)) && Closed(s, all)
    requires StagesCommute(up, s, all) && ChoicesAgree(up, s, all) && Within(Pending(s) + ts, all)
    requires RestsAfter(up, s, ts, states1, labels1) && RestsAfter(up, s, ts, states2, labels2)
    ensures states1[|labels1|] == states2[|labels2|]
  {
    assert labels1[..|labels1|] == labels1 && labels2[..|labels2|] == labels2;
    var h1 := RunStaysExact(up, all, states1, labels1, |labels1|);
    var h2 := RunStaysExact(up, all, states2, labels2, |labels2|);
    SameAtRest(up, s, all, h1, states1[|labels1|], h2, states2[|labels2|]);
  }
}
