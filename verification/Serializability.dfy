/**
 Merging edges keeps denormalization serializable: at rest, the cached works and authors depend
 only on the state the run started from and on the set of relationships that were ever pushed.
 How pushes were ordered, merged and interleaved with processing, and the order in which child
 sets were walked, leave no trace.
 */
module Serializability {
  import opened Collections
  import opened SortedList
  import opened Resources
  import opened AuthorPass
  import opened Absorption
  import opened Edges
  import opened Pipeline
  import opened Editing
  import opened Freshness
  import opened Histories
  import opened Rest

  // ---------------------------------------------------------------------------------------
  // What is supposed of the content
  // ---------------------------------------------------------------------------------------

  ghost predicate VersionOf(up: Upstream, work: Work, x: Work)
    requires CoherentBooks(up) && Sorted(work.books, BookID)
  {
    exists ids: set<ID> :: x == Edited(up, work, ids)
  }

  /** A cached work of the author, with whatever editions have been added to it. */
  ghost predicate IsVersionFor(up: Upstream, s: State, a: ID, x: Work)
    requires CoherentBooks(up) && SortedState(s)
  {
    x.books != [] && exists w :: w in s.works && a in s.works[w].authors && VersionOf(up, s.works[w], x)
  }

  /** Cached works of an author, each with whatever editions have been added to it. */
  ghost predicate Versions(up: Upstream, s: State, a: ID, m: map<ID, Work>)
    requires CoherentBooks(up) && SortedState(s)
  {
    Keyed(m, WorkID) && forall k :: k in m ==> IsVersionFor(up, s, a, m[k])
  }

  /** No batch of cached works clashes with a title pass that came before it. */
  ghost predicate TitlesCommute(up: Upstream, s: State)
    requires CoherentBooks(up) && SortedState(s)
  {
    forall a, m1, m2 :: a in s.authors && !UnknownAuthor(a) && Versions(up, s, a, m1) && Versions(up, s, a, m2) ==>
      Absorbed(up, Merge(s.authors[a].works, m1, WorkID), m2)
  }

  ghost predicate AllKnown(up: Upstream, s: State) {
    forall w :: w in s.works ==> KnownBooks(up, s.works[w])
  }

  /** Authors do not hold ratings of a work that its cached copies lack. */
  ghost predicate RatingsKnown(s: State) {
    forall a, i, w :: a in s.authors && 0 <= i < |s.authors[a].works| && w in s.works
                      && s.authors[a].works[i].foreignID == s.works[w].foreignID ==>
      (WorkRatings(s.works[w]).0 == 0 ==> WorkRatings(s.authors[a].works[i]).0 == 0)
  }

  /** Equal ids of editions and series mean equal content, and titles do not clash. */
  ghost predicate Coherent(up: Upstream, s: State) {
    && CoherentBooks(up) && CoherentSeries(up) && SortedState(s)
    && AllKnown(up, s) && RatingsKnown(s)
    && TitlesCommute(up, s)
  }

  /** The cached copies of a work that reach the same author come to be equal. */
  ghost predicate AliasesMeet(up: Upstream, s: State, ts: set<Triple>)
    requires CoherentBooks(up) && SortedState(s)
  {
    forall a, v, w :: a in s.authors && !UnknownAuthor(a) && Alias(s.works, v, w)
                      && Reached(up, s, ts, a, v) && Reached(up, s, ts, a, w)
                      && Final(up, s, ts, v).books != [] && Final(up, s, ts, w).books != [] ==>
      Final(up, s, ts, v) == Final(up, s, ts, w)
  }

  // ---------------------------------------------------------------------------------------
  // What an author is like, exactly
  // ---------------------------------------------------------------------------------------

  /** The author has a rated work, whether or not its current copy went into the author. */
  ghost predicate Rated(s0: State, h: History, s: State, a: ID) {
    exists w :: InPlay(s0, h.pushed, s.works, a, w) && w in s.works && s.works[w].books != []
      && WorkRatings(s.works[w]).0 != 0
  }

  /** The rating is the one of the works, or if nobody rated them, the one from the start. */
  ghost predicate RatingIs(base: Author, merged: seq<Work>, author: Author) {
    var r := Ratings(merged);
    if r.0 != 0 then author.ratingCount == r.0 && author.averageRating == r.1 as real / r.0 as real
    else author.ratingCount == base.ratingCount && author.averageRating == base.averageRating
  }

  /** The author is `base` with the copies, but for a rating from works that have since been replaced. */
  ghost predicate IsWith(up: Upstream, base: Author, copies: map<ID, Work>, author: Author, rated: bool) {
    && Sorted(base.works, WorkID) && Keyed(copies, WorkID)
    && author.foreignID == base.foreignID && author.details == base.details
    && author.works == TitlePass(up, Merge(base.works, copies, WorkID))
    && IsSeriesList(up, Merge(base.works, copies, WorkID), author.series)
    && (RatingIs(base, Merge(base.works, copies, WorkID), author)
        || (rated && Ratings(Merge(base.works, copies, WorkID)).0 == 0))
  }

  ghost predicate AuthorsExact(up: Upstream, s0: State, h: History, s: State) {
    forall a :: a in h.copies ==> AuthorExact(up, s0, h, s, a)
  }

  lemma InPlayGrows(up: Upstream, s0: State, h: History, s: State, h': History, s': State, a: ID, w: ID)
    requires CoherentBooks(up) && SortedState(s0) && WorksTracked(up, s0, h, s) && WorksTracked(up, s0, h', s')
    requires h.pushed <= h'.pushed && h.edited <= h'.edited && InPlay(s0, h.pushed, s.works, a, w)
    ensures InPlay(s0, h'.pushed, s'.works, a, w)
  {
    WorksKeepIDs(up, s0, h, s);
    WorksKeepIDs(up, s0, h', s');
    if Triple(AuthorEdge, a, w) !in h.pushed {
      var some, all := EditionsIn(h.edited, w), EditionsIn(h'.edited, w);
      ChangePersists(up, s0.works[w], some, all);
      UnionOfSubset(some, all);
    }
  }

  lemma RatedGrows(up: Upstream, s0: State, h: History, s: State, h': History, s': State, a: ID)
    requires CoherentBooks(up) && SortedState(s0) && WorksTracked(up, s0, h, s) && WorksTracked(up, s0, h', s')
    requires AllKnown(up, s0)
    requires h.pushed <= h'.pushed && h.edited <= h'.edited && Rated(s0, h, s, a)
    ensures Rated(s0, h', s', a)
  {
    var w :| InPlay(s0, h.pushed, s.works, a, w) && w in s.works && s.works[w].books != []
        && WorkRatings(s.works[w]).0 != 0;
    var some, all := EditionsIn(h.edited, w), EditionsIn(h'.edited, w);
    InPlayGrows(up, s0, h, s, h', s', a, w);
    EditedIsVersion(up, s0.works[w], some);
    VersionOfMore(up, s0.works[w], some, all, s.works[w]);
    VersionNotEmptier(up, s0.works[w], all, s.works[w]);
    VersionNotMoreRated(up, s0.works[w], all, s.works[w]);
  }

  lemma CopiesAreVersions(up: Upstream, s0: State, h: History, s: State, a: ID)
    requires Invariant(up, s0, h, s) && a in h.copies
    ensures Versions(up, s0, a, h.copies[a])
  {
    assert AuthorFollows(s0.authors[a], h.copies, a, s.authors[a]);
    forall k | k in h.copies[a]
      ensures IsVersionFor(up, s0, a, h.copies[a][k])
    {
      var w :| IsCopy(up, s0, h, s, a, k, h.copies[a][k], w);
      InPlayIsAttributed(up, s0, h, s, a, w);
      assert VersionOf(up, s0.works[w], h.copies[a][k]);
    }
  }

  lemma BatchIsVersions(up: Upstream, s0: State, h: History, s: State, a: ID, ids: set<ID>, batch: map<ID, Work>,
                        s': State)
    requires Invariant(up, s0, h, s) && DenormalizesOne(up, s, a, ids, batch, s')
    ensures Versions(up, s0, a, batch)
  {
    forall k | k in batch
      ensures IsVersionFor(up, s0, a, batch[k])
    {
      FetchedIsCopy(up, s0, h, s, a, ids, batch, s', k);
      var w :| IsCopy(up, s0, h, s, a, k, batch[k], w);
      InPlayIsAttributed(up, s0, h, s, a, w);
      assert VersionOf(up, s0.works[w], batch[k]);
    }
  }

  /** If a batch takes all ratings away from an author's works, it replaces a rated one. */
  lemma RatingsTakenAway(works: seq<Work>, batch: map<ID, Work>) returns (j: nat)
    requires Sorted(works, WorkID) && Keyed(batch, WorkID)
    requires Ratings(works).0 != 0 && Ratings(Merge(works, batch, WorkID)).0 == 0
    ensures j < |works| && WorkRatings(works[j]).0 != 0 && works[j].foreignID in batch
  {
    NoRatings(works);
    NoRatings(Merge(works, batch, WorkID));
    j :| 0 <= j < |works| && WorkRatings(works[j]).0 != 0;
    var i := MergeKeepsPlaces(works, batch, j);
  }

  /** The batch takes all ratings away from the works. */
  ghost predicate LosesRating(base: seq<Work>, copies: map<ID, Work>, batch: map<ID, Work>)
    requires Sorted(base, WorkID) && Keyed(copies, WorkID) && Keyed(batch, WorkID)
  {
    Ratings(Merge(base, copies, WorkID)).0 != 0 && Ratings(Merge(Merge(base, copies, WorkID), batch, WorkID)).0 == 0
  }

  lemma RatedEntry(base: seq<Work>, copies: map<ID, Work>, batch: map<ID, Work>) returns (k: ID, i: nat)
    requires Sorted(base, WorkID) && Keyed(copies, WorkID) && Keyed(batch, WorkID)
    requires LosesRating(base, copies, batch)
    ensures k in batch
    ensures if k in copies then WorkRatings(copies[k]).0 != 0
            else i < |base| && base[i].foreignID == k && WorkRatings(base[i]).0 != 0
  {
    var j := RatingsTakenAway(Merge(base, copies, WorkID), batch);
    i := MergedAt(base, copies, j);
    k := Merge(base, copies, WorkID)[j].foreignID;
  }

  /** Then the author still has a rated work. */
  lemma LostRating(up: Upstream, s0: State, h: History, s: State, a: ID, batch: map<ID, Work>)
    requires CoherentBooks(up) && SortedState(s0) && WorksTracked(up, s0, h, s) && RatingsKnown(s0) && AllKnown(up, s0)
    requires a in s0.authors && a in h.copies && Keyed(h.copies[a], WorkID) && Keyed(batch, WorkID)
    requires AreCopies(up, s0, h, s, a, h.copies[a]) && AreCopies(up, s0, h, s, a, batch)
    requires LosesRating(s0.authors[a].works, h.copies[a], batch)
    ensures Rated(s0, h, s, a)
  {
    var k, i := RatedEntry(s0.authors[a].works, h.copies[a], batch);
    if k in h.copies[a] {
      CopyEntryIsRated(up, s0, h, s, a, h.copies[a], k);
    } else {
      BaseIsRated(up, s0, h, s, a, i, batch);
    }
  }

  /** Versions of cached works that are in play for the author. */
  ghost predicate AreCopies(up: Upstream, s0: State, h: History, s: State, a: ID, m: map<ID, Work>)
    requires CoherentBooks(up) && SortedState(s0)
  {
    forall k :: k in m ==> exists w :: IsCopy(up, s0, h, s, a, k, m[k], w)
  }

  lemma CopyEntryIsRated(up: Upstream, s0: State, h: History, s: State, a: ID, copies: map<ID, Work>, k: ID)
    requires CoherentBooks(up) && SortedState(s0) && WorksTracked(up, s0, h, s) && AllKnown(up, s0)
    requires AreCopies(up, s0, h, s, a, copies) && k in copies && WorkRatings(copies[k]).0 != 0
    ensures Rated(s0, h, s, a)
  {
    var w :| IsCopy(up, s0, h, s, a, k, copies[k], w);
    CopyIsRated(up, s0, h, s, a, k, copies[k], w, copies[k]);
  }

  lemma BaseIsRated(up: Upstream, s0: State, h: History, s: State, a: ID, i: nat, batch: map<ID, Work>)
    requires CoherentBooks(up) && SortedState(s0) && WorksTracked(up, s0, h, s) && RatingsKnown(s0) && AllKnown(up, s0)
    requires a in s0.authors && i < |s0.authors[a].works| && WorkRatings(s0.authors[a].works[i]).0 != 0
    requires AreCopies(up, s0, h, s, a, batch) && s0.authors[a].works[i].foreignID in batch
    ensures Rated(s0, h, s, a)
  {
    var k := s0.authors[a].works[i].foreignID;
    var w :| IsCopy(up, s0, h, s, a, k, batch[k], w);
    EditedKeepsIdentity(up, s0.works[w], EditionsIn(h.edited, w));
    OriginalIsVersion(up, s0.works[w], EditionsIn(h.edited, w));
    CopyIsRated(up, s0, h, s, a, k, batch[k], w, s0.works[w]);
  }

  lemma OriginalIsVersion(up: Upstream, work: Work, ids: set<ID>)
    requires CoherentBooks(up) && Sorted(work.books, BookID)
    ensures IsVersion(up, work, ids, work)
  {
    EditingNothing(up, work);
    assert {} <= ids;
  }

  lemma CopyIsRated(up: Upstream, s0: State, h: History, s: State, a: ID, k: ID, copy: Work, w: ID, x: Work)
    requires CoherentBooks(up) && SortedState(s0) && WorksTracked(up, s0, h, s)
    requires IsCopy(up, s0, h, s, a, k, copy, w) && KnownBooks(up, s0.works[w])
    requires IsVersion(up, s0.works[w], EditionsIn(h.edited, w), x) && WorkRatings(x).0 != 0
    ensures Rated(s0, h, s, a)
  {
    VersionNotEmptier(up, s0.works[w], EditionsIn(h.edited, w), copy);
    VersionNotMoreRated(up, s0.works[w], EditionsIn(h.edited, w), x);
  }

  // ---------------------------------------------------------------------------------------
  // Every step keeps the authors exact
  // ---------------------------------------------------------------------------------------

  /** The first denormalization of an author. */
  lemma FirstIsExact(up: Upstream, base: Author, batch: map<ID, Work>, done: Author)
    requires IsDenormalized(up, base, batch, done)
    ensures IsWith(up, base, batch, done, false)
  {
  }

  /** A further one. */
  lemma FurtherIsExact(up: Upstream, base: Author, copies: map<ID, Work>, author: Author, batch: map<ID, Work>,
                       done: Author, rated: bool)
    requires IsWith(up, base, copies, author, rated) && IsDenormalized(up, author, batch, done)
    requires Absorbed(up, Merge(base.works, copies, WorkID), batch)
    requires LosesRating(base.works, copies, batch) ==> rated
    ensures IsWith(up, base, copies + batch, done, rated)
  {
    var works := Merge(base.works, copies, WorkID);
    MergeTwice(base.works, copies, batch, WorkID);
    EarlyIsRetitled(up, works, batch);
    RetitledKeepsTheRest(Merge(works, batch, WorkID), Given(up, works, batch));
    FurtherRating(base, works, author, Merge(TitlePass(up, works), batch, WorkID), Merge(works, batch, WorkID), done,
                  rated);
  }

  lemma {:induction false} FurtherRating(base: Author, works: seq<Work>, author: Author, early: seq<Work>,
                                         late: seq<Work>, done: Author,
                                         rated: bool)
    requires RatingIs(base, works, author) || (rated && Ratings(works).0 == 0)
    requires RatingIs(author, early, done) && Ratings(early) == Ratings(late)
    requires Ratings(works).0 != 0 && Ratings(late).0 == 0 ==> rated
    ensures RatingIs(base, late, done) || (rated && Ratings(late).0 == 0)
  {
  }

  lemma CopiesAreCopies(up: Upstream, s0: State, h: History, s: State, a: ID)
    requires Invariant(up, s0, h, s) && a in h.copies
    ensures AreCopies(up, s0, h, s, a, h.copies[a]) && Keyed(h.copies[a], WorkID)
  {
    assert AuthorFollows(s0.authors[a], h.copies, a, s.authors[a]);
  }

  lemma BatchAreCopies(up: Upstream, s0: State, h: History, s: State, a: ID, ids: set<ID>, batch: map<ID, Work>,
                       s': State)
    requires CoherentBooks(up) && SortedState(s0) && WorksTracked(up, s0, h, s) && NothingInvented(s0, h, s)
    requires DenormalizesOne(up, s, a, ids, batch, s')
    ensures AreCopies(up, s0, h, s, a, batch) && Keyed(batch, WorkID)
  {
    forall k | k in batch
      ensures exists w :: IsCopy(up, s0, h, s, a, k, batch[k], w)
    {
      FetchedIsCopy(up, s0, h, s, a, ids, batch, s', k);
    }
  }

  lemma CopiesCommute(up: Upstream, s0: State, h: History, s: State, a: ID, ids: set<ID>, batch: map<ID, Work>,
                      s': State)
    requires Invariant(up, s0, h, s) && TitlesCommute(up, s0) && DenormalizesOne(up, s, a, ids, batch, s')
             && a in h.copies
    ensures Keyed(h.copies[a], WorkID) && Absorbed(up, Merge(s0.authors[a].works, h.copies[a], WorkID), batch)
  {
    CopiesAreVersions(up, s0, h, s, a);
    BatchIsVersions(up, s0, h, s, a, ids, batch, s');
  }

  lemma DenormalizedIsExact(up: Upstream, s0: State, h: History, s: State, a: ID, ids: set<ID>, batch: map<ID, Work>,
                            s': State)
    requires Invariant(up, s0, h, s) && Coherent(up, s0) && AuthorsExact(up, s0, h, s)
             && DenormalizesOne(up, s, a, ids, batch, s')
    ensures IsWith(up, s0.authors[a], CopiesOf(h, a) + batch, s'.authors[a], Rated(s0, h, s, a))
  {
    if a in h.copies {
      CopiesCommute(up, s0, h, s, a, ids, batch, s');
      CopiesAreCopies(up, s0, h, s, a);
      BatchAreCopies(up, s0, h, s, a, ids, batch, s');
      if LosesRating(s0.authors[a].works, h.copies[a], batch) { LostRating(up, s0, h, s, a, batch); }
      FurtherIsExact(up, s0.authors[a], h.copies[a], s.authors[a], batch, s'.authors[a], Rated(s0, h, s, a));
    } else {
      assert AuthorFollows(s0.authors[a], h.copies, a, s.authors[a]);
      EmptyMapUnion(batch);
      FirstIsExact(up, s0.authors[a], batch, s'.authors[a]);
    }
  }

  lemma StaysExact(up: Upstream, base: Author, copies: map<ID, Work>, author: Author, rated: bool, rated': bool)
    requires IsWith(up, base, copies, author, rated) && (rated ==> rated')
    ensures IsWith(up, base, copies, author, rated')
  {
  }

  ghost predicate AuthorExact(up: Upstream, s0: State, h: History, s: State, a: ID) {
    a in h.copies ==>
      a in s0.authors && a in s.authors && IsWith(up, s0.authors[a], h.copies[a], s.authors[a], Rated(s0, h, s, a))
  }

  lemma SameStaysExact(up: Upstream, s0: State, h: History, s: State, h': History, s': State, a: ID)
    requires CoherentBooks(up) && SortedState(s0) && WorksTracked(up, s0, h, s) && WorksTracked(up, s0, h', s')
             && AllKnown(up, s0)
    requires h.pushed <= h'.pushed && h.edited <= h'.edited && AuthorExact(up, s0, h, s, a)
    requires a in h'.copies ==>
               a in h.copies && a in s'.authors && a in s.authors && h'.copies[a] == h.copies[a]
                 && s'.authors[a] == s.authors[a]
    ensures AuthorExact(up, s0, h', s', a)
  {
    if a in h'.copies {
      if Rated(s0, h, s, a) { RatedGrows(up, s0, h, s, h', s', a); }
      StaysExact(up, s0.authors[a], h.copies[a], s.authors[a], Rated(s0, h, s, a), Rated(s0, h', s', a));
    }
  }

  lemma NewStaysExact(up: Upstream, s0: State, h: History, s: State, a: ID, ids: set<ID>, batch: map<ID, Work>,
                      s': State)
    requires Invariant(up, s0, h, s) && Coherent(up, s0) && AuthorsExact(up, s0, h, s)
             && DenormalizesOne(up, s, a, ids, batch, s')
    requires WorksTracked(up, s0, WithCopies(h, a, batch), s')
    ensures AuthorExact(up, s0, WithCopies(h, a, batch), s', a)
  {
    var h' := WithCopies(h, a, batch);
    DenormalizedIsExact(up, s0, h, s, a, ids, batch, s');
    if Rated(s0, h, s, a) { RatedGrows(up, s0, h, s, h', s', a); }
    StaysExact(up, s0.authors[a], h'.copies[a], s'.authors[a], Rated(s0, h, s, a), Rated(s0, h', s', a));
  }

  lemma OthersStayExact(up: Upstream, s0: State, h: History, s: State, a: ID, batch: map<ID, Work>, s': State)
    requires CoherentBooks(up) && SortedState(s0) && AllKnown(up, s0)
    requires WorksTracked(up, s0, h, s) && WorksTracked(up, s0, WithCopies(h, a, batch), s')
    requires AuthorsExact(up, s0, h, s) && s'.authors.Keys == s.authors.Keys
    requires forall b :: b in s.authors && b != a ==> s'.authors[b] == s.authors[b]
    ensures forall b :: b in WithCopies(h, a, batch).copies && b != a ==>
              AuthorExact(up, s0, WithCopies(h, a, batch), s', b)
  {
    forall b | b in WithCopies(h, a, batch).copies && b != a
      ensures AuthorExact(up, s0, WithCopies(h, a, batch), s', b)
    {
      SameStaysExact(up, s0, h, s, WithCopies(h, a, batch), s', b);
    }
  }

  lemma DenormalizationKeepsExact(up: Upstream, s0: State, h: History, s: State, a: ID, ids: set<ID>,
                                  batch: map<ID, Work>, s': State)
    requires Invariant(up, s0, h, s) && Coherent(up, s0) && AuthorsExact(up, s0, h, s)
             && DenormalizesOne(up, s, a, ids, batch, s')
    requires WorksTracked(up, s0, WithCopies(h, a, batch), s')
    ensures AuthorsExact(up, s0, WithCopies(h, a, batch), s')
  {
    NewStaysExact(up, s0, h, s, a, ids, batch, s');
    OthersStayExact(up, s0, h, s, a, batch, s');
    AllExact(up, s0, WithCopies(h, a, batch), s', a);
  }

  lemma AllExact(up: Upstream, s0: State, h: History, s: State, a: ID)
    requires AuthorExact(up, s0, h, s, a)
    requires forall b :: b in h.copies && b != a ==> AuthorExact(up, s0, h, s, b)
    ensures AuthorsExact(up, s0, h, s)
  {
  }

  lemma StepKeepsExact(up: Upstream, s0: State, h: History, s: State, h': History, s': State)
    requires Invariant(up, s0, h, s) && Invariant(up, s0, h', s') && Coherent(up, s0)
    requires AuthorsExact(up, s0, h, s) && Records(up, h, s, h', s')
    ensures AuthorsExact(up, s0, h', s')
  {
    if h'.copies == h.copies && s'.authors == s.authors {
      forall a | a in h'.copies {
        SameStaysExact(up, s0, h, s, h', s', a);
      }
    } else {
      var a, ids, batch :| DenormalizesOne(up, s, a, ids, batch, s') && h' == WithCopies(h, a, batch);
      DenormalizationKeepsExact(up, s0, h, s, a, ids, batch, s');
    }
  }

  lemma {:induction false} RunIsExact(up: Upstream, states: seq<State>, labels: seq<Label>, n: nat) returns (h: History)
    requires n <= |labels| && Trace(up, states, labels) && Admissible(states[0], labels)
    requires Coherent(up, states[0]) && Attributed(states[0].works, Pending(states[0]))
    ensures Invariant(up, states[0], h, states[n]) && AuthorsExact(up, states[0], h, states[n])
    ensures h.pushed == Pending(states[0]) + Pushed(labels[..n])
  {
    if n == 0 {
      h := History(Pending(states[0]), {}, map[]);
      StartHolds(up, states[0]);
    } else {
      var before := RunIsExact(up, states, labels, n - 1);
      PushedNext(labels, n - 1);
      h := StepHolds(up, states[0], before, states[n - 1], labels[n - 1], states[n]);
      StepKeepsExact(up, states[0], before, states[n - 1], h, states[n]);
    }
  }

  // ---------------------------------------------------------------------------------------
  // At rest everything is determined
  // ---------------------------------------------------------------------------------------

  /** An author is denormalized exactly if some relationship reaches it. */
  lemma DenormalizedIffReached(up: Upstream, s0: State, h: History, s: State, a: ID)
    requires Invariant(up, s0, h, s) && Quiescent(s) && a in s0.authors
    ensures a in h.copies <==> !UnknownAuthor(a) && exists w :: Reached(up, s0, h.pushed, a, w)
  {
    if a in h.copies {
      var w :| InPlay(s0, h.pushed, s.works, a, w);
      InPlayIsReached(up, s0, h, s, a, w);
    }
    if w :| !UnknownAuthor(a) && Reached(up, s0, h.pushed, a, w) {
      ReachedIsDenormalized(up, s0, h, s, a, w);
    }
  }

  lemma ReachedIsDenormalized(up: Upstream, s0: State, h: History, s: State, a: ID, w: ID)
    requires Invariant(up, s0, h, s) && Quiescent(s) && a in s0.authors && !UnknownAuthor(a)
    requires Reached(up, s0, h.pushed, a, w)
    ensures a in h.copies
  {
    InPlayIsReached(up, s0, h, s, a, w);
    assert WentIn(s0, h, s, a, w);
  }

  /** The copy that one resting run holds, the other holds too. */
  lemma RestingCopiesMeet(up: Upstream, s0: State, h1: History, s1: State, h2: History, s2: State, a: ID, k: ID)
    requires Invariant(up, s0, h1, s1) && Quiescent(s1)
    requires Invariant(up, s0, h2, s2) && Quiescent(s2)
    requires h1.pushed == h2.pushed && AliasesMeet(up, s0, h1.pushed)
    requires a in h1.copies && k in h1.copies[a]
    ensures a in h2.copies && k in h2.copies[a] && h2.copies[a][k] == h1.copies[a][k]
  {
    var v := RestingCopy(up, s0, h1, s1, a, k);
    RestingWork(up, s0, h1, s1, v);
    RestingWork(up, s0, h2, s2, v);
    InPlayIsReached(up, s0, h1, s1, a, v);
    InPlayIsReached(up, s0, h2, s2, a, v);
    var u := RestingPair(up, s0, h2, s2, a, v);
    RestingWork(up, s0, h2, s2, u);
    InPlayIsReached(up, s0, h2, s2, a, u);
    RestingAlias(up, s0, h2, s2, u, v);
  }

  lemma RestingCopiesAgree(up: Upstream, s0: State, h1: History, s1: State, h2: History, s2: State, a: ID)
    requires Invariant(up, s0, h1, s1) && Quiescent(s1)
    requires Invariant(up, s0, h2, s2) && Quiescent(s2)
    requires h1.pushed == h2.pushed && AliasesMeet(up, s0, h1.pushed) && a in s0.authors
    ensures a in h1.copies <==> a in h2.copies
    ensures a in h1.copies ==> h1.copies[a] == h2.copies[a]
  {
    DenormalizedIffReached(up, s0, h1, s1, a);
    DenormalizedIffReached(up, s0, h2, s2, a);
    if a in h1.copies {
      forall k | k in h1.copies[a]
        ensures k in h2.copies[a] && h2.copies[a][k] == h1.copies[a][k]
      {
        RestingCopiesMeet(up, s0, h1, s1, h2, s2, a, k);
      }
      forall k | k in h2.copies[a]
        ensures k in h1.copies[a]
      {
        RestingCopiesMeet(up, s0, h2, s2, h1, s1, a, k);
      }
      SameCopies(h1.copies[a], h2.copies[a]);
    }
  }

  lemma SameCopies(x: map<ID, Work>, y: map<ID, Work>)
    requires forall k :: k in x ==> k in y && y[k] == x[k]
    requires forall k :: k in y ==> k in x
    ensures x == y
  {
  }

  /** At rest a rated work is one whose current copy went into the author. */
  lemma RatedIsCounted(up: Upstream, s0: State, h: History, s: State, a: ID)
    requires Invariant(up, s0, h, s) && Quiescent(s) && AliasesMeet(up, s0, h.pushed)
    requires a in h.copies && Rated(s0, h, s, a)
    ensures a in s0.authors && Keyed(h.copies[a], WorkID)
            && Ratings(Merge(s0.authors[a].works, h.copies[a], WorkID)).0 != 0
  {
    CopiesAreCopies(up, s0, h, s, a);
    var w :| InPlay(s0, h.pushed, s.works, a, w) && w in s.works && s.works[w].books != []
        && WorkRatings(s.works[w]).0 != 0;
    var v := RestingPair(up, s0, h, s, a, w);
    InPlayIsReached(up, s0, h, s, a, v);
    InPlayIsReached(up, s0, h, s, a, w);
    RestingWork(up, s0, h, s, v);
    RestingWork(up, s0, h, s, w);
    RestingAlias(up, s0, h, s, v, w);
    RatedCopyCounts(s0.authors[a].works, h.copies[a], s.works[w].foreignID);
  }

  lemma RatedCopyCounts(base: seq<Work>, copies: map<ID, Work>, k: ID)
    requires Sorted(base, WorkID) && Keyed(copies, WorkID) && k in copies && WorkRatings(copies[k]).0 != 0
    ensures Ratings(Merge(base, copies, WorkID)).0 != 0
  {
    var merged := Merge(base, copies, WorkID);
    NoRatings(merged);
    var i := MapAt(merged, WorkID, k);
  }

  lemma WithIsUnique(up: Upstream, base: Author, copies: map<ID, Work>, x: Author, y: Author)
    requires CoherentSeries(up) && IsWith(up, base, copies, x, false) && IsWith(up, base, copies, y, false)
    ensures x == y
  {
    var fetched := FetchedSeries(up, RequestedSeries(Merge(base.works, copies, WorkID)));
    SelectionIsIndex(ToMap(x.series, SeriesID), fetched, SeriesID);
    SelectionIsIndex(ToMap(y.series, SeriesID), fetched, SeriesID);
    SortedListsAreEqual(x.series, y.series, SeriesID);
  }

  lemma RestingIsExact(up: Upstream, s0: State, h: History, s: State, a: ID)
    requires Invariant(up, s0, h, s) && Quiescent(s) && AliasesMeet(up, s0, h.pushed) && AuthorsExact(up, s0, h, s)
    requires a in h.copies
    ensures a in s0.authors && a in s.authors && IsWith(up, s0.authors[a], h.copies[a], s.authors[a], false)
  {
    if Rated(s0, h, s, a) { RatedIsCounted(up, s0, h, s, a); }
  }

  lemma RestingAuthor(up: Upstream, s0: State, h1: History, s1: State, h2: History, s2: State, a: ID)
    requires Invariant(up, s0, h1, s1) && Quiescent(s1) && AuthorsExact(up, s0, h1, s1)
    requires Invariant(up, s0, h2, s2) && Quiescent(s2) && AuthorsExact(up, s0, h2, s2)
    requires h1.pushed == h2.pushed && AliasesMeet(up, s0, h1.pushed) && CoherentSeries(up) && a in s0.authors
    ensures a in s1.authors && a in s2.authors && s1.authors[a] == s2.authors[a]
  {
    RestingCopiesAgree(up, s0, h1, s1, h2, s2, a);
    assert AuthorFollows(s0.authors[a], h1.copies, a, s1.authors[a])
           && AuthorFollows(s0.authors[a], h2.copies, a, s2.authors[a]);
    if a in h1.copies {
      RestingIsExact(up, s0, h1, s1, a);
      RestingIsExact(up, s0, h2, s2, a);
      WithIsUnique(up, s0.authors[a], h1.copies[a], s1.authors[a], s2.authors[a]);
    }
  }

  lemma SameMap<T>(keys: set<ID>, x: map<ID, T>, y: map<ID, T>)
    requires x.Keys == keys && y.Keys == keys
    requires forall k :: k in keys ==> x[k] == y[k]
    ensures x == y
  {
  }

  /** Two runs that pushed the same relationships end with the same works and authors. */
  lemma RestIsDetermined(up: Upstream, s0: State, h1: History, s1: State, h2: History, s2: State)
    requires Invariant(up, s0, h1, s1) && Quiescent(s1) && AuthorsExact(up, s0, h1, s1)
    requires Invariant(up, s0, h2, s2) && Quiescent(s2) && AuthorsExact(up, s0, h2, s2)
    requires h1.pushed == h2.pushed && AliasesMeet(up, s0, h1.pushed) && CoherentSeries(up)
    ensures s1 == s2
  {
    forall w | w in s0.works
      ensures w in s1.works && w in s2.works && s1.works[w] == s2.works[w]
    {
      RestingWork(up, s0, h1, s1, w);
      RestingWork(up, s0, h2, s2, w);
    }
    SameMap(s0.works.Keys, s1.works, s2.works);
    forall a | a in s0.authors
      ensures a in s1.authors && a in s2.authors && s1.authors[a] == s2.authors[a]
    {
      RestingAuthor(up, s0, h1, s1, h2, s2, a);
    }
    SameMap(s0.authors.Keys, s1.authors, s2.authors);
  }

  lemma RestIsExact(up: Upstream, s: State, ts: set<Triple>, states: seq<State>, labels: seq<Label>)
    returns (h: History)
    requires Coherent(up, s) && Attributed(s.works, Pending(s)) && RestsAfter(up, s, ts, states, labels)
    ensures Invariant(up, s, h, states[|labels|]) && AuthorsExact(up, s, h, states[|labels|])
    ensures h.pushed == Pending(s) + ts
  {
    h := RunIsExact(up, states, labels, |labels|);
    assert labels[..|labels|] == labels;
  }

  /**
   Serializability. Two runs from the same state that push the same set of relationships, in any
   order, merged in any way and interleaved with processing in any way, come to the same rest.
   */
  lemma DenormalizationIsSerializable(up: Upstream, s: State, ts: set<Triple>,
                                      states1: seq<State>, labels1: seq<Label>, states2: seq<State>,
                                      labels2: seq<Label>)
    requires Coherent(up, s) && Attributed(s.works, Pending(s)) && AliasesMeet(up, s, Pending(s) + ts)
    requires RestsAfter(up, s, ts, states1, labels1) && RestsAfter(up, s, ts, states2, labels2)
    ensures states1[|labels1|] == states2[|labels2|]
  {
    var h1 := RestIsExact(up, s, ts, states1, labels1);
    var h2 := RestIsExact(up, s, ts, states2, labels2);
    RestIsDetermined(up, s, h1, states1[|labels1|], h2, states2[|labels2|]);
  }

  // ---------------------------------------------------------------------------------------
  // Rest is coherent again
  // ---------------------------------------------------------------------------------------

  /** Cached copies of one work are all rated or all unrated. */
  ghost predicate RatedAlike(works: map<ID, Work>) {
    forall v, w :: Alias(works, v, w) ==> (WorkRatings(works[v]).0 == 0 <==> WorkRatings(works[w]).0 == 0)
  }

  lemma VersionWas(up: Upstream, s0: State, h: History, s: State, a: ID, x: Work)
    requires CoherentBooks(up) && SortedState(s0) && WorksTracked(up, s0, h, s) && SortedState(s)
             && IsVersionFor(up, s, a, x)
    ensures IsVersionFor(up, s0, a, x)
  {
    var w :| w in s.works && a in s.works[w].authors && VersionOf(up, s.works[w], x);
    EditedKeepsIdentity(up, s0.works[w], EditionsIn(h.edited, w));
    VersionOfEdited(up, s0.works[w], EditionsIn(h.edited, w), x);
  }

  lemma VersionOfEdited(up: Upstream, work: Work, done: set<ID>, x: Work)
    requires CoherentBooks(up) && Sorted(work.books, BookID) && Sorted(Edited(up, work, done).books, BookID)
    requires VersionOf(up, Edited(up, work, done), x)
    ensures VersionOf(up, work, x)
  {
    var ids: set<ID> :| x == Edited(up, Edited(up, work, done), ids);
    var all := done + ids;
    EditingTwice(up, work, done, ids);
    EditedIsVersionOf(up, work, all);
  }

  lemma EditedIsVersionOf(up: Upstream, work: Work, ids: set<ID>)
    requires CoherentBooks(up) && Sorted(work.books, BookID)
    ensures VersionOf(up, work, Edited(up, work, ids))
  {
  }

  lemma VersionsWere(up: Upstream, s0: State, h: History, s: State, a: ID, m: map<ID, Work>)
    requires CoherentBooks(up) && SortedState(s0) && WorksTracked(up, s0, h, s) && SortedState(s)
             && Versions(up, s, a, m)
    ensures Versions(up, s0, a, m)
  {
    forall k | k in m
      ensures IsVersionFor(up, s0, a, m[k])
    {
      VersionWas(up, s0, h, s, a, m[k]);
    }
  }

  lemma VersionsUnion(up: Upstream, s: State, a: ID, m1: map<ID, Work>, m2: map<ID, Work>)
    requires CoherentBooks(up) && SortedState(s) && Versions(up, s, a, m1) && Versions(up, s, a, m2)
    ensures Versions(up, s, a, m1 + m2)
  {
  }

  /** After one pass was absorbed, the next one still is. */
  lemma AbsorbedAgain(up: Upstream, works: seq<Work>, m1: map<ID, Work>, m2: map<ID, Work>)
    requires Sorted(works, WorkID) && Keyed(m1, WorkID) && Keyed(m2, WorkID) && Keyed(m1 + m2, WorkID)
    requires Absorbed(up, works, m1) && Absorbed(up, Merge(works, m1, WorkID), m2) && Absorbed(up, works, m1 + m2)
    ensures Sorted(TitlePass(up, works), WorkID) && Absorbed(up, Merge(TitlePass(up, works), m1, WorkID), m2)
  {
    PassKeepsKeys(up, works);
    MergeTwice(works, m1, m2, WorkID);
    MergeTwice(TitlePass(up, works), m1, m2, WorkID);
  }

  lemma TitlesCommuteFor(up: Upstream, s0: State, h: History, s: State, a: ID, m1: map<ID, Work>, m2: map<ID, Work>)
    requires Invariant(up, s0, h, s) && TitlesCommute(up, s0) && a in h.copies && AuthorExact(up, s0, h, s, a)
    requires Versions(up, s0, a, m1) && Versions(up, s0, a, m2)
    ensures a in s.authors && Sorted(s.authors[a].works, WorkID)
            && Absorbed(up, Merge(s.authors[a].works, m1, WorkID), m2)
  {
    var base, c := s0.authors[a].works, h.copies[a];
    CopiesAreVersions(up, s0, h, s, a);
    VersionsUnion(up, s0, a, c, m1);
    VersionsUnion(up, s0, a, m1, m2);
    MergeTwice(base, c, m1, WorkID);
    AbsorbedAgain(up, Merge(base, c, WorkID), m1, m2);
  }

  lemma RestTitlesCommute(up: Upstream, s0: State, h: History, s: State)
    requires Invariant(up, s0, h, s) && TitlesCommute(up, s0) && AuthorsExact(up, s0, h, s) && SortedState(s)
    ensures TitlesCommute(up, s)
  {
    forall a, m1: map<ID, Work>, m2: map<ID, Work> |
      a in s.authors && !UnknownAuthor(a) && Versions(up, s, a, m1) && Versions(up, s, a, m2)
      ensures Absorbed(up, Merge(s.authors[a].works, m1, WorkID), m2)
    {
      VersionsWere(up, s0, h, s, a, m1);
      VersionsWere(up, s0, h, s, a, m2);
      if a in h.copies {
        TitlesCommuteFor(up, s0, h, s, a, m1, m2);
      } else {
        assert AuthorFollows(s0.authors[a], h.copies, a, s.authors[a]);
      }
    }
  }

  lemma RestIsKnown(up: Upstream, s0: State, h: History, s: State)
    requires CoherentBooks(up) && SortedState(s0) && WorksTracked(up, s0, h, s) && AllKnown(up, s0)
    ensures AllKnown(up, s)
  {
    forall w | w in s.works
      ensures KnownBooks(up, s.works[w])
    {
      EditedIsKnown(up, s0.works[w], EditionsIn(h.edited, w));
    }
  }

  /** The copies that went into an author are rated if a cached copy is; the others were before. */
  lemma EntryIsKnown(up: Upstream, s0: State, h: History, s: State, a: ID, i: nat, w: ID)
    requires Invariant(up, s0, h, s) && Quiescent(s) && RatingsKnown(s0) && AllKnown(up, s0) && RatedAlike(s.works)
    requires a in h.copies && a in s0.authors && Keyed(h.copies[a], WorkID)
    requires i < |Merge(s0.authors[a].works, h.copies[a], WorkID)| && w in s.works
    requires Merge(s0.authors[a].works, h.copies[a], WorkID)[i].foreignID == s.works[w].foreignID
    requires WorkRatings(s.works[w]).0 == 0
    ensures WorkRatings(Merge(s0.authors[a].works, h.copies[a], WorkID)[i]).0 == 0
  {
    var k := s.works[w].foreignID;
    var j := MergedAt(s0.authors[a].works, h.copies[a], i);
    if k in h.copies[a] {
      var v := RestingCopy(up, s0, h, s, a, k);
      assert Alias(s.works, v, w);
    } else {
      UnratedWas(up, s0, h, s, w);
    }
  }

  lemma UnratedWas(up: Upstream, s0: State, h: History, s: State, w: ID)
    requires CoherentBooks(up) && SortedState(s0) && WorksTracked(up, s0, h, s) && AllKnown(up, s0)
    requires w in s.works && WorkRatings(s.works[w]).0 == 0
    ensures s0.works[w].foreignID == s.works[w].foreignID && WorkRatings(s0.works[w]).0 == 0
  {
    EditedSupersedes(up, s0.works[w], EditionsIn(h.edited, w));
  }

  lemma RestRatingsKnown(up: Upstream, s0: State, h: History, s: State)
    requires Invariant(up, s0, h, s) && Quiescent(s) && AuthorsExact(up, s0, h, s)
    requires RatingsKnown(s0) && AllKnown(up, s0) && RatedAlike(s.works)
    ensures RatingsKnown(s)
  {
    forall a, i, w | a in s.authors && 0 <= i < |s.authors[a].works| && w in s.works
                     && s.authors[a].works[i].foreignID == s.works[w].foreignID && WorkRatings(s.works[w]).0 == 0
      ensures WorkRatings(s.authors[a].works[i]).0 == 0
    {
      AuthorRatingKnown(up, s0, h, s, a, i, w);
    }
  }

  lemma AuthorRatingKnown(up: Upstream, s0: State, h: History, s: State, a: ID, i: nat, w: ID)
    requires Invariant(up, s0, h, s) && Quiescent(s) && AuthorsExact(up, s0, h, s)
    requires RatingsKnown(s0) && AllKnown(up, s0) && RatedAlike(s.works)
    requires a in s.authors && i < |s.authors[a].works| && w in s.works
    requires s.authors[a].works[i].foreignID == s.works[w].foreignID && WorkRatings(s.works[w]).0 == 0
    ensures WorkRatings(s.authors[a].works[i]).0 == 0
  {
    assert AuthorFollows(s0.authors[a], h.copies, a, s.authors[a]);
    if a in h.copies {
      var merged := Merge(s0.authors[a].works, h.copies[a], WorkID);
      assert SameUpToTitles(s.authors[a].works[i], merged[i]);
      WorkRatingsIgnoreTitles(s.authors[a].works[i], merged[i]);
      assert StripTitles(s.authors[a].works[i]).foreignID == StripTitles(merged[i]).foreignID;
      EntryIsKnown(up, s0, h, s, a, i, w);
    } else {
      UnratedWas(up, s0, h, s, w);
    }
  }

  /** So runs can be put one after the other: a coherent state comes to a coherent rest. */
  lemma RestIsCoherent(up: Upstream, s: State, ts: set<Triple>, states: seq<State>, labels: seq<Label>)
    requires Coherent(up, s) && Attributed(s.works, Pending(s)) && RestsAfter(up, s, ts, states, labels)
    requires RatedAlike(states[|labels|].works)
    ensures Coherent(up, states[|labels|])
  {
    var h := RestIsExact(up, s, ts, states, labels);
    var end := states[|labels|];
    RunKeepsSorted(up, states, labels);
    RestTitlesCommute(up, s, h, end);
    RestIsKnown(up, s, h, end);
    RestRatingsKnown(up, s, h, end);
  }

  // ---------------------------------------------------------------------------------------
  // Short titles
  // ---------------------------------------------------------------------------------------

  /** Every work has a short title, and all copies of a work have the same one. */
  ghost predicate ShortTitled(s: State) {
    && (forall w :: w in s.works ==> s.works[w].shortTitle != "")
    && (forall a :: a in s.authors ==> AllShortTitled(s.authors[a].works))
    && (forall v, w :: Alias(s.works, v, w) ==> s.works[v].shortTitle == s.works[w].shortTitle)
    && (forall a, i, w :: a in s.authors && 0 <= i < |s.authors[a].works| && w in s.works
                          && s.authors[a].works[i].foreignID == s.works[w].foreignID ==>
          s.authors[a].works[i].shortTitle == s.works[w].shortTitle)
  }

  lemma VersionIsShortTitled(up: Upstream, s: State, a: ID, m: map<ID, Work>, k: ID) returns (w: ID)
    requires CoherentBooks(up) && SortedState(s) && Versions(up, s, a, m) && k in m
    ensures w in s.works && s.works[w].foreignID == k && m[k].shortTitle == s.works[w].shortTitle
  {
    w :| w in s.works && a in s.works[w].authors && VersionOf(up, s.works[w], m[k]);
    var ids: set<ID> :| m[k] == Edited(up, s.works[w], ids);
    EditedKeepsIdentity(up, s.works[w], ids);
  }

  /** With short titles no titles clash. */
  lemma ShortTitlesCommute(up: Upstream, s: State)
    requires CoherentBooks(up) && SortedState(s) && ShortTitled(s)
    ensures TitlesCommute(up, s)
  {
    forall a, m1: map<ID, Work>, m2: map<ID, Work> |
      a in s.authors && !UnknownAuthor(a) && Versions(up, s, a, m1) && Versions(up, s, a, m2)
      ensures Absorbed(up, Merge(s.authors[a].works, m1, WorkID), m2)
    {
      var works := Merge(s.authors[a].works, m1, WorkID);
      forall i | 0 <= i < |works|
        ensures works[i].shortTitle != ""
        ensures works[i].foreignID in m2 ==> m2[works[i].foreignID].shortTitle == works[i].shortTitle
      {
        MergedShortTitle(up, s, a, m1, m2, i);
      }
      ShortTitlesAbsorb(up, works, m2);
    }
  }

  lemma MergedShortTitle(up: Upstream, s: State, a: ID, m1: map<ID, Work>, m2: map<ID, Work>, i: nat)
    requires CoherentBooks(up) && SortedState(s) && ShortTitled(s) && a in s.authors
    requires Versions(up, s, a, m1) && Versions(up, s, a, m2) && i < |Merge(s.authors[a].works, m1, WorkID)|
    ensures var x := Merge(s.authors[a].works, m1, WorkID)[i];
            x.shortTitle != "" && (x.foreignID in m2 ==> m2[x.foreignID].shortTitle == x.shortTitle)
  {
    var x := Merge(s.authors[a].works, m1, WorkID)[i];
    var j := MergedAt(s.authors[a].works, m1, i);
    if x.foreignID in m1 {
      var v := VersionIsShortTitled(up, s, a, m1, x.foreignID);
      if x.foreignID in m2 {
        var w := VersionIsShortTitled(up, s, a, m2, x.foreignID);
        assert Alias(s.works, v, w);
      }
    } else if x.foreignID in m2 {
      var w := VersionIsShortTitled(up, s, a, m2, x.foreignID);
    }
  }
}
