/**
 What the rating of an author comes from: every rating of a work it embeds, or of that work's editions
 if the work has none of its own, counts exactly once.
 */
module Averages {
  import opened SortedList
  import opened Resources
  import opened AuthorPass
  import opened Edges
  import opened Pipeline

  // ---------------------------------------------------------------------------------------
  // Totals
  // ---------------------------------------------------------------------------------------

  /** The amounts added up one after the other. */
  ghost predicate RunningTotals(amounts: seq<int>, totals: seq<int>) {
    && |totals| == |amounts| + 1 && totals[0] == 0
    && forall i :: 0 <= i < |amounts| ==> totals[i + 1] == totals[i] + amounts[i]
  }

  ghost predicate IsTotal(amounts: seq<int>, total: int) {
    exists totals :: RunningTotals(amounts, totals) && totals[|amounts|] == total
  }

  ghost function Counts(books: seq<Book>): (amounts: seq<int>)
    ensures |amounts| == |books|
  {
    seq(|books|, b requires 0 <= b < |books| => books[b].ratingCount)
  }

  ghost function Sums(books: seq<Book>): (amounts: seq<int>)
    ensures |amounts| == |books|
  {
    seq(|books|, b requires 0 <= b < |books| => books[b].ratingSum)
  }

  /** How often a work was rated and to what sum, itself or, if it never was, in its editions. */
  ghost predicate WorkAddsUp(w: Work, count: int, sum: int) {
    if w.ratingCount != 0 then count == w.ratingCount && sum == w.ratingSum
    else IsTotal(Counts(w.books), count) && IsTotal(Sums(w.books), sum - w.ratingSum)
  }

  /** The same for all works of an author. */
  ghost predicate AddsUp(works: seq<Work>, count: int, sum: int) {
    exists counts: seq<int>, sums: seq<int> ::
      && |counts| == |sums| == |works|
      && (forall i :: 0 <= i < |works| ==> WorkAddsUp(works[i], counts[i], sums[i]))
      && IsTotal(counts, count) && IsTotal(sums, sum)
  }

  /** There is one total, which drops with its last amount. */
  lemma {:induction false} TotalOfFront(amounts: seq<int>, total: int)
    requires amounts != []
    ensures IsTotal(amounts, total) <==> IsTotal(amounts[..|amounts| - 1], total - amounts[|amounts| - 1])
  {
    var n := |amounts| - 1;
    if totals :| RunningTotals(amounts, totals) && totals[|amounts|] == total {
      assert RunningTotals(amounts[..n], totals[..n + 1]);
    }
    if totals :| RunningTotals(amounts[..n], totals) && totals[n] == total - amounts[n] {
      assert RunningTotals(amounts, totals + [total]);
    }
  }

  lemma TotalOfNone(total: int)
    ensures IsTotal([], total) <==> total == 0
  {
    assert RunningTotals([], [0]);
  }

  lemma {:induction false} BooksAddUp(books: seq<Book>, count: int, sum: int)
    ensures IsTotal(Counts(books), count) <==> count == BookRatings(books).0
    ensures IsTotal(Sums(books), sum) <==> sum == BookRatings(books).1
  {
    if books == [] {
      assert Counts(books) == [] && Sums(books) == [];
      TotalOfNone(count);
      TotalOfNone(sum);
    } else {
      var front, last := books[..|books| - 1], books[|books| - 1];
      assert Counts(books)[..|front|] == Counts(front) && Sums(books)[..|front|] == Sums(front);
      TotalOfFront(Counts(books), count);
      TotalOfFront(Sums(books), sum);
      BooksAddUp(front, count - last.ratingCount, sum - last.ratingSum);
    }
  }

  lemma WorkAddsUpIff(w: Work, count: int, sum: int)
    ensures WorkAddsUp(w, count, sum) <==> (count, sum) == WorkRatings(w)
  {
    BooksAddUp(w.books, count, sum - w.ratingSum);
  }

  ghost predicate Shares(works: seq<Work>, counts: seq<int>, sums: seq<int>) {
    && |counts| == |sums| == |works|
    && forall i :: 0 <= i < |works| ==> WorkAddsUp(works[i], counts[i], sums[i])
  }

  lemma {:induction false} SharesAddUp(works: seq<Work>, counts: seq<int>, sums: seq<int>, count: int, sum: int)
    requires Shares(works, counts, sums)
    ensures IsTotal(counts, count) <==> count == Ratings(works).0
    ensures IsTotal(sums, sum) <==> sum == Ratings(works).1
  {
    if works == [] {
      assert counts == [] && sums == [];
      TotalOfNone(count);
      TotalOfNone(sum);
    } else {
      var n := |works| - 1;
      WorkAddsUpIff(works[n], counts[n], sums[n]);
      TotalOfFront(counts, count);
      TotalOfFront(sums, sum);
      SharesAddUp(works[..n], counts[..n], sums[..n], count - counts[n], sum - sums[n]);
    }
  }

  lemma {:induction false} SomeShares(works: seq<Work>) returns (counts: seq<int>, sums: seq<int>)
    ensures Shares(works, counts, sums)
  {
    if works == [] {
      counts, sums := [], [];
    } else {
      var n := |works| - 1;
      counts, sums := SomeShares(works[..n]);
      var r := WorkRatings(works[n]);
      WorkAddsUpIff(works[n], r.0, r.1);
      counts, sums := counts + [r.0], sums + [r.1];
    }
  }

  /** The ratings of works add up to one count and one sum. */
  lemma {:induction false} AddsUpIff(works: seq<Work>, count: int, sum: int)
    ensures AddsUp(works, count, sum) <==> (count, sum) == Ratings(works)
  {
    if AddsUp(works, count, sum) {
      var counts: seq<int>, sums: seq<int> :|
        && |counts| == |sums| == |works|
        && (forall i :: 0 <= i < |works| ==> WorkAddsUp(works[i], counts[i], sums[i]))
        && IsTotal(counts, count) && IsTotal(sums, sum);
      SharesAddUp(works, counts, sums, count, sum);
    }
    if (count, sum) == Ratings(works) {
      var counts, sums := SomeShares(works);
      SharesAddUp(works, counts, sums, count, sum);
    }
  }

  // ---------------------------------------------------------------------------------------
  // The rating of an author
  // ---------------------------------------------------------------------------------------

  /** Some work of the author, or an edition of one, was rated. */
  ghost predicate IsRated(works: seq<Work>) {
    exists i :: 0 <= i < |works| &&
      (works[i].ratingCount != 0 || exists b :: 0 <= b < |works[i].books| && works[i].books[b].ratingCount != 0)
  }

  lemma {:induction false} IsRatedIff(works: seq<Work>)
    ensures IsRated(works) <==> Ratings(works).0 != 0
  {
    NoRatings(works);
    forall i | 0 <= i < |works|
      ensures WorkRatings(works[i]).0 != 0 <==>
              works[i].ratingCount != 0 || exists b :: 0 <= b < |works[i].books| && works[i].books[b].ratingCount != 0
    {
      NoBookRatings(works[i].books);
    }
  }

  /** The ratings given to the author's works, as far as the author shows them: how many, and their sum. */
  ghost predicate Shows(author: Author, count: int, sum: real) {
    author.ratingCount == count && author.averageRating * author.ratingCount as real == sum
  }

  lemma {:induction false} SameAverages(up: Upstream, author: Author, works: seq<Work>, done: Author)
    requires IsFinished(up, author, works, done)
    ensures Ratings(done.works) == Ratings(works)
  {
    TitlePassKeepsTheRest(up, works);
    RatingsIgnoreTitles(done.works, works);
  }

  lemma ShowsAverage(author: Author, count: nat, sum: int)
    requires count != 0 && author.ratingCount == count && author.averageRating == sum as real / count as real
    ensures Shows(author, count, sum as real)
  {
  }

  lemma {:induction false} RatedShows(up: Upstream, author: Author, works: seq<Work>, done: Author)
    requires IsFinished(up, author, works, done) && Ratings(works).0 != 0
    ensures Shows(done, Ratings(works).0, Ratings(works).1 as real)
  {
    ShowsAverage(done, Ratings(works).0, Ratings(works).1);
  }

  lemma FinishedShows(up: Upstream, author: Author, works: seq<Work>, done: Author)
    requires IsFinished(up, author, works, done)
    ensures IsRated(done.works) ==> Shows(done, Ratings(done.works).0, Ratings(done.works).1 as real)
    ensures !IsRated(done.works) ==>
              done.ratingCount == author.ratingCount && done.averageRating == author.averageRating
    ensures IsRated(done.works) <==> Ratings(done.works).0 != 0
  {
    SameAverages(up, author, works, done);
    IsRatedIff(done.works);
    if Ratings(works).0 != 0 { RatedShows(up, author, works, done); }
  }

  /**
   A denormalized author shows how often the works it embeds were rated, and the average; if nobody
   rated any of them, it keeps the rating it had.
   */
  lemma RatingIsTheAverage(up: Upstream, author: Author, batch: map<ID, Work>, done: Author, count: int, sum: int)
    requires IsDenormalized(up, author, batch, done) && AddsUp(done.works, count, sum)
    ensures IsRated(done.works) <==> count != 0
    ensures IsRated(done.works) ==> Shows(done, count, sum as real)
    ensures !IsRated(done.works) ==>
              done.ratingCount == author.ratingCount && done.averageRating == author.averageRating
  {
    AddsUpIff(done.works, count, sum);
    FinishedShows(up, author, Merge(author.works, batch, WorkID), done);
  }

  // ---------------------------------------------------------------------------------------
  // What a change of one rating does
  // ---------------------------------------------------------------------------------------

  lemma {:induction false} BookRatingsOfUpdate(books: seq<Book>, b: nat, x: Book)
    requires b < |books|
    ensures BookRatings(books[b := x]).0 == BookRatings(books).0 - books[b].ratingCount + x.ratingCount
    ensures BookRatings(books[b := x]).1 == BookRatings(books).1 - books[b].ratingSum + x.ratingSum
  {
    var n := |books| - 1;
    if b < n {
      assert books[b := x][..n] == books[..n][b := x];
      BookRatingsOfUpdate(books[..n], b, x);
    } else {
      assert books[b := x][..n] == books[..n];
    }
  }

  lemma {:induction false} RatingsOfUpdate(works: seq<Work>, i: nat, w: Work)
    requires i < |works|
    ensures Ratings(works[i := w]).0 == Ratings(works).0 - WorkRatings(works[i]).0 + WorkRatings(w).0
    ensures Ratings(works[i := w]).1 == Ratings(works).1 - WorkRatings(works[i]).1 + WorkRatings(w).1
  {
    var n := |works| - 1;
    if i < n {
      assert works[i := w][..n] == works[..n][i := w];
      RatingsOfUpdate(works[..n], i, w);
    } else {
      assert works[i := w][..n] == works[..n];
    }
  }

  lemma {:induction false} ShowsRatings(up: Upstream, author: Author, works: seq<Work>, done: Author)
    requires IsFinished(up, author, works, done) && IsRated(works)
    ensures Shows(done, Ratings(works).0, Ratings(works).1 as real)
  {
    IsRatedIff(works);
    RatedShows(up, author, works, done);
  }

  /** Where a work has no rating of its own, each further rating of an edition counts for the author. */
  lemma EditionRatingCounts(up: Upstream, author: Author, works: seq<Work>, done: Author, i: nat, b: nat,
                            count: nat, sum: int, author': Author, done': Author)
    requires i < |works| && b < |works[i].books| && works[i].ratingCount == 0
    requires var w := works[i];
             var changed := w.(books := w.books[b := w.books[b].(ratingCount := count, ratingSum := sum)]);
             IsRated(works[i := changed]) && IsFinished(up, author', works[i := changed], done')
    requires IsRated(works) && IsFinished(up, author, works, done)
    ensures done'.ratingCount - done.ratingCount == count - works[i].books[b].ratingCount
    ensures done'.averageRating * done'.ratingCount as real - done.averageRating * done.ratingCount as real
            == (sum - works[i].books[b].ratingSum) as real
  {
    var w := works[i];
    var changed := w.(books := w.books[b := w.books[b].(ratingCount := count, ratingSum := sum)]);
    BookRatingsOfUpdate(w.books, b, w.books[b].(ratingCount := count, ratingSum := sum));
    RatingsOfUpdate(works, i, changed);
    ShowsRatings(up, author, works, done);
    ShowsRatings(up, author', works[i := changed], done');
  }

  /** So does each further rating of a work that has ratings of its own. */
  lemma WorkRatingCounts(up: Upstream, author: Author, works: seq<Work>, done: Author, i: nat,
                         count: nat, sum: int, author': Author, done': Author)
    requires i < |works| && works[i].ratingCount != 0 && count != 0
    requires IsFinished(up, author', works[i := works[i].(ratingCount := count, ratingSum := sum)], done')
    requires IsFinished(up, author, works, done)
    ensures done'.ratingCount - done.ratingCount == count - works[i].ratingCount
    ensures done'.averageRating * done'.ratingCount as real - done.averageRating * done.ratingCount as real
            == (sum - works[i].ratingSum) as real
  {
    var changed := works[i].(ratingCount := count, ratingSum := sum);
    assert works[i := changed][i].ratingCount != 0;
    RatingsOfUpdate(works, i, changed);
    ShowsRatings(up, author, works, done);
    ShowsRatings(up, author', works[i := changed], done');
  }

  /** Ratings of its editions then do not count. */
  lemma EditionsOfRatedWorkDoNotCount(up: Upstream, author: Author, works: seq<Work>, done: Author, i: nat,
                                      books: seq<Book>, author': Author, done': Author)
    requires i < |works| && works[i].ratingCount != 0
    requires IsFinished(up, author, works, done)
    requires IsFinished(up, author', works[i := works[i].(books := books)], done')
    ensures done'.ratingCount == done.ratingCount && done'.averageRating == done.averageRating
  {
    var changed := works[i].(books := books);
    assert works[i := changed][i].ratingCount != 0;
    IsRatedIff(works);
    IsRatedIff(works[i := changed]);
    RatingsOfUpdate(works, i, changed);
  }

  // ---------------------------------------------------------------------------------------
  // Whole runs
  // ---------------------------------------------------------------------------------------

  /** The author shows the ratings of the works it embeds, if there are any. */
  ghost predicate RatesItsWorks(author: Author) {
    forall count, sum :: AddsUp(author.works, count, sum) && count != 0 ==> Shows(author, count, sum as real)
  }

  lemma DenormalizedRatesItsWorks(up: Upstream, author: Author, batch: map<ID, Work>, done: Author)
    requires IsDenormalized(up, author, batch, done)
    ensures RatesItsWorks(done)
  {
    FinishedShows(up, author, Merge(author.works, batch, WorkID), done);
    forall count, sum | AddsUp(done.works, count, sum) && count != 0
      ensures Shows(done, count, sum as real)
    {
      AddsUpIff(done.works, count, sum);
    }
  }

  /** A step leaves an author as it is, or gives it the ratings of the works it embeds. */
  lemma StepKeepsAverages(up: Upstream, s: State, l: Label, s': State, a: ID)
    requires Step(up, s, l, s') && a in s'.authors
    ensures a in s.authors && (s'.authors[a] == s.authors[a] || RatesItsWorks(s'.authors[a]))
  {
    if l.Process? && s.queue[0].kind == AuthorEdge {
      var e, t := s.queue[0], s.(queue := s.queue[1..]);
      if e.childIDs != {} && e.parentID in s.authors && !UnknownAuthor(e.parentID) {
        var batch, done := WorksOutcome(up, t, e.parentID, e.childIDs, s');
        DenormalizedRatesItsWorks(up, s.authors[e.parentID], batch, done);
      }
    } else if l.Process? && s.queue[0].kind == WorkEdge {
      WorkEdgeKeepsAuthors(up, s.(queue := s.queue[1..]), s.queue[0].parentID, s.queue[0].childIDs, s');
    }
  }

  lemma WorkEdgeKeepsAuthors(up: Upstream, t: State, w: ID, ids: set<ID>, s': State)
    requires EditionsStep(up, t, w, ids, s')
    ensures s'.authors == t.authors
  {
    if ids != {} && w in t.works { var edited := EditionsOutcome(up, t, w, ids, s'); }
  }

  /**
   At all times in every run, loads included, an author is what it was at the start or shows the
   ratings of the works it embeds.
   */
  lemma {:induction false} RunKeepsAverages(up: Upstream, states: seq<State>, labels: seq<Label>, n: nat, a: ID)
    requires Trace(up, states, labels) && n <= |labels| && a in states[n].authors
    ensures a in states[0].authors
    ensures states[n].authors[a] == states[0].authors[a] || RatesItsWorks(states[n].authors[a])
  {
    if n > 0 {
      StepKeepsAverages(up, states[n - 1], labels[n - 1], states[n], a);
      RunKeepsAverages(up, states, labels, n - 1, a);
    }
  }
}
