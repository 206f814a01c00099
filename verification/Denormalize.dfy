/**
 The loops of `denormalizeEditions` and `denormalizeWorks`, proved to compute what the pipeline
 steps say.
 */
module Denormalize {
  import opened Options
  import opened SortedList
  import opened Resources
  import opened AuthorPass
  import opened Pipeline
  import opened Averages
  import opened Editions

  lemma SelectsOneMore<T>(s: map<ID, T>, items: set<T>, id: T -> ID, x: T)
    requires Selects(s, items, id)
    ensures Selects(s[id(x) := x], items + {x}, id)
  {
  }

  lemma UnionOneMore<T>(m: map<ID, T>, s: map<ID, T>, k: ID, x: T)
    ensures m + s[k := x] == (m + s)[k := x]
  {
  }

  /** One more list element merged. */
  lemma {:induction false} MergedOneMore<T>(xs: seq<T>, s: map<ID, T>, id: T -> ID, ys: seq<T>, x: T, zs: seq<T>)
    requires Sorted(xs, id) && Keyed(s, id) && ys == Merge(xs, s, id)
    requires Sorted(zs, id) && ToMap(zs, id) == ToMap(ys, id)[id(x) := x]
    ensures zs == Merge(xs, s[id(x) := x], id)
  {
    UnionOneMore(ToMap(xs, id), s, id(x), x);
    SortedListsAreEqual(zs, Merge(xs, s[id(x) := x], id), id);
  }

  lemma MergedNothing<T>(xs: seq<T>, id: T -> ID)
    requires Sorted(xs, id)
    ensures Merge(xs, map[], id) == xs
  {
    MergeAbsorbs(xs, map[], id);
  }

  lemma FetchedOneMore(up: Upstream, bookIDs: seq<ID>, k: nat)
    requires k < |bookIDs|
    ensures FetchedBooks(up, Elements(bookIDs[..k + 1])) ==
            FetchedBooks(up, Elements(bookIDs[..k])) + match BookOf(up, bookIDs[k]) case None => {} case Some(b) => {b}
  {
    assert Elements(bookIDs[..k + 1]) == Elements(bookIDs[..k]) + {bookIDs[k]};
  }

  /** `books` is the work's list with a selection `s` of what the first ids fetched. */
  ghost predicate EditedSoFar(up: Upstream, work: Work, bookIDs: seq<ID>, k: nat, s: map<ID, Book>, books: seq<Book>)
    requires k <= |bookIDs|
  {
    && Sorted(work.books, BookID)
    && Selects(s, FetchedBooks(up, Elements(bookIDs[..k])), BookID)
    && Keyed(s, BookID)
    && books == Merge(work.books, s, BookID)
  }

  lemma {:induction false} EditedOneMore(up: Upstream, work: Work, bookIDs: seq<ID>, k: nat, s: map<ID, Book>,
                                         books: seq<Book>, b: Book,
                                         upserted: seq<Book>)
    requires k < |bookIDs| && BookOf(up, bookIDs[k]) == Some(b) && EditedSoFar(up, work, bookIDs, k, s, books)
    requires Sorted(upserted, BookID) && ToMap(upserted, BookID) == ToMap(books, BookID)[BookID(b) := b]
    ensures EditedSoFar(up, work, bookIDs, k + 1, s[BookID(b) := b], upserted)
  {
    FetchedOneMore(up, bookIDs, k);
    MergedOneMore(work.books, s, BookID, books, b, upserted);
    SelectsOneMore(s, FetchedBooks(up, Elements(bookIDs[..k])), BookID, b);
  }

  lemma EditedNoMore(up: Upstream, work: Work, bookIDs: seq<ID>, k: nat, s: map<ID, Book>, books: seq<Book>)
    requires k < |bookIDs| && BookOf(up, bookIDs[k]) == None && EditedSoFar(up, work, bookIDs, k, s, books)
    ensures EditedSoFar(up, work, bookIDs, k + 1, s, books)
  {
    FetchedOneMore(up, bookIDs, k);
  }

  lemma EditedAll(up: Upstream, work: Work, bookIDs: seq<ID>, s: map<ID, Book>, books: seq<Book>)
    requires EditedSoFar(up, work, bookIDs, |bookIDs|, s, books)
    ensures IsEdited(up, work, Elements(bookIDs), work.(books := books))
  {
    assert bookIDs[..|bookIDs|] == bookIDs;
  }

  /** The upsert loop of `denormalizeEditions`, over its book ids in whatever order they come. */
  method UpsertEditions(up: Upstream, work: Work, bookIDs: seq<ID>) returns (edited: Work)
    requires Sorted(work.books, BookID)
    ensures IsEdited(up, work, Elements(bookIDs), edited)
    ensures edited == work.(books := edited.books)
    ensures forall c :: c in bookIDs && up.book(c).Some? && |up.book(c).value.books| == 1 ==>
              Lists(edited.books, up.book(c).value.books[0].foreignID)
    ensures forall x :: x in edited.books ==>
              || x in work.books
              || exists c :: c in bookIDs
                   && up.book(c).Some? && |up.book(c).value.books| == 1 && up.book(c).value.books[0] == x
  {
    var books := work.books;
    ghost var s: map<ID, Book> := map[];
    MergedNothing(work.books, BookID);
    for k := 0 to |bookIDs|
      invariant EditedSoFar(up, work, bookIDs, k, s, books)
    {
      var fetched := up.book(bookIDs[k]);
      if fetched.None? {
        EditedNoMore(up, work, bookIDs, k, s, books);
        continue;
      }
      var w := fetched.value;
      if |w.books| != 1 {
        EditedNoMore(up, work, bookIDs, k, s, books);
        continue;
      }
      // A lookup can return a merged edition, whose own id is the one to search for.
      var upserted := Upsert(books, w.books[0], BookID);
      EditedOneMore(up, work, bookIDs, k, s, books, w.books[0], upserted);
      s := s[w.books[0].foreignID := w.books[0]];
      books := upserted;
    }
    EditedAll(up, work, bookIDs, s, books);
    edited := work.(books := books);
    EditionsOfEdited(up, work, bookIDs, edited);
  }

  lemma EditionsOfEdited(up: Upstream, work: Work, bookIDs: seq<ID>, edited: Work)
    requires IsEdited(up, work, Elements(bookIDs), edited)
    ensures forall c :: c in bookIDs && up.book(c).Some? && |up.book(c).value.books| == 1 ==>
              Lists(edited.books, up.book(c).value.books[0].foreignID)
    ensures forall x :: x in edited.books ==>
              || x in work.books
              || exists c :: c in bookIDs
                   && up.book(c).Some? && |up.book(c).value.books| == 1 && up.book(c).value.books[0] == x
  {
    forall c | c in bookIDs && up.book(c).Some? && |up.book(c).value.books| == 1
      ensures Lists(edited.books, up.book(c).value.books[0].foreignID)
    {
      RequestedEditionIsListed(up, work, Elements(bookIDs), edited, c);
    }
    forall x | x in edited.books && x !in work.books
      ensures exists c :: c in bookIDs
                && up.book(c).Some? && |up.book(c).value.books| == 1 && up.book(c).value.books[0] == x
    {
      EntriesAre(up, work, Elements(bookIDs), edited, x);
    }
  }

  lemma FetchedWorksOneMore(works: map<ID, Work>, workIDs: seq<ID>, k: nat)
    requires k < |workIDs|
    ensures FetchedWorks(works, Elements(workIDs[..k + 1])) ==
            FetchedWorks(works, Elements(workIDs[..k])) +
            if workIDs[k] in works && works[workIDs[k]].books != [] then {works[workIDs[k]]} else {}
  {
    assert Elements(workIDs[..k + 1]) == Elements(workIDs[..k]) + {workIDs[k]};
  }

  lemma {:induction false} MergedHasTheFetched(works: seq<Work>, batch: map<ID, Work>, fetched: set<Work>)
    requires Sorted(works, WorkID) && Selects(batch, fetched, WorkID)
    ensures Keyed(batch, WorkID)
    ensures ToMap(Merge(works, batch, WorkID), WorkID).Keys == ToMap(works, WorkID).Keys + Ids(fetched, WorkID)
  {
    SelectedIds(batch, fetched, WorkID);
  }

  /** The upsert loop of `denormalizeWorks`. */
  method UpsertWorks(cached: map<ID, Work>, works: seq<Work>, workIDs: seq<ID>)
    returns (merged: seq<Work>, ghost batch: map<ID, Work>)
    requires Sorted(works, WorkID)
    ensures Selects(batch, FetchedWorks(cached, Elements(workIDs)), WorkID)
    ensures merged == Merge(works, batch, WorkID)
    ensures Sorted(merged, WorkID)
    ensures ToMap(merged, WorkID).Keys ==
              ToMap(works, WorkID).Keys + Ids(FetchedWorks(cached, Elements(workIDs)), WorkID)
  {
    merged, batch := works, map[];
    MergedNothing(works, WorkID);
    for k := 0 to |workIDs|
      invariant Selects(batch, FetchedWorks(cached, Elements(workIDs[..k])), WorkID)
      invariant Keyed(batch, WorkID)
      invariant merged == Merge(works, batch, WorkID)
    {
      FetchedWorksOneMore(cached, workIDs, k);
      if workIDs[k] !in cached {
        continue;
      }
      var work := cached[workIDs[k]];
      if |work.books| == 0 {
        continue;
      }
      var upserted := Upsert(merged, work, WorkID);
      MergedOneMore(works, batch, WorkID, merged, work, upserted);
      SelectsOneMore(batch, FetchedWorks(cached, Elements(workIDs[..k])), WorkID, work);
      batch := batch[work.foreignID := work];
      merged := upserted;
    }
    assert workIDs[..|workIDs|] == workIDs;
    MergedHasTheFetched(works, batch, FetchedWorks(cached, Elements(workIDs)));
  }

  function CountOf(titles: map<string, nat>, key: string): nat {
    if key in titles then titles[key] else 0
  }

  /** The editions' ratings, added to the totals so far. */
  method AddBookRatings(books: seq<Book>, count: nat, sum: int) returns (count': nat, sum': int)
    ensures count' == count + BookRatings(books).0 && sum' == sum + BookRatings(books).1
    ensures IsTotal(Counts(books), count' - count) && IsTotal(Sums(books), sum' - sum)
  {
    count', sum' := count, sum;
    for i := 0 to |books|
      invariant count' == count + BookRatings(books[..i]).0 && sum' == sum + BookRatings(books[..i]).1
    {
      assert books[..i + 1][..i] == books[..i];
      count', sum' := count' + books[i].ratingCount, sum' + books[i].ratingSum;
    }
    assert books[..|books|] == books;
    BooksAddUp(books, count' - count, sum' - sum);
  }

  /** A work's ratings, or those of its editions if it has none of its own, added to the totals so far. */
  method AddRatings(w: Work, count: nat, sum: int) returns (count': nat, sum': int)
    ensures count' == count + WorkRatings(w).0 && sum' == sum + WorkRatings(w).1
  {
    count', sum' := count + w.ratingCount, sum + w.ratingSum;
    if w.ratingCount == 0 {
      count', sum' := AddBookRatings(w.books, count', sum');
    }
  }

  /** The first pass over an author's works: count titles, add up ratings, and note the series to fetch. */
  method Survey(up: Upstream, works: seq<Work>)
    returns (titles: map<string, nat>, count: nat, sum: int, requested: set<ID>)
    ensures forall key :: CountOf(titles, key) == CountKey(up, works, key)
    ensures (count, sum) == Ratings(works) && AddsUp(works, count, sum)
    ensures requested == RequestedSeries(works)
  {
    titles, count, sum, requested := map[], 0, 0, {};
    for i := 0 to |works|
      invariant forall key :: CountOf(titles, key) == CountKey(up, works[..i], key)
      invariant (count, sum) == Ratings(works[..i])
      invariant requested == RequestedSeries(works[..i])
    {
      assert works[..i + 1][..i] == works[..i];
      var w := works[i];
      var key := TitleKey(up, w);
      titles := titles[key := CountOf(titles, key) + 1];
      count, sum := AddRatings(w, count, sum);
      RequestedOneMore(works, i);
      requested := requested + (set s | s in w.series);
    }
    assert works[..|works|] == works;
    AddsUpIff(works, count, sum);
  }

  lemma RequestedOneMore(works: seq<Work>, i: nat)
    requires i < |works|
    ensures RequestedSeries(works[..i + 1]) == RequestedSeries(works[..i]) + set s | s in works[i].series
  {
    var before, after := works[..i], works[..i + 1];
    forall s | s in RequestedSeries(before)
      ensures s in RequestedSeries(after)
    {
      var j :| 0 <= j < |before| && s in before[j].series;
      assert after[j] == before[j];
    }
    forall s | s in works[i].series
      ensures s in RequestedSeries(after)
    {
      assert after[i] == works[i];
    }
    forall s | s in RequestedSeries(after)
      ensures s in RequestedSeries(before) || s in works[i].series
    {
      var j :| 0 <= j < |after| && s in after[j].series;
      if j < i { assert before[j] == after[j]; }
    }
  }

  /** The goroutines that fetch series, finishing in any order: the first series with an id stays. */
  method CollectSeries(up: Upstream, requested: set<ID>) returns (series: seq<Series>)
    ensures Sorted(series, SeriesID)
    ensures Selects(ToMap(series, SeriesID), FetchedSeries(up, requested), SeriesID)
  {
    series := [];
    var todo := requested;
    while todo != {}
      invariant todo <= requested
      invariant Sorted(series, SeriesID)
      invariant Selects(ToMap(series, SeriesID), FetchedSeries(up, requested - todo), SeriesID)
      decreases todo
    {
      var id :| id in todo;
      SeriesOneMore(up, requested, todo, id);
      todo := todo - {id};
      var fetched := up.series(id);
      if fetched.Some? {
        var s := fetched.value;
        var idx, found := BinarySearch(series, s.foreignID, SeriesID);
        if found {
          MapHas(series, SeriesID, idx);
        } else {
          var inserted := series[..idx] + [s] + series[idx..];
          UpsertHolds(series, s, SeriesID, idx, false, inserted);
          series := inserted;
        }
      }
    }
    assert requested - todo == requested;
  }

  lemma SeriesOneMore(up: Upstream, requested: set<ID>, todo: set<ID>, id: ID)
    requires id in todo && todo <= requested
    ensures FetchedSeries(up, requested - (todo - {id})) ==
            FetchedSeries(up, requested - todo) + match up.series(id) case None => {} case Some(s) => {s}
  {
    assert requested - (todo - {id}) == (requested - todo) + {id};
  }

  /** The second pass, in place: give every ambiguous work its full title. */
  method Disambiguate(up: Upstream, works: seq<Work>, titles: map<string, nat>) returns (titled: seq<Work>)
    requires forall key :: CountOf(titles, key) == CountKey(up, works, key)
    ensures titled == TitlePass(up, works)
  {
    titled := works;
    for idx := 0 to |works|
      invariant |titled| == |works|
      invariant forall i :: 0 <= i < idx ==> titled[i] == TitlePass(up, works)[i]
      invariant forall i :: idx <= i < |works| ==> titled[i] == works[i]
    {
      CountTellsSharing(up, works, idx);
      var shortTitle := titled[idx].title;
      if titled[idx].shortTitle != "" {
        shortTitle := titled[idx].shortTitle;
      }
      var inSeries := |titled[idx].series| > 0;
      if !inSeries && CountOf(titles, up.upper(shortTitle)) <= 1 {
        continue;
      }
      if titled[idx].fullTitle == "" {
        continue;
      }
      var books := titled[idx].books;
      for bidx := 0 to |books|
        invariant |books| == |works[idx].books|
        invariant forall b :: 0 <= b < bidx ==> books[b] == UseFullTitle(works[idx].books[b])
        invariant forall b :: bidx <= b < |books| ==> books[b] == works[idx].books[b]
      {
        if books[bidx].fullTitle == "" {
          continue;
        }
        books := books[bidx := books[bidx].(title := books[bidx].fullTitle)];
      }
      assert books == UseFullTitles(works[idx]).books;
      titled := titled[idx := titled[idx].(title := titled[idx].fullTitle, books := books)];
    }
  }

  /** `denormalizeWorks` on an author that was loaded. */
  method DenormalizeAuthor(up: Upstream, author: Author, cached: map<ID, Work>, workIDs: seq<ID>)
    returns (done: Author, ghost batch: map<ID, Work>)
    requires Sorted(author.works, WorkID)
    ensures Selects(batch, FetchedWorks(cached, Elements(workIDs)), WorkID)
    ensures IsDenormalized(up, author, batch, done)
    ensures done.foreignID == author.foreignID && done.details == author.details
    ensures RatesItsWorks(done)
    ensures !IsRated(done.works) ==>
              done.ratingCount == author.ratingCount && done.averageRating == author.averageRating
    ensures Sorted(done.works, WorkID)
    ensures ToMap(done.works, WorkID).Keys ==
              ToMap(author.works, WorkID).Keys + Ids(FetchedWorks(cached, Elements(workIDs)), WorkID)
  {
    var works;
    works, batch := UpsertWorks(cached, author.works, workIDs);
    var titles, count, sum, requested := Survey(up, works);
    var series := CollectSeries(up, requested);
    var titled := Disambiguate(up, works, titles);
    done := author.(works := titled, series := series);
    if count != 0 {
      done := done.(ratingCount := count, averageRating := sum as real / count as real);
    }
    PassKeepsKeys(up, works);
    FinishedShows(up, author, works, done);
    DenormalizedRatesItsWorks(up, author, batch, done);
  }
}
