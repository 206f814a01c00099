/**
 What `denormalizeWorks` does to an author once the requested works have been upserted:
 recount titles, disambiguate works, gather series and add up ratings.
 */
module AuthorPass {
  import opened Options
  import opened SortedList
  import opened Resources

  // ---------------------------------------------------------------------------------------
  // Titles
  // ---------------------------------------------------------------------------------------

  /** The title a work is counted under. */
  function TitleKey(up: Upstream, w: Work): string {
    up.upper(if w.shortTitle != "" then w.shortTitle else w.title)
  }

  /** How many works are counted under `key`. */
  ghost function CountKey(up: Upstream, works: seq<Work>, key: string): nat {
    if works == [] then 0
    else CountKey(up, works[..|works| - 1], key) + if TitleKey(up, works[|works| - 1]) == key then 1 else 0
  }

  ghost predicate SharesTitle(up: Upstream, works: seq<Work>, i: nat)
    requires i < |works|
  {
    exists j :: 0 <= j < |works| && j != i && TitleKey(up, works[j]) == TitleKey(up, works[i])
  }

  /** A work whose short title is not enough to identify it. */
  ghost predicate Ambiguous(up: Upstream, works: seq<Work>, i: nat)
    requires i < |works|
  {
    works[i].series != [] || SharesTitle(up, works, i)
  }

  function UseFullTitle(b: Book): Book {
    if b.fullTitle == "" then b else b.(title := b.fullTitle)
  }

  function UseFullTitles(w: Work): Work {
    w.(title := w.fullTitle, books := seq(|w.books|, i requires 0 <= i < |w.books| => UseFullTitle(w.books[i])))
  }

  /** Exactly the ambiguous works that have a full title get it; every other work is kept. */
  ghost function TitlePass(up: Upstream, works: seq<Work>): (r: seq<Work>)
    ensures |r| == |works|
  {
    seq(|works|, i requires 0 <= i < |works| =>
      if Ambiguous(up, works, i) && works[i].fullTitle != "" then UseFullTitles(works[i]) else works[i])
  }

  /**
   Which titles end up being full titles: those of ambiguous works that have one, and of their editions
   that have one.
   */
  lemma TitlesAfterPass(up: Upstream, works: seq<Work>, i: nat)
    requires i < |works|
    ensures var w, done := works[i], TitlePass(up, works)[i];
            if Ambiguous(up, works, i) && w.fullTitle != "" then
              && done.title == w.fullTitle && |done.books| == |w.books|
              && forall b :: 0 <= b < |w.books| ==>
                   done.books[b].title == if w.books[b].fullTitle != "" then w.books[b].fullTitle else w.books[b].title
            else
              done == w
  {
  }

  /** Counts tell whether a title is shared. */
  lemma {:induction false} CountTellsSharing(up: Upstream, works: seq<Work>, i: nat)
    requires i < |works|
    ensures CountKey(up, works, TitleKey(up, works[i])) >= 1
    ensures CountKey(up, works, TitleKey(up, works[i])) > 1 <==> SharesTitle(up, works, i)
  {
    var key := TitleKey(up, works[i]);
    CountIsPositive(up, works, key);
    CountIsMany(up, works, key);
  }

  lemma {:induction false} CountIsPositive(up: Upstream, works: seq<Work>, key: string)
    ensures CountKey(up, works, key) > 0 <==> exists i :: 0 <= i < |works| && TitleKey(up, works[i]) == key
  {
    if works != [] {
      var front := works[..|works| - 1];
      CountIsPositive(up, front, key);
      assert forall i :: 0 <= i < |front| ==> front[i] == works[i];
    }
  }

  lemma {:induction false} CountIsMany(up: Upstream, works: seq<Work>, key: string)
    ensures CountKey(up, works, key) > 1 <==>
            exists i, j :: 0 <= i < j < |works| && TitleKey(up, works[i]) == key && TitleKey(up, works[j]) == key
  {
    if works != [] {
      var front := works[..|works| - 1];
      CountIsPositive(up, front, key);
      CountIsMany(up, front, key);
      assert forall i :: 0 <= i < |front| ==> front[i] == works[i];
    }
  }

  /** Everything but the displayed titles. */
  function StripTitles(w: Work): Work {
    w.(title := "", books := seq(|w.books|, i requires 0 <= i < |w.books| => w.books[i].(title := "")))
  }

  ghost predicate SameUpToTitles(v: Work, w: Work) {
    StripTitles(v) == StripTitles(w)
  }

  lemma FullTitlesKeepTheRest(w: Work)
    ensures SameUpToTitles(UseFullTitles(w), w)
    ensures UseFullTitles(UseFullTitles(w)) == UseFullTitles(w)
  {
    var v := UseFullTitles(w);
    assert StripTitles(v).books == StripTitles(w).books;
    assert UseFullTitles(v).books == v.books;
  }

  lemma TitlePassKeepsTheRest(up: Upstream, works: seq<Work>)
    ensures forall i :: 0 <= i < |works| ==> SameUpToTitles(TitlePass(up, works)[i], works[i])
    ensures Sorted(works, WorkID) ==> Sorted(TitlePass(up, works), WorkID)
  {
    forall i | 0 <= i < |works|
      ensures SameUpToTitles(TitlePass(up, works)[i], works[i])
    {
      FullTitlesKeepTheRest(works[i]);
    }
    assert forall i :: 0 <= i < |works| ==> TitlePass(up, works)[i].foreignID == works[i].foreignID;
  }

  /**
   Work `i` is counted alone and would change if it were not, and the pass gives work `j`,
   which has no short title to be counted under, a title that counts as the one of `i`.
   */
  ghost predicate Clash(up: Upstream, works: seq<Work>, i: nat, j: nat)
    requires i < |works| && j < |works|
  {
    && !Ambiguous(up, works, i) && works[i].fullTitle != "" && UseFullTitles(works[i]) != works[i]
    && Ambiguous(up, works, j) && works[j].fullTitle != "" && works[j].shortTitle == ""
    && up.upper(works[j].fullTitle) == TitleKey(up, works[i])
  }

  /** A second pass changes nothing exactly when no two works clash. */
  lemma TitlePassSettlesIff(up: Upstream, works: seq<Work>)
    ensures TitlePass(up, TitlePass(up, works)) == TitlePass(up, works) <==>
            forall i, j :: 0 <= i < |works| && 0 <= j < |works| ==> !Clash(up, works, i, j)
  {
    var once := TitlePass(up, works);
    var twice := TitlePass(up, once);
    forall i, j | 0 <= i < |works| && 0 <= j < |works| && Clash(up, works, i, j)
      ensures twice[i] != once[i]
    {
      assert TitleKey(up, once[j]) == TitleKey(up, once[i]);
    }
    if i :| 0 <= i < |works| && twice[i] != once[i] {
      FullTitlesKeepTheRest(works[i]);
      assert !Ambiguous(up, works, i);
      var j :| 0 <= j < |once| && j != i && TitleKey(up, once[j]) == TitleKey(up, once[i]);
      assert once[j] != works[j];
      assert Clash(up, works, i, j);
    }
  }

  /** With short titles everywhere nothing can clash. */
  lemma ShortTitlesSettle(up: Upstream, works: seq<Work>)
    requires forall i :: 0 <= i < |works| ==> works[i].shortTitle != ""
    ensures TitlePass(up, TitlePass(up, works)) == TitlePass(up, works)
  {
    TitlePassSettlesIff(up, works);
  }

  /**
   A clash is possible: disambiguating one work can give it the title another work
   already displays, which the next pass then finds to be shared.
   */
  lemma TitlePassNeedsShortTitles(up: Upstream)
    requires up.upper("FOO") != up.upper("FOO: BAR")
    ensures exists works: seq<Work> :: TitlePass(up, TitlePass(up, works)) != TitlePass(up, works)
  {
    var inSeries := Work(1, "FOO", "FOO: BAR", "", [], [7], [], 0, 0, 0);
    var plain := Work(2, "FOO: BAR", "FOO: BAR: BAZ", "", [], [], [], 0, 0, 0);
    var works := [inSeries, plain];
    var once := TitlePass(up, works);
    assert !SharesTitle(up, works, 1);
    assert once[1] == plain;
    assert once[0].title == "FOO: BAR";
    assert TitleKey(up, once[0]) == TitleKey(up, once[1]);
    assert SharesTitle(up, once, 1);
    assert TitlePass(up, once)[1].title == "FOO: BAR: BAZ";
  }

  // ---------------------------------------------------------------------------------------
  // Series
  // ---------------------------------------------------------------------------------------

  ghost function RequestedSeries(works: seq<Work>): set<ID> {
    set i, s | 0 <= i < |works| && s in works[i].series :: s
  }

  ghost function FetchedSeries(up: Upstream, ids: set<ID>): set<Series> {
    set s | s in ids && up.series(s).Some? :: up.series(s).value
  }

  ghost predicate IsSeriesList(up: Upstream, works: seq<Work>, series: seq<Series>) {
    && Sorted(series, SeriesID)
    && Selects(ToMap(series, SeriesID), FetchedSeries(up, RequestedSeries(works)), SeriesID)
  }

  // ---------------------------------------------------------------------------------------
  // Ratings
  // ---------------------------------------------------------------------------------------

  function BookRatings(books: seq<Book>): (nat, int) {
    if books == [] then (0, 0)
    else
      var r := BookRatings(books[..|books| - 1]);
      (r.0 + books[|books| - 1].ratingCount, r.1 + books[|books| - 1].ratingSum)
  }

  /** Ratings live on the work for one provider and on its editions for the other. */
  function WorkRatings(w: Work): (nat, int) {
    if w.ratingCount == 0 then
      var r := BookRatings(w.books);
      (r.0, w.ratingSum + r.1)
    else
      (w.ratingCount, w.ratingSum)
  }

  function Ratings(works: seq<Work>): (nat, int) {
    if works == [] then (0, 0)
    else
      var r, w := Ratings(works[..|works| - 1]), WorkRatings(works[|works| - 1]);
      (r.0 + w.0, r.1 + w.1)
  }

  lemma {:induction false} BookRatingsIgnoreTitles(a: seq<Book>, b: seq<Book>)
    requires |a| == |b|
    requires forall i :: 0 <= i < |a| ==> a[i].ratingCount == b[i].ratingCount && a[i].ratingSum == b[i].ratingSum
    ensures BookRatings(a) == BookRatings(b)
  {
    if a != [] { BookRatingsIgnoreTitles(a[..|a| - 1], b[..|b| - 1]); }
  }

  lemma WorkRatingsIgnoreTitles(v: Work, w: Work)
    requires SameUpToTitles(v, w)
    ensures WorkRatings(v) == WorkRatings(w)
  {
    assert |v.books| == |StripTitles(v).books| == |w.books|;
    forall i | 0 <= i < |v.books|
      ensures v.books[i].ratingCount == w.books[i].ratingCount && v.books[i].ratingSum == w.books[i].ratingSum
    {
      assert StripTitles(v).books[i] == StripTitles(w).books[i];
    }
    BookRatingsIgnoreTitles(v.books, w.books);
  }

  lemma {:induction false} RatingsIgnoreTitles(a: seq<Work>, b: seq<Work>)
    requires |a| == |b|
    requires forall i :: 0 <= i < |a| ==> SameUpToTitles(a[i], b[i])
    ensures Ratings(a) == Ratings(b)
  {
    if a != [] {
      RatingsIgnoreTitles(a[..|a| - 1], b[..|b| - 1]);
      WorkRatingsIgnoreTitles(a[|a| - 1], b[|b| - 1]);
    }
  }

  /** Nobody rated any of the works. */
  lemma {:induction false} NoRatings(works: seq<Work>)
    ensures Ratings(works).0 == 0 <==> forall i :: 0 <= i < |works| ==> WorkRatings(works[i]).0 == 0
  {
    if works != [] {
      var front := works[..|works| - 1];
      NoRatings(front);
      assert forall i :: 0 <= i < |front| ==> front[i] == works[i];
    }
  }

  lemma {:induction false} NoBookRatings(books: seq<Book>)
    ensures BookRatings(books).0 == 0 <==> forall i :: 0 <= i < |books| ==> books[i].ratingCount == 0
  {
    if books != [] {
      var front := books[..|books| - 1];
      NoBookRatings(front);
      assert forall i :: 0 <= i < |front| ==> front[i] == books[i];
    }
  }

  // ---------------------------------------------------------------------------------------
  // The whole pass
  // ---------------------------------------------------------------------------------------

  /** `done` is `author` after its works became `works` and the passes ran over them. */
  ghost predicate IsFinished(up: Upstream, author: Author, works: seq<Work>, done: Author) {
    var r := Ratings(works);
    && done.foreignID == author.foreignID
    && done.details == author.details
    && done.works == TitlePass(up, works)
    && IsSeriesList(up, works, done.series)
    && done.ratingCount == (if r.0 != 0 then r.0 else author.ratingCount)
    && done.averageRating == (if r.0 != 0 then r.1 as real / r.0 as real else author.averageRating)
  }

  /** `done` is `author` denormalized with the works of `batch`. */
  ghost predicate IsDenormalized(up: Upstream, author: Author, batch: map<ID, Work>, done: Author) {
    && Sorted(author.works, WorkID)
    && Keyed(batch, WorkID)
    && IsFinished(up, author, Merge(author.works, batch, WorkID), done)
  }

  /** Fetched series with the same id are the same. */
  ghost predicate CoherentSeries(up: Upstream) {
    forall i, j ::
      (up.series(i).Some? && up.series(j).Some? && up.series(i).value.foreignID == up.series(j).value.foreignID)
      ==> up.series(i) == up.series(j)
  }

  lemma DenormalizedIsUnique(up: Upstream, author: Author, batch: map<ID, Work>, x: Author, y: Author)
    requires CoherentSeries(up)
    requires IsDenormalized(up, author, batch, x) && IsDenormalized(up, author, batch, y)
    ensures x == y
  {
    var fetched := FetchedSeries(up, RequestedSeries(Merge(author.works, batch, WorkID)));
    SelectionIsIndex(ToMap(x.series, SeriesID), fetched, SeriesID);
    SelectionIsIndex(ToMap(y.series, SeriesID), fetched, SeriesID);
    SortedListsAreEqual(x.series, y.series, SeriesID);
  }

  /** Where an element of a merged list comes from. */
  lemma MergedAt(works: seq<Work>, batch: map<ID, Work>, i: nat) returns (j: nat)
    requires Sorted(works, WorkID) && Keyed(batch, WorkID)
    requires i < |Merge(works, batch, WorkID)|
    ensures var w := Merge(works, batch, WorkID)[i];
            if w.foreignID in batch then w == batch[w.foreignID] else j < |works| && w == works[j]
  {
    var merged := Merge(works, batch, WorkID);
    MapHas(merged, WorkID, i);
    j := 0;
    if merged[i].foreignID !in batch { j := MapAt(works, WorkID, merged[i].foreignID); }
  }

  /** Every work is found again after a merge, itself or superseded. */
  lemma MergeKeepsPlaces(works: seq<Work>, batch: map<ID, Work>, j: nat) returns (i: nat)
    requires Sorted(works, WorkID) && Keyed(batch, WorkID) && j < |works|
    ensures i < |Merge(works, batch, WorkID)|
    ensures var w := Merge(works, batch, WorkID)[i];
            w == if works[j].foreignID in batch then batch[works[j].foreignID] else works[j]
  {
    MapHas(works, WorkID, j);
    i := MapAt(Merge(works, batch, WorkID), WorkID, works[j].foreignID);
  }

  lemma {:induction false} PassKeepsKeys(up: Upstream, works: seq<Work>)
    requires Sorted(works, WorkID)
    ensures Sorted(TitlePass(up, works), WorkID)
    ensures ToMap(TitlePass(up, works), WorkID).Keys == ToMap(works, WorkID).Keys
  {
    TitlePassKeepsTheRest(up, works);
    var once := TitlePass(up, works);
    forall k | k in ToMap(once, WorkID)
      ensures k in ToMap(works, WorkID)
    {
      var i := MapAt(once, WorkID, k);
      MapHas(works, WorkID, i);
    }
    forall k | k in ToMap(works, WorkID)
      ensures k in ToMap(once, WorkID)
    {
      var i := MapAt(works, WorkID, k);
      MapHas(once, WorkID, i);
    }
  }

  lemma RequestsIgnoreTitles(a: seq<Work>, b: seq<Work>)
    requires |a| == |b|
    requires forall i :: 0 <= i < |a| ==> SameUpToTitles(a[i], b[i])
    ensures RequestedSeries(a) == RequestedSeries(b)
  {
    forall i | 0 <= i < |a|
      ensures a[i].series == b[i].series
    {
      assert StripTitles(a[i]).series == StripTitles(b[i]).series;
    }
  }
}
