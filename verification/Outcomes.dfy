/**
 What an author is like once it has been denormalized, in terms of the works and series themselves:
 which works it embeds, under which titles, and which series it lists.
 */
module Outcomes {
  import opened Options
  import opened SortedList
  import opened Resources
  import opened AuthorPass
  import opened Pipeline

  // ---------------------------------------------------------------------------------------
  // Titles
  // ---------------------------------------------------------------------------------------

  /**
   Two works share a title if their short titles, or the titles of works without one, are equal in
   upper case.
   */
  lemma SharedTitlesAre(up: Upstream, works: seq<Work>, i: nat)
    requires i < |works|
    ensures SharesTitle(up, works, i) <==>
            exists j :: 0 <= j < |works| && j != i &&
              up.upper(if works[j].shortTitle != "" then works[j].shortTitle else works[j].title) ==
              up.upper(if works[i].shortTitle != "" then works[i].shortTitle else works[i].title)
  {
    forall j | 0 <= j < |works|
      ensures TitleKey(up, works[j]) ==
              up.upper(if works[j].shortTitle != "" then works[j].shortTitle else works[j].title)
    {
    }
  }

  /** The two differ in their titles at most, and in those of their editions. */
  ghost predicate OnlyTitlesDiffer(v: Work, w: Work) {
    && v == w.(title := v.title, books := v.books)
    && |v.books| == |w.books|
    && forall b :: 0 <= b < |w.books| ==> v.books[b] == w.books[b].(title := v.books[b].title)
  }

  /** That is what being the same up to displayed titles means. */
  lemma SameUpToTitlesIff(v: Work, w: Work)
    ensures SameUpToTitles(v, w) <==> OnlyTitlesDiffer(v, w)
  {
    if SameUpToTitles(v, w) {
      var x, y := StripTitles(v), StripTitles(w);
      assert x.books == y.books && |x.books| == |v.books| && |y.books| == |w.books|;
      forall b | 0 <= b < |w.books|
        ensures v.books[b] == w.books[b].(title := v.books[b].title)
      {
        assert x.books[b] == y.books[b];
      }
      assert x.foreignID == y.foreignID && x.fullTitle == y.fullTitle && x.shortTitle == y.shortTitle;
      assert x.series == y.series && x.authors == y.authors && x.details == y.details;
      assert x.ratingCount == y.ratingCount && x.ratingSum == y.ratingSum;
    }
    if OnlyTitlesDiffer(v, w) { assert StripTitles(v).books == StripTitles(w).books; }
  }

  /**
   A work displays its full title, and so do its editions, if it has one and is in a series or shares
   its title with another work of the author. All else is as it was.
   */
  lemma TitlesAre(up: Upstream, works: seq<Work>, i: nat)
    requires i < |works|
    ensures var w, done := works[i], TitlePass(up, works)[i];
            && OnlyTitlesDiffer(done, w)
            && if w.fullTitle != "" && (w.series != [] ||
                  exists j :: 0 <= j < |works| && j != i &&
                    up.upper(if works[j].shortTitle != "" then works[j].shortTitle else works[j].title) ==
                    up.upper(if w.shortTitle != "" then w.shortTitle else w.title))
               then
                 && done.title == w.fullTitle
                 && forall b :: 0 <= b < |w.books| ==>
                      done.books[b].title ==
                          if w.books[b].fullTitle != "" then w.books[b].fullTitle else w.books[b].title
               else done == w
  {
    SharedTitlesAre(up, works, i);
    TitlesAfterPass(up, works, i);
  }

  // ---------------------------------------------------------------------------------------
  // Works
  // ---------------------------------------------------------------------------------------

  /** Every requested work that is cached and has editions is embedded, under its own id. */
  lemma RequestedWorksAreEmbedded(up: Upstream, author: Author, cached: map<ID, Work>, ids: set<ID>,
                                  batch: map<ID, Work>, done: Author, c: ID) returns (i: nat)
    requires Selects(batch, FetchedWorks(cached, ids), WorkID) && IsDenormalized(up, author, batch, done)
    requires c in ids && c in cached && cached[c].books != []
    ensures i < |done.works| && done.works[i].foreignID == cached[c].foreignID
  {
    var merged := Merge(author.works, batch, WorkID);
    assert cached[c] in FetchedWorks(cached, ids);
    i := MapAt(merged, WorkID, cached[c].foreignID);
    TitlesAre(up, merged, i);
  }

  /** So is every work that was. */
  lemma EmbeddedWorksStay(up: Upstream, author: Author, batch: map<ID, Work>, done: Author, j: nat) returns (i: nat)
    requires IsDenormalized(up, author, batch, done) && j < |author.works|
    ensures i < |done.works| && done.works[i].foreignID == author.works[j].foreignID
  {
    i := MergeKeepsPlaces(author.works, batch, j);
    TitlesAre(up, Merge(author.works, batch, WorkID), i);
  }

  /**
   Whatever is embedded is, but for titles, a requested work that is cached and has editions, or, if
   there is none with its id, what was embedded before.
   */
  lemma EmbeddedWorksAre(up: Upstream, author: Author, cached: map<ID, Work>, ids: set<ID>,
                         batch: map<ID, Work>, done: Author, i: nat)
    requires Selects(batch, FetchedWorks(cached, ids), WorkID) && IsDenormalized(up, author, batch, done)
    requires i < |done.works|
    ensures || (exists c ::
                c in ids && c in cached && cached[c].books != [] && OnlyTitlesDiffer(done.works[i], cached[c]))
            || ((forall c :: c in ids && c in cached && cached[c].books != [] ==>
                   cached[c].foreignID != done.works[i].foreignID)
                && exists j :: 0 <= j < |author.works| && OnlyTitlesDiffer(done.works[i], author.works[j]))
  {
    var merged := Merge(author.works, batch, WorkID);
    TitlesAre(up, merged, i);
    var j := MergedAt(author.works, batch, i);
    var k := merged[i].foreignID;
    if k in batch {
      assert batch[k] in FetchedWorks(cached, ids);
      var c :| c in ids && c in cached && cached[c].books != [] && cached[c] == batch[k];
    } else {
      forall c | c in ids && c in cached && cached[c].books != []
        ensures cached[c].foreignID != k
      {
        assert cached[c] in FetchedWorks(cached, ids);
      }
    }
  }

  // ---------------------------------------------------------------------------------------
  // Series
  // ---------------------------------------------------------------------------------------

  lemma SeriesStay(up: Upstream, works: seq<Work>, i: nat)
    requires i < |works|
    ensures TitlePass(up, works)[i].series == works[i].series
  {
    TitlesAre(up, works, i);
  }

  /** Every series of an embedded work that can be fetched is listed, under the id it was fetched with. */
  lemma SeriesIsListed(up: Upstream, author: Author, works: seq<Work>, done: Author, i: nat, s: ID) returns (k: nat)
    requires IsFinished(up, author, works, done)
    requires i < |done.works| && s in done.works[i].series && up.series(s).Some?
    ensures k < |done.series| && done.series[k].foreignID == up.series(s).value.foreignID
  {
    SeriesStay(up, works, i);
    assert up.series(s).value in FetchedSeries(up, RequestedSeries(works));
    k := MapAt(done.series, SeriesID, up.series(s).value.foreignID);
  }

  /** And every series that is listed was fetched for an embedded work; they are sorted. */
  lemma ListedSeriesIs(up: Upstream, author: Author, works: seq<Work>, done: Author, k: nat) returns (i: nat, s: ID)
    requires IsFinished(up, author, works, done) && k < |done.series|
    ensures i < |done.works| && s in done.works[i].series && up.series(s) == Some(done.series[k])
    ensures forall l :: 0 <= l < k ==> done.series[l].foreignID < done.series[k].foreignID
  {
    i, s := RequestOf(up, works, done.series, k);
    SeriesStay(up, works, i);
  }

  lemma RequestOf(up: Upstream, works: seq<Work>, series: seq<Series>, k: nat) returns (i: nat, s: ID)
    requires IsSeriesList(up, works, series) && k < |series|
    ensures i < |works| && s in works[i].series && up.series(s) == Some(series[k])
  {
    MapHas(series, SeriesID, k);
    var id := series[k].foreignID;
    assert ToMap(series, SeriesID)[id] in FetchedSeries(up, RequestedSeries(works));
    s :| s in RequestedSeries(works) && up.series(s).Some? && up.series(s).value == series[k];
    i :| 0 <= i < |works| && s in works[i].series;
  }

  // ---------------------------------------------------------------------------------------
  // Which authors are denormalized
  // ---------------------------------------------------------------------------------------

  /** All but seven placeholder authors are, whenever works are requested for them. */
  lemma AuthorIsDenormalizedIff(up: Upstream, s: State, authorID: ID, ids: set<ID>, s': State)
    requires WorksStep(up, s, authorID, ids, s') && authorID in s.authors && ids != {}
    ensures s'.authors.Keys == s.authors.Keys && s' == s.(authors := s'.authors)
    ensures forall a :: a in s.authors && a != authorID ==> s'.authors[a] == s.authors[a]
    ensures if authorID == 22294257 || authorID == 5158478 || authorID == 5481957 || authorID == 4699102
               || authorID == 14144674 || authorID == 5153555 || authorID == 4340042
            then s'.authors[authorID] == s.authors[authorID]
            else exists batch: map<ID, Work> ::
                   && Selects(batch, FetchedWorks(s.works, ids), WorkID)
                   && IsDenormalized(up, s.authors[authorID], batch, s'.authors[authorID])
  {
    if !UnknownAuthor(authorID) { var batch, done := WorksOutcome(up, s, authorID, ids, s'); }
  }
}
