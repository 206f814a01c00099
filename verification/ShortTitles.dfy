/**
 Serializability can fail where short titles are missing. A work without one is counted under the
 title it displays, and denormalizing an author can change that title. If the new title clashes
 with the one of another work, it matters whether the two were denormalized together or one after
 the other. Works without short titles whose titles never clash do no harm.
 */
module ShortTitles {
  import opened Collections
  import opened SortedList
  import opened Resources
  import opened AuthorPass
  import opened Edges
  import opened Pipeline
  import opened Histories
  import opened Confluence

  ghost const EDITION := Book(10, "", "", 0, 0, 0)
  ghost const IN_SERIES := Work(1, "FOO", "FOO: BAR", "", [EDITION], [7], [5], 0, 0, 0)
  ghost const PLAIN := Work(2, "FOO: BAR", "FOO: BAR: BAZ", "", [EDITION], [], [5], 0, 0, 0)

  /** Both works are cached, and their author has none yet. */
  ghost function Start(): State {
    State(map[1 := IN_SERIES, 2 := PLAIN], map[5 := Author(5, [], [], 0, 0.0, 0)], [], [])
  }

  lemma FetchedByID(ids: set<ID>, batch: map<ID, Work>)
    requires Selects(batch, FetchedWorks(Start().works, ids), WorkID)
    ensures 1 in batch <==> 1 in ids
    ensures 2 in batch <==> 2 in ids
    ensures forall k :: k in batch ==> (k == 1 && batch[k] == IN_SERIES) || (k == 2 && batch[k] == PLAIN)
  {
    var fetched := FetchedWorks(Start().works, ids);
    assert forall w :: w in fetched ==> (w == IN_SERIES && 1 in ids) || (w == PLAIN && 2 in ids);
    assert 1 in ids ==> IN_SERIES in fetched by { assert Start().works[1] == IN_SERIES; }
    assert 2 in ids ==> PLAIN in fetched by { assert Start().works[2] == PLAIN; }
  }

  lemma FetchedMap(ids: set<ID>, batch: map<ID, Work>)
    requires Selects(batch, FetchedWorks(Start().works, ids), WorkID)
    ensures 1 in ids && 2 in ids ==> batch == map[1 := IN_SERIES, 2 := PLAIN]
    ensures 1 in ids && 2 !in ids ==> batch == map[1 := IN_SERIES]
    ensures 1 !in ids && 2 in ids ==> batch == map[2 := PLAIN]
  {
    FetchedByID(ids, batch);
  }

  lemma MergeOne(w: Work, batch: map<ID, Work>)
    requires batch == map[w.foreignID := w]
    ensures Merge([], batch, WorkID) == [w]
  {
    OneMap(w);
    EmptyMapUnion(batch);
    SortedListsAreEqual([w], Merge([], batch, WorkID), WorkID);
  }

  lemma {:induction false} MergedPair(v: Work, w: Work, merged: seq<Work>)
    requires v.foreignID < w.foreignID && Sorted(merged, WorkID)
    requires ToMap(merged, WorkID) == map[v.foreignID := v, w.foreignID := w]
    ensures merged == [v, w]
  {
    TwoMap(v, w);
    SortedListsAreEqual([v, w], merged, WorkID);
  }

  lemma MergeTwo(v: Work, w: Work, batch: map<ID, Work>)
    requires v.foreignID < w.foreignID && batch == map[v.foreignID := v, w.foreignID := w]
    ensures Merge([], batch, WorkID) == [v, w]
  {
    EmptyMapUnion(batch);
    MergedPair(v, w, Merge([], batch, WorkID));
  }

  lemma OneMap(v: Work)
    ensures ToMap([v], WorkID) == map[v.foreignID := v]
  {
    assert [v][..0] == [];
  }

  lemma TwoMap(v: Work, w: Work)
    ensures ToMap([v, w], WorkID) == map[v.foreignID := v, w.foreignID := w]
  {
    OneMap(v);
    assert [v, w][..1] == [v];
  }

  lemma OneMore(k: ID, v: Work, l: ID, w: Work, batch: map<ID, Work>)
    requires batch == map[l := w]
    ensures map[k := v] + batch == map[k := v, l := w]
  {
  }

  lemma MergeIntoOne(v: Work, w: Work, batch: map<ID, Work>)
    requires v.foreignID < w.foreignID && batch == map[w.foreignID := w]
    ensures Sorted([v], WorkID) && Merge([v], batch, WorkID) == [v, w]
  {
    OneMap(v);
    OneMore(v.foreignID, v, w.foreignID, w, batch);
    MergedPair(v, w, Merge([v], batch, WorkID));
  }

  /** Denormalized together, the second work keeps its title. */
  lemma Together(up: Upstream)
    requires up.upper("FOO") != up.upper("FOO: BAR")
    ensures TitlePass(up, [IN_SERIES, PLAIN])[1] == PLAIN
  {
    assert !SharesTitle(up, [IN_SERIES, PLAIN], 1);
  }

  /** After the first work was denormalized alone, the second one finds its title taken. */
  lemma OneByOne(up: Upstream)
    ensures TitlePass(up, [IN_SERIES]) == [UseFullTitles(IN_SERIES)]
    ensures TitlePass(up, [UseFullTitles(IN_SERIES), PLAIN])[1].title == "FOO: BAR: BAZ"
  {
    assert Ambiguous(up, [IN_SERIES], 0);
    var works := [UseFullTitles(IN_SERIES), PLAIN];
    assert TitleKey(up, works[0]) == TitleKey(up, works[1]);
    assert SharesTitle(up, works, 1);
  }

  /** The works of the author after a denormalization that found the requested works in the cache. */
  lemma WorksAfter(up: Upstream, author: Author, ids: set<ID>, done: Author) returns (batch: map<ID, Work>)
    requires Denormalizes(up, Start().works, author, ids, done)
    ensures Selects(batch, FetchedWorks(Start().works, ids), WorkID) && Keyed(batch, WorkID)
    ensures Sorted(author.works, WorkID) && done.works == TitlePass(up, Merge(author.works, batch, WorkID))
  {
    batch :| Selects(batch, FetchedWorks(Start().works, ids), WorkID) && IsDenormalized(up, author, batch, done);
  }

  lemma WorksTogether(up: Upstream, author: Author, ids: set<ID>, done: Author)
    requires 1 in ids && 2 in ids && author.works == [] && Denormalizes(up, Start().works, author, ids, done)
    ensures done.works == TitlePass(up, [IN_SERIES, PLAIN])
  {
    var batch := WorksAfter(up, author, ids, done);
    FetchedMap(ids, batch);
    MergeTwo(IN_SERIES, PLAIN, batch);
  }

  lemma WorksFirst(up: Upstream, author: Author, ids: set<ID>, done: Author)
    requires 1 in ids && 2 !in ids && author.works == [] && Denormalizes(up, Start().works, author, ids, done)
    ensures done.works == TitlePass(up, [IN_SERIES])
  {
    var batch := WorksAfter(up, author, ids, done);
    FetchedMap(ids, batch);
    MergeOne(IN_SERIES, batch);
  }

  lemma WorksSecond(up: Upstream, author: Author, ids: set<ID>, done: Author, w: Work)
    requires 1 !in ids && 2 in ids && author.works == [w] && w.foreignID == 1
             && Denormalizes(up, Start().works, author, ids, done)
    ensures done.works == TitlePass(up, [w, PLAIN])
  {
    var batch := WorksAfter(up, author, ids, done);
    FetchedMap(ids, batch);
    MergeIntoOne(w, PLAIN, batch);
  }

  lemma WaysDiffer(up: Upstream, ids1: set<ID>, ids2: set<ID>, x: Author, y: Author, z: Author)
    requires up.upper("FOO") != up.upper("FOO: BAR")
    requires 1 in ids1 && 2 !in ids1 && 2 in ids2 && 1 !in ids2 && TwoWays(up, Start(), 5, ids1, ids2, x, y, z)
    ensures y.works != z.works
  {
    Together(up);
    OneByOne(up);
    WorksTogether(up, Start().authors[5], ids1 + ids2, z);
    WorksFirst(up, Start().authors[5], ids1, x);
    WorksSecond(up, x, ids2, y, UseFullTitles(IN_SERIES));
    assert y.works[1].title != z.works[1].title;
  }

  lemma BothOwn()
    ensures OwnWorks(Start(), 5, {1}) && OwnWorks(Start(), 5, {2}) && SortedState(Start()) && Quiescent(Start())
  {
  }

  /**
   Two runs from the same state at rest that push the same relationships, two edges processed one
   after the other in one of them and merged into one in the other, come to different rests.
   */
  lemma MergingNeedsShortTitles(up: Upstream)
    returns (ts: set<Triple>, states1: seq<State>, labels1: seq<Label>, states2: seq<State>, labels2: seq<Label>)
    requires up.upper("FOO") != up.upper("FOO: BAR")
    ensures RestsAfter(up, Start(), ts, states1, labels1) && RestsAfter(up, Start(), ts, states2, labels2)
    ensures states1[|labels1|].authors != states2[|labels2|].authors
    ensures !RunsAgree(up, Start())
  {
    BothOwn();
    var x, y, z := SomeTwoWays(up, Start(), 5, {1}, {2});
    WaysDiffer(up, {1}, {2}, x, y, z);
    ts, states1, labels1, states2, labels2 := TwoRuns(up, Start(), 5, {1}, {2}, x, y, z);
    assert WithAuthor(Start(), 5, y).authors[5] == y && WithAuthor(Start(), 5, z).authors[5] == z;
  }
}
