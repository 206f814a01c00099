/**
 The copy of a work that its authors embed is never silently stale: it equals the cached work
 up to displayed titles, or an edge that will refresh it is queued or being sent.

 A work may be cached under several ids, its own and those it was merged from, while an author
 embeds one copy of it. What every step keeps is that each author embeds, or will embed, one of
 the copies that are cached. The exceptions are loads that announce nothing, and they are
 characterized exactly.
 */
module Freshness {
  import opened Collections
  import opened SortedList
  import opened Resources
  import opened AuthorPass
  import opened Edges
  import opened Pipeline

  /** The author holds a copy of the work that differs at most in displayed titles. */
  ghost predicate Embeds(author: Author, work: Work) {
    exists i :: 0 <= i < |author.works| && SameUpToTitles(author.works[i], work)
  }

  ghost predicate FreshOrPending(s: State, authorID: ID, workID: ID)
    requires authorID in s.authors && workID in s.works
  {
    Triple(AuthorEdge, authorID, workID) in Pending(s) || Embeds(s.authors[authorID], s.works[workID])
  }

  /** The relationships the pipeline maintains: an author that can be loaded and a work with editions. */
  ghost predicate Maintained(s: State, authorID: ID, workID: ID) {
    && workID in s.works && s.works[workID].books != []
    && authorID in s.works[workID].authors
    && authorID in s.authors && !UnknownAuthor(authorID)
  }

  ghost predicate Fresh(s: State) {
    forall authorID, workID :: Maintained(s, authorID, workID) ==> FreshOrPending(s, authorID, workID)
  }

  /** Two ids of one work. */
  ghost predicate Alias(works: map<ID, Work>, v: ID, w: ID) {
    v in works && w in works && works[v].foreignID == works[w].foreignID
  }

  /** One of the cached copies of the work is the one the author embeds or will embed. */
  ghost predicate CoveredPair(s: State, authorID: ID, workID: ID) {
    exists v :: Alias(s.works, v, workID) && Maintained(s, authorID, v) && FreshOrPending(s, authorID, v)
  }

  ghost predicate Covered(s: State) {
    forall authorID, workID :: Maintained(s, authorID, workID) ==> CoveredPair(s, authorID, workID)
  }

  ghost predicate FreshState(s: State) {
    SortedState(s) && Attributed(s.works, Pending(s)) && Covered(s)
  }

  // ---------------------------------------------------------------------------------------
  // Steps other than loads
  // ---------------------------------------------------------------------------------------

  lemma CoveredBy(s: State, authorID: ID, workID: ID, v: ID)
    requires Alias(s.works, v, workID) && Maintained(s, authorID, v) && FreshOrPending(s, authorID, v)
    ensures CoveredPair(s, authorID, workID)
  {
  }

  lemma StaysCovered(s: State, s': State, a: ID, w: ID)
    requires CoveredPair(s, a, w) && s'.works == s.works && s'.authors.Keys == s.authors.Keys
    requires a in s.authors && s'.authors[a] == s.authors[a]
    requires forall v :: Triple(AuthorEdge, a, v) in Pending(s) ==> Triple(AuthorEdge, a, v) in Pending(s')
    ensures CoveredPair(s', a, w)
  {
    var v :| Alias(s.works, v, w) && Maintained(s, a, v) && FreshOrPending(s, a, v);
    CoveredBy(s', a, w, v);
  }

  lemma SendingKeepsCoverage(s: State, s': State)
    requires Covered(s)
    requires s'.works == s.works && s'.authors == s.authors
    requires forall a, v :: Triple(AuthorEdge, a, v) in Pending(s) ==> Triple(AuthorEdge, a, v) in Pending(s')
    ensures Covered(s')
  {
    forall a, w | Maintained(s', a, w)
      ensures CoveredPair(s', a, w)
    {
      assert Maintained(s, a, w);
      StaysCovered(s, s', a, w);
    }
  }

  /** `s'` is `s` after the editions of one work changed and its authors were told. */
  ghost predicate Announces(s: State, workID: ID, s': State) {
    && workID in s.works && s'.works.Keys == s.works.Keys && s'.authors == s.authors
    && (forall v :: v in s.works && v != workID ==> s'.works[v] == s.works[v])
    && s'.works[workID] == s.works[workID].(books := s'.works[workID].books)
    && (s.works[workID].books != [] ==> s'.works[workID].books != [])
    && Pending(s) <= Pending(s')
    && (forall a :: a in s.works[workID].authors ==> Triple(AuthorEdge, a, workID) in Pending(s'))
    && (forall t :: t in Pending(s') && t !in Pending(s) ==>
          t.kind == AuthorEdge && t.childID == workID && t.parentID in s.works[workID].authors)
  }

  lemma AnnouncedAnnounces(s: State, workID: ID, edited: Work)
    requires workID in s.works && edited == s.works[workID].(books := edited.books)
    requires s.works[workID].books != [] ==> edited.books != []
    ensures Announces(s, workID, Announced(s, workID, edited))
  {
    TriplesOfConcat(s.inFlight, AuthorEdges(edited.authors, workID));
    TriplesOfAuthorEdges(edited.authors, workID);
  }

  lemma AnnouncedKeepsAliases(s: State, workID: ID, s': State, v: ID, w: ID)
    requires Announces(s, workID, s')
    ensures Alias(s'.works, v, w) <==> Alias(s.works, v, w)
  {
    if v in s.works { assert s'.works[v].foreignID == s.works[v].foreignID; }
    if w in s.works { assert s'.works[w].foreignID == s.works[w].foreignID; }
  }

  lemma AnnouncedStaysFresh(s: State, workID: ID, s': State, a: ID, v: ID)
    requires Announces(s, workID, s') && Maintained(s, a, v) && FreshOrPending(s, a, v)
    ensures Maintained(s', a, v) && FreshOrPending(s', a, v)
  {
  }

  /** A changed work is announced to all its authors. */
  lemma AnnouncingKeepsCoverage(s: State, workID: ID, s': State)
    requires Covered(s) && Announces(s, workID, s')
    ensures Covered(s')
  {
    forall a, w | Maintained(s', a, w)
      ensures CoveredPair(s', a, w)
    {
      if w == workID {
        CoveredBy(s', a, w, w);
      } else {
        assert Maintained(s, a, w);
        var v :| Alias(s.works, v, w) && Maintained(s, a, v) && FreshOrPending(s, a, v);
        AnnouncedStaysFresh(s, workID, s', a, v);
        AnnouncedKeepsAliases(s, workID, s', v, w);
        CoveredBy(s', a, w, v);
      }
    }
  }

  lemma AnnouncingKeepsAttribution(s: State, workID: ID, s': State)
    requires Attributed(s.works, Pending(s)) && Announces(s, workID, s')
    ensures Attributed(s'.works, Pending(s'))
  {
  }

  /** Processing a work edge. */
  lemma EditingKeepsFreshness(up: Upstream, s: State, workID: ID, bookIDs: set<ID>, s': State)
    requires FreshState(s) && EditionsStep(up, s, workID, bookIDs, s')
    ensures FreshState(s')
  {
    EditionsKeepSorted(up, s, workID, bookIDs, s');
    if bookIDs != {} && workID in s.works {
      var edited := EditionsOutcome(up, s, workID, bookIDs, s');
      EditedKeeps(up, s.works[workID], bookIDs, edited);
      if edited != s.works[workID] {
        AnnouncedAnnounces(s, workID, edited);
        AnnouncingKeepsCoverage(s, workID, s');
        AnnouncingKeepsAttribution(s, workID, s');
      }
    }
  }

  lemma FinishedEmbeds(up: Upstream, author: Author, merged: seq<Work>, done: Author, i: nat, work: Work)
    requires IsFinished(up, author, merged, done) && i < |merged| && SameUpToTitles(merged[i], work)
    ensures Embeds(done, work)
  {
    TitlePassKeepsTheRest(up, merged);
    assert SameUpToTitles(done.works[i], merged[i]);
    assert SameUpToTitles(done.works[i], work);
  }

  /**
   A denormalized author embeds every work of the batch and, up to titles, every work it embedded that
   is not superseded.
   */
  lemma DenormalizedEmbeds(up: Upstream, author: Author, batch: map<ID, Work>, done: Author, work: Work)
    requires IsDenormalized(up, author, batch, done)
    requires (work.foreignID in batch && batch[work.foreignID] == work)
             || (work.foreignID !in batch && Embeds(author, work))
    ensures Embeds(done, work)
  {
    var merged := Merge(author.works, batch, WorkID);
    if work.foreignID in batch {
      var i := MapAt(merged, WorkID, work.foreignID);
      FinishedEmbeds(up, author, merged, done, i, work);
    } else {
      var j :| 0 <= j < |author.works| && SameUpToTitles(author.works[j], work);
      assert StripTitles(author.works[j]).foreignID == StripTitles(work).foreignID;
      var i := MergeKeepsPlaces(author.works, batch, j);
      FinishedEmbeds(up, author, merged, done, i, work);
    }
  }

  /** A work fetched for an author edge is cached under one of the requested ids. */
  lemma BatchIsCached(works: map<ID, Work>, ids: set<ID>, batch: map<ID, Work>, k: ID) returns (w: ID)
    requires Selects(batch, FetchedWorks(works, ids), WorkID) && k in batch
    ensures w in ids && w in works && works[w].books != [] && works[w] == batch[k] && batch[k].foreignID == k
  {
    assert batch[k] in FetchedWorks(works, ids);
    w :| w in ids && w in works && works[w].books != [] && works[w] == batch[k];
  }

  lemma RequestedIsFetched(works: map<ID, Work>, ids: set<ID>, batch: map<ID, Work>, w: ID)
    requires Selects(batch, FetchedWorks(works, ids), WorkID) && w in ids && w in works && works[w].books != []
    ensures works[w].foreignID in batch
  {
    assert works[w] in FetchedWorks(works, ids);
  }

  /** Processing an author edge for an author that can be loaded, seen from one maintained pair. */
  lemma DenormalizingCovers(up: Upstream, s: State, authorID: ID, ids: set<ID>, batch: map<ID, Work>, done: Author,
                            s': State, w: ID, v: ID)
    requires authorID in s.authors && Selects(batch, FetchedWorks(s.works, ids), WorkID)
    requires IsDenormalized(up, s.authors[authorID], batch, done) && s' == s.(authors := s.authors[authorID := done])
    requires forall u :: u in ids && u in s.works ==> authorID in s.works[u].authors
    requires Alias(s.works, v, w) && Maintained(s, authorID, v) && (v in ids || FreshOrPending(s, authorID, v))
    ensures CoveredPair(s', authorID, w)
  {
    var k, u := s.works[v].foreignID, v;
    if v in ids { RequestedIsFetched(s.works, ids, batch, v); }
    if k in batch {
      u := BatchIsCached(s.works, ids, batch, k);
    }
    if k in batch || Embeds(s.authors[authorID], s.works[v]) {
      DenormalizedEmbeds(up, s.authors[authorID], batch, done, s.works[u]);
    }
    CoveredBy(s', authorID, w, u);
  }

  /** Processing an author edge refreshes the copies of its works and leaves the others alone. */
  lemma DenormalizingKeepsFreshness(up: Upstream, s: State, t: State, authorID: ID, ids: set<ID>, s': State)
    requires FreshState(s) && t.works == s.works && t.authors == s.authors
    requires Pending(s) == Triples([Edge(AuthorEdge, authorID, ids)]) + Pending(t)
    requires WorksStep(up, t, authorID, ids, s')
    ensures FreshState(s')
  {
    WorksKeepSorted(up, t, authorID, ids, s');
    TriplesOfEdge(Edge(AuthorEdge, authorID, ids));
    AuthorEdgeIsAttributed(s, authorID, ids);
    if ids != {} && authorID in s.authors && !UnknownAuthor(authorID) {
      var batch, done := WorksOutcome(up, t, authorID, ids, s');
      DenormalizedKeepsCoverage(up, s, t, authorID, ids, batch, done, s');
    } else {
      forall a, w | Maintained(s', a, w)
        ensures CoveredPair(s', a, w)
      {
        assert Maintained(s, a, w);
        StaysCovered(s, s', a, w);
      }
    }
  }

  lemma DenormalizedKeepsCoverage(up: Upstream, s: State, t: State, authorID: ID, ids: set<ID>, batch: map<ID, Work>,
                                  done: Author, s': State)
    requires Covered(s) && t.works == s.works && t.authors == s.authors && authorID in s.authors
    requires forall a, v :: Triple(AuthorEdge, a, v) in Pending(s) ==>
               (a == authorID && v in ids) || Triple(AuthorEdge, a, v) in Pending(t)
    requires Selects(batch, FetchedWorks(t.works, ids), WorkID) && IsDenormalized(up, t.authors[authorID], batch, done)
    requires s' == t.(authors := t.authors[authorID := done])
    requires forall u :: u in ids && u in s.works ==> authorID in s.works[u].authors
    ensures Covered(s')
  {
    forall a, w | Maintained(s', a, w)
      ensures CoveredPair(s', a, w)
    {
      assert Maintained(s, a, w);
      if a == authorID {
        DenormalizedIsCovered(up, s, t, authorID, ids, batch, done, s', w);
      } else {
        OtherAuthorsStayCovered(s, t, authorID, done, s', a, w);
      }
    }
  }

  lemma OtherAuthorsStayCovered(s: State, t: State, authorID: ID, done: Author, s': State, a: ID, w: ID)
    requires CoveredPair(s, a, w) && t.works == s.works && t.authors == s.authors && authorID in s.authors
    requires a in s.authors && a != authorID && s' == t.(authors := t.authors[authorID := done])
    requires forall v :: Triple(AuthorEdge, a, v) in Pending(s) ==> Triple(AuthorEdge, a, v) in Pending(t)
    ensures CoveredPair(s', a, w)
  {
    KeysAfterUpdate(t.authors, authorID, done);
    StaysCovered(s, s', a, w);
  }

  lemma DenormalizedIsCovered(up: Upstream, s: State, t: State, authorID: ID, ids: set<ID>, batch: map<ID, Work>,
                              done: Author, s': State, w: ID)
    requires CoveredPair(s, authorID, w) && t.works == s.works && t.authors == s.authors && authorID in s.authors
    requires forall v :: Triple(AuthorEdge, authorID, v) in Pending(s) ==>
               v in ids || Triple(AuthorEdge, authorID, v) in Pending(t)
    requires Selects(batch, FetchedWorks(t.works, ids), WorkID) && IsDenormalized(up, t.authors[authorID], batch, done)
    requires s' == t.(authors := t.authors[authorID := done])
    requires forall u :: u in ids && u in s.works ==> authorID in s.works[u].authors
    ensures CoveredPair(s', authorID, w)
  {
    var v :| Alias(s.works, v, w) && Maintained(s, authorID, v) && FreshOrPending(s, authorID, v);
    DenormalizingCovers(up, t, authorID, ids, batch, done, s', w, v);
  }

  lemma AuthorEdgeIsAttributed(s: State, authorID: ID, ids: set<ID>)
    requires Attributed(s.works, Pending(s)) && Triples([Edge(AuthorEdge, authorID, ids)]) <= Pending(s)
    ensures forall u :: u in ids && u in s.works ==> authorID in s.works[u].authors
  {
    TriplesOfEdge(Edge(AuthorEdge, authorID, ids));
    forall u | u in ids && u in s.works
      ensures authorID in s.works[u].authors
    {
      assert Triple(AuthorEdge, authorID, u) in Pending(s);
    }
  }

  /** Taking an edge that is not an author edge leaves every pending author edge pending. */
  lemma OtherEdgesKeepFreshness(s: State, t: State)
    requires FreshState(s) && s.queue != [] && s.queue[0].kind != AuthorEdge && t == s.(queue := s.queue[1..])
    ensures FreshState(t)
  {
    PendingOfHead(s);
    TriplesOfEdge(s.queue[0]);
    SendingKeepsCoverage(s, t);
  }

  lemma ProcessingKeepsFreshness(up: Upstream, s: State, s': State)
    requires FreshState(s) && Step(up, s, Process, s')
    ensures FreshState(s')
  {
    var e, t := s.queue[0], s.(queue := s.queue[1..]);
    PendingOfHead(s);
    match e.kind {
      case WorkEdge =>
        OtherEdgesKeepFreshness(s, t);
        EditingKeepsFreshness(up, t, e.parentID, e.childIDs, s');
      case AuthorEdge =>
        DenormalizingKeepsFreshness(up, s, t, e.parentID, e.childIDs, s');
      case RefreshDone =>
        OtherEdgesKeepFreshness(s, t);
    }
  }

  // ---------------------------------------------------------------------------------------
  // Loads
  // ---------------------------------------------------------------------------------------

  /** The works a load may leave uncovered: the loaded one, and other copies of the one it replaces. */
  ghost predicate Disturbed(s: State, l: Label, w: ID)
    requires l.Load? && (w == l.workID || w in s.works)
  {
    w == l.workID || s.works[w].foreignID == l.loaded.foreignID
    || (l.workID in s.works && s.works[w].foreignID == s.works[l.workID].foreignID)
  }

  ghost predicate LoadIsCovered(s: State, l: Label, s': State)
    requires l.Load? && s'.works == s.works[l.workID := l.loaded]
  {
    forall a, w :: Maintained(s', a, w) && Disturbed(s, l, w) ==> CoveredPair(s', a, w)
  }

  lemma LoadKeepsPending(up: Upstream, s: State, l: Label, s': State)
    requires l.Load? && Step(up, s, l, s')
    ensures Pending(s) <= Pending(s')
    ensures forall a, w :: Triple(AuthorEdge, a, w) in Pending(s') <==>
              Triple(AuthorEdge, a, w) in Pending(s) || (w == l.workID && a == l.authorID && l.authorID > 0)
    ensures forall w, c :: Triple(WorkEdge, w, c) in Pending(s') <==>
              Triple(WorkEdge, w, c) in Pending(s) || (w == l.workID && c in KeptBooks(up, s.works, l.workID))
  {
    var first, second := Edge(WorkEdge, l.workID, KeptBooks(up, s.works, l.workID)),
        Edge(AuthorEdge, l.authorID, {l.workID});
    TriplesOfConcat(s.inFlight, LoadEdges(up, s.works, l.workID, l.authorID));
    TriplesOfConcat([first], if l.authorID > 0 then [second] else []);
    TriplesOfEdge(first);
    TriplesOfEdge(second);
  }

  lemma UndisturbedStaysCovered(s: State, l: Label, s': State, a: ID, w: ID)
    requires l.Load? && s'.works == s.works[l.workID := l.loaded] && s'.authors == s.authors
    requires CoveredPair(s, a, w) && w in s.works && !Disturbed(s, l, w)
    requires forall v :: Triple(AuthorEdge, a, v) in Pending(s) ==> Triple(AuthorEdge, a, v) in Pending(s')
    ensures CoveredPair(s', a, w)
  {
    var v :| Alias(s.works, v, w) && Maintained(s, a, v) && FreshOrPending(s, a, v);
    assert v != l.workID;
    CoveredBy(s', a, w, v);
  }

  /** A load keeps the works covered exactly when it leaves those covered that it disturbs. */
  lemma LoadingIsCoveredIff(up: Upstream, s: State, l: Label, s': State)
    requires Covered(s) && l.Load? && Step(up, s, l, s')
    ensures Covered(s') <==> LoadIsCovered(s, l, s')
  {
    LoadKeepsPending(up, s, l, s');
    forall a, w | Maintained(s', a, w) && !Disturbed(s, l, w)
      ensures CoveredPair(s', a, w)
    {
      assert Maintained(s, a, w);
      UndisturbedStaysCovered(s, l, s', a, w);
    }
  }

  /** No other cached work is the same work. */
  ghost predicate Alone(works: map<ID, Work>, w: ID) {
    forall v :: Alias(works, v, w) ==> v == w
  }

  /**
   A load of a work that is cached under one id only keeps all copies covered if and only if each
   author that can be loaded is announced, has an edge pending, or embeds the loaded content
   already. An author is announced only by a load that names it; a load that was answered from
   cached editions names none.
   */
  lemma LoadingAloneIsCoveredIff(up: Upstream, s: State, l: Label, s': State)
    requires Covered(s) && l.Load? && Step(up, s, l, s')
    requires Alone(s.works, l.workID) && Alone(s'.works, l.workID)
    ensures Covered(s') <==>
            forall a :: Maintained(s', a, l.workID) ==>
              || (a == l.authorID && l.authorID > 0)
              || Triple(AuthorEdge, a, l.workID) in Pending(s)
              || Embeds(s.authors[a], l.loaded)
  {
    LoadingIsCoveredIff(up, s, l, s');
    LoadKeepsPending(up, s, l, s');
    forall a | Maintained(s', a, l.workID)
      ensures CoveredPair(s', a, l.workID) <==>
              || (a == l.authorID && l.authorID > 0)
              || Triple(AuthorEdge, a, l.workID) in Pending(s)
              || Embeds(s.authors[a], l.loaded)
    {
      if FreshOrPending(s', a, l.workID) { CoveredBy(s', a, l.workID, l.workID); }
    }
    OnlyItselfIsDisturbed(s, l, s');
  }

  lemma OnlyItselfIsDisturbed(s: State, l: Label, s': State)
    requires l.Load? && s'.works == s.works[l.workID := l.loaded]
    requires Alone(s.works, l.workID) && Alone(s'.works, l.workID)
    ensures forall a, w :: Maintained(s', a, w) && Disturbed(s, l, w) ==> w == l.workID
  {
    var id := l.workID;
    forall w | w in s.works && Disturbed(s, l, w)
      ensures w == id
    {
      assert Alias(s'.works, w, id) || Alias(s.works, w, id);
    }
  }

  // ---------------------------------------------------------------------------------------
  // Every step, and whole runs
  // ---------------------------------------------------------------------------------------

  /** What the surroundings bring in: attributed edges, and loaded works with sorted editions and attributed edges. */
  ghost predicate WellFed(s: State, l: Label, s': State) {
    && (l.External? ==> Attributed(s.works, Triples([l.e])))
    && (l.Load? ==> Sorted(l.loaded.books, BookID) && Attributed(s'.works, Pending(s')))
  }

  /**
   Every step keeps each author's copies fresh or about to be refreshed, a load exactly if it leaves
   the works covered that it disturbs.
   */
  lemma StepKeepsFreshness(up: Upstream, s: State, l: Label, s': State)
    requires FreshState(s) && Step(up, s, l, s') && WellFed(s, l, s')
    ensures !l.Load? ==> FreshState(s')
    ensures l.Load? ==> (FreshState(s') <==> LoadIsCovered(s, l, s'))
  {
    match l
    case Load(_, _, _) =>
      LoadingIsCoveredIff(up, s, l, s');
      StepKeepsSorted(up, s, l, s');
    case External(e) =>
      TriplesOfConcat(s.inFlight, [e]);
      SendingKeepsCoverage(s, s');
    case Deliver(i) =>
      DeliverKeepsPending(up, s, i, s');
      SendingKeepsCoverage(s, s');
    case Process =>
      ProcessingKeepsFreshness(up, s, s');
  }

  /**
   After every run from a fresh state whose loads leave the works covered that they disturb, copies are
   fresh or about to be refreshed.
   */
  lemma {:induction false} RunKeepsFreshness(up: Upstream, states: seq<State>, labels: seq<Label>)
    requires Trace(up, states, labels) && FreshState(states[0])
    requires forall i :: 0 <= i < |labels| ==> WellFed(states[i], labels[i], states[i + 1])
    requires forall i :: 0 <= i < |labels| && labels[i].Load? ==> LoadIsCovered(states[i], labels[i], states[i + 1])
    ensures FreshState(states[|labels|])
  {
    if labels != [] {
      var n := |labels| - 1;
      RunKeepsFreshness(up, states[..n + 1], labels[..n]);
      StepKeepsFreshness(up, states[n], labels[n], states[n + 1]);
    }
  }

  // ---------------------------------------------------------------------------------------
  // At rest
  // ---------------------------------------------------------------------------------------

  /** All cached copies of a work that an author is to embed agree. */
  ghost predicate AliasesAgree(s: State) {
    forall a, v, w :: Maintained(s, a, v) && Maintained(s, a, w) && Alias(s.works, v, w) ==>
      SameUpToTitles(s.works[v], s.works[w])
  }

  lemma OneCopy(author: Author, x: Work, y: Work)
    requires Sorted(author.works, WorkID) && Embeds(author, x) && Embeds(author, y) && x.foreignID == y.foreignID
    ensures SameUpToTitles(x, y)
  {
    var i :| 0 <= i < |author.works| && SameUpToTitles(author.works[i], x);
    var j :| 0 <= j < |author.works| && SameUpToTitles(author.works[j], y);
    assert StripTitles(author.works[i]).foreignID == StripTitles(x).foreignID;
    assert StripTitles(author.works[j]).foreignID == StripTitles(y).foreignID;
  }

  lemma FreshAtRestAgrees(s: State, a: ID, v: ID, w: ID)
    requires SortedState(s) && Quiescent(s) && Fresh(s)
    requires Maintained(s, a, v) && Maintained(s, a, w) && Alias(s.works, v, w)
    ensures SameUpToTitles(s.works[v], s.works[w])
  {
    assert FreshOrPending(s, a, v) && FreshOrPending(s, a, w);
    OneCopy(s.authors[a], s.works[v], s.works[w]);
  }

  lemma EmbedsAnother(author: Author, x: Work, y: Work)
    requires Embeds(author, x) && SameUpToTitles(x, y)
    ensures Embeds(author, y)
  {
    var i :| 0 <= i < |author.works| && SameUpToTitles(author.works[i], x);
    assert SameUpToTitles(author.works[i], y);
  }

  lemma AgreeingAtRestIsFresh(s: State, a: ID, w: ID)
    requires Covered(s) && Quiescent(s) && AliasesAgree(s) && Maintained(s, a, w)
    ensures FreshOrPending(s, a, w)
  {
    var v :| Alias(s.works, v, w) && Maintained(s, a, v) && FreshOrPending(s, a, v);
    EmbedsAnother(s.authors[a], s.works[v], s.works[w]);
  }

  /** At rest the copies agree with the cached works if and only if cached copies of one work agree with each other. */
  lemma CoveredAtRestIff(s: State)
    requires SortedState(s) && Covered(s) && Quiescent(s)
    ensures Fresh(s) <==> AliasesAgree(s)
  {
    if Fresh(s) {
      forall a, v, w | Maintained(s, a, v) && Maintained(s, a, w) && Alias(s.works, v, w) {
        FreshAtRestAgrees(s, a, v, w);
      }
    }
    if AliasesAgree(s) {
      forall a, w | Maintained(s, a, w) {
        AgreeingAtRestIsFresh(s, a, w);
      }
    }
  }

  /** So when such a run has come to rest, every copy agrees with the cached work exactly if the cached copies do. */
  lemma CopiesAgreeAtRestIff(up: Upstream, states: seq<State>, labels: seq<Label>)
    requires Trace(up, states, labels) && FreshState(states[0]) && Quiescent(states[|labels|])
    requires forall i :: 0 <= i < |labels| ==> WellFed(states[i], labels[i], states[i + 1])
    requires forall i :: 0 <= i < |labels| && labels[i].Load? ==> LoadIsCovered(states[i], labels[i], states[i + 1])
    ensures Fresh(states[|labels|]) <==> AliasesAgree(states[|labels|])
  {
    RunKeepsFreshness(up, states, labels);
    CoveredAtRestIff(states[|labels|]);
  }

  /** No two cached works are the same work under two ids. */
  ghost predicate Canonical(works: map<ID, Work>) {
    forall v, w :: Alias(works, v, w) ==> v == w
  }

  /** Then being covered is being fresh, in any state. */
  lemma CanonicalIsFreshIff(s: State)
    requires Canonical(s.works)
    ensures Fresh(s) <==> Covered(s)
  {
    if Fresh(s) {
      forall a, w | Maintained(s, a, w)
        ensures CoveredPair(s, a, w)
      {
        CoveredBy(s, a, w, w);
      }
    }
    if Covered(s) {
      forall a, w | Maintained(s, a, w)
        ensures FreshOrPending(s, a, w)
      {
        assert CoveredPair(s, a, w);
      }
    }
  }
}
