/**
 What a run without loads leaves behind, whatever state it starts from: works are edited by
 exactly the editions pushed for them, and the works of an author are, up to titles, those it
 started with and one copy of every work that was in play for it.
 */
module Histories {
  import opened Collections
  import opened SortedList
  import opened Resources
  import opened AuthorPass
  import opened Edges
  import opened Pipeline
  import opened Editing
  import opened Freshness

  // ---------------------------------------------------------------------------------------
  // The invariant of a run
  // ---------------------------------------------------------------------------------------

  /**
   What a proof remembers of a run: the relationships pushed, counting those pending at the
   start, those among them that were processed as work edges, and, for each author denormalized
   at least once, the copies of works that went into it.
   */
  datatype History = History(pushed: set<Triple>, edited: set<Triple>, copies: map<ID, map<ID, Work>>)

  ghost function EditionsIn(ts: set<Triple>, workID: ID): set<ID> {
    set t | t in ts && t.kind == WorkEdge && t.parentID == workID :: t.childID
  }

  /** The relationship was pushed, or the work changed and belongs to the author. */
  ghost predicate InPlay(s0: State, pushed: set<Triple>, works: map<ID, Work>, authorID: ID, workID: ID) {
    || Triple(AuthorEdge, authorID, workID) in pushed
    || (workID in works && workID in s0.works && works[workID] != s0.works[workID] && authorID in works[workID].authors)
  }

  ghost predicate WorksTracked(up: Upstream, s0: State, h: History, s: State)
    requires CoherentBooks(up) && SortedState(s0)
  {
    && s.works.Keys == s0.works.Keys
    && forall w :: w in s0.works ==> s.works[w] == Edited(up, s0.works[w], EditionsIn(h.edited, w))
  }

  /** The same works, up to displayed titles. */
  ghost predicate Follows(xs: seq<Work>, ys: seq<Work>) {
    |xs| == |ys| && forall i :: 0 <= i < |xs| ==> SameUpToTitles(xs[i], ys[i])
  }

  /** The author's works are those it started with and the copies that went into it. */
  ghost predicate AuthorFollows(base: Author, copies: map<ID, map<ID, Work>>, authorID: ID, author: Author)
    requires Sorted(base.works, WorkID)
  {
    if authorID in copies then
      Keyed(copies[authorID], WorkID) && Follows(author.works, Merge(base.works, copies[authorID], WorkID))
    else author == base
  }

  ghost predicate AuthorsFollow(s0: State, h: History, s: State)
    requires SortedState(s0)
  {
    && s.authors.Keys == s0.authors.Keys
    && (forall a :: a in h.copies ==> a in s0.authors && !UnknownAuthor(a))
    && (forall a :: a in s0.authors ==> AuthorFollows(s0.authors[a], h.copies, a, s.authors[a]))
  }

  /** A version of a cached work that is in play for the author. */
  ghost predicate IsCopy(up: Upstream, s0: State, h: History, s: State, authorID: ID, copyID: ID, copy: Work,
                         workID: ID)
    requires CoherentBooks(up) && SortedState(s0)
  {
    && workID in s.works && workID in s0.works && s.works[workID].foreignID == copyID
    && InPlay(s0, h.pushed, s.works, authorID, workID)
    && IsVersion(up, s0.works[workID], EditionsIn(h.edited, workID), copy) && copy.books != []
  }

  ghost predicate CopiesTracked(up: Upstream, s0: State, h: History, s: State)
    requires CoherentBooks(up) && SortedState(s0)
  {
    && (forall a :: a in h.copies ==> exists w :: InPlay(s0, h.pushed, s.works, a, w))
    && (forall a, k :: a in h.copies && k in h.copies[a] ==> exists w :: IsCopy(up, s0, h, s, a, k, h.copies[a][k], w))
  }

  ghost predicate Holds(h: History, authorID: ID, work: Work) {
    authorID in h.copies && work.foreignID in h.copies[authorID] && h.copies[authorID][work.foreignID] == work
  }

  /** Of the ids of the work, `v` is the one whose content the author holds or is about to be given. */
  ghost predicate StandsFor(s0: State, h: History, s: State, authorID: ID, workID: ID, v: ID) {
    && Alias(s.works, v, workID) && s.works[v].books != []
    && InPlay(s0, h.pushed, s.works, authorID, v)
    && (Triple(AuthorEdge, authorID, v) in Pending(s) || Holds(h, authorID, s.works[v]))
  }

  /** The work has gone into the author, under one of its ids. */
  ghost predicate WentIn(s0: State, h: History, s: State, authorID: ID, workID: ID) {
    && authorID in h.copies
    && (workID in s.works && s.works[workID].books != [] ==> exists v :: StandsFor(s0, h, s, authorID, workID, v))
  }

  ghost predicate AuthorsRemembered(s0: State, h: History, s: State) {
    forall a, w :: a in s0.authors && !UnknownAuthor(a) && InPlay(s0, h.pushed, s.works, a, w) ==>
      Triple(AuthorEdge, a, w) in Pending(s) || WentIn(s0, h, s, a, w)
  }

  ghost predicate EditionsRemembered(h: History, s: State) {
    forall t :: t in h.pushed && t.kind == WorkEdge ==> t in Pending(s) || t in h.edited
  }

  ghost predicate NothingInvented(s0: State, h: History, s: State) {
    && h.edited <= h.pushed
    && (forall t :: t in Pending(s) && t.kind == WorkEdge ==> t in h.pushed)
    && (forall t :: t in Pending(s) && t.kind == AuthorEdge ==> InPlay(s0, h.pushed, s.works, t.parentID, t.childID))
  }

  ghost predicate Invariant(up: Upstream, s0: State, h: History, s: State) {
    && CoherentBooks(up) && SortedState(s0)
    && Attributed(s0.works, h.pushed)
    && WorksTracked(up, s0, h, s)
    && AuthorsFollow(s0, h, s)
    && CopiesTracked(up, s0, h, s)
    && AuthorsRemembered(s0, h, s)
    && EditionsRemembered(h, s)
    && NothingInvented(s0, h, s)
  }

  lemma WorksKeepIDs(up: Upstream, s0: State, h: History, s: State)
    requires CoherentBooks(up) && SortedState(s0) && WorksTracked(up, s0, h, s)
    ensures forall w :: w in s.works ==> s.works[w] == s0.works[w].(books := s.works[w].books)
    ensures forall v, w :: Alias(s.works, v, w) <==> Alias(s0.works, v, w)
  {
    forall w | w in s.works
      ensures s.works[w] == s0.works[w].(books := s.works[w].books)
    {
      EditedKeepsIdentity(up, s0.works[w], EditionsIn(h.edited, w));
    }
    SameIDsSameAliases(s.works, s0.works);
  }

  lemma SameIDsSameAliases(x: map<ID, Work>, y: map<ID, Work>)
    requires x.Keys == y.Keys && forall w :: w in x ==> x[w].foreignID == y[w].foreignID
    ensures forall v, w :: Alias(x, v, w) <==> Alias(y, v, w)
  {
  }

  /** What is in play for an author is a work of the author. */
  lemma InPlayIsAttributed(up: Upstream, s0: State, h: History, s: State, a: ID, w: ID)
    requires CoherentBooks(up) && SortedState(s0) && WorksTracked(up, s0, h, s) && Attributed(s0.works, h.pushed)
    requires InPlay(s0, h.pushed, s.works, a, w) && w in s.works
    ensures a in s.works[w].authors && a in s0.works[w].authors
  {
    WorksKeepIDs(up, s0, h, s);
    if Triple(AuthorEdge, a, w) in h.pushed { assert a in s0.works[w].authors; }
  }

  // ---------------------------------------------------------------------------------------
  // Every step keeps the invariant
  // ---------------------------------------------------------------------------------------

  lemma StartHolds(up: Upstream, s0: State)
    requires CoherentBooks(up) && SortedState(s0) && Attributed(s0.works, Pending(s0))
    ensures Invariant(up, s0, History(Pending(s0), {}, map[]), s0)
  {
    forall w | w in s0.works
      ensures s0.works[w] == Edited(up, s0.works[w], EditionsIn({}, w))
    {
      assert EditionsIn({}, w) == {};
      EditingNothing(up, s0.works[w]);
    }
  }

  lemma CopyStays(up: Upstream, s0: State, h: History, s: State, h': History, s': State, a: ID, k: ID, copy: Work,
                  w: ID)
    requires CoherentBooks(up) && SortedState(s0) && IsCopy(up, s0, h, s, a, k, copy, w)
    requires EditionsIn(h.edited, w) <= EditionsIn(h'.edited, w)
    requires w in s'.works && s'.works[w].foreignID == k && InPlay(s0, h'.pushed, s'.works, a, w)
    ensures IsCopy(up, s0, h', s', a, k, copy, w)
  {
    VersionOfMore(up, s0.works[w], EditionsIn(h.edited, w), EditionsIn(h'.edited, w), copy);
  }

  /** Neither works nor copies change; relationships may be pushed and work edges done. */
  lemma GrowingKeepsCopies(up: Upstream, s0: State, h: History, s: State, h': History, s': State)
    requires CoherentBooks(up) && SortedState(s0) && CopiesTracked(up, s0, h, s)
    requires h.pushed <= h'.pushed && h'.copies == h.copies && s'.works == s.works && h.edited <= h'.edited
    ensures CopiesTracked(up, s0, h', s')
  {
    forall a | a in h'.copies
      ensures exists w :: InPlay(s0, h'.pushed, s'.works, a, w)
    {
      var w :| InPlay(s0, h.pushed, s.works, a, w);
      assert InPlay(s0, h'.pushed, s'.works, a, w);
    }
    forall a, k | a in h'.copies && k in h'.copies[a]
      ensures exists w :: IsCopy(up, s0, h', s', a, k, h'.copies[a][k], w)
    {
      var w :| IsCopy(up, s0, h, s, a, k, h.copies[a][k], w);
      CopyStays(up, s0, h, s, h', s', a, k, h.copies[a][k], w);
    }
  }

  lemma WentInStays(s0: State, h: History, s: State, h': History, s': State, a: ID, w: ID)
    requires WentIn(s0, h, s, a, w)
    requires h.pushed <= h'.pushed && h'.copies == h.copies && s'.works == s.works
    requires forall v :: Triple(AuthorEdge, a, v) in Pending(s) ==> Triple(AuthorEdge, a, v) in Pending(s')
    ensures WentIn(s0, h', s', a, w)
  {
    if w in s.works && s.works[w].books != [] {
      var v :| StandsFor(s0, h, s, a, w, v);
      assert StandsFor(s0, h', s', a, w, v);
    }
  }

  /** The same, for all authors: only author edges that have been pushed are added to what is pending. */
  lemma GrowingRemembersAuthors(s0: State, h: History, s: State, h': History, s': State)
    requires AuthorsRemembered(s0, h, s)
    requires h.pushed <= h'.pushed && h'.copies == h.copies && s'.works == s.works
    requires forall a, v :: Triple(AuthorEdge, a, v) in Pending(s) ==> Triple(AuthorEdge, a, v) in Pending(s')
    requires forall a, v :: Triple(AuthorEdge, a, v) in h'.pushed && Triple(AuthorEdge, a, v) !in h.pushed ==>
               Triple(AuthorEdge, a, v) in Pending(s')
    ensures AuthorsRemembered(s0, h', s')
  {
    forall a, w | a in s0.authors && !UnknownAuthor(a) && InPlay(s0, h'.pushed, s'.works, a, w)
      ensures Triple(AuthorEdge, a, w) in Pending(s') || WentIn(s0, h', s', a, w)
    {
      if Triple(AuthorEdge, a, w) !in Pending(s') {
        assert InPlay(s0, h.pushed, s.works, a, w);
        WentInStays(s0, h, s, h', s', a, w);
      }
    }
  }

  lemma ExternalHolds(up: Upstream, s0: State, h: History, s: State, e: Edge, s': State)
    requires Invariant(up, s0, h, s) && Step(up, s, External(e), s')
    requires Attributed(s0.works, Triples([e]))
    ensures Invariant(up, s0, h.(pushed := h.pushed + Triples([e])), s')
  {
    var h' := h.(pushed := h.pushed + Triples([e]));
    TriplesOfConcat(s.inFlight, [e]);
    assert Pending(s') == Pending(s) + Triples([e]);
    GrowingKeepsCopies(up, s0, h, s, h', s');
    GrowingRemembersAuthors(s0, h, s, h', s');
  }

  /** Moving edges about without losing any. */
  lemma SamePendingHolds(up: Upstream, s0: State, h: History, s: State, s': State)
    requires Invariant(up, s0, h, s)
    requires s'.works == s.works && s'.authors == s.authors && Pending(s') == Pending(s)
    ensures Invariant(up, s0, h, s')
  {
    GrowingKeepsCopies(up, s0, h, s, h, s');
    GrowingRemembersAuthors(s0, h, s, h, s');
  }

  // Processing a work edge -----------------------------------------------------------------

  ghost function WithEdited(h: History, workID: ID, ids: set<ID>): History {
    h.(edited := h.edited + Triples([Edge(WorkEdge, workID, ids)]))
  }

  lemma EditionsInMore(ts: set<Triple>, workID: ID, ids: set<ID>, w: ID)
    ensures EditionsIn(ts + Triples([Edge(WorkEdge, workID, ids)]), w) ==
            if w == workID then EditionsIn(ts, w) + ids else EditionsIn(ts, w)
  {
    var more := Triples([Edge(WorkEdge, workID, ids)]);
    TriplesOfEdge(Edge(WorkEdge, workID, ids));
    forall c | c in ids && w == workID
      ensures c in EditionsIn(ts + more, w)
    {
      assert Triple(WorkEdge, workID, c) in more;
    }
  }

  /** What upserting editions into a work that was edited before leaves behind. */
  ghost predicate Evolves(original: Work, before: Work, after: Work) {
    && before == original.(books := before.books)
    && after == before.(books := after.books)
    && (before.books != [] ==> after.books != [])
    && (before != original ==> after != original)
  }

  lemma EditingEvolves(up: Upstream, original: Work, done: set<ID>, ids: set<ID>)
    requires CoherentBooks(up) && Sorted(original.books, BookID)
    ensures Sorted(Edited(up, original, done).books, BookID)
    ensures Evolves(original, Edited(up, original, done), Edited(up, Edited(up, original, done), ids))
  {
    EditedKeepsIdentity(up, original, done);
    EditingTwice(up, original, done, ids);
    var before := Edited(up, original, done);
    EditedKeepsIdentity(up, before, ids);
    NeverEmptied(up, before, ids);
    if before != original { ChangePersists(up, original, done, ids); }
  }

  /** `s'` is `s` after one work evolved and the change, if any, was announced. */
  ghost predicate EvolvesOne(s0: State, s: State, workID: ID, ids: set<ID>, s': State) {
    && workID in s.works && workID in s0.works
    && s'.authors == s.authors
    && s'.works.Keys == s.works.Keys
    && (forall v :: v in s.works && v != workID ==> s'.works[v] == s.works[v])
    && Evolves(s0.works[workID], s.works[workID], s'.works[workID])
    && Pending(s) <= Triples([Edge(WorkEdge, workID, ids)]) + Pending(s')
    && (forall t :: t in Pending(s') && t !in Pending(s) ==>
          t.kind == AuthorEdge && t.childID == workID && t.parentID in s.works[workID].authors
          && s'.works[workID] != s.works[workID])
    && (s'.works[workID] != s.works[workID] ==>
          forall a :: a in s.works[workID].authors ==> Triple(AuthorEdge, a, workID) in Pending(s'))
  }

  lemma InPlayPersists(s0: State, pushed: set<Triple>, s: State, workID: ID, ids: set<ID>, s': State, a: ID, w: ID)
    requires EvolvesOne(s0, s, workID, ids, s')
    requires InPlay(s0, pushed, s.works, a, w)
    ensures InPlay(s0, pushed, s'.works, a, w)
  {
  }

  lemma EvolvingKeepsAliases(s0: State, s: State, workID: ID, ids: set<ID>, s': State, v: ID, w: ID)
    requires EvolvesOne(s0, s, workID, ids, s')
    ensures Alias(s'.works, v, w) <==> Alias(s.works, v, w)
  {
    if v in s.works { assert s'.works[v].foreignID == s.works[v].foreignID; }
    if w in s.works { assert s'.works[w].foreignID == s.works[w].foreignID; }
  }

  lemma EditTracksCopies(up: Upstream, s0: State, h: History, s: State, workID: ID, ids: set<ID>, s': State)
    requires CoherentBooks(up) && SortedState(s0)
    requires EvolvesOne(s0, s, workID, ids, s') && CopiesTracked(up, s0, h, s)
    ensures CopiesTracked(up, s0, WithEdited(h, workID, ids), s')
  {
    var h' := WithEdited(h, workID, ids);
    forall a | a in h'.copies
      ensures exists w :: InPlay(s0, h'.pushed, s'.works, a, w)
    {
      var w :| InPlay(s0, h.pushed, s.works, a, w);
      InPlayPersists(s0, h.pushed, s, workID, ids, s', a, w);
    }
    forall a, k | a in h'.copies && k in h'.copies[a]
      ensures exists w :: IsCopy(up, s0, h', s', a, k, h'.copies[a][k], w)
    {
      var w :| IsCopy(up, s0, h, s, a, k, h.copies[a][k], w);
      InPlayPersists(s0, h.pushed, s, workID, ids, s', a, w);
      EvolvingKeepsAliases(s0, s, workID, ids, s', w, w);
      EvolvingKeepsIDs(s0, s, workID, ids, s', w);
      CopyStays(up, s0, h, s, h', s', a, k, h.copies[a][k], w);
    }
  }

  lemma EvolvingKeepsIDs(s0: State, s: State, workID: ID, ids: set<ID>, s': State, w: ID)
    requires EvolvesOne(s0, s, workID, ids, s') && w in s.works
    ensures w in s'.works && s'.works[w].foreignID == s.works[w].foreignID
  {
  }

  lemma EditKeepsStanding(s0: State, h: History, s: State, workID: ID, ids: set<ID>, s': State, h': History, a: ID,
                          w: ID, v: ID)
    requires EvolvesOne(s0, s, workID, ids, s') && h'.pushed == h.pushed && h'.copies == h.copies
    requires StandsFor(s0, h, s, a, w, v) && a in s.works[v].authors
    ensures StandsFor(s0, h', s', a, w, v)
  {
    TriplesOfEdge(Edge(WorkEdge, workID, ids));
    EvolvingKeepsAliases(s0, s, workID, ids, s', v, w);
    InPlayPersists(s0, h.pushed, s, workID, ids, s', a, v);
  }

  lemma EditRemembersAuthor(up: Upstream, s0: State, h: History, s: State, workID: ID, ids: set<ID>, s': State,
                            h': History, a: ID, w: ID)
    requires CoherentBooks(up) && SortedState(s0) && WorksTracked(up, s0, h, s) && Attributed(s0.works, h.pushed)
    requires EvolvesOne(s0, s, workID, ids, s') && h'.pushed == h.pushed && h'.copies == h.copies
    requires InPlay(s0, h.pushed, s.works, a, w) && WentIn(s0, h, s, a, w)
    requires w != workID || s'.works[w] == s.works[w]
    ensures WentIn(s0, h', s', a, w)
  {
    if w in s.works && s.works[w].books != [] {
      var v :| StandsFor(s0, h, s, a, w, v);
      InPlayIsAttributed(up, s0, h, s, a, v);
      EditKeepsStanding(s0, h, s, workID, ids, s', h', a, w, v);
    }
  }

  lemma EditRemembersAuthors(up: Upstream, s0: State, h: History, s: State, workID: ID, ids: set<ID>, s': State)
    requires CoherentBooks(up) && SortedState(s0) && WorksTracked(up, s0, h, s) && Attributed(s0.works, h.pushed)
    requires EvolvesOne(s0, s, workID, ids, s') && AuthorsRemembered(s0, h, s)
    ensures AuthorsRemembered(s0, WithEdited(h, workID, ids), s')
  {
    var h' := WithEdited(h, workID, ids);
    TriplesOfEdge(Edge(WorkEdge, workID, ids));
    forall a, w | a in s0.authors && !UnknownAuthor(a) && InPlay(s0, h'.pushed, s'.works, a, w)
      ensures Triple(AuthorEdge, a, w) in Pending(s') || WentIn(s0, h', s', a, w)
    {
      if w == workID && s'.works[w] != s.works[w] {
        EditedIsAnnounced(up, s0, h, s, workID, ids, s', a);
      } else {
        assert InPlay(s0, h.pushed, s.works, a, w);
        if Triple(AuthorEdge, a, w) !in Pending(s) {
          EditRemembersAuthor(up, s0, h, s, workID, ids, s', h', a, w);
        }
      }
    }
  }

  lemma EditedIsAnnounced(up: Upstream, s0: State, h: History, s: State, workID: ID, ids: set<ID>, s': State, a: ID)
    requires CoherentBooks(up) && SortedState(s0) && WorksTracked(up, s0, h, s) && Attributed(s0.works, h.pushed)
    requires EvolvesOne(s0, s, workID, ids, s') && s'.works[workID] != s.works[workID]
    requires InPlay(s0, h.pushed, s'.works, a, workID)
    ensures Triple(AuthorEdge, a, workID) in Pending(s')
  {
    if Triple(AuthorEdge, a, workID) in h.pushed { InPlayIsAttributed(up, s0, h, s, a, workID); }
  }

  lemma EditInventsNothing(s0: State, h: History, s: State, workID: ID, ids: set<ID>, s': State)
    requires EvolvesOne(s0, s, workID, ids, s') && NothingInvented(s0, h, s)
    requires Triples([Edge(WorkEdge, workID, ids)]) <= h.pushed
    ensures NothingInvented(s0, WithEdited(h, workID, ids), s')
  {
    forall t | t in Pending(s') && t.kind == AuthorEdge
      ensures InPlay(s0, h.pushed, s'.works, t.parentID, t.childID)
    {
      if t in Pending(s) { InPlayPersists(s0, h.pushed, s, workID, ids, s', t.parentID, t.childID); }
    }
  }

  lemma EditHolds(up: Upstream, s0: State, h: History, s: State, workID: ID, ids: set<ID>, s': State)
    requires Invariant(up, s0, h, s) && EvolvesOne(s0, s, workID, ids, s')
    requires WorksTracked(up, s0, WithEdited(h, workID, ids), s')
    requires Triples([Edge(WorkEdge, workID, ids)]) <= Pending(s)
    ensures Invariant(up, s0, WithEdited(h, workID, ids), s')
  {
    TriplesOfEdge(Edge(WorkEdge, workID, ids));
    EditTracksCopies(up, s0, h, s, workID, ids, s');
    EditRemembersAuthors(up, s0, h, s, workID, ids, s');
    EditInventsNothing(s0, h, s, workID, ids, s');
    EditRemembersEditions(s0, h, s, workID, ids, s');
  }

  lemma EditRemembersEditions(s0: State, h: History, s: State, workID: ID, ids: set<ID>, s': State)
    requires EvolvesOne(s0, s, workID, ids, s') && EditionsRemembered(h, s)
    ensures EditionsRemembered(WithEdited(h, workID, ids), s')
  {
  }

  /** A work edge that did nothing, because its work cannot be loaded. */
  lemma SkippedEditHolds(up: Upstream, s0: State, h: History, s: State, workID: ID, ids: set<ID>, s': State)
    requires Invariant(up, s0, h, s) && workID !in s.works
    requires s'.works == s.works && s'.authors == s.authors
    requires Pending(s) == Triples([Edge(WorkEdge, workID, ids)]) + Pending(s')
    ensures Invariant(up, s0, WithEdited(h, workID, ids), s')
  {
    var h' := WithEdited(h, workID, ids);
    TriplesOfEdge(Edge(WorkEdge, workID, ids));
    GrowingKeepsCopies(up, s0, h, s, h', s');
    GrowingRemembersAuthors(s0, h, s, h', s');
    forall w | w in s0.works
      ensures s'.works[w] == Edited(up, s0.works[w], EditionsIn(h'.edited, w))
    {
      EditionsInMore(h.edited, workID, ids, w);
    }
  }

  lemma ProcessedWorkEdgeHolds(up: Upstream, s0: State, h: History, s: State, s': State) returns (h': History)
    requires Invariant(up, s0, h, s) && s.queue != [] && s.queue[0].kind == WorkEdge && Step(up, s, Process, s')
    ensures Invariant(up, s0, h', s') && h'.pushed == h.pushed
    ensures Records(up, h, s, h', s')
  {
    var e := s.queue[0];
    PendingOfHead(s);
    h' := WithEdited(h, e.parentID, e.childIDs);
    if e.parentID !in s.works {
      SkippedEditHolds(up, s0, h, s, e.parentID, e.childIDs, s');
    } else {
      WorkEdgeEvolvesOne(up, s0, h, s, s');
      EditHolds(up, s0, h, s, e.parentID, e.childIDs, s');
    }
  }

  /** The outcome of processing a work edge whose work can be loaded. */
  lemma WorkEdgeOutcome(up: Upstream, s: State, s': State)
    requires CoherentBooks(up) && s.queue != [] && s.queue[0].kind == WorkEdge && Step(up, s, Process, s')
    requires s.queue[0].parentID in s.works && Sorted(s.works[s.queue[0].parentID].books, BookID)
    ensures var e := s.queue[0];
            var t, after := s.(queue := s.queue[1..]), Edited(up, s.works[e.parentID], e.childIDs);
            s' == if after == s.works[e.parentID] then t else Announced(t, e.parentID, after)
  {
    var e, t := s.queue[0], s.(queue := s.queue[1..]);
    if e.childIDs == {} {
      EditingNothing(up, s.works[e.parentID]);
    } else {
      var edited := EditionsOutcome(up, t, e.parentID, e.childIDs, s');
      EditedIsUnique(up, t.works[e.parentID], e.childIDs, edited);
    }
  }

  lemma EvolvedTracksWorks(up: Upstream, s0: State, h: History, s: State, workID: ID, ids: set<ID>, s': State)
    requires CoherentBooks(up) && SortedState(s0) && WorksTracked(up, s0, h, s)
    requires workID in s.works && Sorted(s.works[workID].books, BookID)
    requires s'.works.Keys == s.works.Keys
    requires forall v :: v in s.works && v != workID ==> s'.works[v] == s.works[v]
    requires s'.works[workID] == Edited(up, s.works[workID], ids)
    ensures WorksTracked(up, s0, WithEdited(h, workID, ids), s')
  {
    forall w | w in s0.works
      ensures s'.works[w] == Edited(up, s0.works[w], EditionsIn(WithEdited(h, workID, ids).edited, w))
    {
      EditionsInMore(h.edited, workID, ids, w);
      if w == workID { EditingTwice(up, s0.works[w], EditionsIn(h.edited, w), ids); }
    }
  }

  lemma AnnouncedPending(s: State, t: State, workID: ID, ids: set<ID>, after: Work, s': State)
    requires s.queue != [] && s.queue[0] == Edge(WorkEdge, workID, ids) && t == s.(queue := s.queue[1..])
    requires workID in s.works && after.authors == s.works[workID].authors
    requires s' == if after == s.works[workID] then t else Announced(t, workID, after)
    ensures s'.works[workID] == after
    ensures s'.works.Keys == s.works.Keys && forall v :: v in s.works && v != workID ==> s'.works[v] == s.works[v]
    ensures Pending(s) <= Triples([Edge(WorkEdge, workID, ids)]) + Pending(s')
    ensures forall t :: t in Pending(s') && t !in Pending(s) ==>
              t.kind == AuthorEdge && t.childID == workID && t.parentID in s.works[workID].authors
                && after != s.works[workID]
    ensures after != s.works[workID] ==>
              forall a :: a in s.works[workID].authors ==> Triple(AuthorEdge, a, workID) in Pending(s')
  {
    PendingOfHead(s);
    if after != s.works[workID] {
      TriplesOfConcat(t.inFlight, AuthorEdges(after.authors, workID));
      TriplesOfAuthorEdges(after.authors, workID);
    }
  }

  lemma WorkEdgeEvolvesOne(up: Upstream, s0: State, h: History, s: State, s': State)
    requires CoherentBooks(up) && SortedState(s0) && WorksTracked(up, s0, h, s)
    requires s.queue != [] && s.queue[0].kind == WorkEdge && Step(up, s, Process, s') && s.queue[0].parentID in s.works
    ensures EvolvesOne(s0, s, s.queue[0].parentID, s.queue[0].childIDs, s')
    ensures WorksTracked(up, s0, WithEdited(h, s.queue[0].parentID, s.queue[0].childIDs), s')
  {
    var e := s.queue[0];
    var w, ids := e.parentID, e.childIDs;
    EditingEvolves(up, s0.works[w], EditionsIn(h.edited, w), ids);
    WorkEdgeOutcome(up, s, s');
    AnnouncedPending(s, s.(queue := s.queue[1..]), w, ids, Edited(up, s.works[w], ids), s');
    EvolvedTracksWorks(up, s0, h, s, w, ids, s');
  }

  // Processing an author edge --------------------------------------------------------------

  ghost function CopiesOf(h: History, authorID: ID): map<ID, Work> {
    if authorID in h.copies then h.copies[authorID] else map[]
  }

  ghost function WithCopies(h: History, authorID: ID, batch: map<ID, Work>): History {
    h.(copies := h.copies[authorID := CopiesOf(h, authorID) + batch])
  }

  /** `s'` is `s` after one author was denormalized with the works `ids`. */
  ghost predicate DenormalizesOne(up: Upstream, s: State, authorID: ID, ids: set<ID>, batch: map<ID, Work>, s': State) {
    && authorID in s.authors && !UnknownAuthor(authorID) && ids != {}
    && Selects(batch, FetchedWorks(s.works, ids), WorkID)
    && s'.works == s.works
    && s'.authors.Keys == s.authors.Keys
    && (forall a :: a in s.authors && a != authorID ==> s'.authors[a] == s.authors[a])
    && IsDenormalized(up, s.authors[authorID], batch, s'.authors[authorID])
    && Pending(s) == Triples([Edge(AuthorEdge, authorID, ids)]) + Pending(s')
  }

  lemma {:induction false} FollowsIsSorted(xs: seq<Work>, ys: seq<Work>)
    requires Follows(xs, ys) && Sorted(ys, WorkID)
    ensures Sorted(xs, WorkID) && ToMap(xs, WorkID).Keys == ToMap(ys, WorkID).Keys
  {
    forall i | 0 <= i < |xs|
      ensures xs[i].foreignID == ys[i].foreignID
    {
      assert StripTitles(xs[i]).foreignID == StripTitles(ys[i]).foreignID;
    }
    forall k | k in ToMap(xs, WorkID)
      ensures k in ToMap(ys, WorkID)
    {
      var i := MapAt(xs, WorkID, k);
      MapHas(ys, WorkID, i);
    }
    forall k | k in ToMap(ys, WorkID)
      ensures k in ToMap(xs, WorkID)
    {
      var i := MapAt(ys, WorkID, k);
      MapHas(xs, WorkID, i);
    }
  }

  /** Merging the same batch into lists that are the same up to titles. */
  lemma FollowsMerge(xs: seq<Work>, ys: seq<Work>, batch: map<ID, Work>)
    requires Follows(xs, ys) && Sorted(ys, WorkID) && Keyed(batch, WorkID)
    ensures Sorted(xs, WorkID) && Follows(Merge(xs, batch, WorkID), Merge(ys, batch, WorkID))
  {
    FollowsIsSorted(xs, ys);
    var mx, my := Merge(xs, batch, WorkID), Merge(ys, batch, WorkID);
    SameIdsSamePlaces(mx, my, WorkID);
    forall i | 0 <= i < |mx|
      ensures SameUpToTitles(mx[i], my[i])
    {
      var j := MergedAt(xs, batch, i);
      var k := MergedAt(ys, batch, i);
      if mx[i].foreignID !in batch {
        assert StripTitles(xs[j]).foreignID == StripTitles(ys[j]).foreignID;
        assert j == k;
      }
    }
  }

  lemma PassFollows(up: Upstream, xs: seq<Work>, ys: seq<Work>)
    requires Follows(xs, ys)
    ensures Follows(TitlePass(up, xs), ys)
  {
    TitlePassKeepsTheRest(up, xs);
  }

  lemma DenormalizedFollows(up: Upstream, base: Author, copies: map<ID, Work>, author: Author, batch: map<ID, Work>,
                            done: Author)
    requires Sorted(base.works, WorkID) && Keyed(copies, WorkID)
    requires Follows(author.works, Merge(base.works, copies, WorkID))
    requires IsDenormalized(up, author, batch, done)
    ensures Keyed(copies + batch, WorkID) && Follows(done.works, Merge(base.works, copies + batch, WorkID))
  {
    MergeTwice(base.works, copies, batch, WorkID);
    FollowsMerge(author.works, Merge(base.works, copies, WorkID), batch);
    PassFollows(up, Merge(author.works, batch, WorkID), Merge(base.works, copies + batch, WorkID));
  }

  lemma FirstDenormalizedFollows(up: Upstream, base: Author, batch: map<ID, Work>, done: Author)
    requires IsDenormalized(up, base, batch, done)
    ensures Follows(done.works, Merge(base.works, batch, WorkID))
  {
    var merged := Merge(base.works, batch, WorkID);
    PassFollows(up, merged, merged);
  }

  lemma CopiesFollow(up: Upstream, s0: State, h: History, s: State, authorID: ID, batch: map<ID, Work>, done: Author)
    requires SortedState(s0) && AuthorsFollow(s0, h, s) && authorID in s0.authors
    requires IsDenormalized(up, s.authors[authorID], batch, done)
    ensures Keyed(CopiesOf(h, authorID) + batch, WorkID)
    ensures Follows(done.works, Merge(s0.authors[authorID].works, CopiesOf(h, authorID) + batch, WorkID))
  {
    if authorID in h.copies {
      DenormalizedFollows(up, s0.authors[authorID], h.copies[authorID], s.authors[authorID], batch, done);
    } else {
      EmptyMapUnion(batch);
      FirstDenormalizedFollows(up, s0.authors[authorID], batch, done);
    }
  }

  lemma DenormalizationFollows(up: Upstream, s0: State, h: History, s: State, authorID: ID, ids: set<ID>,
                               batch: map<ID, Work>, s': State)
    requires SortedState(s0) && AuthorsFollow(s0, h, s) && DenormalizesOne(up, s, authorID, ids, batch, s')
    ensures AuthorsFollow(s0, WithCopies(h, authorID, batch), s')
  {
    CopiesFollow(up, s0, h, s, authorID, batch, s'.authors[authorID]);
    NewCopiesFollow(s0, h, s, authorID, CopiesOf(h, authorID) + batch, s');
  }

  lemma NewCopiesFollow(s0: State, h: History, s: State, authorID: ID, copies: map<ID, Work>, s': State)
    requires SortedState(s0) && AuthorsFollow(s0, h, s) && authorID in s0.authors && !UnknownAuthor(authorID)
    requires s'.authors.Keys == s.authors.Keys && forall a :: a in s.authors && a != authorID ==>
               s'.authors[a] == s.authors[a]
    requires Keyed(copies, WorkID)
             && Follows(s'.authors[authorID].works, Merge(s0.authors[authorID].works, copies, WorkID))
    ensures AuthorsFollow(s0, h.(copies := h.copies[authorID := copies]), s')
  {
    var h' := h.(copies := h.copies[authorID := copies]);
    forall a | a in s0.authors
      ensures AuthorFollows(s0.authors[a], h'.copies, a, s'.authors[a])
    {
      if a != authorID { OtherAuthorFollows(s0.authors[a], h.copies, authorID, copies, a, s.authors[a]); }
    }
  }

  lemma OtherAuthorFollows(base: Author, all: map<ID, map<ID, Work>>, authorID: ID, copies: map<ID, Work>, a: ID,
                           author: Author)
    requires a != authorID && Sorted(base.works, WorkID) && AuthorFollows(base, all, a, author)
    ensures AuthorFollows(base, all[authorID := copies], a, author)
  {
  }

  lemma FetchedIsCopy(up: Upstream, s0: State, h: History, s: State, authorID: ID, ids: set<ID>, batch: map<ID, Work>,
                      s': State, k: ID)
    requires CoherentBooks(up) && SortedState(s0) && WorksTracked(up, s0, h, s)
    requires NothingInvented(s0, h, s) && DenormalizesOne(up, s, authorID, ids, batch, s') && k in batch
    ensures exists w :: IsCopy(up, s0, h, s, authorID, k, batch[k], w)
  {
    TriplesOfEdge(Edge(AuthorEdge, authorID, ids));
    var w := BatchIsCached(s.works, ids, batch, k);
    assert Triple(AuthorEdge, authorID, w) in Pending(s);
    EditedIsVersion(up, s0.works[w], EditionsIn(h.edited, w));
    assert IsCopy(up, s0, h, s, authorID, k, batch[k], w);
  }

  /** An author that is denormalized has something in play, and so does one that was. */
  lemma SomethingWasInPlay(s0: State, h: History, s: State, authorID: ID, ids: set<ID>, a: ID)
    requires NothingInvented(s0, h, s) && ids != {} && Triples([Edge(AuthorEdge, authorID, ids)]) <= Pending(s)
    requires a != authorID ==> exists w :: InPlay(s0, h.pushed, s.works, a, w)
    ensures exists w :: InPlay(s0, h.pushed, s.works, a, w)
  {
    TriplesOfEdge(Edge(AuthorEdge, authorID, ids));
    if a == authorID {
      var w :| w in ids;
      assert Triple(AuthorEdge, authorID, w) in Pending(s);
      assert InPlay(s0, h.pushed, s.works, a, w);
    }
  }

  lemma DenormalizationTracksCopies(up: Upstream, s0: State, h: History, s: State, authorID: ID, ids: set<ID>,
                                    batch: map<ID, Work>, s': State)
    requires CoherentBooks(up) && SortedState(s0) && WorksTracked(up, s0, h, s)
    requires CopiesTracked(up, s0, h, s) && NothingInvented(s0, h, s)
             && DenormalizesOne(up, s, authorID, ids, batch, s')
    ensures CopiesTracked(up, s0, WithCopies(h, authorID, batch), s')
  {
    var h' := WithCopies(h, authorID, batch);
    forall a | a in h'.copies
      ensures exists w :: InPlay(s0, h'.pushed, s'.works, a, w)
    {
      SomethingWasInPlay(s0, h, s, authorID, ids, a);
    }
    forall a, k | a in h'.copies && k in h'.copies[a]
      ensures exists w :: IsCopy(up, s0, h', s', a, k, h'.copies[a][k], w)
    {
      if a == authorID && k in batch {
        FetchedIsCopy(up, s0, h, s, authorID, ids, batch, s', k);
      } else {
        assert h'.copies[a][k] == h.copies[a][k];
      }
      var w :| IsCopy(up, s0, h, s, a, k, h'.copies[a][k], w);
      CopyStays(up, s0, h, s, h', s', a, k, h'.copies[a][k], w);
    }
  }

  /** Where the copy of a work that was fetched comes from. */
  lemma FetchedStands(s0: State, h: History, s: State, authorID: ID, ids: set<ID>, batch: map<ID, Work>, s': State,
                      w: ID)
    requires Selects(batch, FetchedWorks(s.works, ids), WorkID) && s'.works == s.works
    requires forall u :: u in ids ==> InPlay(s0, h.pushed, s.works, authorID, u)
    requires w in s.works && s.works[w].foreignID in batch
    ensures exists v :: StandsFor(s0, WithCopies(h, authorID, batch), s', authorID, w, v)
  {
    var v := BatchIsCached(s.works, ids, batch, s.works[w].foreignID);
    assert StandsFor(s0, WithCopies(h, authorID, batch), s', authorID, w, v);
  }

  lemma DenormalizedSettles(s0: State, h: History, s: State, authorID: ID, ids: set<ID>, batch: map<ID, Work>,
                            s': State, w: ID)
    requires Selects(batch, FetchedWorks(s.works, ids), WorkID) && s'.works == s.works
    requires forall u :: u in ids ==> InPlay(s0, h.pushed, s.works, authorID, u)
    requires forall v :: Triple(AuthorEdge, authorID, v) in Pending(s) ==>
               v in ids || Triple(AuthorEdge, authorID, v) in Pending(s')
    requires w in ids || WentIn(s0, h, s, authorID, w)
    ensures WentIn(s0, WithCopies(h, authorID, batch), s', authorID, w)
  {
    var h' := WithCopies(h, authorID, batch);
    if w in s.works && s.works[w].books != [] {
      if s.works[w].foreignID in batch {
        FetchedStands(s0, h, s, authorID, ids, batch, s', w);
      } else if w in ids {
        RequestedIsFetched(s.works, ids, batch, w);
      } else {
        var v :| StandsFor(s0, h, s, authorID, w, v);
        if v in ids { RequestedIsFetched(s.works, ids, batch, v); }
        assert StandsFor(s0, h', s', authorID, w, v);
      }
    }
  }

  lemma WentInElsewhere(s0: State, h: History, s: State, authorID: ID, batch: map<ID, Work>, s': State, a: ID, w: ID)
    requires a != authorID && WentIn(s0, h, s, a, w) && s'.works == s.works
    requires forall v :: Triple(AuthorEdge, a, v) in Pending(s) ==> Triple(AuthorEdge, a, v) in Pending(s')
    ensures WentIn(s0, WithCopies(h, authorID, batch), s', a, w)
  {
    if w in s.works && s.works[w].books != [] {
      var v :| StandsFor(s0, h, s, a, w, v);
      assert StandsFor(s0, WithCopies(h, authorID, batch), s', a, w, v);
    }
  }

  lemma DenormalizationRemembersAuthors(up: Upstream, s0: State, h: History, s: State, authorID: ID, ids: set<ID>,
                                        batch: map<ID, Work>, s': State)
    requires AuthorsRemembered(s0, h, s) && NothingInvented(s0, h, s)
             && DenormalizesOne(up, s, authorID, ids, batch, s')
    ensures AuthorsRemembered(s0, WithCopies(h, authorID, batch), s')
  {
    var h' := WithCopies(h, authorID, batch);
    TriplesOfEdge(Edge(AuthorEdge, authorID, ids));
    forall u | u in ids
      ensures InPlay(s0, h.pushed, s.works, authorID, u)
    {
      assert Triple(AuthorEdge, authorID, u) in Pending(s);
    }
    forall a, w | a in s0.authors && !UnknownAuthor(a) && InPlay(s0, h'.pushed, s'.works, a, w)
      ensures Triple(AuthorEdge, a, w) in Pending(s') || WentIn(s0, h', s', a, w)
    {
      assert InPlay(s0, h.pushed, s.works, a, w);
      if Triple(AuthorEdge, a, w) !in Pending(s') {
        if a == authorID {
          DenormalizedSettles(s0, h, s, authorID, ids, batch, s', w);
        } else {
          WentInElsewhere(s0, h, s, authorID, batch, s', a, w);
        }
      }
    }
  }

  lemma DenormalizationHolds(up: Upstream, s0: State, h: History, s: State, authorID: ID, ids: set<ID>,
                             batch: map<ID, Work>, s': State)
    requires Invariant(up, s0, h, s) && DenormalizesOne(up, s, authorID, ids, batch, s')
    ensures Invariant(up, s0, WithCopies(h, authorID, batch), s')
  {
    DenormalizationFollows(up, s0, h, s, authorID, ids, batch, s');
    DenormalizationTracksCopies(up, s0, h, s, authorID, ids, batch, s');
    DenormalizationRemembersAuthors(up, s0, h, s, authorID, ids, batch, s');
    TriplesOfEdge(Edge(AuthorEdge, authorID, ids));
  }

  /**
   An edge that did nothing: a marker, an author edge without children, or one for an author that
   cannot be loaded.
   */
  lemma SkippedDenormalizationHolds(up: Upstream, s0: State, h: History, s: State, e: Edge, s': State)
    requires Invariant(up, s0, h, s)
    requires e.kind != WorkEdge && s'.works == s.works && s'.authors == s.authors
    requires e.kind == AuthorEdge ==> e.childIDs == {} || e.parentID !in s.authors || UnknownAuthor(e.parentID)
    requires Pending(s) == Triples([e]) + Pending(s')
    ensures Invariant(up, s0, h, s')
  {
    TriplesOfEdge(e);
    GrowingKeepsCopies(up, s0, h, s, h, s');
    forall a, w | a in s0.authors && !UnknownAuthor(a) && InPlay(s0, h.pushed, s'.works, a, w)
      ensures Triple(AuthorEdge, a, w) in Pending(s') || WentIn(s0, h, s', a, w)
    {
      assert InPlay(s0, h.pushed, s.works, a, w);
      if Triple(AuthorEdge, a, w) !in Pending(s) { WentInStays(s0, h, s, h, s', a, w); }
    }
  }

  /** The outcome of processing an author edge that gets past the guards. */
  lemma AuthorEdgeOutcome(up: Upstream, s: State, s': State) returns (batch: map<ID, Work>)
    requires s.queue != [] && s.queue[0].kind == AuthorEdge && Step(up, s, Process, s')
    requires s.queue[0].childIDs != {} && s.queue[0].parentID in s.authors && !UnknownAuthor(s.queue[0].parentID)
    ensures DenormalizesOne(up, s, s.queue[0].parentID, s.queue[0].childIDs, batch, s')
  {
    var e, t := s.queue[0], s.(queue := s.queue[1..]);
    PendingOfHead(s);
    var b, done := WorksOutcome(up, t, e.parentID, e.childIDs, s');
    batch := b;
  }

  /** What a step did to the authors, and what the history remembers of it. */
  ghost predicate Records(up: Upstream, h: History, s: State, h': History, s': State) {
    && h.pushed <= h'.pushed && h.edited <= h'.edited
    && ((h'.copies == h.copies && s'.authors == s.authors)
        || exists a, ids, batch :: DenormalizesOne(up, s, a, ids, batch, s') && h' == WithCopies(h, a, batch))
  }

  lemma ProcessedAuthorEdgeHolds(up: Upstream, s0: State, h: History, s: State, s': State) returns (h': History)
    requires Invariant(up, s0, h, s) && s.queue != [] && s.queue[0].kind == AuthorEdge && Step(up, s, Process, s')
    ensures Invariant(up, s0, h', s') && h'.pushed == h.pushed
    ensures Records(up, h, s, h', s')
  {
    var e := s.queue[0];
    if e.childIDs == {} || e.parentID !in s.authors || UnknownAuthor(e.parentID) {
      h' := h;
      PendingOfHead(s);
      SkippedDenormalizationHolds(up, s0, h, s, e, s');
    } else {
      var batch := AuthorEdgeOutcome(up, s, s');
      h' := WithCopies(h, e.parentID, batch);
      DenormalizationHolds(up, s0, h, s, e.parentID, e.childIDs, batch, s');
    }
  }

  // ---------------------------------------------------------------------------------------
  // Whole runs
  // ---------------------------------------------------------------------------------------

  /** The relationships a run pushes from outside. */
  ghost function Pushed(labels: seq<Label>): set<Triple> {
    if labels == [] then {}
    else
      var l := labels[|labels| - 1];
      Pushed(labels[..|labels| - 1]) + if l.External? then Triples([l.e]) else {}
  }

  /** Runs during which no work is loaded and author edges are attributed. */
  ghost predicate Admissible(s0: State, labels: seq<Label>) {
    && (forall i :: 0 <= i < |labels| ==> !labels[i].Load?)
    && (forall i :: 0 <= i < |labels| && labels[i].External? ==> Attributed(s0.works, Triples([labels[i].e])))
  }

  /** An admissible run from `s` that pushes the relationships `ts` and has come to rest. */
  ghost predicate RestsAfter(up: Upstream, s: State, ts: set<Triple>, states: seq<State>, labels: seq<Label>) {
    && Trace(up, states, labels) && states[0] == s
    && Admissible(s, labels) && Pushed(labels) == ts
    && Quiescent(states[|labels|])
  }

  lemma StepHolds(up: Upstream, s0: State, h: History, s: State, l: Label, s': State) returns (h': History)
    requires Invariant(up, s0, h, s) && Step(up, s, l, s') && !l.Load?
    requires l.External? ==> Attributed(s0.works, Triples([l.e]))
    ensures Invariant(up, s0, h', s')
    ensures h'.pushed == h.pushed + if l.External? then Triples([l.e]) else {}
    ensures Records(up, h, s, h', s')
  {
    h' := h;
    match l
    case External(e) =>
      h' := h.(pushed := h.pushed + Triples([e]));
      ExternalHolds(up, s0, h, s, e, s');
    case Deliver(i) =>
      DeliverKeepsPending(up, s, i, s');
      SamePendingHolds(up, s0, h, s, s');
    case Process =>
      match s.queue[0].kind {
        case WorkEdge => h' := ProcessedWorkEdgeHolds(up, s0, h, s, s');
        case AuthorEdge => h' := ProcessedAuthorEdgeHolds(up, s0, h, s, s');
        case RefreshDone =>
          PendingOfHead(s);
          SkippedDenormalizationHolds(up, s0, h, s, s.queue[0], s');
      }
  }

  lemma PushedNext(labels: seq<Label>, n: nat)
    requires n < |labels|
    ensures Pushed(labels[..n + 1]) == Pushed(labels[..n]) + if labels[n].External? then Triples([labels[n].e]) else {}
  {
    assert labels[..n + 1][..n] == labels[..n];
  }

  lemma {:induction false} RunHolds(up: Upstream, states: seq<State>, labels: seq<Label>, n: nat) returns (h: History)
    requires n <= |labels| && Trace(up, states, labels) && Admissible(states[0], labels)
    requires CoherentBooks(up) && SortedState(states[0]) && Attributed(states[0].works, Pending(states[0]))
    ensures Invariant(up, states[0], h, states[n])
    ensures h.pushed == Pending(states[0]) + Pushed(labels[..n])
  {
    if n == 0 {
      h := History(Pending(states[0]), {}, map[]);
      StartHolds(up, states[0]);
    } else {
      var before := RunHolds(up, states, labels, n - 1);
      PushedNext(labels, n - 1);
      h := StepHolds(up, states[0], before, states[n - 1], labels[n - 1], states[n]);
    }
  }
}
