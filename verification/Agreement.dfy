/**
 When all runs agree, exactly, runs that edit works included. Runs that push the same relationships
 agree if and only if two batches of works at two stages always come to what they come to at once,
 and requesting works has one outcome. If they do not, two runs are put together that differ.
 */
module Agreement {
  import opened Collections
  import opened SortedList
  import opened Resources
  import opened AuthorPass
  import opened Absorption
  import opened Edges
  import opened Pipeline
  import opened Editing
  import opened Freshness
  import opened Histories
  import opened Runs
  import Confluence
  import opened Stages

  /** Whatever is pushed of `all`, the rest does not depend on the run. */
  ghost predicate AllRunsAgree(up: Upstream, s: State, all: iset<Triple>) {
    forall ts, states1, labels1, states2, labels2 ::
      Within(ts, all) && RestsAfter(up, s, ts, states1, labels1) && RestsAfter(up, s, ts, states2, labels2) ==>
      states1[|labels1|] == states2[|labels2|]
  }

  // ---------------------------------------------------------------------------------------
  // A run to a later stage
  // ---------------------------------------------------------------------------------------

  /** The edge changes its work. */
  ghost predicate IsChange(up: Upstream, works: map<ID, Work>, e: Edge)
    requires CoherentBooks(up)
  {
    && e.kind == WorkEdge && e.parentID in works && Sorted(works[e.parentID].books, BookID)
    && e.childIDs != {} && Edited(up, works[e.parentID], e.childIDs) != works[e.parentID]
  }

  ghost function Changed(up: Upstream, works: map<ID, Work>, e: Edge): map<ID, Work>
    requires CoherentBooks(up) && IsChange(up, works, e)
  {
    works[e.parentID := Edited(up, works[e.parentID], e.childIDs)]
  }

  /** Processed one after the other, each of the edges changes its work. */
  ghost predicate Changes(up: Upstream, works: map<ID, Work>, edges: seq<Edge>)
    requires CoherentBooks(up)
  {
    edges != [] ==> IsChange(up, works, edges[0]) && Changes(up, Changed(up, works, edges[0]), edges[1..])
  }

  ghost function AfterChanges(up: Upstream, works: map<ID, Work>, edges: seq<Edge>): map<ID, Work>
    requires CoherentBooks(up) && Changes(up, works, edges)
  {
    if edges == [] then works else AfterChanges(up, Changed(up, works, edges[0]), edges[1..])
  }

  /** What an edge announces. */
  ghost function NewsOf(works: map<ID, Work>, e: Edge): seq<Edge>
    requires e.parentID in works
  {
    AuthorEdges(works[e.parentID].authors, e.parentID)
  }

  ghost function News(up: Upstream, works: map<ID, Work>, edges: seq<Edge>): seq<Edge>
    requires CoherentBooks(up) && Changes(up, works, edges)
  {
    if edges == [] then [] else NewsOf(works, edges[0]) + News(up, Changed(up, works, edges[0]), edges[1..])
  }

  lemma {:induction false} ChangesFirst(up: Upstream, works: map<ID, Work>, e: Edge, edges: seq<Edge>)
    requires CoherentBooks(up) && IsChange(up, works, e) && Changes(up, Changed(up, works, e), edges)
    ensures Changes(up, works, [e] + edges)
    ensures AfterChanges(up, works, [e] + edges) == AfterChanges(up, Changed(up, works, e), edges)
  {
    assert ([e] + edges)[0] == e && ([e] + edges)[1..] == edges;
  }

  lemma ChangeIsEdit(up: Upstream, work: Work, ids: set<ID>)
    requires CoherentBooks(up) && Sorted(work.books, BookID)
    ensures IsEdited(up, work, ids, Edited(up, work, ids))
  {
    FetchedAreUnique(up, ids);
    var batch := Index(FetchedBooks(up, ids), BookID);
    assert Selects(batch, FetchedBooks(up, ids), BookID);
  }

  lemma WorkEdgeIsAttributed(works: map<ID, Work>, e: Edge)
    requires e.kind == WorkEdge
    ensures Attributed(works, Triples([e]))
  {
    TriplesOfEdge(e);
  }

  lemma ChangeStep(up: Upstream, s: State, e: Edge)
    requires CoherentBooks(up) && s.queue == [e] && IsChange(up, s.works, e)
    ensures Step(up, s, Process, State(Changed(up, s.works, e), s.authors, [], s.inFlight + NewsOf(s.works, e)))
  {
    var t := s.(queue := s.queue[1..]);
    var edited := Edited(up, s.works[e.parentID], e.childIDs);
    ChangeIsEdit(up, s.works[e.parentID], e.childIDs);
    EditedKeepsIdentity(up, s.works[e.parentID], e.childIDs);
    assert EditionsStep(up, t, e.parentID, e.childIDs, Announced(t, e.parentID, edited));
  }

  /** An edge is pushed and processed, before a run goes on. */
  lemma ChangeLeads(up: Upstream, s0: State, s: State, e: Edge, ts: set<Triple>, end: State)
    requires CoherentBooks(up) && s.queue == [] && IsChange(up, s.works, e)
    requires Leads(up, s0, State(Changed(up, s.works, e), s.authors, [], s.inFlight + NewsOf(s.works, e)), ts, end)
    ensures Leads(up, s0, s, Triples([e]) + ts, end)
  {
    var queued := s.(queue := [e]);
    ChangeStep(up, queued, e);
    WorkLeadsOn(up, s0, queued, Process, State(Changed(up, s.works, e), s.authors, [], s.inFlight + NewsOf(s.works, e)),
                ts, end);
    WorkEdgeIsAttributed(s0.works, e);
    PushLeads(up, s0, s, e, ts, end);
  }

  /** The state once the edges were pushed and processed one by one: what they announce is left in flight. */
  ghost function Staged(up: Upstream, s: State, edges: seq<Edge>): State
    requires CoherentBooks(up) && Changes(up, s.works, edges)
  {
    State(AfterChanges(up, s.works, edges), s.authors, [], s.inFlight + News(up, s.works, edges))
  }

  lemma {:induction false} StagedFirst(up: Upstream, s: State, edges: seq<Edge>)
    requires CoherentBooks(up) && Changes(up, s.works, edges) && edges != []
    ensures Staged(up, s, edges) ==
            Staged(up, State(Changed(up, s.works, edges[0]), s.authors, [], s.inFlight + NewsOf(s.works, edges[0])),
                   edges[1..])
  {
    Associative(s.inFlight, NewsOf(s.works, edges[0]), News(up, Changed(up, s.works, edges[0]), edges[1..]));
  }

  lemma StagedNowhere(up: Upstream, s: State)
    requires CoherentBooks(up) && s.queue == []
    ensures Staged(up, s, []) == s
  {
    assert s.inFlight + [] == s.inFlight;
  }

  lemma TriplesOfCons(edges: seq<Edge>)
    requires edges != []
    ensures Triples([edges[0]]) + Triples(edges[1..]) == Triples(edges)
  {
    TriplesOfConcat([edges[0]], edges[1..]);
    assert [edges[0]] + edges[1..] == edges;
  }

  lemma {:induction false} ChangesLead(up: Upstream, s0: State, s: State, edges: seq<Edge>)
    requires CoherentBooks(up) && s.queue == [] && Changes(up, s.works, edges)
    ensures Leads(up, s0, s, Triples(edges), Staged(up, s, edges))
    decreases |edges|
  {
    if edges == [] {
      StagedNowhere(up, s);
      assert Triples([]) == {};
      LeadsNowhere(up, s0, s);
    } else {
      var e := edges[0];
      ChangesLead(up, s0, State(Changed(up, s.works, e), s.authors, [], s.inFlight + NewsOf(s.works, e)), edges[1..]);
      StagedFirst(up, s, edges);
      ChangeLeads(up, s0, s, e, Triples(edges[1..]), Staged(up, s, edges));
      TriplesOfCons(edges);
    }
  }

  /** The works `ids` brought to a later stage. */
  ghost function Restaged(works: map<ID, Work>, later: map<ID, Work>, ids: set<ID>): map<ID, Work> {
    map w | w in works :: if w in ids && w in later then later[w] else works[w]
  }

  ghost predicate EdgesOf(edges: seq<Edge>, ids: set<ID>) {
    forall i :: 0 <= i < |edges| ==> edges[i].kind == WorkEdge && edges[i].parentID in ids
  }

  ghost predicate CanBeRestaged(up: Upstream, all: iset<Triple>, works: map<ID, Work>, later: map<ID, Work>,
                                ids: set<ID>)
    requires CoherentBooks(up) && SortedWorks(works)
  {
    forall w :: w in ids && w in works ==>
        w in later && Sorted(later[w].books, BookID) && VersionIn(up, all, w, works[w], later[w])
  }

  lemma SomeEditions(up: Upstream, all: iset<Triple>, w: ID, work: Work, x: Work) returns (ids: set<ID>)
    requires CoherentBooks(up) && Sorted(work.books, BookID) && VersionIn(up, all, w, work, x) && x != work
    ensures ids != {} && EditionsFrom(all, w, ids) && x == Edited(up, work, ids)
  {
    ids :| EditionsFrom(all, w, ids) && x == Edited(up, work, ids);
    EditingNothing(up, work);
  }

  /** The edge that brings one work to a later stage, unless it is there already. */
  lemma EdgeToStage(up: Upstream, all: iset<Triple>, works: map<ID, Work>, w: ID, x: Work) returns (e: Edge)
    requires CoherentBooks(up) && SortedWorks(works) && w in works && VersionIn(up, all, w, works[w], x)
             && x != works[w]
    ensures e.kind == WorkEdge && e.parentID == w && IsChange(up, works, e) && Changed(up, works, e) == works[w := x]
    ensures Within(Triples([e]), all)
  {
    var ids := SomeEditions(up, all, w, works[w], x);
    e := Edge(WorkEdge, w, ids);
    TriplesOfEdge(e);
  }

  /** Edges that bring works to a later stage. */
  lemma {:induction false} EdgesToStage(up: Upstream, all: iset<Triple>, works: map<ID, Work>, later: map<ID, Work>,
                                        ids: set<ID>)
    returns (edges: seq<Edge>)
    requires CoherentBooks(up) && SortedWorks(works) && CanBeRestaged(up, all, works, later, ids)
    ensures Changes(up, works, edges) && AfterChanges(up, works, edges) == Restaged(works, later, ids)
    ensures EdgesOf(edges, ids) && Within(Triples(edges), all)
    decreases |ids|, 1
  {
    if ids == {} {
      edges := [];
      assert Triples([]) == {};
      NoneRestaged(works, later);
    } else {
      var w :| w in ids;
      if w in works && later[w] != works[w] {
        edges := EdgesWithFirst(up, all, works, later, ids, w);
      } else {
        edges := EdgesToStage(up, all, works, later, ids - {w});
        SameRestaged(works, later, ids, w);
      }
    }
  }

  lemma {:induction false} EdgesWithFirst(up: Upstream, all: iset<Triple>, works: map<ID, Work>, later: map<ID, Work>,
                                          ids: set<ID>, w: ID)
    returns (edges: seq<Edge>)
    requires CoherentBooks(up) && SortedWorks(works) && CanBeRestaged(up, all, works, later, ids)
    requires w in ids && w in works && later[w] != works[w]
    ensures Changes(up, works, edges) && AfterChanges(up, works, edges) == Restaged(works, later, ids)
    ensures EdgesOf(edges, ids) && Within(Triples(edges), all)
    decreases |ids|, 0
  {
    var e := EdgeToStage(up, all, works, w, later[w]);
    OthersCanBeRestaged(up, all, works, later, ids, w);
    var others := EdgesToStage(up, all, works[w := later[w]], later, ids - {w});
    edges := [e] + others;
    ChangesFirst(up, works, e, others);
    OneMoreRestaged(works, later, ids, w);
    EdgesOfBoth(e, others, ids, w, all);
  }

  lemma OthersCanBeRestaged(up: Upstream, all: iset<Triple>, works: map<ID, Work>, later: map<ID, Work>, ids: set<ID>,
                            w: ID)
    requires CoherentBooks(up) && SortedWorks(works) && CanBeRestaged(up, all, works, later, ids) && w in ids
             && w in works
    ensures SortedWorks(works[w := later[w]]) && CanBeRestaged(up, all, works[w := later[w]], later, ids - {w})
  {
  }

  lemma EdgesOfBoth(e: Edge, others: seq<Edge>, ids: set<ID>, w: ID, all: iset<Triple>)
    requires e.kind == WorkEdge && e.parentID == w && w in ids && EdgesOf(others, ids - {w})
    requires Within(Triples([e]), all) && Within(Triples(others), all)
    ensures EdgesOf([e] + others, ids) && Within(Triples([e] + others), all)
  {
    TriplesOfConcat([e], others);
  }

  lemma NoneRestaged(works: map<ID, Work>, later: map<ID, Work>)
    ensures Restaged(works, later, {}) == works
  {
  }

  lemma OneMoreRestaged(works: map<ID, Work>, later: map<ID, Work>, ids: set<ID>, w: ID)
    requires w in ids && w in works && w in later
    ensures Restaged(works[w := later[w]], later, ids - {w}) == Restaged(works, later, ids)
  {
  }

  lemma SameRestaged(works: map<ID, Work>, later: map<ID, Work>, ids: set<ID>, w: ID)
    requires w in works ==> w in later && works[w] == later[w]
    ensures Restaged(works, later, ids - {w}) == Restaged(works, later, ids)
  {
  }

  // ---------------------------------------------------------------------------------------
  // A run that denormalizes one author with a chosen outcome
  // ---------------------------------------------------------------------------------------

  /** Author edges, for `a` only with works `ids`. */
  ghost predicate AsksFor(edges: seq<Edge>, a: ID, ids: set<ID>) {
    forall i :: 0 <= i < |edges| ==>
        edges[i].kind == AuthorEdge && (edges[i].parentID == a ==> edges[i].childIDs <= ids)
  }

  ghost predicate ForOthers(edges: seq<Edge>, a: ID) {
    forall i :: 0 <= i < |edges| ==> edges[i].kind == AuthorEdge && edges[i].parentID != a
  }

  lemma {:induction false} NewsAsksFor(up: Upstream, works: map<ID, Work>, edges: seq<Edge>, ids: set<ID>, a: ID)
    requires CoherentBooks(up) && Changes(up, works, edges) && EdgesOf(edges, ids)
    ensures AsksFor(News(up, works, edges), a, ids)
    decreases |edges|
  {
    if edges != [] {
      var first, rest := NewsOf(works, edges[0]), News(up, Changed(up, works, edges[0]), edges[1..]);
      NewsOfAsksFor(works, edges[0], ids, a);
      NewsAsksFor(up, Changed(up, works, edges[0]), edges[1..], ids, a);
      AsksForBoth(first, rest, a, ids);
    }
  }

  lemma NewsOfAsksFor(works: map<ID, Work>, e: Edge, ids: set<ID>, a: ID)
    requires e.parentID in works && e.parentID in ids
    ensures AsksFor(NewsOf(works, e), a, ids)
  {
  }

  lemma AsksForBoth(some: seq<Edge>, more: seq<Edge>, a: ID, ids: set<ID>)
    requires AsksFor(some, a, ids) && AsksFor(more, a, ids)
    ensures AsksFor(some + more, a, ids)
  {
  }

  lemma {:induction false} EnqueuedForOthers(queue: seq<Edge>, e: Edge, a: ID)
    requires ForOthers(queue, a) && e.kind == AuthorEdge && e.parentID != a
    ensures ForOthers(Enqueued(queue, e), a)
  {
    if queue != [] && !SameGroup(queue[0], e) { EnqueuedForOthers(queue[1..], e, a); }
  }

  lemma EnqueuedBehind(head: Edge, rest: seq<Edge>, e: Edge) returns (rest': seq<Edge>)
    requires head.kind == AuthorEdge && ForOthers(rest, head.parentID) && AsksFor([e], head.parentID, head.childIDs)
    ensures ForOthers(rest', head.parentID) && Enqueued([head] + rest, e) == [head] + rest'
  {
    assert [e][0] == e;
    if e.parentID == head.parentID {
      rest' := rest;
      UnionOfSubset(e.childIDs, head.childIDs);
      assert head.childIDs + e.childIDs == head.childIDs;
    } else {
      rest' := Enqueued(rest, e);
      EnqueuedForOthers(rest, e, head.parentID);
    }
  }

  /** All edges in flight are received; those for the author at the head of the queue are merged into its edge. */
  lemma {:induction false} ReceiveAll(up: Upstream, s0: State, s: State, head: Edge, rest: seq<Edge>)
    returns (rest': seq<Edge>)
    requires s.queue == [head] + rest && head.kind == AuthorEdge && ForOthers(rest, head.parentID)
    requires AsksFor(s.inFlight, head.parentID, head.childIDs)
    ensures ForOthers(rest', head.parentID)
    ensures Leads(up, s0, s, {}, s.(queue := [head] + rest', inFlight := []))
    decreases |s.inFlight|
  {
    if s.inFlight == [] {
      rest' := rest;
      LeadsNowhere(up, s0, s);
    } else {
      var e := s.inFlight[0];
      var behind := EnqueuedBehind(head, rest, e);
      var next := s.(queue := [head] + behind, inFlight := s.inFlight[1..]);
      assert s.inFlight[..0] + s.inFlight[1..] == s.inFlight[1..];
      rest' := ReceiveAll(up, s0, next, head, behind);
      WorkLeadsOn(up, s0, s, Deliver(0), next, {}, s.(queue := [head] + rest', inFlight := []));
    }
  }

  /** Processing an edge of another author. */
  lemma OtherStep(up: Upstream, s: State, s': State, a: ID)
    requires s.queue != [] && s.queue[0].kind == AuthorEdge && s.queue[0].parentID != a && a in s.authors
    requires Step(up, s, Process, s')
    ensures s'.works == s.works && s'.queue == s.queue[1..] && s'.inFlight == s.inFlight
    ensures s'.authors.Keys == s.authors.Keys && s'.authors[a] == s.authors[a]
  {
    var e, t := s.queue[0], s.(queue := s.queue[1..]);
    if e.childIDs != {} && e.parentID in s.authors && !UnknownAuthor(e.parentID) {
      var batch, done := WorksOutcome(up, t, e.parentID, e.childIDs, s');
      KeysAfterUpdate(s.authors, e.parentID, done);
    }
  }

  /** The edges of other authors are processed. */
  lemma {:induction false} DrainOthers(up: Upstream, s0: State, s: State, a: ID) returns (end: State)
    requires SortedState(s) && s.inFlight == [] && ForOthers(s.queue, a) && a in s.authors
    ensures Leads(up, s0, s, {}, end) && Quiescent(end) && SortedState(end)
    ensures end.works == s.works && end.authors.Keys == s.authors.Keys && end.authors[a] == s.authors[a]
    decreases |s.queue|
  {
    if s.queue == [] {
      end := s;
      LeadsNowhere(up, s0, s);
    } else {
      var next := ProcessIsEnabled(up, s);
      OtherStep(up, s, next, a);
      StepKeepsSorted(up, s, Process, next);
      end := DrainOthers(up, s0, next, a);
      WorkLeadsOn(up, s0, s, Process, next, {}, end);
    }
  }

  lemma AuthorStep(up: Upstream, s: State, a: ID, ids: set<ID>, rest: seq<Edge>, batch: map<ID, Work>, done: Author)
    requires s.queue == [Edge(AuthorEdge, a, ids)] + rest && a in s.authors && !UnknownAuthor(a) && ids != {}
    requires Selects(batch, FetchedWorks(s.works, ids), WorkID) && IsDenormalized(up, s.authors[a], batch, done)
    ensures Step(up, s, Process, s.(queue := rest, authors := s.authors[a := done]))
  {
    var t := s.(queue := s.queue[1..]);
    assert WorksStep(up, t, a, ids, t.(authors := t.authors[a := done]));
  }

  /** The author is asked for works, among them all that are announced for it, and all comes to rest. */
  lemma AskLeads(up: Upstream, s0: State, s: State, a: ID, ids: set<ID>, batch: map<ID, Work>, done: Author)
    returns (end: State)
    requires SortedState(s) && s.queue == [] && AsksFor(s.inFlight, a, ids)
    requires a in s.authors && !UnknownAuthor(a) && ids != {}
             && Attributed(s0.works, Triples([Edge(AuthorEdge, a, ids)]))
    requires Selects(batch, FetchedWorks(s.works, ids), WorkID) && IsDenormalized(up, s.authors[a], batch, done)
    ensures Leads(up, s0, s, Triples([Edge(AuthorEdge, a, ids)]), end) && Quiescent(end) && SortedState(end)
    ensures end.works == s.works && end.authors.Keys == s.authors.Keys && end.authors[a] == done
  {
    var head := Edge(AuthorEdge, a, ids);
    var queued := s.(queue := [head]);
    assert [head] + [] == [head];
    var rest := ReceiveAll(up, s0, queued, head, []);
    var received, next := s.(queue := [head] + rest, inFlight := []), State(s.works, s.authors[a := done], rest, []);
    AuthorStep(up, received, a, ids, rest, batch, done);
    StepKeepsSorted(up, received, Process, next);
    KeysAfterUpdate(s.authors, a, done);
    end := DrainOthers(up, s0, next, a);
    WorkLeadsOn(up, s0, received, Process, next, {}, end);
    LeadsThrough(up, s0, queued, {}, received, {}, end);
    EmptyUnion<Triple>({});
    PushLeads(up, s0, s, head, {}, end);
    EmptyUnion(Triples([head]));
  }

  // ---------------------------------------------------------------------------------------
  // If runs agree, stages commute
  // ---------------------------------------------------------------------------------------

  lemma {:induction false} StagedIsSorted(up: Upstream, s: State, edges: seq<Edge>)
    requires CoherentBooks(up) && SortedState(s) && Changes(up, s.works, edges)
             && SortedWorks(AfterChanges(up, s.works, edges))
    ensures SortedState(Staged(up, s, edges))
  {
  }

  /**
   Works are brought to a later stage, and then the author is asked for all that was announced for it,
   and all comes to rest.
   */
  lemma StageAndAsk(up: Upstream, s0: State, s: State, edges: seq<Edge>, a: ID, ids: set<ID>, batch: map<ID, Work>,
                    done: Author)
    returns (end: State)
    requires CoherentBooks(up) && SortedState(s) && s.queue == [] && AsksFor(s.inFlight, a, ids)
    requires Changes(up, s.works, edges) && EdgesOf(edges, ids) && SortedWorks(AfterChanges(up, s.works, edges))
    requires a in s.authors && !UnknownAuthor(a) && ids != {}
             && Attributed(s0.works, Triples([Edge(AuthorEdge, a, ids)]))
    requires Selects(batch, FetchedWorks(AfterChanges(up, s.works, edges), ids), WorkID)
    requires IsDenormalized(up, s.authors[a], batch, done)
    ensures Leads(up, s0, s, Triples(edges) + Triples([Edge(AuthorEdge, a, ids)]), end) && Quiescent(end)
            && SortedState(end)
    ensures end.works == AfterChanges(up, s.works, edges) && end.authors.Keys == s.authors.Keys
            && end.authors[a] == done
  {
    var staged := Staged(up, s, edges);
    StagedIsSorted(up, s, edges);
    ChangesLead(up, s0, s, edges);
    NewsAsksFor(up, s.works, edges, ids, a);
    AsksForBoth(s.inFlight, News(up, s.works, edges), a, ids);
    end := AskLeads(up, s0, staged, a, ids, batch, done);
    LeadsThrough(up, s0, s, Triples(edges), staged, Triples([Edge(AuthorEdge, a, ids)]), end);
  }

  lemma SameFetched(x: map<ID, Work>, y: map<ID, Work>, ids: set<ID>)
    requires forall w :: w in ids ==> (w in x <==> w in y) && (w in x ==> x[w] == y[w])
    ensures FetchedWorks(x, ids) == FetchedWorks(y, ids)
  {
  }

  lemma AskedIsAttributed(s: State, all: iset<Triple>, a: ID, ids: set<ID>)
    requires Askable(s, all, a, ids)
    ensures Attributed(s.works, Triples([Edge(AuthorEdge, a, ids)])) && Within(Triples([Edge(AuthorEdge, a, ids)]), all)
  {
    TriplesOfEdge(Edge(AuthorEdge, a, ids));
  }

  lemma AskableBoth(s: State, all: iset<Triple>, a: ID, ids1: set<ID>, ids2: set<ID>)
    requires Askable(s, all, a, ids1) && Askable(s, all, a, ids2)
    ensures Askable(s, all, a, ids1 + ids2)
  {
    var w :| w in ids1;
    assert w in ids1 + ids2;
  }

  lemma StageCanBeReached(up: Upstream, all: iset<Triple>, works: map<ID, Work>, later: map<ID, Work>, ids: set<ID>)
    requires CoherentBooks(up) && SortedWorks(works) && IsStage(up, all, works, later) && SortedWorks(later)
    ensures CanBeRestaged(up, all, works, later, ids) && SortedWorks(Restaged(works, later, ids))
    ensures FetchedWorks(Restaged(works, later, ids), ids) == FetchedWorks(later, ids)
  {
    SameFetched(Restaged(works, later, ids), later, ids);
  }

  lemma SecondVersion(up: Upstream, all: iset<Triple>, works: map<ID, Work>, works1: map<ID, Work>, ids1: set<ID>,
                      works2: map<ID, Work>, w: ID)
    requires CoherentBooks(up) && SortedWorks(works) && IsStage(up, all, works, works1)
    requires SortedWorks(works1) && IsStage(up, all, works1, works2) && w in works
    ensures var x := Restaged(works, works1, ids1)[w];
            Sorted(x.books, BookID) && VersionIn(up, all, w, x, works2[w])
  {
    if w !in ids1 { VersionOfVersion(up, all, w, works[w], works1[w], works2[w]); }
  }

  lemma RestagedIsSorted(works: map<ID, Work>, later: map<ID, Work>, ids: set<ID>)
    requires SortedWorks(works) && SortedWorks(later)
    ensures SortedWorks(Restaged(works, later, ids))
  {
  }

  /** A second stage is one of the works as far as they were brought to the first. */
  lemma SecondCanBeReached(up: Upstream, all: iset<Triple>, works: map<ID, Work>, works1: map<ID, Work>, ids1: set<ID>,
                           works2: map<ID, Work>, ids2: set<ID>, v: map<ID, Work>)
    requires CoherentBooks(up) && SortedWorks(works) && IsStage(up, all, works, works1)
    requires SortedWorks(works1) && IsStage(up, all, works1, works2) && SortedWorks(works2)
    requires SortedWorks(v) && v == Restaged(works, works1, ids1)
    ensures CanBeRestaged(up, all, v, works2, ids2)
  {
    forall w | w in ids2 && w in v
      ensures VersionIn(up, all, w, v[w], works2[w])
    {
      SecondVersion(up, all, works, works1, ids1, works2, w);
    }
  }

  /** At the end, the works `ids2` are at the second stage and the other ones of `ids1` at the first. */
  ghost predicate Combines(v: map<ID, Work>, works1: map<ID, Work>, ids1: set<ID>, works2: map<ID, Work>,
                           ids2: set<ID>) {
    && (forall w :: w in ids2 ==> (w in v <==> w in works2) && (w in v ==> v[w] == works2[w]))
    && (forall w :: w in ids1 && w !in ids2 ==> (w in v <==> w in works1) && (w in v ==> v[w] == works1[w]))
    && (forall w :: w in ids1 && w in ids2 && w in works1 ==>
          w in works2 && works2[w].foreignID == works1[w].foreignID
            && (works1[w].books != [] ==> works2[w].books != []))
  }

  lemma CopyIsFetched(v: map<ID, Work>, works1: map<ID, Work>, ids1: set<ID>, m1: map<ID, Work>,
                      works2: map<ID, Work>, ids2: set<ID>, m2: map<ID, Work>, k: ID)
    requires Combines(v, works1, ids1, works2, ids2)
    requires Selects(m1, FetchedWorks(works1, ids1), WorkID) && Selects(m2, FetchedWorks(works2, ids2), WorkID)
    requires k in m1 + m2
    ensures (m1 + m2)[k] in FetchedWorks(v, ids1 + ids2)
  {
    if k in m2 {
      var w :| w in ids2 && w in works2 && works2[w].books != [] && works2[w] == m2[k];
      FetchedAt(v, ids1 + ids2, w);
    } else {
      var w :| w in ids1 && w in works1 && works1[w].books != [] && works1[w] == m1[k];
      if w in ids2 { FetchedAt(works2, ids2, w); }
      FetchedAt(v, ids1 + ids2, w);
    }
  }

  lemma FetchedIsCopied(v: map<ID, Work>, works1: map<ID, Work>, ids1: set<ID>, m1: map<ID, Work>,
                        works2: map<ID, Work>, ids2: set<ID>, m2: map<ID, Work>, x: Work)
    requires Combines(v, works1, ids1, works2, ids2)
    requires Selects(m1, FetchedWorks(works1, ids1), WorkID) && Selects(m2, FetchedWorks(works2, ids2), WorkID)
    requires x in FetchedWorks(v, ids1 + ids2)
    ensures x.foreignID in m1 + m2
  {
    var w :| w in ids1 + ids2 && w in v && v[w].books != [] && v[w] == x;
    if w in ids2 { FetchedAt(works2, ids2, w); } else { FetchedAt(works1, ids1, w); }
  }

  /** Both batches are what all the works yield at the end. */
  lemma BothAreFetched(v: map<ID, Work>, works1: map<ID, Work>, ids1: set<ID>, m1: map<ID, Work>,
                       works2: map<ID, Work>, ids2: set<ID>, m2: map<ID, Work>)
    requires Combines(v, works1, ids1, works2, ids2)
    requires Selects(m1, FetchedWorks(works1, ids1), WorkID) && Selects(m2, FetchedWorks(works2, ids2), WorkID)
    ensures Selects(m1 + m2, FetchedWorks(v, ids1 + ids2), WorkID)
  {
    forall k | k in m1 + m2
      ensures (m1 + m2)[k] in FetchedWorks(v, ids1 + ids2)
    {
      CopyIsFetched(v, works1, ids1, m1, works2, ids2, m2, k);
    }
    forall x | x in FetchedWorks(v, ids1 + ids2)
      ensures x.foreignID in m1 + m2
    {
      FetchedIsCopied(v, works1, ids1, m1, works2, ids2, m2, x);
    }
  }

  lemma RestagedCombines(up: Upstream, all: iset<Triple>, works: map<ID, Work>, works1: map<ID, Work>, ids1: set<ID>,
                         works2: map<ID, Work>, ids2: set<ID>)
    requires CoherentBooks(up) && SortedWorks(works) && IsStage(up, all, works, works1)
    requires SortedWorks(works1) && IsStage(up, all, works1, works2)
    ensures Combines(Restaged(Restaged(works, works1, ids1), works2, ids2), works1, ids1, works2, ids2)
  {
    forall w | w in works1
      ensures works2[w].foreignID == works1[w].foreignID && (works1[w].books != [] ==> works2[w].books != [])
    {
      VersionKeepsIdentity(up, all, w, works1[w], works2[w]);
    }
  }

  /** What is pushed in two edges or in one. */
  lemma TogetherOrApart(s: State, all: iset<Triple>, ts1: set<Triple>, ts2: set<Triple>, a: ID, ids1: set<ID>,
                        ids2: set<ID>)
    returns (ts: set<Triple>)
    requires Within(ts1, all) && Within(ts2, all) && Askable(s, all, a, ids1) && Askable(s, all, a, ids2)
    ensures Within(ts, all)
    ensures ts == (ts1 + Triples([Edge(AuthorEdge, a, ids1)])) + (ts2 + Triples([Edge(AuthorEdge, a, ids2)]))
    ensures ts == ts1 + (ts2 + Triples([Edge(AuthorEdge, a, ids1 + ids2)]))
  {
    TriplesOfEdge(Edge(AuthorEdge, a, ids1));
    TriplesOfEdge(Edge(AuthorEdge, a, ids2));
    TriplesOfEdge(Edge(AuthorEdge, a, ids1 + ids2));
    ts := ts1 + (ts2 + Triples([Edge(AuthorEdge, a, ids1 + ids2)]));
  }

  /** The edges bring works first to `v`, for the sake of `ids1`, and then to `u`, for the sake of `ids2`. */
  ghost predicate Reaches(up: Upstream, works: map<ID, Work>, edges1: seq<Edge>, v: map<ID, Work>, ids1: set<ID>,
                          edges2: seq<Edge>, u: map<ID, Work>, ids2: set<ID>)
    requires CoherentBooks(up)
  {
    && Changes(up, works, edges1) && AfterChanges(up, works, edges1) == v && SortedWorks(v) && EdgesOf(edges1, ids1)
    && Changes(up, v, edges2) && AfterChanges(up, v, edges2) == u && SortedWorks(u) && EdgesOf(edges2, ids2)
  }

  /** Two stages are reached by edges. */
  lemma EdgesToBoth(up: Upstream, all: iset<Triple>, works: map<ID, Work>, works1: map<ID, Work>, ids1: set<ID>,
                    works2: map<ID, Work>, ids2: set<ID>)
    returns (edges1: seq<Edge>, v: map<ID, Work>, edges2: seq<Edge>, u: map<ID, Work>)
    requires CoherentBooks(up) && SortedWorks(works) && IsStage(up, all, works, works1)
    requires SortedWorks(works1) && IsStage(up, all, works1, works2)
    ensures Reaches(up, works, edges1, v, ids1, edges2, u, ids2) && Within(Triples(edges1), all)
            && Within(Triples(edges2), all)
    ensures FetchedWorks(v, ids1) == FetchedWorks(works1, ids1) && FetchedWorks(u, ids2) == FetchedWorks(works2, ids2)
    ensures Combines(u, works1, ids1, works2, ids2)
  {
    VersionsStaySorted(up, all, works1, works2);
    StageCanBeReached(up, all, works, works1, ids1);
    v := Restaged(works, works1, ids1);
    u := Restaged(v, works2, ids2);
    SecondCanBeReached(up, all, works, works1, ids1, works2, ids2, v);
    RestagedIsSorted(v, works2, ids2);
    edges1 := EdgesToStage(up, all, works, works1, ids1);
    edges2 := EdgesToStage(up, all, v, works2, ids2);
    SameFetched(u, works2, ids2);
    RestagedCombines(up, all, works, works1, ids1, works2, ids2);
  }

  /** Two runs that push the same relationships: the batches one after the other, and at once. */
  lemma StagedRuns(up: Upstream, s: State, all: iset<Triple>, a: ID, works1: map<ID, Work>, ids1: set<ID>,
                   m1: map<ID, Work>,
                   works2: map<ID, Work>, ids2: set<ID>, m2: map<ID, Work>, x: Author, y: Author, z: Author)
    returns (ts: set<Triple>, end1: State, end2: State)
    requires CoherentBooks(up) && SortedState(s) && Quiescent(s)
    requires TwoBatches(up, s, all, a, works1, ids1, m1, works2, ids2, m2)
    requires IsDenormalized(up, s.authors[a], m1, x) && IsDenormalized(up, x, m2, y)
             && IsDenormalized(up, s.authors[a], m1 + m2, z)
    ensures Within(ts, all) && Leads(up, s, s, ts, end1) && Leads(up, s, s, ts, end2) && Quiescent(end1)
            && Quiescent(end2)
    ensures a in end1.authors && a in end2.authors && end1.authors[a] == y && end2.authors[a] == z
  {
    var edges1, v, edges2, u := EdgesToBoth(up, all, s.works, works1, ids1, works2, ids2);
    end1 := OneByOne(up, s, all, a, edges1, v, ids1, m1, x, edges2, u, ids2, m2, y);
    BothAreFetched(u, works1, ids1, m1, works2, ids2, m2);
    end2 := AllAtOnce(up, s, all, a, edges1, v, ids1, edges2, u, ids2, m1 + m2, z);
    ts := TogetherOrApart(s, all, Triples(edges1), Triples(edges2), a, ids1, ids2);
  }

  lemma OneByOne(up: Upstream, s: State, all: iset<Triple>, a: ID, edges1: seq<Edge>, v: map<ID, Work>, ids1: set<ID>,
                 m1: map<ID, Work>, x: Author,
                 edges2: seq<Edge>, u: map<ID, Work>, ids2: set<ID>, m2: map<ID, Work>, y: Author)
    returns (end: State)
    requires CoherentBooks(up) && SortedState(s) && Quiescent(s) && Askable(s, all, a, ids1) && Askable(s, all, a, ids2)
    requires Reaches(up, s.works, edges1, v, ids1, edges2, u, ids2)
    requires Selects(m1, FetchedWorks(v, ids1), WorkID) && IsDenormalized(up, s.authors[a], m1, x)
    requires Selects(m2, FetchedWorks(u, ids2), WorkID) && IsDenormalized(up, x, m2, y)
    ensures Leads(up, s, s,
                  (Triples(edges1) + Triples([Edge(AuthorEdge, a, ids1)]))
                    + (Triples(edges2) + Triples([Edge(AuthorEdge, a, ids2)])), end)
    ensures Quiescent(end) && a in end.authors && end.authors[a] == y
  {
    AskedIsAttributed(s, all, a, ids1);
    AskedIsAttributed(s, all, a, ids2);
    var between := StageAndAsk(up, s, s, edges1, a, ids1, m1, x);
    end := StageAndAsk(up, s, between, edges2, a, ids2, m2, y);
    LeadsThrough(up, s, s, Triples(edges1) + Triples([Edge(AuthorEdge, a, ids1)]), between,
                 Triples(edges2) + Triples([Edge(AuthorEdge, a, ids2)]), end);
  }

  lemma AllAtOnce(up: Upstream, s: State, all: iset<Triple>, a: ID, edges1: seq<Edge>, v: map<ID, Work>, ids1: set<ID>,
                  edges2: seq<Edge>, u: map<ID, Work>, ids2: set<ID>, m: map<ID, Work>, z: Author)
    returns (end: State)
    requires CoherentBooks(up) && SortedState(s) && Quiescent(s) && Askable(s, all, a, ids1) && Askable(s, all, a, ids2)
    requires Reaches(up, s.works, edges1, v, ids1, edges2, u, ids2)
    requires Selects(m, FetchedWorks(u, ids1 + ids2), WorkID) && IsDenormalized(up, s.authors[a], m, z)
    ensures Leads(up, s, s, Triples(edges1) + (Triples(edges2) + Triples([Edge(AuthorEdge, a, ids1 + ids2)])), end)
    ensures Quiescent(end) && a in end.authors && end.authors[a] == z
  {
    var ids, staged := ids1 + ids2, Staged(up, s, edges1);
    AskableBoth(s, all, a, ids1, ids2);
    AskedIsAttributed(s, all, a, ids);
    StagedIsSorted(up, s, edges1);
    ChangesLead(up, s, s, edges1);
    NewsAsksFor(up, s.works, edges1, ids, a);
    AsksForBoth([], News(up, s.works, edges1), a, ids);
    end := StageAndAsk(up, s, staged, edges2, a, ids, m, z);
    LeadsThrough(up, s, s, Triples(edges1), staged, Triples(edges2) + Triples([Edge(AuthorEdge, a, ids)]), end);
  }

  /** Two runs that push the same relationships and request the same works, with either outcome. */
  lemma ChosenRuns(up: Upstream, s: State, all: iset<Triple>, a: ID, works: map<ID, Work>, ids: set<ID>,
                   m1: map<ID, Work>, m2: map<ID, Work>, x: Author, y: Author)
    returns (ts: set<Triple>, end1: State, end2: State)
    requires CoherentBooks(up) && SortedState(s) && Quiescent(s)
    requires TwoChoices(up, s, all, a, works, ids, m1, m2, x, y)
    ensures Within(ts, all) && Leads(up, s, s, ts, end1) && Leads(up, s, s, ts, end2) && Quiescent(end1)
            && Quiescent(end2)
    ensures a in end1.authors && a in end2.authors && end1.authors[a] == x && end2.authors[a] == y
  {
    VersionsStaySorted(up, all, s.works, works);
    StageCanBeReached(up, all, s.works, works, ids);
    var edges := EdgesToStage(up, all, s.works, works, ids);
    AskedIsAttributed(s, all, a, ids);
    ts := Triples(edges) + Triples([Edge(AuthorEdge, a, ids)]);
    end1 := StageAndAsk(up, s, s, edges, a, ids, m1, x);
    end2 := StageAndAsk(up, s, s, edges, a, ids, m2, y);
  }

  lemma AgreeingEnds(up: Upstream, s: State, all: iset<Triple>, ts: set<Triple>, end1: State, end2: State)
    requires AllRunsAgree(up, s, all) && Within(ts, all)
    requires Leads(up, s, s, ts, end1) && Leads(up, s, s, ts, end2) && Quiescent(end1) && Quiescent(end2)
    ensures end1 == end2
  {
    var states1, labels1 := LeadsToRest(up, s, ts, end1);
    var states2, labels2 := LeadsToRest(up, s, ts, end2);
  }

  lemma AgreeingRunsCommute(up: Upstream, s: State, all: iset<Triple>)
    requires CoherentBooks(up) && SortedState(s) && Quiescent(s) && AllRunsAgree(up, s, all)
    ensures StagesCommute(up, s, all)
  {
    forall a, works1, ids1, m1, works2, ids2, m2, x, y, z |
      TwoStages(up, s, all, a, works1, ids1, m1, works2, ids2, m2, x, y, z)
      ensures y == z
    {
      var ts, end1, end2 := StagedRuns(up, s, all, a, works1, ids1, m1, works2, ids2, m2, x, y, z);
      AgreeingEnds(up, s, all, ts, end1, end2);
    }
  }

  lemma AgreeingRunsChoose(up: Upstream, s: State, all: iset<Triple>)
    requires CoherentBooks(up) && SortedState(s) && Quiescent(s) && AllRunsAgree(up, s, all)
    ensures ChoicesAgree(up, s, all)
  {
    forall a, works, ids, m1, m2, x, y | TwoChoices(up, s, all, a, works, ids, m1, m2, x, y)
      ensures x == y
    {
      var ts, end1, end2 := ChosenRuns(up, s, all, a, works, ids, m1, m2, x, y);
      AgreeingEnds(up, s, all, ts, end1, end2);
    }
  }

  /**
   Serializability, exactly: from a state at rest, all runs that push the same of the relationships
   `all` come to the same rest, whatever they push, if and only if stages commute and choices agree.
   */
  lemma AllRunsAgreeIff(up: Upstream, s: State, all: iset<Triple>)
    requires CoherentBooks(up) && SortedState(s) && Quiescent(s) && Closed(s, all)
    ensures AllRunsAgree(up, s, all) <==> StagesCommute(up, s, all) && ChoicesAgree(up, s, all)
  {
    if AllRunsAgree(up, s, all) {
      AgreeingRunsCommute(up, s, all);
      AgreeingRunsChoose(up, s, all);
    }
    if StagesCommute(up, s, all) && ChoicesAgree(up, s, all) {
      forall ts, states1, labels1, states2, labels2 |
        Within(ts, all) && RestsAfter(up, s, ts, states1, labels1) && RestsAfter(up, s, ts, states2, labels2)
        ensures states1[|labels1|] == states2[|labels2|]
      {
        EmptyUnion(ts);
        CommutingStagesAgree(up, s, all, ts, states1, labels1, states2, labels2);
      }
    }
  }

  // ---------------------------------------------------------------------------------------
  // When stages commute
  // ---------------------------------------------------------------------------------------

  ghost predicate StagesHarmless(up: Upstream, s: State, all: iset<Triple>)
    requires CoherentBooks(up) && SortedState(s)
  {
    forall a, works1, ids1, m1, works2, ids2, m2 :: TwoBatches(up, s, all, a, works1, ids1, m1, works2, ids2, m2) ==>
      HarmlessBatches(up, s.authors[a], m1, m2)
  }

  lemma StagesCommuteIff(up: Upstream, s: State, all: iset<Triple>)
    requires CoherentBooks(up) && CoherentSeries(up) && SortedState(s)
    ensures StagesCommute(up, s, all) <==> StagesHarmless(up, s, all)
  {
    if StagesCommute(up, s, all) {
      forall a, works1, ids1, m1, works2, ids2, m2 | TwoBatches(up, s, all, a, works1, ids1, m1, works2, ids2, m2)
        ensures HarmlessBatches(up, s.authors[a], m1, m2)
      {
        var x := SomeDenormalized(up, s.authors[a], m1);
        DenormalizedKeeps(up, s.authors[a], m1, x);
        var y := SomeDenormalized(up, x, m2);
        BothAtOnce(up, s, all, a, works1, ids1, m1, works2, ids2, m2, x, y);
        DenormalizingTwiceIff(up, s.authors[a], m1, m2, x, y);
      }
    }
    if StagesHarmless(up, s, all) {
      forall a, works1, ids1, m1, works2, ids2, m2, x, y, z |
        TwoStages(up, s, all, a, works1, ids1, m1, works2, ids2, m2, x, y, z)
        ensures y == z
      {
        assert HarmlessBatches(up, s.authors[a], m1, m2);
        DenormalizingTwiceIff(up, s.authors[a], m1, m2, x, y);
        DenormalizedIsUnique(up, s.authors[a], m1 + m2, y, z);
      }
    }
  }

  /** With one id per work, there is nothing to choose. */
  lemma CanonicalChoicesAgree(up: Upstream, s: State, all: iset<Triple>)
    requires CoherentBooks(up) && CoherentSeries(up) && SortedState(s) && Canonical(s.works)
    ensures ChoicesAgree(up, s, all)
  {
    forall a, works, ids, m1, m2, x, y | TwoChoices(up, s, all, a, works, ids, m1, m2, x, y)
      ensures x == y
    {
      StageIsCanonical(up, all, s.works, works);
      Confluence.FetchedHaveUniqueIds(works, ids);
      SelectionIsIndex(m1, FetchedWorks(works, ids), WorkID);
      SelectionIsIndex(m2, FetchedWorks(works, ids), WorkID);
      DenormalizedIsUnique(up, s.authors[a], m1, x, y);
    }
  }

  lemma StageIsCanonical(up: Upstream, all: iset<Triple>, works: map<ID, Work>, later: map<ID, Work>)
    requires CoherentBooks(up) && SortedWorks(works) && Canonical(works) && IsStage(up, all, works, later)
    ensures Canonical(later)
  {
    forall w | w in works
      ensures later[w].foreignID == works[w].foreignID
    {
      VersionKeepsIdentity(up, all, w, works[w], later[w]);
    }
    SameIDsSameAliases(later, works);
  }

  /**
   With one id per work and coherent series, all runs agree if and only if no two batches of an
   author's works, at two stages of what is pushed, clash in titles or lose a rating.
   */
  lemma AllRunsAgreeIffHarmless(up: Upstream, s: State, all: iset<Triple>)
    requires CoherentBooks(up) && CoherentSeries(up) && Canonical(s.works) && SortedState(s) && Quiescent(s)
             && Closed(s, all)
    ensures AllRunsAgree(up, s, all) <==> StagesHarmless(up, s, all)
  {
    AllRunsAgreeIff(up, s, all);
    StagesCommuteIff(up, s, all);
    CanonicalChoicesAgree(up, s, all);
  }
}
