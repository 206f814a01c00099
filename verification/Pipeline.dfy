/**
 The denormalization pipeline as a state machine over its atomic steps: cached works and
 authors, the merging queue, and the sends that goroutines have not completed yet.

 Steps are relations. Where the program walks a Go map or lets goroutines race, a step allows
 every outcome of every order.
 */
module Pipeline {
  import opened Options
  import opened SortedList
  import opened Resources
  import opened AuthorPass
  import opened Edges

  datatype State = State(works: map<ID, Work>, authors: map<ID, Author>, queue: seq<Edge>, inFlight: seq<Edge>)

  /** The edition that a lookup of `bookID` yields, unless the lookup fails or is malformed. */
  function BookOf(up: Upstream, bookID: ID): Option<Book> {
    match up.book(bookID)
    case None => None
    case Some(w) => if |w.books| == 1 then Some(w.books[0]) else None
  }

  ghost function FetchedBooks(up: Upstream, bookIDs: set<ID>): set<Book> {
    set b | b in bookIDs && BookOf(up, b).Some? :: BookOf(up, b).value
  }

  /** The works that lookups of `workIDs` yield; a work without editions is skipped. */
  ghost function FetchedWorks(works: map<ID, Work>, workIDs: set<ID>): set<Work> {
    set w | w in workIDs && w in works && works[w].books != [] :: works[w]
  }

  /** `edited` is `work` after its editions with `bookIDs` were upserted in some order. */
  ghost predicate IsEdited(up: Upstream, work: Work, bookIDs: set<ID>, edited: Work) {
    && Sorted(work.books, BookID)
    && exists s: map<ID, Book> ::
      && Selects(s, FetchedBooks(up, bookIDs), BookID)
      && edited == work.(books := Merge(work.books, s, BookID))
  }

  /** One author edge for each author of a work. */
  function AuthorEdges(authors: seq<ID>, workID: ID): seq<Edge> {
    seq(|authors|, i requires 0 <= i < |authors| => Edge(AuthorEdge, authors[i], {workID}))
  }

  /** The state after a changed work was written back and announced. */
  ghost function Announced(s: State, workID: ID, edited: Work): State {
    s.(works := s.works[workID := edited], inFlight := s.inFlight + AuthorEdges(edited.authors, workID))
  }

  /** `denormalizeEditions`: a changed work is written back and announced to its authors. */
  ghost predicate EditionsStep(up: Upstream, s: State, workID: ID, bookIDs: set<ID>, s': State) {
    if bookIDs == {} || workID !in s.works then s' == s
    else
      exists edited: Work ::
        && IsEdited(up, s.works[workID], bookIDs, edited)
        && s' == if edited == s.works[workID] then s else Announced(s, workID, edited)
  }

  /** `denormalizeWorks`, which `Run` does not call for the authors known to be unloadable. */
  ghost predicate WorksStep(up: Upstream, s: State, authorID: ID, workIDs: set<ID>, s': State) {
    if UnknownAuthor(authorID) || workIDs == {} || authorID !in s.authors then s' == s
    else
      exists batch: map<ID, Work>, done: Author ::
        && Selects(batch, FetchedWorks(s.works, workIDs), WorkID)
        && IsDenormalized(up, s.authors[authorID], batch, done)
        && s' == s.(authors := s.authors[authorID := done])
  }

  datatype Label =
    | External(e: Edge)                                    // another goroutine starts sending an edge
    | Deliver(i: nat)                                      // the buffer receives one of the edges being sent
    | Process                                              // the consumer takes an edge and denormalizes it
    | Load(workID: ID, loaded: Work, authorID: ID)         // a missing or expired work is fetched and cached

  /** The editions of the work cached before that can still be loaded. */
  ghost function KeptBooks(up: Upstream, works: map<ID, Work>, workID: ID): set<ID> {
    if workID !in works then {}
    else
      set i | 0 <= i < |works[workID].books| && up.book(works[workID].books[i].foreignID).Some?
        :: works[workID].books[i].foreignID
  }

  /** The edges that loading a work announces. */
  ghost function LoadEdges(up: Upstream, works: map<ID, Work>, workID: ID, authorID: ID): seq<Edge> {
    [Edge(WorkEdge, workID, KeptBooks(up, works, workID))]
    + if authorID > 0 then [Edge(AuthorEdge, authorID, {workID})] else []
  }

  ghost predicate Step(up: Upstream, s: State, l: Label, s': State) {
    match l
    case External(e) =>
      s' == s.(inFlight := s.inFlight + [e])
    case Deliver(i) =>
      && i < |s.inFlight|
      && s' == s.(inFlight := s.inFlight[..i] + s.inFlight[i + 1..], queue := Enqueued(s.queue, s.inFlight[i]))
    case Process =>
      && s.queue != []
      && var e, t := s.queue[0], s.(queue := s.queue[1..]);
         (match e.kind {
            case WorkEdge => EditionsStep(up, t, e.parentID, e.childIDs, s')
            case AuthorEdge => WorksStep(up, t, e.parentID, e.childIDs, s')
            case RefreshDone => s' == t
          })
    case Load(workID, loaded, authorID) =>
      s' == s.(works := s.works[workID := loaded], inFlight := s.inFlight + LoadEdges(up, s.works, workID, authorID))
  }

  ghost predicate Trace(up: Upstream, states: seq<State>, labels: seq<Label>) {
    && |states| == |labels| + 1
    && forall i :: 0 <= i < |labels| ==> Step(up, states[i], labels[i], states[i + 1])
  }

  ghost predicate Quiescent(s: State) {
    s.queue == [] && s.inFlight == []
  }

  /** The relationships still to be denormalized. */
  ghost function Pending(s: State): set<Triple> {
    Triples(s.queue) + Triples(s.inFlight)
  }

  /** Author edges are only pushed for authors of the work. */
  ghost predicate Attributed(works: map<ID, Work>, ts: set<Triple>) {
    forall t :: t in ts && t.kind == AuthorEdge && t.childID in works ==> t.parentID in works[t.childID].authors
  }

  /** Every list is sorted by id. */
  ghost predicate SortedState(s: State) {
    && (forall w :: w in s.works ==> Sorted(s.works[w].books, BookID))
    && (forall a :: a in s.authors ==> Sorted(s.authors[a].works, WorkID))
  }

  // ---------------------------------------------------------------------------------------
  // What single steps do to the pending relationships and to the lists
  // ---------------------------------------------------------------------------------------

  lemma DeliverKeepsPending(up: Upstream, s: State, i: nat, s': State)
    requires Step(up, s, Deliver(i), s')
    ensures Pending(s') == Pending(s)
  {
    var e := s.inFlight[i];
    EnqueuedTriples(s.queue, e);
    assert s.inFlight == s.inFlight[..i] + [e] + s.inFlight[i + 1..];
    TriplesOfConcat(s.inFlight[..i] + [e], s.inFlight[i + 1..]);
    TriplesOfConcat(s.inFlight[..i], [e]);
    TriplesOfConcat(s.inFlight[..i], s.inFlight[i + 1..]);
  }

  lemma PendingOfHead(s: State)
    requires s.queue != []
    ensures Pending(s) == Triples([s.queue[0]]) + Pending(s.(queue := s.queue[1..]))
  {
    assert s.queue == [s.queue[0]] + s.queue[1..];
    TriplesOfConcat([s.queue[0]], s.queue[1..]);
  }

  lemma TriplesOfAuthorEdges(authors: seq<ID>, workID: ID)
    ensures forall t :: t in Triples(AuthorEdges(authors, workID)) <==>
                        t.kind == AuthorEdge && t.parentID in authors && t.childID == workID
  {
    var edges := AuthorEdges(authors, workID);
    forall t: Triple | t.kind == AuthorEdge && t.parentID in authors && t.childID == workID
      ensures t in Triples(edges)
    {
      var i :| 0 <= i < |authors| && authors[i] == t.parentID;
      assert t.childID in edges[i].childIDs;
    }
  }

  /** The editions of an edited work: the ids it had plus the ids of the fetched editions, still sorted. */
  lemma EditedKeeps(up: Upstream, work: Work, bookIDs: set<ID>, edited: Work)
    requires IsEdited(up, work, bookIDs, edited)
    ensures Sorted(edited.books, BookID)
    ensures edited == work.(books := edited.books)
    ensures work.books != [] ==> edited.books != []
    ensures ToMap(edited.books, BookID).Keys == ToMap(work.books, BookID).Keys + Ids(FetchedBooks(up, bookIDs), BookID)
  {
    var s: map<ID, Book> :|
        Selects(s, FetchedBooks(up, bookIDs), BookID) && edited == work.(books := Merge(work.books, s, BookID));
    SelectedIds(s, FetchedBooks(up, bookIDs), BookID);
    EmptyIffNoKeys(work.books, BookID);
    EmptyIffNoKeys(edited.books, BookID);
  }

  /** The works of a denormalized author: the ids it had plus the ids of the fetched works, still sorted. */
  lemma DenormalizedKeeps(up: Upstream, author: Author, batch: map<ID, Work>, done: Author)
    requires IsDenormalized(up, author, batch, done)
    ensures Sorted(done.works, WorkID)
    ensures ToMap(done.works, WorkID).Keys == ToMap(author.works, WorkID).Keys + batch.Keys
  {
    PassKeepsKeys(up, Merge(author.works, batch, WorkID));
  }

  /** The outcome of a `denormalizeEditions` that got past its guards. */
  lemma EditionsOutcome(up: Upstream, s: State, workID: ID, bookIDs: set<ID>, s': State) returns (edited: Work)
    requires EditionsStep(up, s, workID, bookIDs, s') && bookIDs != {} && workID in s.works
    ensures IsEdited(up, s.works[workID], bookIDs, edited)
    ensures s' == if edited == s.works[workID] then s else Announced(s, workID, edited)
  {
    edited :|
      && IsEdited(up, s.works[workID], bookIDs, edited)
      && s' == if edited == s.works[workID] then s else Announced(s, workID, edited);
  }

  /** The outcome of a `denormalizeWorks` that got past its guards. */
  lemma WorksOutcome(up: Upstream, s: State, authorID: ID, workIDs: set<ID>, s': State)
    returns (batch: map<ID, Work>, done: Author)
    requires WorksStep(up, s, authorID, workIDs, s')
    requires workIDs != {} && authorID in s.authors && !UnknownAuthor(authorID)
    ensures Selects(batch, FetchedWorks(s.works, workIDs), WorkID)
    ensures IsDenormalized(up, s.authors[authorID], batch, done)
    ensures s' == s.(authors := s.authors[authorID := done])
  {
    batch, done :|
      && Selects(batch, FetchedWorks(s.works, workIDs), WorkID)
      && IsDenormalized(up, s.authors[authorID], batch, done)
      && s' == s.(authors := s.authors[authorID := done]);
  }

  lemma EditionsKeepSorted(up: Upstream, s: State, workID: ID, bookIDs: set<ID>, s': State)
    requires SortedState(s) && EditionsStep(up, s, workID, bookIDs, s')
    ensures SortedState(s')
  {
    if bookIDs != {} && workID in s.works {
      var edited := EditionsOutcome(up, s, workID, bookIDs, s');
      EditedKeeps(up, s.works[workID], bookIDs, edited);
      AnnouncedIsSorted(s, workID, edited);
    }
  }

  lemma AnnouncedIsSorted(s: State, workID: ID, edited: Work)
    requires SortedState(s) && Sorted(edited.books, BookID)
    ensures SortedState(Announced(s, workID, edited))
  {
  }

  lemma WorksKeepSorted(up: Upstream, s: State, authorID: ID, workIDs: set<ID>, s': State)
    requires SortedState(s) && WorksStep(up, s, authorID, workIDs, s')
    ensures SortedState(s')
  {
    if workIDs != {} && authorID in s.authors && !UnknownAuthor(authorID) {
      var batch, done := WorksOutcome(up, s, authorID, workIDs, s');
      DenormalizedKeeps(up, s.authors[authorID], batch, done);
    }
  }

  /** Sortedness is kept by every step; a loaded work must bring sorted editions. */
  lemma StepKeepsSorted(up: Upstream, s: State, l: Label, s': State)
    requires SortedState(s) && Step(up, s, l, s')
    requires l.Load? ==> Sorted(l.loaded.books, BookID)
    ensures SortedState(s')
  {
    if l.Process? {
      var e, t := s.queue[0], s.(queue := s.queue[1..]);
      match e.kind {
        case WorkEdge => EditionsKeepSorted(up, t, e.parentID, e.childIDs, s');
        case AuthorEdge => WorksKeepSorted(up, t, e.parentID, e.childIDs, s');
        case RefreshDone =>
      }
    }
  }

  lemma {:induction false} StateIsSorted(up: Upstream, states: seq<State>, labels: seq<Label>, i: nat)
    requires Trace(up, states, labels) && SortedState(states[0]) && i < |states|
    requires forall i :: 0 <= i < |labels| && labels[i].Load? ==> Sorted(labels[i].loaded.books, BookID)
    ensures SortedState(states[i])
  {
    if i > 0 {
      StateIsSorted(up, states, labels, i - 1);
      StepKeepsSorted(up, states[i - 1], labels[i - 1], states[i]);
    }
  }

  /** So every state of a run is sorted. */
  lemma RunKeepsSorted(up: Upstream, states: seq<State>, labels: seq<Label>)
    requires Trace(up, states, labels) && SortedState(states[0])
    requires forall i :: 0 <= i < |labels| && labels[i].Load? ==> Sorted(labels[i].loaded.books, BookID)
    ensures forall i :: 0 <= i < |states| ==> SortedState(states[i])
  {
    forall i | 0 <= i < |states| {
      StateIsSorted(up, states, labels, i);
    }
  }

  // ---------------------------------------------------------------------------------------
  // Termination
  // ---------------------------------------------------------------------------------------

  /** What an edge can still cost: its own step, and two for every author edge it may announce. */
  ghost function Cost(works: map<ID, Work>, e: Edge): nat {
    1 + if e.kind == WorkEdge && e.parentID in works then 2 * |works[e.parentID].authors| else 0
  }

  ghost function Costs(works: map<ID, Work>, edges: seq<Edge>): nat {
    if edges == [] then 0 else Cost(works, edges[0]) + Costs(works, edges[1..])
  }

  /** The steps the pipeline can take before it needs new input: an edge in flight has to be delivered first. */
  ghost function Bound(s: State): nat {
    Costs(s.works, s.queue) + Costs(s.works, s.inFlight) + |s.inFlight|
  }

  lemma {:induction false} CostsOfConcat(works: map<ID, Work>, a: seq<Edge>, b: seq<Edge>)
    ensures Costs(works, a + b) == Costs(works, a) + Costs(works, b)
  {
    if a == [] {
      assert a + b == b;
    } else {
      assert (a + b)[1..] == a[1..] + b;
      CostsOfConcat(works, a[1..], b);
    }
  }

  lemma {:induction false} CostsOfEnqueued(works: map<ID, Work>, queue: seq<Edge>, e: Edge)
    ensures Costs(works, Enqueued(queue, e)) <= Costs(works, queue) + Cost(works, e)
  {
    if queue == [] {
      assert Costs(works, [e]) == Cost(works, e) + Costs(works, [e][1..]);
    } else if SameGroup(queue[0], e) {
      assert Enqueued(queue, e)[1..] == queue[1..];
    } else {
      CostsOfEnqueued(works, queue[1..], e);
      assert Enqueued(queue, e)[1..] == Enqueued(queue[1..], e);
    }
  }

  lemma {:induction false} CostsOfAuthorEdges(works: map<ID, Work>, authors: seq<ID>, workID: ID)
    ensures Costs(works, AuthorEdges(authors, workID)) == |authors|
  {
    if authors != [] {
      assert AuthorEdges(authors, workID)[1..] == AuthorEdges(authors[1..], workID);
      CostsOfAuthorEdges(works, authors[1..], workID);
    }
  }

  lemma {:induction false} CostsIgnoreEditions(a: map<ID, Work>, b: map<ID, Work>, edges: seq<Edge>)
    requires a.Keys == b.Keys && forall w :: w in a ==> a[w].authors == b[w].authors
    ensures Costs(a, edges) == Costs(b, edges)
  {
    if edges != [] { CostsIgnoreEditions(a, b, edges[1..]); }
  }

  lemma DeliverUsesBound(up: Upstream, s: State, i: nat, s': State)
    requires Step(up, s, Deliver(i), s')
    ensures Bound(s') < Bound(s)
  {
    var e, before, after := s.inFlight[i], s.inFlight[..i], s.inFlight[i + 1..];
    assert s.inFlight == before + ([e] + after);
    CostsOfConcat(s.works, before, [e] + after);
    CostsOfConcat(s.works, before, after);
    CostsOfConcat(s.works, [e], after);
    assert [e][1..] == [];
    assert Costs(s.works, [e]) == Cost(s.works, e);
    CostsOfEnqueued(s.works, s.queue, e);
  }

  lemma EditionsUseBound(up: Upstream, s: State, workID: ID, bookIDs: set<ID>, s': State)
    requires EditionsStep(up, s, workID, bookIDs, s')
    ensures Bound(s') < Bound(s) + Cost(s.works, Edge(WorkEdge, workID, bookIDs))
  {
    if bookIDs != {} && workID in s.works {
      var edited := EditionsOutcome(up, s, workID, bookIDs, s');
      EditedKeeps(up, s.works[workID], bookIDs, edited);
      if edited != s.works[workID] { AnnouncingCosts(s, workID, edited); }
    }
  }

  lemma AnnouncingCosts(s: State, workID: ID, edited: Work)
    requires workID in s.works && edited.authors == s.works[workID].authors
    ensures Bound(Announced(s, workID, edited)) == Bound(s) + 2 * |edited.authors|
  {
    var works', announced := s.works[workID := edited], AuthorEdges(edited.authors, workID);
    CostsIgnoreEditions(s.works, works', s.queue);
    CostsIgnoreEditions(s.works, works', s.inFlight + announced);
    CostsOfConcat(s.works, s.inFlight, announced);
    CostsOfAuthorEdges(s.works, edited.authors, workID);
  }

  /** Every step without outside input uses up some of the bound. */
  lemma StepUsesBound(up: Upstream, s: State, l: Label, s': State)
    requires Step(up, s, l, s') && (l.Deliver? || l.Process?)
    ensures Bound(s') < Bound(s)
  {
    if l.Deliver? {
      DeliverUsesBound(up, s, l.i, s');
    } else {
      var e, t := s.queue[0], s.(queue := s.queue[1..]);
      if e.kind == WorkEdge { EditionsUseBound(up, t, e.parentID, e.childIDs, s'); }
    }
  }

  /** Without outside input every run is over after at most `Bound` steps. */
  lemma {:induction false} PipelineTerminates(up: Upstream, states: seq<State>, labels: seq<Label>)
    requires Trace(up, states, labels)
    requires forall i :: 0 <= i < |labels| ==> labels[i].Deliver? || labels[i].Process?
    ensures |labels| + Bound(states[|labels|]) <= Bound(states[0])
  {
    if labels != [] {
      var n := |labels| - 1;
      PipelineTerminates(up, states[..n + 1], labels[..n]);
      StepUsesBound(up, states[n], labels[n], states[n + 1]);
    }
  }

  /** And a run can only be over when nothing is left to do. */
  lemma StuckIsQuiescent(up: Upstream, s: State)
    requires SortedState(s)
    ensures Quiescent(s) <==> forall l: Label, s': State :: l.Deliver? || l.Process? ==> !Step(up, s, l, s')
  {
    if s.inFlight != [] {
      assert Step(up, s, Deliver(0),
                  s.(inFlight := s.inFlight[..0] + s.inFlight[1..], queue := Enqueued(s.queue, s.inFlight[0])));
    } else if s.queue != [] {
      var s' := ProcessIsEnabled(up, s);
    }
  }

  lemma ProcessIsEnabled(up: Upstream, s: State) returns (s': State)
    requires SortedState(s) && s.queue != []
    ensures Step(up, s, Process, s')
  {
    var e, t := s.queue[0], s.(queue := s.queue[1..]);
    match e.kind {
      case WorkEdge => s' := EditionsAreEnabled(up, t, e.parentID, e.childIDs);
      case AuthorEdge => s' := WorksAreEnabled(up, t, e.parentID, e.childIDs);
      case RefreshDone => s' := t;
    }
  }

  lemma EditionsAreEnabled(up: Upstream, s: State, workID: ID, bookIDs: set<ID>) returns (s': State)
    requires SortedState(s)
    ensures EditionsStep(up, s, workID, bookIDs, s')
  {
    s' := s;
    if bookIDs != {} && workID in s.works {
      var sel := SomeSelection(FetchedBooks(up, bookIDs), BookID);
      var edited := s.works[workID].(books := Merge(s.works[workID].books, sel, BookID));
      assert IsEdited(up, s.works[workID], bookIDs, edited);
      if edited != s.works[workID] {
        s' := Announced(s, workID, edited);
      }
    }
  }

  lemma WorksAreEnabled(up: Upstream, s: State, authorID: ID, workIDs: set<ID>) returns (s': State)
    requires SortedState(s)
    ensures WorksStep(up, s, authorID, workIDs, s')
  {
    s' := s;
    if workIDs != {} && authorID in s.authors && !UnknownAuthor(authorID) {
      var batch := SomeSelection(FetchedWorks(s.works, workIDs), WorkID);
      var done := SomeDenormalized(up, s.authors[authorID], batch);
      s' := s.(authors := s.authors[authorID := done]);
    }
  }

  lemma SomeDenormalized(up: Upstream, author: Author, batch: map<ID, Work>) returns (done: Author)
    requires Sorted(author.works, WorkID) && Keyed(batch, WorkID)
    ensures IsDenormalized(up, author, batch, done)
  {
    var works := Merge(author.works, batch, WorkID);
    var series := SomeSelection(FetchedSeries(up, RequestedSeries(works)), SeriesID);
    var r := Ratings(works);
    done := author.(works := TitlePass(up, works), series := FromMap(series, SeriesID),
                    ratingCount := if r.0 != 0 then r.0 else author.ratingCount,
                    averageRating := if r.0 != 0 then r.1 as real / r.0 as real else author.averageRating);
  }

  lemma {:induction false} SomeSelection<T>(items: set<T>, id: T -> ID) returns (s: map<ID, T>)
    ensures Selects(s, items, id)
  {
    var xs := Enumerate(items);
    s := PutAllMergesASelection(map[], xs, id);
  }
}
