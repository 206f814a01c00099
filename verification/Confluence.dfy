/**
 When runs that denormalize authors agree, exactly. Nothing is supposed of the content: works may
 be cached under several ids, may lack short titles, and series may be looked up inconsistently.
 Runs that push the same author edges agree if and only if, for every author, two batches of works
 one after the other always come to what they come to at once.
 */
module Confluence {
  import opened Collections
  import opened SortedList
  import opened Resources
  import opened AuthorPass
  import opened Absorption
  import opened Edges
  import opened Pipeline
  import opened Freshness
  import opened Histories
  import opened Runs

  /** The author after the works `ids` were denormalized into it, in some order of the ids. */
  ghost predicate Denormalizes(up: Upstream, works: map<ID, Work>, author: Author, ids: set<ID>, done: Author) {
    exists batch: map<ID, Work> ::
      Selects(batch, FetchedWorks(works, ids), WorkID) && IsDenormalized(up, author, batch, done)
  }

  /** Works of the author, as far as they are cached. */
  ghost predicate OwnWorks(s: State, a: ID, ids: set<ID>) {
    forall w :: w in ids && w in s.works ==> a in s.works[w].authors
  }

  /** Two batches of an author's works, one after the other and at once. */
  ghost predicate TwoWays(up: Upstream, s: State, a: ID, ids1: set<ID>, ids2: set<ID>, x: Author, y: Author,
                          z: Author) {
    && a in s.authors && !UnknownAuthor(a) && ids1 != {} && ids2 != {}
    && OwnWorks(s, a, ids1) && OwnWorks(s, a, ids2)
    && Denormalizes(up, s.works, s.authors[a], ids1, x)
    && Denormalizes(up, s.works, x, ids2, y)
    && Denormalizes(up, s.works, s.authors[a], ids1 + ids2, z)
  }

  ghost predicate BatchesCommute(up: Upstream, s: State) {
    forall a, ids1, ids2, x, y, z :: TwoWays(up, s, a, ids1, ids2, x, y, z) ==> y == z
  }

  ghost predicate OnlyAuthors(ts: set<Triple>) {
    forall t :: t in ts ==> t.kind != WorkEdge
  }

  ghost predicate RunsAgree(up: Upstream, s: State) {
    forall ts, states1, labels1, states2, labels2 ::
      OnlyAuthors(ts) && RestsAfter(up, s, ts, states1, labels1) && RestsAfter(up, s, ts, states2, labels2) ==>
      states1[|labels1|] == states2[|labels2|]
  }

  // ---------------------------------------------------------------------------------------
  // If batches commute, runs agree
  // ---------------------------------------------------------------------------------------

  ghost function ChildrenOf(ts: set<Triple>, a: ID): set<ID> {
    set t | t in ts && t.kind == AuthorEdge && t.parentID == a :: t.childID
  }

  /** An author so far: denormalized with everything done for it. */
  ghost predicate AuthorSoFar(up: Upstream, s0: State, a: ID, ids: set<ID>, author: Author)
    requires a in s0.authors
  {
    if UnknownAuthor(a) || ids == {} then author == s0.authors[a]
    else Denormalizes(up, s0.works, s0.authors[a], ids, author)
  }

  ghost predicate SoFar(up: Upstream, s0: State, done: set<Triple>, s: State) {
    && s.works == s0.works && s.authors.Keys == s0.authors.Keys && SortedState(s)
    && OnlyAuthors(done) && OnlyAuthors(Pending(s))
    && Attributed(s0.works, done) && Attributed(s0.works, Pending(s))
    && forall a :: a in s0.authors ==> AuthorSoFar(up, s0, a, ChildrenOf(done, a), s.authors[a])
  }

  lemma DenormalizedIsPossible(up: Upstream, works: map<ID, Work>, author: Author, ids: set<ID>) returns (done: Author)
    requires Sorted(author.works, WorkID)
    ensures Denormalizes(up, works, author, ids, done) && Sorted(done.works, WorkID)
  {
    var batch := SomeSelection(FetchedWorks(works, ids), WorkID);
    done := SomeDenormalized(up, author, batch);
    DenormalizedKeeps(up, author, batch, done);
  }

  lemma DenormalizedIsSorted(up: Upstream, works: map<ID, Work>, author: Author, ids: set<ID>, done: Author)
    requires Denormalizes(up, works, author, ids, done)
    ensures Sorted(done.works, WorkID)
  {
    var batch: map<ID, Work> :|
        Selects(batch, FetchedWorks(works, ids), WorkID) && IsDenormalized(up, author, batch, done);
    DenormalizedKeeps(up, author, batch, done);
  }

  /** What is done at once in two ways has one outcome. */
  lemma OneOutcome(up: Upstream, s: State, a: ID, ids: set<ID>, y: Author, z: Author)
    requires SortedState(s) && BatchesCommute(up, s) && a in s.authors && !UnknownAuthor(a) && ids != {}
             && OwnWorks(s, a, ids)
    requires Denormalizes(up, s.works, s.authors[a], ids, y) && Denormalizes(up, s.works, s.authors[a], ids, z)
    ensures y == z
  {
    DenormalizedIsSorted(up, s.works, s.authors[a], ids, y);
    var again := DenormalizedIsPossible(up, s.works, y, ids);
    UnionOfSubset(ids, ids);
    assert TwoWays(up, s, a, ids, ids, y, again, y);
    assert TwoWays(up, s, a, ids, ids, y, again, z);
  }

  /** A further batch is a batch more. */
  lemma FurtherBatch(up: Upstream, s: State, a: ID, before: set<ID>, ids: set<ID>, x: Author, y: Author)
    requires SortedState(s) && BatchesCommute(up, s) && a in s.authors && !UnknownAuthor(a) && before != {} && ids != {}
    requires OwnWorks(s, a, before) && OwnWorks(s, a, ids)
    requires Denormalizes(up, s.works, s.authors[a], before, x) && Denormalizes(up, s.works, x, ids, y)
    ensures Denormalizes(up, s.works, s.authors[a], before + ids, y)
  {
    var z := DenormalizedIsPossible(up, s.works, s.authors[a], before + ids);
    assert TwoWays(up, s, a, before, ids, x, y, z);
  }

  lemma ChildrenOfMore(ts: set<Triple>, b: ID, ids: set<ID>, a: ID)
    ensures ChildrenOf(ts + Triples([Edge(AuthorEdge, b, ids)]), a) ==
            if a == b then ChildrenOf(ts, a) + ids else ChildrenOf(ts, a)
  {
    var more := Triples([Edge(AuthorEdge, b, ids)]);
    TriplesOfEdge(Edge(AuthorEdge, b, ids));
    forall c | c in ids && a == b
      ensures c in ChildrenOf(ts + more, a)
    {
      assert Triple(AuthorEdge, b, c) in more;
    }
  }

  lemma ChildrenAreOwn(s0: State, ts: set<Triple>, a: ID)
    requires Attributed(s0.works, ts)
    ensures OwnWorks(s0, a, ChildrenOf(ts, a))
  {
  }

  lemma AuthorGoesOn(up: Upstream, s0: State, done: set<Triple>, s: State, a: ID, ids: set<ID>, author: Author)
    requires SortedState(s0) && BatchesCommute(up, s0) && SoFar(up, s0, done, s)
    requires a in s0.authors && !UnknownAuthor(a) && ids != {} && OwnWorks(s0, a, ids)
    requires Denormalizes(up, s0.works, s.authors[a], ids, author)
    ensures AuthorSoFar(up, s0, a, ChildrenOf(done, a) + ids, author)
  {
    var before := ChildrenOf(done, a);
    assert AuthorSoFar(up, s0, a, before, s.authors[a]);
    ChildrenAreOwn(s0, done, a);
    if before == {} {
      EmptyUnion(ids);
    } else {
      FurtherBatch(up, s0, a, before, ids, s.authors[a], author);
    }
  }

  lemma OwnEdge(s0: State, s: State, a: ID, ids: set<ID>)
    requires s.works == s0.works && Attributed(s0.works, Pending(s))
             && Triples([Edge(AuthorEdge, a, ids)]) <= Pending(s)
    ensures OwnWorks(s0, a, ids)
  {
    TriplesOfEdge(Edge(AuthorEdge, a, ids));
    forall u | u in ids && u in s0.works
      ensures a in s0.works[u].authors
    {
      assert Triple(AuthorEdge, a, u) in Pending(s);
    }
  }

  /** What one author edge does for its author. */
  lemma AuthorAfterEdge(up: Upstream, s0: State, done: set<Triple>, s: State, t: State, a: ID, ids: set<ID>, s': State)
    requires SortedState(s0) && BatchesCommute(up, s0) && SoFar(up, s0, done, s) && OwnWorks(s0, a, ids)
             && a in s0.authors
    requires t.works == s.works && t.authors == s.authors && WorksStep(up, t, a, ids, s')
    ensures a in s'.authors && AuthorSoFar(up, s0, a, ChildrenOf(done, a) + ids, s'.authors[a])
  {
    assert AuthorSoFar(up, s0, a, ChildrenOf(done, a), s.authors[a]);
    if ids != {} && !UnknownAuthor(a) {
      var batch, d := WorksOutcome(up, t, a, ids, s');
      AuthorGoesOn(up, s0, done, s, a, ids, d);
    } else if ids == {} {
      EmptyUnion(ChildrenOf(done, a));
    }
  }

  /** It does nothing for others. */
  lemma OtherAuthorsAfterEdge(up: Upstream, t: State, a: ID, ids: set<ID>, s': State, b: ID)
    requires WorksStep(up, t, a, ids, s') && b in t.authors && b != a
    ensures b in s'.authors && s'.authors[b] == t.authors[b]
  {
    if ids != {} && a in t.authors && !UnknownAuthor(a) {
      var batch, d := WorksOutcome(up, t, a, ids, s');
    }
  }

  /** Processing an author edge. */
  lemma AuthorEdgeSoFar(up: Upstream, s0: State, done: set<Triple>, s: State, t: State, a: ID, ids: set<ID>, s': State)
    requires SortedState(s0) && BatchesCommute(up, s0) && SoFar(up, s0, done, s)
    requires t.works == s.works && t.authors == s.authors && WorksStep(up, t, a, ids, s')
             && s'.authors.Keys == s.authors.Keys
    requires s'.works == s.works && Pending(s') == Pending(t)
    requires Pending(s) == Triples([Edge(AuthorEdge, a, ids)]) + Pending(t) && SortedState(s')
    ensures SoFar(up, s0, done + Triples([Edge(AuthorEdge, a, ids)]), s')
  {
    var e := Edge(AuthorEdge, a, ids);
    TriplesOfEdge(e);
    OwnEdge(s0, s, a, ids);
    forall b | b in s0.authors
      ensures AuthorSoFar(up, s0, b, ChildrenOf(done + Triples([e]), b), s'.authors[b])
    {
      ChildrenOfMore(done, a, ids, b);
      if b == a {
        AuthorAfterEdge(up, s0, done, s, t, a, ids, s');
      } else {
        assert AuthorSoFar(up, s0, b, ChildrenOf(done, b), s.authors[b]);
        OtherAuthorsAfterEdge(up, t, a, ids, s', b);
      }
    }
  }

  lemma WorksStepKeeps(up: Upstream, t: State, a: ID, ids: set<ID>, s': State)
    requires WorksStep(up, t, a, ids, s')
    ensures s'.works == t.works && s'.authors.Keys == t.authors.Keys && Pending(s') == Pending(t)
  {
    if ids != {} && a in t.authors && !UnknownAuthor(a) {
      var batch, d := WorksOutcome(up, t, a, ids, s');
    }
  }

  /** Any other edge has no children, so nothing happens. */
  lemma OtherEdgeSoFar(up: Upstream, s0: State, done: set<Triple>, s: State, e: Edge, s': State)
    requires SoFar(up, s0, done, s) && e.kind != AuthorEdge && s'.works == s.works && s'.authors == s.authors
    requires Pending(s) == Triples([e]) + Pending(s')
    ensures SoFar(up, s0, done + Triples([e]), s')
  {
    TriplesOfEdge(e);
    forall a | a in s0.authors
      ensures AuthorSoFar(up, s0, a, ChildrenOf(done + Triples([e]), a), s'.authors[a])
    {
      assert ChildrenOf(done + Triples([e]), a) == ChildrenOf(done, a);
    }
  }

  lemma NoChildren(e: Edge)
    requires OnlyAuthors(Triples([e])) && e.kind == WorkEdge
    ensures e.childIDs == {}
  {
    TriplesOfEdge(e);
    forall c: ID
      ensures c !in e.childIDs
    {
      assert c in e.childIDs ==> Triple(WorkEdge, e.parentID, c) in Triples([e]);
    }
  }

  lemma ProcessSoFar(up: Upstream, s0: State, done: set<Triple>, s: State, s': State)
    requires SortedState(s0) && BatchesCommute(up, s0) && SoFar(up, s0, done, s) && Step(up, s, Process, s')
    ensures SoFar(up, s0, done + Triples([s.queue[0]]), s')
    ensures Pending(s) == Triples([s.queue[0]]) + Pending(s')
  {
    var e, t := s.queue[0], s.(queue := s.queue[1..]);
    PendingOfHead(s);
    TriplesOfEdge(e);
    StepKeepsSorted(up, s, Process, s');
    match e.kind {
      case AuthorEdge =>
        WorksStepKeeps(up, t, e.parentID, e.childIDs, s');
        AuthorEdgeSoFar(up, s0, done, s, t, e.parentID, e.childIDs, s');
      case WorkEdge =>
        NoChildren(e);
        OtherEdgeSoFar(up, s0, done, s, e, s');
      case RefreshDone =>
        OtherEdgeSoFar(up, s0, done, s, e, s');
    }
  }

  lemma StepSoFar(up: Upstream, s0: State, done: set<Triple>, s: State, l: Label, s': State)
    returns (done': set<Triple>)
    requires SortedState(s0) && BatchesCommute(up, s0) && SoFar(up, s0, done, s) && Step(up, s, l, s') && !l.Load?
    requires l.External? ==> Attributed(s0.works, Triples([l.e])) && OnlyAuthors(Triples([l.e]))
    ensures SoFar(up, s0, done', s')
    ensures done' + Pending(s') == done + Pending(s) + if l.External? then Triples([l.e]) else {}
  {
    done' := done;
    match l
    case External(e) =>
      TriplesOfConcat(s.inFlight, [e]);
    case Deliver(i) =>
      DeliverKeepsPending(up, s, i, s');
    case Process =>
      done' := done + Triples([s.queue[0]]);
      ProcessSoFar(up, s0, done, s, s');
  }

  lemma {:induction false} RunSoFar(up: Upstream, states: seq<State>, labels: seq<Label>, n: nat)
    returns (done: set<Triple>)
    requires n <= |labels| && Trace(up, states, labels) && Admissible(states[0], labels)
    requires SortedState(states[0]) && Quiescent(states[0]) && BatchesCommute(up, states[0])
    requires OnlyAuthors(Pushed(labels[..n]))
    ensures SoFar(up, states[0], done, states[n]) && done + Pending(states[n]) == Pushed(labels[..n])
  {
    if n == 0 {
      done := {};
    } else {
      PushedNext(labels, n - 1);
      var before := RunSoFar(up, states, labels, n - 1);
      done := StepSoFar(up, states[0], before, states[n - 1], labels[n - 1], states[n]);
    }
  }

  lemma RestSoFar(up: Upstream, s: State, ts: set<Triple>, states: seq<State>, labels: seq<Label>)
    requires SortedState(s) && Quiescent(s) && BatchesCommute(up, s) && OnlyAuthors(ts)
             && RestsAfter(up, s, ts, states, labels)
    ensures SoFar(up, s, ts, states[|labels|])
  {
    assert labels[..|labels|] == labels;
    var done := RunSoFar(up, states, labels, |labels|);
    assert done == ts;
  }

  lemma SameAuthors(x: map<ID, Author>, y: map<ID, Author>)
    requires x.Keys == y.Keys && forall a :: a in x ==> x[a] == y[a]
    ensures x == y
  {
  }

  lemma CommutingRunsAgree(up: Upstream, s: State, ts: set<Triple>,
                           states1: seq<State>, labels1: seq<Label>, states2: seq<State>, labels2: seq<Label>)
    requires SortedState(s) && Quiescent(s) && BatchesCommute(up, s) && OnlyAuthors(ts)
    requires RestsAfter(up, s, ts, states1, labels1) && RestsAfter(up, s, ts, states2, labels2)
    ensures states1[|labels1|] == states2[|labels2|]
  {
    RestSoFar(up, s, ts, states1, labels1);
    RestSoFar(up, s, ts, states2, labels2);
    var s1, s2 := states1[|labels1|], states2[|labels2|];
    forall a | a in s.authors
      ensures s1.authors[a] == s2.authors[a]
    {
      var ids := ChildrenOf(ts, a);
      assert AuthorSoFar(up, s, a, ids, s1.authors[a]) && AuthorSoFar(up, s, a, ids, s2.authors[a]);
      if !UnknownAuthor(a) && ids != {} {
        ChildrenAreOwn(s, ts, a);
        OneOutcome(up, s, a, ids, s1.authors[a], s2.authors[a]);
      }
    }
    SameAuthors(s1.authors, s2.authors);
  }

  // ---------------------------------------------------------------------------------------
  // If runs agree, batches commute
  // ---------------------------------------------------------------------------------------

  ghost function WithAuthor(s: State, a: ID, author: Author): State {
    s.(authors := s.authors[a := author])
  }

  lemma DenormalizeStep(up: Upstream, s: State, a: ID, ids: set<ID>, done: Author)
    requires s.queue == [Edge(AuthorEdge, a, ids)]
    requires a in s.authors && !UnknownAuthor(a) && ids != {} && Denormalizes(up, s.works, s.authors[a], ids, done)
    ensures Step(up, s, Process, s.(queue := [], authors := s.authors[a := done]))
  {
    var t := s.(queue := s.queue[1..]);
    var batch: map<ID, Work> :|
        Selects(batch, FetchedWorks(s.works, ids), WorkID) && IsDenormalized(up, s.authors[a], batch, done);
    assert WorksStep(up, t, a, ids, t.(authors := t.authors[a := done]));
  }

  lemma OwnIsAttributed(s: State, a: ID, ids: set<ID>)
    requires OwnWorks(s, a, ids)
    ensures Attributed(s.works, Triples([Edge(AuthorEdge, a, ids)]))
  {
    TriplesOfEdge(Edge(AuthorEdge, a, ids));
  }

  /** An edge that is pushed at rest and processed right away, before a run goes on. */
  lemma PushAndProcess(up: Upstream, s0: State, s: State, a: ID, ids: set<ID>, x: Author, ts: set<Triple>, end: State)
    requires s.works == s0.works && Quiescent(s) && a in s.authors && !UnknownAuthor(a) && ids != {}
             && OwnWorks(s, a, ids)
    requires Denormalizes(up, s.works, s.authors[a], ids, x) && Leads(up, s0, WithAuthor(s, a, x), ts, end)
    ensures Leads(up, s0, s, Triples([Edge(AuthorEdge, a, ids)]) + ts, end)
  {
    var e := Edge(AuthorEdge, a, ids);
    var queued := s.(queue := [e]);
    DenormalizeStep(up, queued, a, ids, x);
    WorkLeadsOn(up, s0, queued, Process, WithAuthor(s, a, x), ts, end);
    OwnIsAttributed(s, a, ids);
    PushLeads(up, s0, s, e, ts, end);
  }

  /** One batch after the other. */
  lemma Apart(up: Upstream, s: State, a: ID, ids1: set<ID>, ids2: set<ID>, x: Author, y: Author, z: Author)
    requires Quiescent(s) && TwoWays(up, s, a, ids1, ids2, x, y, z)
    ensures Leads(up, s, s, Triples([Edge(AuthorEdge, a, ids1)]) + Triples([Edge(AuthorEdge, a, ids2)]),
                  WithAuthor(s, a, y))
  {
    var between, end, ts := WithAuthor(s, a, x), WithAuthor(s, a, y), Triples([Edge(AuthorEdge, a, ids2)]);
    Overwritten(s, a, x, y);
    LeadsNowhere(up, s, end);
    PushAndProcess(up, s, between, a, ids2, y, {}, end);
    EmptyUnion(ts);
    PushAndProcess(up, s, s, a, ids1, x, ts, end);
  }

  lemma Overwritten(s: State, a: ID, x: Author, y: Author)
    ensures WithAuthor(WithAuthor(s, a, x), a, y) == WithAuthor(s, a, y)
  {
  }

  /** Both batches in one merged edge. */
  lemma AtOnce(up: Upstream, s: State, a: ID, ids1: set<ID>, ids2: set<ID>, x: Author, y: Author, z: Author)
    requires Quiescent(s) && TwoWays(up, s, a, ids1, ids2, x, y, z)
    ensures Leads(up, s, s, Triples([Edge(AuthorEdge, a, ids1)]) + Triples([Edge(AuthorEdge, a, ids2)]),
                  WithAuthor(s, a, z))
  {
    var e1, e2, end := Edge(AuthorEdge, a, ids1), Edge(AuthorEdge, a, ids2), WithAuthor(s, a, z);
    var queued, merged := s.(queue := [e1]), s.(queue := [Edge(AuthorEdge, a, ids1 + ids2)]);
    LeadsNowhere(up, s, end);
    DenormalizeStep(up, merged, a, ids1 + ids2, z);
    WorkLeadsOn(up, s, merged, Process, end, {}, end);
    MergedInQueue(a, ids1, ids2);
    OwnIsAttributed(s, a, ids2);
    PushLeads(up, s, queued, e2, {}, end);
    EmptyUnion(Triples([e2]));
    OwnIsAttributed(s, a, ids1);
    PushLeads(up, s, s, e1, Triples([e2]), end);
  }

  lemma MergedInQueue(a: ID, ids1: set<ID>, ids2: set<ID>)
    ensures Enqueued([], Edge(AuthorEdge, a, ids1)) == [Edge(AuthorEdge, a, ids1)]
    ensures Enqueued([Edge(AuthorEdge, a, ids1)], Edge(AuthorEdge, a, ids2)) == [Edge(AuthorEdge, a, ids1 + ids2)]
  {
  }

  /** Both ways are runs that push the same relationships and come to rest. */
  lemma TwoRuns(up: Upstream, s: State, a: ID, ids1: set<ID>, ids2: set<ID>, x: Author, y: Author, z: Author)
    returns (ts: set<Triple>, states1: seq<State>, labels1: seq<Label>, states2: seq<State>, labels2: seq<Label>)
    requires Quiescent(s) && TwoWays(up, s, a, ids1, ids2, x, y, z)
    ensures OnlyAuthors(ts) && RestsAfter(up, s, ts, states1, labels1) && RestsAfter(up, s, ts, states2, labels2)
    ensures states1[|labels1|] == WithAuthor(s, a, y) && states2[|labels2|] == WithAuthor(s, a, z)
  {
    ts := Triples([Edge(AuthorEdge, a, ids1)]) + Triples([Edge(AuthorEdge, a, ids2)]);
    Apart(up, s, a, ids1, ids2, x, y, z);
    states1, labels1 := LeadsToRest(up, s, ts, WithAuthor(s, a, y));
    AtOnce(up, s, a, ids1, ids2, x, y, z);
    states2, labels2 := LeadsToRest(up, s, ts, WithAuthor(s, a, z));
    TriplesOfEdge(Edge(AuthorEdge, a, ids1));
    TriplesOfEdge(Edge(AuthorEdge, a, ids2));
  }

  /**
   Serializability of author edges, exactly: from a state at rest, all runs that push the same
   author edges come to the same rest, whatever the edges, if and only if batches commute.
   */
  lemma RunsAgreeIff(up: Upstream, s: State)
    requires SortedState(s) && Quiescent(s)
    ensures RunsAgree(up, s) <==> BatchesCommute(up, s)
  {
    if BatchesCommute(up, s) {
      forall ts, states1, labels1, states2, labels2 |
        OnlyAuthors(ts) && RestsAfter(up, s, ts, states1, labels1) && RestsAfter(up, s, ts, states2, labels2)
      {
        CommutingRunsAgree(up, s, ts, states1, labels1, states2, labels2);
      }
    }
    if RunsAgree(up, s) {
      forall a, ids1, ids2, x, y, z | TwoWays(up, s, a, ids1, ids2, x, y, z)
        ensures y == z
      {
        var ts, states1, labels1, states2, labels2 := TwoRuns(up, s, a, ids1, ids2, x, y, z);
        assert WithAuthor(s, a, y).authors[a] == WithAuthor(s, a, z).authors[a];
      }
    }
  }

  // ---------------------------------------------------------------------------------------
  // When batches commute
  // ---------------------------------------------------------------------------------------

  /** Cached copies of one work are equal. */
  ghost predicate AliasesEqual(works: map<ID, Work>) {
    forall v, w :: Alias(works, v, w) ==> works[v] == works[w]
  }

  lemma FetchedHaveUniqueIds(works: map<ID, Work>, ids: set<ID>)
    requires AliasesEqual(works)
    ensures UniqueIds(FetchedWorks(works, ids), WorkID)
  {
    forall x, y | x in FetchedWorks(works, ids) && y in FetchedWorks(works, ids) && WorkID(x) == WorkID(y)
      ensures x == y
    {
      var v :| v in ids && v in works && works[v].books != [] && works[v] == x;
      var w :| w in ids && w in works && works[w].books != [] && works[w] == y;
      assert Alias(works, v, w);
    }
  }

  /** The one batch of works that the ids fetch. */
  ghost function Batch(works: map<ID, Work>, ids: set<ID>): (batch: map<ID, Work>)
    requires AliasesEqual(works)
    ensures Keyed(batch, WorkID)
  {
    FetchedHaveUniqueIds(works, ids);
    Index(FetchedWorks(works, ids), WorkID)
  }

  lemma DenormalizesIsWithBatch(up: Upstream, works: map<ID, Work>, author: Author, ids: set<ID>, done: Author)
    requires AliasesEqual(works)
    ensures Denormalizes(up, works, author, ids, done) <==> IsDenormalized(up, author, Batch(works, ids), done)
  {
    FetchedHaveUniqueIds(works, ids);
    if batch: map<ID, Work> :|
      Selects(batch, FetchedWorks(works, ids), WorkID) && IsDenormalized(up, author, batch, done) {
      SelectionIsIndex(batch, FetchedWorks(works, ids), WorkID);
    }
  }

  lemma BatchOfBoth(works: map<ID, Work>, ids1: set<ID>, ids2: set<ID>)
    requires AliasesEqual(works)
    ensures Batch(works, ids1 + ids2) == Batch(works, ids1) + Batch(works, ids2)
  {
    FetchedHaveUniqueIds(works, ids1 + ids2);
    FetchedOfBoth(works, ids1, ids2);
    IndexOfUnion(FetchedWorks(works, ids1), FetchedWorks(works, ids2), WorkID);
  }

  lemma FetchedOfBoth(works: map<ID, Work>, ids1: set<ID>, ids2: set<ID>)
    ensures FetchedWorks(works, ids1 + ids2) == FetchedWorks(works, ids1) + FetchedWorks(works, ids2)
  {
  }

  /** Two batches of an author's works neither clash in titles nor lose a rating. */
  ghost predicate Harmless(up: Upstream, s: State, a: ID, ids1: set<ID>, ids2: set<ID>)
    requires AliasesEqual(s.works) && a in s.authors && Sorted(s.authors[a].works, WorkID)
  {
    HarmlessBatches(up, s.authors[a], Batch(s.works, ids1), Batch(s.works, ids2))
  }

  lemma HarmlessIff(up: Upstream, s: State, a: ID, ids1: set<ID>, ids2: set<ID>, x: Author, y: Author, z: Author)
    requires AliasesEqual(s.works) && CoherentSeries(up) && SortedState(s) && TwoWays(up, s, a, ids1, ids2, x, y, z)
    ensures y == z <==> Harmless(up, s, a, ids1, ids2)
  {
    var m1, m2 := Batch(s.works, ids1), Batch(s.works, ids2);
    DenormalizesIsWithBatch(up, s.works, s.authors[a], ids1, x);
    DenormalizesIsWithBatch(up, s.works, x, ids2, y);
    DenormalizesIsWithBatch(up, s.works, s.authors[a], ids1 + ids2, z);
    BatchOfBoth(s.works, ids1, ids2);
    DenormalizingTwiceIff(up, s.authors[a], m1, m2, x, y);
    if IsDenormalized(up, s.authors[a], m1 + m2, y) {
      DenormalizedIsUnique(up, s.authors[a], m1 + m2, y, z);
    }
  }

  /** Any two batches that an author may get are harmless. */
  ghost predicate AllHarmless(up: Upstream, s: State)
    requires AliasesEqual(s.works) && SortedState(s)
  {
    forall a, ids1, ids2 ::
      (a in s.authors && !UnknownAuthor(a) && ids1 != {} && ids2 != {} && OwnWorks(s, a, ids1)
       && OwnWorks(s, a, ids2)) ==>
      Harmless(up, s, a, ids1, ids2)
  }

  lemma SomeTwoWays(up: Upstream, s: State, a: ID, ids1: set<ID>, ids2: set<ID>)
    returns (x: Author, y: Author, z: Author)
    requires SortedState(s) && a in s.authors && !UnknownAuthor(a) && ids1 != {} && ids2 != {}
    requires OwnWorks(s, a, ids1) && OwnWorks(s, a, ids2)
    ensures TwoWays(up, s, a, ids1, ids2, x, y, z)
  {
    x := DenormalizedIsPossible(up, s.works, s.authors[a], ids1);
    y := DenormalizedIsPossible(up, s.works, x, ids2);
    z := DenormalizedIsPossible(up, s.works, s.authors[a], ids1 + ids2);
  }

  lemma BatchesCommuteIff(up: Upstream, s: State)
    requires AliasesEqual(s.works) && CoherentSeries(up) && SortedState(s)
    ensures BatchesCommute(up, s) <==> AllHarmless(up, s)
  {
    if BatchesCommute(up, s) {
      forall a, ids1, ids2 |
        (a in s.authors && !UnknownAuthor(a) && ids1 != {} && ids2 != {} && OwnWorks(s, a, ids1)
         && OwnWorks(s, a, ids2))
        ensures Harmless(up, s, a, ids1, ids2)
      {
        var x, y, z := SomeTwoWays(up, s, a, ids1, ids2);
        HarmlessIff(up, s, a, ids1, ids2, x, y, z);
      }
    }
    if AllHarmless(up, s) {
      forall a, ids1, ids2, x, y, z | TwoWays(up, s, a, ids1, ids2, x, y, z)
        ensures y == z
      {
        HarmlessIff(up, s, a, ids1, ids2, x, y, z);
      }
    }
  }

  /**
   With equal copies and coherent series, all runs that push the same author edges agree if and
   only if no two batches of an author's works clash in titles or lose a rating.
   */
  lemma RunsAgreeIffHarmless(up: Upstream, s: State)
    requires AliasesEqual(s.works) && CoherentSeries(up) && SortedState(s) && Quiescent(s)
    ensures RunsAgree(up, s) <==> AllHarmless(up, s)
  {
    RunsAgreeIff(up, s);
    BatchesCommuteIff(up, s);
  }

  /** A request for two copies of one work may be answered with either. */
  lemma EitherIsFetched(works: map<ID, Work>, v: ID, w: ID) returns (ids: set<ID>, m1: map<ID, Work>, m2: map<ID, Work>)
    requires Alias(works, v, w) && works[v].books != [] && works[w].books != []
    ensures ids != {} && forall u :: u in ids ==> u == v || u == w
    ensures Selects(m1, FetchedWorks(works, ids), WorkID) && Selects(m2, FetchedWorks(works, ids), WorkID)
    ensures works[v].foreignID in m1 && m1[works[v].foreignID] == works[v]
    ensures works[w].foreignID in m2 && m2[works[w].foreignID] == works[w]
  {
    ids := {v, w};
    m1, m2 := map[works[v].foreignID := works[v]], map[works[v].foreignID := works[w]];
    var fetched := FetchedWorks(works, ids);
    assert works[v] in fetched && works[w] in fetched;
    assert forall x :: x in fetched ==> x == works[v] || x == works[w];
  }

  lemma CommutingNeedsAgreement(up: Upstream, s: State, a: ID, ids: set<ID>, m1: map<ID, Work>, m2: map<ID, Work>,
                                x: Work, y: Work)
    requires SortedState(s) && BatchesCommute(up, s) && a in s.authors && !UnknownAuthor(a) && ids != {}
             && OwnWorks(s, a, ids)
    requires Selects(m1, FetchedWorks(s.works, ids), WorkID) && Selects(m2, FetchedWorks(s.works, ids), WorkID)
    requires x.foreignID == y.foreignID && x.foreignID in m1 && y.foreignID in m2 && m1[x.foreignID] == x
             && m2[y.foreignID] == y
    ensures SameUpToTitles(x, y)
  {
    var d := DenormalizedWith(up, s.works, s.authors[a], ids, m1, x);
    var e := DenormalizedWith(up, s.works, s.authors[a], ids, m2, y);
    OneOutcome(up, s, a, ids, d, e);
    DenormalizedIsSorted(up, s.works, s.authors[a], ids, d);
    OneCopy(d, x, y);
  }

  /** And copies have to agree: runs do not, if one work is cached with different content for one author. */
  lemma AgreeingRunsNeedAgreeingCopies(up: Upstream, s: State, a: ID, v: ID, w: ID)
    requires SortedState(s) && Quiescent(s) && RunsAgree(up, s)
    requires Maintained(s, a, v) && Maintained(s, a, w) && Alias(s.works, v, w)
    ensures SameUpToTitles(s.works[v], s.works[w])
  {
    RunsAgreeIff(up, s);
    var ids, m1, m2 := EitherIsFetched(s.works, v, w);
    CommutingNeedsAgreement(up, s, a, ids, m1, m2, s.works[v], s.works[w]);
  }

  lemma DenormalizedWith(up: Upstream, works: map<ID, Work>, author: Author, ids: set<ID>, batch: map<ID, Work>,
                         w: Work)
    returns (done: Author)
    requires Sorted(author.works, WorkID) && Selects(batch, FetchedWorks(works, ids), WorkID)
    requires w.foreignID in batch && batch[w.foreignID] == w
    ensures Denormalizes(up, works, author, ids, done) && Embeds(done, w)
  {
    done := SomeDenormalized(up, author, batch);
    DenormalizedEmbeds(up, author, batch, done, w);
  }
}
