/**
 When copies are fresh at rest. The run may start in any state: with edges pending, with stale
 copies, and with works cached under several ids. What it comes to is stated in terms of that
 state and of the relationships pushed.
 */
module Rest {
  import opened SortedList
  import opened Resources
  import opened AuthorPass
  import opened Edges
  import opened Pipeline
  import opened Editing
  import opened Freshness
  import opened Histories

  // ---------------------------------------------------------------------------------------
  // What becomes of works and relationships
  // ---------------------------------------------------------------------------------------

  /** The work with the editions of `ts`. */
  ghost function Final(up: Upstream, s: State, ts: set<Triple>, w: ID): Work
    requires CoherentBooks(up) && SortedState(s) && w in s.works
  {
    Edited(up, s.works[w], EditionsIn(ts, w))
  }

  /** The author has an edge for the work, or gets one because the work changes. */
  ghost predicate Reached(up: Upstream, s: State, ts: set<Triple>, a: ID, w: ID)
    requires CoherentBooks(up) && SortedState(s)
  {
    || Triple(AuthorEdge, a, w) in ts
    || (w in s.works && a in s.works[w].authors && Final(up, s, ts, w) != s.works[w])
  }

  /** The relationship will be one that the pipeline maintains. */
  ghost predicate ToMaintain(up: Upstream, s: State, ts: set<Triple>, a: ID, w: ID)
    requires CoherentBooks(up) && SortedState(s)
  {
    && w in s.works && Final(up, s, ts, w).books != []
    && a in s.works[w].authors
    && a in s.authors && !UnknownAuthor(a)
  }

  /** One of the cached copies of the work reaches the author. */
  ghost predicate ReachedByAlias(up: Upstream, s: State, ts: set<Triple>, a: ID, w: ID)
    requires CoherentBooks(up) && SortedState(s)
  {
    exists v :: Alias(s.works, v, w) && Final(up, s, ts, v).books != [] && Reached(up, s, ts, a, v)
  }

  /**
   The condition for freshness at rest: of each work to be embedded by an author, some cached copy
   reaches the author and all of them come to agree, or else the author embeds it already.
   */
  ghost predicate StaysFresh(up: Upstream, s: State, ts: set<Triple>)
    requires CoherentBooks(up) && SortedState(s)
  {
    forall a, w :: ToMaintain(up, s, ts, a, w) ==>
      if ReachedByAlias(up, s, ts, a, w) then
        forall v :: ToMaintain(up, s, ts, a, v) && Alias(s.works, v, w) ==>
            SameUpToTitles(Final(up, s, ts, v), Final(up, s, ts, w))
      else
        Embeds(s.authors[a], s.works[w])
  }

  // ---------------------------------------------------------------------------------------
  // The invariant at rest
  // ---------------------------------------------------------------------------------------

  lemma AllEdited(s0: State, h: History, s: State, w: ID)
    requires EditionsRemembered(h, s) && h.edited <= h.pushed && Quiescent(s)
    ensures EditionsIn(h.edited, w) == EditionsIn(h.pushed, w)
  {
    forall c | c in EditionsIn(h.pushed, w)
      ensures c in EditionsIn(h.edited, w)
    {
      assert Triple(WorkEdge, w, c) in h.pushed;
      assert Triple(WorkEdge, w, c) in h.edited;
    }
  }

  /** A work at rest has the editions it started with and every edition ever pushed for it. */
  lemma RestingWork(up: Upstream, s0: State, h: History, s: State, w: ID)
    requires Invariant(up, s0, h, s) && Quiescent(s) && w in s0.works
    ensures w in s.works && s.works[w] == Final(up, s0, h.pushed, w)
    ensures s.works[w] == s0.works[w].(books := s.works[w].books)
  {
    AllEdited(s0, h, s, w);
    EditedKeepsIdentity(up, s0.works[w], EditionsIn(h.pushed, w));
  }

  lemma RestingAlias(up: Upstream, s0: State, h: History, s: State, v: ID, w: ID)
    requires Invariant(up, s0, h, s) && Quiescent(s)
    ensures Alias(s.works, v, w) <==> Alias(s0.works, v, w)
  {
    WorksKeepIDs(up, s0, h, s);
  }

  lemma InPlayIsReached(up: Upstream, s0: State, h: History, s: State, a: ID, w: ID)
    requires Invariant(up, s0, h, s) && Quiescent(s)
    ensures InPlay(s0, h.pushed, s.works, a, w) <==> Reached(up, s0, h.pushed, a, w)
  {
    if w in s0.works { RestingWork(up, s0, h, s, w); }
  }

  lemma MaintainedWas(up: Upstream, s0: State, h: History, s: State, a: ID, w: ID)
    requires Invariant(up, s0, h, s) && Quiescent(s)
    ensures Maintained(s, a, w) <==> ToMaintain(up, s0, h.pushed, a, w)
  {
    if w in s0.works { RestingWork(up, s0, h, s, w); }
  }

  /** What is in play at rest has gone into the author, under one of its ids. */
  lemma RestingPair(up: Upstream, s0: State, h: History, s: State, a: ID, w: ID) returns (v: ID)
    requires Invariant(up, s0, h, s) && Quiescent(s)
    requires a in s0.authors && !UnknownAuthor(a) && InPlay(s0, h.pushed, s.works, a, w)
    requires w in s.works && s.works[w].books != []
    ensures Alias(s.works, v, w) && s.works[v].books != []
    ensures InPlay(s0, h.pushed, s.works, a, v) && Holds(h, a, s.works[v])
  {
    assert WentIn(s0, h, s, a, w);
    v :| StandsFor(s0, h, s, a, w, v);
  }

  /** And every copy is one that is cached at rest. */
  lemma RestingCopy(up: Upstream, s0: State, h: History, s: State, a: ID, k: ID) returns (v: ID)
    requires Invariant(up, s0, h, s) && Quiescent(s)
    requires a in h.copies && k in h.copies[a]
    ensures v in s.works && s.works[v].foreignID == k && s.works[v].books != []
    ensures InPlay(s0, h.pushed, s.works, a, v) && h.copies[a][k] == s.works[v]
  {
    var w :| IsCopy(up, s0, h, s, a, k, h.copies[a][k], w);
    VersionNotEmptier(up, s0.works[w], EditionsIn(h.edited, w), h.copies[a][k]);
    v := RestingPair(up, s0, h, s, a, w);
  }

  // ---------------------------------------------------------------------------------------
  // What an author embeds at rest
  // ---------------------------------------------------------------------------------------

  lemma EmbedsMerged(base: seq<Work>, copies: map<ID, Work>, author: Author, x: Work)
    requires Sorted(base, WorkID) && Keyed(copies, WorkID) && Follows(author.works, Merge(base, copies, WorkID))
    ensures x.foreignID in copies ==> (Embeds(author, x) <==> SameUpToTitles(copies[x.foreignID], x))
    ensures x.foreignID !in copies ==>
              (Embeds(author, x) <==> exists j :: 0 <= j < |base| && SameUpToTitles(base[j], x))
  {
    var merged := Merge(base, copies, WorkID);
    if Embeds(author, x) {
      var i :| 0 <= i < |author.works| && SameUpToTitles(author.works[i], x);
      assert SameUpToTitles(merged[i], x);
      assert StripTitles(merged[i]).foreignID == StripTitles(x).foreignID;
      var j := MergedAt(base, copies, i);
    }
    if x.foreignID in copies && SameUpToTitles(copies[x.foreignID], x) {
      var i := MapAt(merged, WorkID, x.foreignID);
      assert SameUpToTitles(author.works[i], x);
    }
    if j :| x.foreignID !in copies && 0 <= j < |base| && SameUpToTitles(base[j], x) {
      assert StripTitles(base[j]).foreignID == StripTitles(x).foreignID;
      var i := MergeKeepsPlaces(base, copies, j);
      assert SameUpToTitles(author.works[i], x);
    }
  }

  /** The author embeds the copy that went into it, or what it embedded at the start. */
  lemma EmbedsAtRest(up: Upstream, s0: State, h: History, s: State, a: ID, x: Work)
    requires Invariant(up, s0, h, s) && a in s0.authors
    ensures a in s.authors
    ensures if a in h.copies && x.foreignID in h.copies[a]
            then Embeds(s.authors[a], x) <==> SameUpToTitles(h.copies[a][x.foreignID], x)
            else Embeds(s.authors[a], x) <==> Embeds(s0.authors[a], x)
  {
    assert AuthorFollows(s0.authors[a], h.copies, a, s.authors[a]);
    if a in h.copies {
      EmbedsMerged(s0.authors[a].works, h.copies[a], s.authors[a], x);
    }
  }

  lemma AuthorStaysSorted(up: Upstream, s0: State, h: History, s: State, a: ID)
    requires Invariant(up, s0, h, s) && a in s0.authors
    ensures a in s.authors && Sorted(s.authors[a].works, WorkID)
  {
    assert AuthorFollows(s0.authors[a], h.copies, a, s.authors[a]);
    if a in h.copies {
      FollowsIsSorted(s.authors[a].works, Merge(s0.authors[a].works, h.copies[a], WorkID));
    }
  }

  /** A work none of whose copies reached the author is as it was. */
  lemma Unreached(up: Upstream, s0: State, h: History, s: State, a: ID, w: ID)
    requires Invariant(up, s0, h, s) && Quiescent(s) && ToMaintain(up, s0, h.pushed, a, w)
    requires !ReachedByAlias(up, s0, h.pushed, a, w)
    ensures w in s.works && s.works[w] == s0.works[w]
    ensures a in h.copies ==> s.works[w].foreignID !in h.copies[a]
  {
    RestingWork(up, s0, h, s, w);
    assert Alias(s0.works, w, w);
    var k := s.works[w].foreignID;
    if a in h.copies && k in h.copies[a] {
      var v := RestingCopy(up, s0, h, s, a, k);
      InPlayIsReached(up, s0, h, s, a, v);
      RestingWork(up, s0, h, s, v);
      RestingAlias(up, s0, h, s, v, w);
    }
  }

  /** A work that reached the author is embedded under one of its ids. */
  lemma ReachedIsEmbedded(up: Upstream, s0: State, h: History, s: State, a: ID, w: ID) returns (v: ID)
    requires Invariant(up, s0, h, s) && Quiescent(s) && ToMaintain(up, s0, h.pushed, a, w)
    requires ReachedByAlias(up, s0, h.pushed, a, w)
    ensures ToMaintain(up, s0, h.pushed, a, v) && Alias(s0.works, v, w)
    ensures a in s.authors && v in s.works && Embeds(s.authors[a], s.works[v])
  {
    var u :| Alias(s0.works, u, w) && Final(up, s0, h.pushed, u).books != [] && Reached(up, s0, h.pushed, a, u);
    InPlayIsReached(up, s0, h, s, a, u);
    RestingWork(up, s0, h, s, u);
    v := RestingPair(up, s0, h, s, a, u);
    RestingAlias(up, s0, h, s, v, u);
    RestingWork(up, s0, h, s, v);
    InPlayIsAttributed(up, s0, h, s, a, v);
    EmbedsAtRest(up, s0, h, s, a, s.works[v]);
  }

  lemma EmbeddedIffSame(author: Author, x: Work, y: Work)
    requires Sorted(author.works, WorkID) && Embeds(author, x) && x.foreignID == y.foreignID
    ensures Embeds(author, y) <==> SameUpToTitles(x, y)
  {
    if Embeds(author, y) { OneCopy(author, x, y); }
    if SameUpToTitles(x, y) { EmbedsAnother(author, x, y); }
  }

  // ---------------------------------------------------------------------------------------
  // The exact conditions
  // ---------------------------------------------------------------------------------------

  /** One relationship: the class of a work under all its ids. */
  lemma PairsFreshIff(up: Upstream, s0: State, h: History, s: State, a: ID, w: ID)
    requires Invariant(up, s0, h, s) && Quiescent(s) && ToMaintain(up, s0, h.pushed, a, w)
    ensures a in s.authors && w in s.works
    ensures !ReachedByAlias(up, s0, h.pushed, a, w) ==>
              (Embeds(s.authors[a], s.works[w]) <==> Embeds(s0.authors[a], s0.works[w]))
    ensures ReachedByAlias(up, s0, h.pushed, a, w) ==>
              exists v :: ToMaintain(up, s0, h.pushed, a, v) && Alias(s0.works, v, w)
                && v in s.works && Embeds(s.authors[a], s.works[v])
                && (Embeds(s.authors[a], s.works[w]) <==> SameUpToTitles(s.works[v], s.works[w]))
  {
    RestingWork(up, s0, h, s, w);
    if ReachedByAlias(up, s0, h.pushed, a, w) {
      var v := ReachedIsEmbedded(up, s0, h, s, a, w);
      AuthorStaysSorted(up, s0, h, s, a);
      RestingAlias(up, s0, h, s, v, w);
      EmbeddedIffSame(s.authors[a], s.works[v], s.works[w]);
    } else {
      Unreached(up, s0, h, s, a, w);
      EmbedsAtRest(up, s0, h, s, a, s.works[w]);
    }
  }

  lemma FreshImplies(up: Upstream, s0: State, h: History, s: State, a: ID, w: ID)
    requires Invariant(up, s0, h, s) && Quiescent(s) && ToMaintain(up, s0, h.pushed, a, w)
    requires Fresh(s)
    ensures !ReachedByAlias(up, s0, h.pushed, a, w) ==> Embeds(s0.authors[a], s0.works[w])
    ensures forall v :: ToMaintain(up, s0, h.pushed, a, v) && Alias(s0.works, v, w) ==>
              SameUpToTitles(Final(up, s0, h.pushed, v), Final(up, s0, h.pushed, w))
  {
    MaintainedWas(up, s0, h, s, a, w);
    PairsFreshIff(up, s0, h, s, a, w);
    assert FreshOrPending(s, a, w);
    RestingWork(up, s0, h, s, w);
    AuthorStaysSorted(up, s0, h, s, a);
    forall v | ToMaintain(up, s0, h.pushed, a, v) && Alias(s0.works, v, w)
      ensures SameUpToTitles(Final(up, s0, h.pushed, v), Final(up, s0, h.pushed, w))
    {
      MaintainedWas(up, s0, h, s, a, v);
      assert FreshOrPending(s, a, v);
      RestingWork(up, s0, h, s, v);
      OneCopy(s.authors[a], s.works[v], s.works[w]);
    }
  }

  lemma FreshIsImplied(up: Upstream, s0: State, h: History, s: State, a: ID, w: ID)
    requires Invariant(up, s0, h, s) && Quiescent(s) && Maintained(s, a, w)
    requires StaysFresh(up, s0, h.pushed)
    ensures Embeds(s.authors[a], s.works[w])
  {
    MaintainedWas(up, s0, h, s, a, w);
    PairsFreshIff(up, s0, h, s, a, w);
    if ReachedByAlias(up, s0, h.pushed, a, w) {
      var v :| ToMaintain(up, s0, h.pushed, a, v) && Alias(s0.works, v, w)
                && v in s.works && Embeds(s.authors[a], s.works[v])
                && (Embeds(s.authors[a], s.works[w]) <==> SameUpToTitles(s.works[v], s.works[w]));
      RestingWork(up, s0, h, s, v);
      RestingWork(up, s0, h, s, w);
    }
  }

  lemma InvariantFreshIff(up: Upstream, s0: State, h: History, s: State)
    requires Invariant(up, s0, h, s) && Quiescent(s)
    ensures Fresh(s) <==> StaysFresh(up, s0, h.pushed)
  {
    if Fresh(s) {
      forall a, w | ToMaintain(up, s0, h.pushed, a, w) {
        FreshImplies(up, s0, h, s, a, w);
      }
    }
    if StaysFresh(up, s0, h.pushed) {
      forall a, w | Maintained(s, a, w) {
        FreshIsImplied(up, s0, h, s, a, w);
      }
    }
  }

  lemma RestKeepsInvariant(up: Upstream, s: State, ts: set<Triple>, states: seq<State>, labels: seq<Label>)
    returns (h: History)
    requires CoherentBooks(up) && SortedState(s) && Attributed(s.works, Pending(s))
    requires RestsAfter(up, s, ts, states, labels)
    ensures Invariant(up, s, h, states[|labels|]) && h.pushed == Pending(s) + ts
  {
    h := RunHolds(up, states, labels, |labels|);
    assert labels[..|labels|] == labels;
  }

  /** From any state: the copies are fresh at rest if and only if the state and the relationships pushed say so. */
  lemma FreshAtRestIff(up: Upstream, s: State, ts: set<Triple>, states: seq<State>, labels: seq<Label>)
    requires CoherentBooks(up) && SortedState(s) && Attributed(s.works, Pending(s))
    requires RestsAfter(up, s, ts, states, labels)
    ensures Fresh(states[|labels|]) <==> StaysFresh(up, s, Pending(s) + ts)
  {
    var h := RestKeepsInvariant(up, s, ts, states, labels);
    InvariantFreshIff(up, s, h, states[|labels|]);
  }

  /** The cached copies of each work that an author is to embed come to agree. */
  ghost predicate AliasesComeToAgree(up: Upstream, s: State, ts: set<Triple>)
    requires CoherentBooks(up) && SortedState(s)
  {
    forall a, v, w :: ToMaintain(up, s, ts, a, v) && ToMaintain(up, s, ts, a, w) && Alias(s.works, v, w) ==>
      SameUpToTitles(Final(up, s, ts, v), Final(up, s, ts, w))
  }

  lemma AliasesAgreeAt(up: Upstream, s0: State, h: History, s: State, a: ID, v: ID, w: ID)
    requires Invariant(up, s0, h, s) && Quiescent(s)
    ensures (Maintained(s, a, v) && Maintained(s, a, w) && Alias(s.works, v, w)) <==>
            (ToMaintain(up, s0, h.pushed, a, v) && ToMaintain(up, s0, h.pushed, a, w) && Alias(s0.works, v, w))
    ensures Alias(s0.works, v, w) ==>
              v in s.works && w in s.works && s.works[v] == Final(up, s0, h.pushed, v)
                && s.works[w] == Final(up, s0, h.pushed, w)
  {
    MaintainedWas(up, s0, h, s, a, v);
    MaintainedWas(up, s0, h, s, a, w);
    RestingAlias(up, s0, h, s, v, w);
    if Alias(s0.works, v, w) {
      RestingWork(up, s0, h, s, v);
      RestingWork(up, s0, h, s, w);
    }
  }

  lemma AliasesAgreeIff(up: Upstream, s0: State, h: History, s: State)
    requires Invariant(up, s0, h, s) && Quiescent(s)
    ensures AliasesAgree(s) <==> AliasesComeToAgree(up, s0, h.pushed)
  {
    if AliasesAgree(s) {
      forall a, v, w | ToMaintain(up, s0, h.pushed, a, v) && ToMaintain(up, s0, h.pushed, a, w) && Alias(s0.works, v, w)
        ensures SameUpToTitles(Final(up, s0, h.pushed, v), Final(up, s0, h.pushed, w))
      {
        AliasesAgreeAt(up, s0, h, s, a, v, w);
      }
    }
    if AliasesComeToAgree(up, s0, h.pushed) {
      forall a, v, w | Maintained(s, a, v) && Maintained(s, a, w) && Alias(s.works, v, w)
        ensures SameUpToTitles(s.works[v], s.works[w])
      {
        AliasesAgreeAt(up, s0, h, s, a, v, w);
      }
    }
  }

  /** From a state in which all copies are fresh or about to be: exactly if cached copies of one work come to agree. */
  lemma FreshStateAtRestIff(up: Upstream, s: State, ts: set<Triple>, states: seq<State>, labels: seq<Label>)
    requires CoherentBooks(up) && FreshState(s) && RestsAfter(up, s, ts, states, labels)
    ensures Fresh(states[|labels|]) <==> AliasesComeToAgree(up, s, Pending(s) + ts)
  {
    var h := RestKeepsInvariant(up, s, ts, states, labels);
    AliasesAgreeIff(up, s, h, states[|labels|]);
    WorksStayAttributed(up, states, labels);
    CopiesAgreeAtRestIff(up, states, labels);
  }

  /** Authors of works do not change, so attributed edges stay attributed. */
  lemma WorksStayAttributed(up: Upstream, states: seq<State>, labels: seq<Label>)
    requires CoherentBooks(up) && Trace(up, states, labels) && SortedState(states[0])
             && Attributed(states[0].works, Pending(states[0]))
    requires Admissible(states[0], labels)
    ensures forall i :: 0 <= i < |labels| ==> WellFed(states[i], labels[i], states[i + 1])
  {
    forall i | 0 <= i < |labels|
      ensures WellFed(states[i], labels[i], states[i + 1])
    {
      if labels[i].External? {
        var h := RunHolds(up, states, labels, i);
        WorksKeepIDs(up, states[0], h, states[i]);
      }
    }
  }

  /** The cached works at rest, whatever the order of events. */
  lemma WorksAtRest(up: Upstream, s: State, ts: set<Triple>, states: seq<State>, labels: seq<Label>)
    requires CoherentBooks(up) && SortedState(s) && Attributed(s.works, Pending(s))
    requires RestsAfter(up, s, ts, states, labels)
    ensures states[|labels|].works.Keys == s.works.Keys
    ensures forall w :: w in s.works ==> states[|labels|].works[w] == Final(up, s, Pending(s) + ts, w)
  {
    var h := RestKeepsInvariant(up, s, ts, states, labels);
    forall w | w in s.works {
      RestingWork(up, s, h, states[|labels|], w);
    }
  }

  /** For a work cached under one id: it is fresh exactly if the author is reached or embeds it already. */
  lemma AloneAtRestIff(up: Upstream, s: State, ts: set<Triple>, states: seq<State>, labels: seq<Label>, a: ID, w: ID)
    requires CoherentBooks(up) && SortedState(s) && Attributed(s.works, Pending(s))
    requires RestsAfter(up, s, ts, states, labels)
    requires Alone(s.works, w) && ToMaintain(up, s, Pending(s) + ts, a, w)
    ensures a in states[|labels|].authors && w in states[|labels|].works
    ensures Embeds(states[|labels|].authors[a], states[|labels|].works[w]) <==>
            Reached(up, s, Pending(s) + ts, a, w) || Embeds(s.authors[a], s.works[w])
  {
    var h := RestKeepsInvariant(up, s, ts, states, labels);
    assert Alias(s.works, w, w);
    PairsFreshIff(up, s, h, states[|labels|], a, w);
    assert ReachedByAlias(up, s, h.pushed, a, w) <==> Reached(up, s, h.pushed, a, w);
  }

  // ---------------------------------------------------------------------------------------
  // Runs with loads
  // ---------------------------------------------------------------------------------------

  /** In any run, from the state after its last load on: that state and what is pushed later decide. */
  lemma FreshAfterLoadsIff(up: Upstream, states: seq<State>, labels: seq<Label>, j: nat)
    requires CoherentBooks(up) && Trace(up, states, labels) && j <= |labels| && Quiescent(states[|labels|])
    requires SortedState(states[0]) && forall i :: 0 <= i < |labels| && labels[i].Load? ==>
               Sorted(labels[i].loaded.books, BookID)
    requires Attributed(states[j].works, Pending(states[j])) && Admissible(states[j], labels[j..])
    ensures SortedState(states[j])
    ensures Fresh(states[|labels|]) <==> StaysFresh(up, states[j], Pending(states[j]) + Pushed(labels[j..]))
  {
    RunKeepsSorted(up, states, labels);
    RestOfTrace(up, states, labels, j);
    FreshAtRestIff(up, states[j], Pushed(labels[j..]), states[j..], labels[j..]);
  }

  lemma RestOfTrace(up: Upstream, states: seq<State>, labels: seq<Label>, j: nat)
    requires Trace(up, states, labels) && j <= |labels|
    ensures Trace(up, states[j..], labels[j..])
  {
    forall i | 0 <= i < |labels[j..]|
      ensures Step(up, states[j..][i], labels[j..][i], states[j..][i + 1])
    {
      assert Step(up, states[j + i], labels[j + i], states[j + i + 1]);
    }
  }

  /** The load is sound: its editions are sorted and the author it announces is one of the work's. */
  ghost predicate SoundLoad(s: State, l: Label) {
    l.Load? && Sorted(l.loaded.books, BookID) && (l.authorID > 0 ==> l.authorID in l.loaded.authors)
    && forall a :: Triple(AuthorEdge, a, l.workID) in Pending(s) ==> a in l.loaded.authors
  }

  lemma SoundLoadIsAttributed(up: Upstream, s: State, l: Label, s': State)
    requires SoundLoad(s, l) && Step(up, s, l, s') && Attributed(s.works, Pending(s))
    ensures Attributed(s'.works, Pending(s'))
  {
    LoadKeepsPending(up, s, l, s');
  }

  /** The editions that go into a loaded work: those pending or pushed, and those kept from before. */
  ghost function ToLoad(up: Upstream, s: State, ts: set<Triple>, w: ID): set<ID> {
    EditionsIn(Pending(s) + ts, w) + KeptBooks(up, s.works, w)
  }

  lemma EditionsAfterLoad(up: Upstream, s: State, l: Label, s': State, ts: set<Triple>)
    requires l.Load? && Step(up, s, l, s')
    ensures EditionsIn(Pending(s') + ts, l.workID) == ToLoad(up, s, ts, l.workID)
  {
    LoadKeepsPending(up, s, l, s');
    forall c | c in ToLoad(up, s, ts, l.workID)
      ensures c in EditionsIn(Pending(s') + ts, l.workID)
    {
      assert Triple(WorkEdge, l.workID, c) in Pending(s') + ts;
    }
    forall c | c in EditionsIn(Pending(s') + ts, l.workID)
      ensures c in ToLoad(up, s, ts, l.workID)
    {
      assert Triple(WorkEdge, l.workID, c) in Pending(s') + ts;
      assert Triple(WorkEdge, l.workID, c) in Pending(s) + ts || c in KeptBooks(up, s.works, l.workID);
    }
  }

  /**
   A loaded work, in any run: after its load and whatever follows until all is at rest, an author
   embeds the cached copy if and only if the load named the author, or an edge for it was pending
   or is pushed, or pending, pushed or kept editions change the loaded work and so announce it, or
   the author embeds the loaded content already.
   */
  lemma LoadedAtRestIff(up: Upstream, s: State, l: Label, s': State, ts: set<Triple>, states: seq<State>,
                        labels: seq<Label>, a: ID)
    requires CoherentBooks(up) && SortedState(s) && Attributed(s.works, Pending(s))
    requires SoundLoad(s, l) && Step(up, s, l, s') && RestsAfter(up, s', ts, states, labels)
    requires Alone(s'.works, l.workID) && Edited(up, l.loaded, ToLoad(up, s, ts, l.workID)).books != []
    requires a in s.authors && !UnknownAuthor(a) && a in l.loaded.authors
    ensures var end := states[|labels|];
            && a in end.authors && l.workID in end.works
            && end.works[l.workID] == Edited(up, l.loaded, ToLoad(up, s, ts, l.workID))
            && (Embeds(end.authors[a], end.works[l.workID]) <==>
                 || (a == l.authorID && l.authorID > 0)
                 || Triple(AuthorEdge, a, l.workID) in Pending(s) + ts
                 || Edited(up, l.loaded, ToLoad(up, s, ts, l.workID)) != l.loaded
                 || Embeds(s.authors[a], l.loaded))
  {
    StepKeepsSorted(up, s, l, s');
    SoundLoadIsAttributed(up, s, l, s');
    EditionsAfterLoad(up, s, l, s', ts);
    LoadKeepsPending(up, s, l, s');
    WorksAtRest(up, s', ts, states, labels);
    AloneAtRestIff(up, s', ts, states, labels, a, l.workID);
  }
}
