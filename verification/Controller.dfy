/**
 The controller: cached works and authors, the merging buffer in front of its one consumer,
 and the goroutines that are still sending edges. The methods `Send`, `Receive`, `Dispatch` and
 `LoadWork` each perform one step of the pipeline's state machine; the others are parts of them.
 */
module Controller {
  import opened Collections
  import opened Options
  import opened SortedList
  import opened Resources
  import opened Edges
  import opened EdgeBuffer
  import opened AuthorPass
  import opened Pipeline
  import opened Denormalize
  import opened Editions

  /** The keys of a set, in no particular order. */
  method CollectKeys(s: set<ID>) returns (keys: seq<ID>)
    ensures Elements(keys) == s
  {
    keys := [];
    var todo := s;
    while todo != {}
      invariant todo <= s && Elements(keys) == s - todo
      decreases todo
    {
      var k :| k in todo;
      todo := todo - {k};
      assert Elements(keys + [k]) == Elements(keys) + {k};
      keys := keys + [k];
    }
  }

  /** The edges being sent, as references and as values. */
  ghost predicate Sends(sends: seq<SharedEdge>, sending: seq<Edge>, sets: set<IDSet>)
    reads sets
  {
    && |sends| == |sending|
    && forall i :: 0 <= i < |sends| ==> sends[i].childIDs in sets && sends[i].Value() == sending[i]
  }

  lemma SendsWithout(sends: seq<SharedEdge>, sending: seq<Edge>, sets: set<IDSet>, i: nat)
    requires Sends(sends, sending, sets) && i < |sends|
    ensures Sends(sends[..i] + sends[i + 1..], sending[..i] + sending[i + 1..], sets)
  {
  }

  /** Upserted editions make a step of the pipeline. */
  lemma EditedMakesStep(up: Upstream, s: State, workID: ID, bookIDs: set<ID>, edited: Work)
    requires SortedState(s) && bookIDs != {} && workID in s.works && IsEdited(up, s.works[workID], bookIDs, edited)
    ensures var s' := if edited == s.works[workID] then s else Announced(s, workID, edited);
            EditionsStep(up, s, workID, bookIDs, s') && SortedState(s')
  {
    EditedKeeps(up, s.works[workID], bookIDs, edited);
    AnnouncedIsSorted(s, workID, edited);
  }

  /** And so does a denormalized author. */
  lemma DenormalizedMakesStep(up: Upstream, s: State, authorID: ID, workIDs: set<ID>, batch: map<ID, Work>,
                              done: Author)
    requires SortedState(s) && workIDs != {} && authorID in s.authors && !UnknownAuthor(authorID)
    requires Selects(batch, FetchedWorks(s.works, workIDs), WorkID)
    requires IsDenormalized(up, s.authors[authorID], batch, done)
    ensures WorksStep(up, s, authorID, workIDs, s.(authors := s.authors[authorID := done]))
    ensures SortedState(s.(authors := s.authors[authorID := done]))
  {
    WorksKeepSorted(up, s, authorID, workIDs, s.(authors := s.authors[authorID := done]));
  }

  lemma DeliveryMakesStep(up: Upstream, s: State, i: nat, s': State)
    requires SortedState(s) && i < |s.inFlight|
    requires s' == s.(inFlight := s.inFlight[..i] + s.inFlight[i + 1..], queue := Enqueued(s.queue, s.inFlight[i]))
    ensures Step(up, s, Deliver(i), s') && SortedState(s')
  {
  }

  lemma LoadMakesStep(up: Upstream, s: State, workID: ID, loaded: Work, authorID: ID, s': State)
    requires SortedState(s) && Sorted(loaded.books, BookID)
    requires s' ==
               s.(works := s.works[workID := loaded], inFlight := s.inFlight + LoadEdges(up, s.works, workID, authorID))
    ensures Step(up, s, Load(workID, loaded, authorID), s') && SortedState(s')
  {
  }

  class Controller {
    const up: Upstream
    const buf: EdgeBuf
    var works: map<ID, Work>
    var authors: map<ID, Author>
    var sends: seq<SharedEdge>
    /** The edges being sent, as values, and the child sets behind them. */
    ghost var sending: seq<Edge>
    ghost var sets: set<IDSet>

    ghost function Snapshot(): State
      reads this`works, this`authors, this`sending, buf`contents
    {
      State(works, authors, buf.contents, sending)
    }

    ghost predicate Valid()
      reads this, buf, buf.cells, buf.sets, sets
    {
      && Holding()
      && SortedState(Snapshot())
    }

    ghost predicate Holding()
      reads this`sends, this`sending, this`sets, buf, buf.cells, buf.sets, sets
    {
      buf.Valid() && Sends(sends, sending, sets)
    }

    constructor (up: Upstream, works: map<ID, Work>, authors: map<ID, Author>)
      requires SortedState(State(works, authors, [], []))
      ensures Valid() && fresh(buf) && fresh(buf.cells)
      ensures Snapshot() == State(works, authors, [], []) && this.up == up
    {
      this.up := up;
      this.works, this.authors, this.sends, this.sending, this.sets := works, authors, [], [], {};
      this.buf := new EdgeBuf();
    }

    /** An edge with freshly made children joins those being sent. */
    method StartSending(kind: EdgeKind, parentID: ID, ids: seq<ID>)
      requires Holding()
      modifies this`sends, this`sending, this`sets
      ensures Holding() && sending == old(sending) + [Edge(kind, parentID, Elements(ids))]
    {
      var children := NewSet(ids);
      sends := sends + [SharedEdge(kind, parentID, children)];
      sending := sending + [Edge(kind, parentID, Elements(ids))];
      sets := sets + {children};
    }

    /** A goroutine starts sending an edge. */
    method Send(kind: EdgeKind, parentID: ID, ids: seq<ID>)
      requires Holding()
      modifies this`sends, this`sending, this`sets
      ensures Holding() && sending == old(sending) + [Edge(kind, parentID, Elements(ids))]
      ensures Step(up, old(Snapshot()), External(Edge(kind, parentID, Elements(ids))), Snapshot())
    {
      StartSending(kind, parentID, ids);
    }

    /** The receiver of a channel takes an edge. */
    method Take(i: nat) returns (e: SharedEdge)
      requires Holding() && i < |sends|
      modifies this`sends, this`sending
      ensures Holding() && e == old(sends[i]) && e.Value() == old(sending[i]) && e.childIDs in sets
      ensures sending == old(sending[..i] + sending[i + 1..])
    {
      SendsWithout(sends, sending, sets, i);
      e := sends[i];
      sends := sends[..i] + sends[i + 1..];
      sending := sending[..i] + sending[i + 1..];
    }

    /** It goes into the buffer. */
    method PassOn(i: nat)
      requires Holding() && i < |sends|
      modifies this`sends, this`sending, buf, buf.cells
      ensures Holding() && fresh(buf.cells - old(buf.cells))
      ensures sending == old(sending[..i] + sending[i + 1..])
      ensures buf.contents == Enqueued(old(buf.contents), old(sending[i]))
    {
      var e := Take(i);
      buf.Push(e);
    }

    /** The buffer receives one of the edges being sent. */
    method Receive(i: nat)
      requires Valid() && i < |sends|
      modifies this`sends, this`sending, buf, buf.cells
      ensures Valid() && fresh(buf.cells - old(buf.cells))
      ensures Step(up, old(Snapshot()), Deliver(i), Snapshot())
    {
      ghost var s := Snapshot();
      PassOn(i);
      DeliveryMakesStep(up, s, i, Snapshot());
    }

    method TakeNext() returns (e: SharedEdge)
      requires Valid() && buf.queue != []
      modifies buf
      ensures Valid() && old(buf.contents) != [] && e.Value() == old(buf.contents[0])
      ensures Snapshot() == old(Snapshot()).(queue := old(buf.contents)[1..])
    {
      e := buf.Pop();
    }

    /** One round of the consumer: take the next edge and denormalize it. */
    method Dispatch()
      requires Valid() && buf.queue != []
      modifies this`works, this`authors, this`sends, this`sending, this`sets, buf
      ensures Valid()
      ensures Step(up, old(Snapshot()), Process, Snapshot())
    {
      var e := TakeNext();
      var keys := CollectKeys(e.childIDs.elems);
      match e.kind {
        case AuthorEdge =>
          if !UnknownAuthor(e.parentID) {
            DenormalizeWorks(e.parentID, keys);
          }
        case WorkEdge =>
          DenormalizeEditions(e.parentID, keys);
        case RefreshDone =>
          // Only the persisted refresh is forgotten.
      }
    }

    /** Ensure that the given editions exist on the work. */
    method DenormalizeEditions(workID: ID, bookIDs: seq<ID>)
      requires Valid()
      modifies this`works, this`sends, this`sending, this`sets
      ensures Valid()
      ensures EditionsStep(up, old(Snapshot()), workID, Elements(bookIDs), Snapshot())
      ensures works.Keys == old(works).Keys
      ensures workID in works ==> forall c :: c in bookIDs && up.book(c).Some? && |up.book(c).value.books| == 1 ==>
                Lists(works[workID].books, up.book(c).value.books[0].foreignID)
    {
      if |bookIDs| == 0 {
        return;
      }
      assert bookIDs[0] in Elements(bookIDs);
      if workID !in works {
        return;
      }
      var work := works[workID];
      var edited := UpsertEditions(up, work, bookIDs);
      EditedMakesStep(up, Snapshot(), workID, Elements(bookIDs), edited);
      StoreEdited(workID, edited);
    }

    /** Write a work back and announce it, unless nothing changed. */
    method StoreEdited(workID: ID, edited: Work)
      requires Holding() && workID in works
      modifies this`works, this`sends, this`sending, this`sets
      ensures Holding()
      ensures Snapshot() ==
                if edited == old(works[workID]) then old(Snapshot()) else Announced(old(Snapshot()), workID, edited)
    {
      if edited == works[workID] {
        return;
      }
      works := works[workID := edited];
      Announce(edited.authors, workID);
    }

    /** The work changed, so its authors need to be updated too. */
    method Announce(authorIDs: seq<ID>, workID: ID)
      requires Holding()
      modifies this`sends, this`sending, this`sets
      ensures Holding()
      ensures Snapshot() == old(Snapshot()).(inFlight := old(sending) + AuthorEdges(authorIDs, workID))
    {
      for i := 0 to |authorIDs|
        invariant Holding()
        invariant sending == old(sending) + AuthorEdges(authorIDs[..i], workID)
      {
        StartSending(AuthorEdge, authorIDs[i], [workID]);
        AuthorEdgesNext(authorIDs, i, workID);
      }
      assert authorIDs[..|authorIDs|] == authorIDs;
    }

    lemma AuthorEdgesNext(authorIDs: seq<ID>, i: nat, workID: ID)
      requires i < |authorIDs|
      ensures AuthorEdges(authorIDs[..i + 1], workID) ==
              AuthorEdges(authorIDs[..i], workID) + [Edge(AuthorEdge, authorIDs[i], Elements([workID]))]
    {
      assert Elements([workID]) == {workID};
    }

    /** Ensure that the given works exist on the author. */
    method DenormalizeWorks(authorID: ID, workIDs: seq<ID>)
      requires Valid()
      modifies this`authors
      ensures Valid()
      ensures WorksStep(up, old(Snapshot()), authorID, Elements(workIDs), Snapshot())
    {
      if |workIDs| == 0 {
        return;
      }
      assert workIDs[0] in Elements(workIDs);
      if UnknownAuthor(authorID) || authorID !in authors {
        return;
      }
      DenormalizeLoaded(authorID, workIDs);
    }

    /** The same, once the author has been loaded. */
    method DenormalizeLoaded(authorID: ID, workIDs: seq<ID>)
      requires Valid() && Elements(workIDs) != {} && authorID in authors && !UnknownAuthor(authorID)
      modifies this`authors
      ensures SortedState(Snapshot())
      ensures WorksStep(up, old(Snapshot()), authorID, Elements(workIDs), Snapshot())
    {
      ghost var s := Snapshot();
      var done;
      ghost var batch;
      done, batch := DenormalizeAuthor(up, authors[authorID], works, workIDs);
      DenormalizedMakesStep(up, s, authorID, Elements(workIDs), batch, done);
      StoreDone(authorID, done);
    }

    /** Write an author back, unless nothing changed. */
    method StoreDone(authorID: ID, done: Author)
      requires authorID in authors
      modifies this`authors
      ensures authors == old(authors)[authorID := done]
    {
      StoringTheSame(authors, authorID);
      if done != authors[authorID] {
        authors := authors[authorID := done];
      }
    }

    /**
     A work that was missing from the cache, or had expired, is fetched: it replaces what was
     cached, the editions cached before that can still be loaded are to be put back, and its
     author is to be updated.
     */
    method LoadWork(workID: ID, loaded: Work, authorID: ID)
      requires Valid() && Sorted(loaded.books, BookID)
      modifies this`works, this`sends, this`sending, this`sets
      ensures Valid()
      ensures Step(up, old(Snapshot()), Load(workID, loaded, authorID), Snapshot())
      ensures works == old(works)[workID := loaded]
      ensures var n := old(|sending|);
              && |sending| == n + (if authorID > 0 then 2 else 1) && sending[..n] == old(sending)
              && sending[n].kind == WorkEdge && sending[n].parentID == workID
              && (forall id :: id in sending[n].childIDs <==>
                    workID in old(works) && Lists(old(works)[workID].books, id) && up.book(id).Some?)
              && (authorID > 0 ==> sending[n + 1] == Edge(AuthorEdge, authorID, {workID}))
    {
      ghost var s := Snapshot();
      var kept := Reloadable(workID);
      works := works[workID := loaded];
      KeptBooksAre(up, s.works, workID);
      AnnounceLoad(workID, kept, authorID, s.works);
      LoadMakesStep(up, s, workID, loaded, authorID, Snapshot());
    }

    /** The work is new, so its editions and its author need to be updated. */
    method AnnounceLoad(workID: ID, kept: seq<ID>, authorID: ID, ghost before: map<ID, Work>)
      requires Holding() && Elements(kept) == KeptBooks(up, before, workID)
      modifies this`sends, this`sending, this`sets
      ensures Holding() && sending == old(sending) + LoadEdges(up, before, workID, authorID)
    {
      StartSending(WorkEdge, workID, kept);
      if authorID > 0 {
        StartSending(AuthorEdge, authorID, [workID]);
        assert Elements([workID]) == {workID};
      }
    }

    /** The editions of the cached work that can still be loaded. */
    method Reloadable(workID: ID) returns (kept: seq<ID>)
      ensures Elements(kept) == KeptBooks(up, works, workID)
      ensures forall id :: id in kept <==> workID in works && Lists(works[workID].books, id) && up.book(id).Some?
    {
      kept := [];
      if workID in works {
        var books := works[workID].books;
        for i := 0 to |books|
          invariant Elements(kept) == set k | 0 <= k < i && up.book(books[k].foreignID).Some? :: books[k].foreignID
        {
          if up.book(books[i].foreignID).Some? {
            assert Elements(kept + [books[i].foreignID]) == Elements(kept) + {books[i].foreignID};
            kept := kept + [books[i].foreignID];
          }
        }
      }
      KeptBooksAre(up, works, workID);
      assert forall id :: id in kept <==> id in Elements(kept);
    }
  }
}
