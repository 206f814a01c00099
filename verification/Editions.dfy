/**
 Which editions a work comes to have, in terms of the lookups themselves. A lookup by one id may yield
 an edition with another id, its own: that is the id under which the edition is listed.
 */
module Editions {
  import opened Options
  import opened SortedList
  import opened Resources
  import opened AuthorPass
  import opened Edges
  import opened Pipeline
  import opened Editing
  import opened Freshness
  import opened Histories

  // ---------------------------------------------------------------------------------------
  // One upsert of editions
  // ---------------------------------------------------------------------------------------

  ghost predicate Lists(books: seq<Book>, id: ID) {
    exists i :: 0 <= i < |books| && books[i].foreignID == id
  }

  lemma {:induction false} ListsIff(books: seq<Book>, id: ID)
    ensures Lists(books, id) <==> id in ToMap(books, BookID)
  {
    if id in ToMap(books, BookID) { var i := MapAt(books, BookID, id); }
    if i :| 0 <= i < |books| && books[i].foreignID == id { HasKey(books, i); }
  }

  lemma {:induction false} HasKey(books: seq<Book>, i: nat)
    requires i < |books|
    ensures books[i].foreignID in ToMap(books, BookID)
  {
    if i < |books| - 1 { HasKey(books[..|books| - 1], i); }
  }

  /** The outcome, as a selection of what the lookups yield. */
  lemma EditedSelection(up: Upstream, work: Work, ids: set<ID>, edited: Work) returns (m: map<ID, Book>)
    requires IsEdited(up, work, ids, edited)
    ensures Sorted(work.books, BookID) && Sorted(edited.books, BookID)
    ensures Selects(m, FetchedBooks(up, ids), BookID) && ToMap(edited.books, BookID) == ToMap(work.books, BookID) + m
  {
    m :| Selects(m, FetchedBooks(up, ids), BookID) && edited == work.(books := Merge(work.books, m, BookID));
  }

  /** Each edition that a requested id yields is listed, under its own id. */
  lemma RequestedEditionIsListed(up: Upstream, work: Work, ids: set<ID>, edited: Work, c: ID)
    requires IsEdited(up, work, ids, edited) && c in ids && up.book(c).Some? && |up.book(c).value.books| == 1
    ensures Lists(edited.books, up.book(c).value.books[0].foreignID)
  {
    var m := EditedSelection(up, work, ids, edited);
    assert up.book(c).value.books[0] in FetchedBooks(up, ids) by {
      assert BookOf(up, c) == Some(up.book(c).value.books[0]);
    }
    ListsIff(edited.books, up.book(c).value.books[0].foreignID);
  }

  /** Unless another requested id yields a different edition with that id, it is itself the entry. */
  lemma RequestedEditionIsTheEntry(up: Upstream, work: Work, ids: set<ID>, edited: Work, c: ID)
    requires IsEdited(up, work, ids, edited) && c in ids && up.book(c).Some? && |up.book(c).value.books| == 1
    requires forall d :: d in ids && up.book(d).Some? && |up.book(d).value.books| == 1
               && up.book(d).value.books[0].foreignID == up.book(c).value.books[0].foreignID
               ==> up.book(d).value.books[0] == up.book(c).value.books[0]
    ensures up.book(c).value.books[0] in edited.books
  {
    var m := EditedSelection(up, work, ids, edited);
    var x := up.book(c).value.books[0];
    assert x in FetchedBooks(up, ids) by { assert BookOf(up, c) == Some(x); }
    var d := Yielding(up, ids, m, x.foreignID);
    var i := MapAt(edited.books, BookID, x.foreignID);
    assert edited.books[i] == x;
  }

  lemma Yielding(up: Upstream, ids: set<ID>, m: map<ID, Book>, k: ID) returns (c: ID)
    requires Selects(m, FetchedBooks(up, ids), BookID) && k in m
    ensures c in ids && up.book(c).Some? && |up.book(c).value.books| == 1 && up.book(c).value.books[0] == m[k]
    ensures m[k].foreignID == k
  {
    assert m[k] in FetchedBooks(up, ids);
    c :| c in ids && BookOf(up, c).Some? && BookOf(up, c).value == m[k];
  }

  /** Every other entry was there before. */
  lemma EntriesAre(up: Upstream, work: Work, ids: set<ID>, edited: Work, x: Book)
    requires IsEdited(up, work, ids, edited) && x in edited.books
    ensures x in work.books
            || exists c ::
               c in ids && up.book(c).Some? && |up.book(c).value.books| == 1 && up.book(c).value.books[0] == x
  {
    var m := EditedSelection(up, work, ids, edited);
    var i :| 0 <= i < |edited.books| && edited.books[i] == x;
    MapHas(edited.books, BookID, i);
    if x.foreignID in m {
      var c := Yielding(up, ids, m, x.foreignID);
    } else {
      var j := MapAt(work.books, BookID, x.foreignID);
    }
  }

  /** And what was there stays, itself or as the edition that a requested id yields in its place. */
  lemma EntriesStay(up: Upstream, work: Work, ids: set<ID>, edited: Work, x: Book)
    requires IsEdited(up, work, ids, edited) && x in work.books
    ensures Lists(edited.books, x.foreignID)
    ensures x in edited.books
            || exists c :: c in ids && up.book(c).Some? && |up.book(c).value.books| == 1
                 && up.book(c).value.books[0].foreignID == x.foreignID && up.book(c).value.books[0] != x
  {
    var m := EditedSelection(up, work, ids, edited);
    var i :| 0 <= i < |work.books| && work.books[i] == x;
    MapHas(work.books, BookID, i);
    ListsIff(edited.books, x.foreignID);
    var j := MapAt(edited.books, BookID, x.foreignID);
    if x.foreignID in m {
      var c := Yielding(up, ids, m, x.foreignID);
    }
  }

  // ---------------------------------------------------------------------------------------
  // Whole runs
  // ---------------------------------------------------------------------------------------

  /** The run does not load the work again; it may load others. */
  ghost predicate NoLoadOf(labels: seq<Label>, w: ID) {
    forall i :: 0 <= i < |labels| && labels[i].Load? ==> labels[i].workID != w && Sorted(labels[i].loaded.books, BookID)
  }

  /** The edition is on its way to the work, or has arrived. */
  ghost predicate Arrives(up: Upstream, s: State, w: ID, c: ID)
    requires up.book(c).Some? && |up.book(c).value.books| == 1
  {
    || Triple(WorkEdge, w, c) in Pending(s)
    || (w in s.works && up.book(c).value.books[0] in s.works[w].books)
  }

  /** A step other than processing a work edge of `w` leaves the work and its pending editions alone. */
  lemma OtherStepsKeep(up: Upstream, s: State, l: Label, s': State, w: ID)
    requires Step(up, s, l, s') && w in s.works && (l.Load? ==> l.workID != w)
    requires l.Process? ==> s.queue[0].kind != WorkEdge || s.queue[0].parentID != w
    ensures w in s'.works && s'.works[w] == s.works[w]
    ensures forall c :: Triple(WorkEdge, w, c) in Pending(s') <==>
              Triple(WorkEdge, w, c) in Pending(s) + if l.External? then Triples([l.e]) else {}
  {
    match l
    case External(e) => TriplesOfConcat(s.inFlight, [e]);
    case Deliver(i) => DeliverKeepsPending(up, s, i, s');
    case Load(_, _, _) => LoadKeepsPending(up, s, l, s');
    case Process => OtherEdgesKeep(up, s, s', w);
  }

  lemma OtherEdgesKeep(up: Upstream, s: State, s': State, w: ID)
    requires Step(up, s, Process, s') && w in s.works
    requires s.queue[0].kind != WorkEdge || s.queue[0].parentID != w
    ensures w in s'.works && s'.works[w] == s.works[w]
    ensures forall c :: Triple(WorkEdge, w, c) in Pending(s') <==> Triple(WorkEdge, w, c) in Pending(s)
  {
    var e, t := s.queue[0], s.(queue := s.queue[1..]);
    PendingOfHead(s);
    TriplesOfEdge(e);
    match e.kind
    case WorkEdge => EditionsStepPending(up, t, e.parentID, e.childIDs, s');
    case AuthorEdge =>
      if e.childIDs != {} && e.parentID in t.authors && !UnknownAuthor(e.parentID) {
        var batch, done := WorksOutcome(up, t, e.parentID, e.childIDs, s');
      }
    case RefreshDone =>
  }

  /** Editing a work announces it, which is no work edge. */
  lemma EditionsStepPending(up: Upstream, t: State, v: ID, ids: set<ID>, s': State)
    requires EditionsStep(up, t, v, ids, s')
    ensures s'.works.Keys == t.works.Keys && forall w :: w in t.works && w != v ==> s'.works[w] == t.works[w]
    ensures forall w, c :: Triple(WorkEdge, w, c) in Pending(s') <==> Triple(WorkEdge, w, c) in Pending(t)
  {
    if ids != {} && v in t.works {
      var edited := EditionsOutcome(up, t, v, ids, s');
      TriplesOfConcat(t.inFlight, AuthorEdges(edited.authors, v));
      TriplesOfAuthorEdges(edited.authors, v);
    }
  }

  /** A work that changes is announced to each of its authors, and to no one else; one that does not is not. */
  lemma ChangeIsAnnounced(up: Upstream, t: State, w: ID, ids: set<ID>, s': State)
    requires EditionsStep(up, t, w, ids, s') && w in t.works
    ensures w in s'.works && (s'.works[w] == t.works[w] ==> s' == t)
    ensures s'.works[w] != t.works[w] ==>
              forall a, c :: Triple(AuthorEdge, a, c) in Pending(s') <==>
                Triple(AuthorEdge, a, c) in Pending(t) || (a in t.works[w].authors && c == w)
  {
    if ids != {} {
      var edited := EditionsOutcome(up, t, w, ids, s');
      EditedKeeps(up, t.works[w], ids, edited);
      TriplesOfConcat(t.inFlight, AuthorEdges(edited.authors, w));
      TriplesOfAuthorEdges(edited.authors, w);
    }
  }

  /** Processing a work edge of `w`. */
  lemma OwnEdge(up: Upstream, s: State, s': State, w: ID) returns (edited: Work)
    requires Step(up, s, Process, s') && w in s.works && s.queue[0].kind == WorkEdge && s.queue[0].parentID == w
    ensures w in s'.works && s'.works[w] == edited
    ensures s.queue[0].childIDs == {} ==> edited == s.works[w]
    ensures s.queue[0].childIDs != {} ==> IsEdited(up, s.works[w], s.queue[0].childIDs, edited)
    ensures forall c :: Triple(WorkEdge, w, c) in Pending(s) ==>
              c in s.queue[0].childIDs || Triple(WorkEdge, w, c) in Pending(s')
    ensures forall c :: Triple(WorkEdge, w, c) in Pending(s') || c in s.queue[0].childIDs ==>
              Triple(WorkEdge, w, c) in Pending(s)
  {
    var e, t := s.queue[0], s.(queue := s.queue[1..]);
    PendingOfHead(s);
    TriplesOfEdge(e);
    EditionsStepPending(up, t, w, e.childIDs, s');
    edited := s.works[w];
    if e.childIDs != {} {
      edited := EditionsOutcome(up, t, w, e.childIDs, s');
    }
  }

  lemma StepBringsEdition(up: Upstream, s: State, l: Label, s': State, w: ID, c: ID)
    requires CoherentBooks(up) && Step(up, s, l, s') && w in s.works && (l.Load? ==> l.workID != w)
    requires up.book(c).Some? && |up.book(c).value.books| == 1
    requires Arrives(up, s, w, c) || (l.External? && Triple(WorkEdge, w, c) in Triples([l.e]))
    ensures w in s'.works && Arrives(up, s', w, c)
  {
    if l.Process? && s.queue[0].kind == WorkEdge && s.queue[0].parentID == w {
      var edited := OwnEdge(up, s, s', w);
      var ids, x := s.queue[0].childIDs, up.book(c).value.books[0];
      if c in ids {
        RequestedEditionIsTheEntry(up, s.works[w], ids, edited, c);
      } else if ids != {} && x in s.works[w].books {
        EntriesStay(up, s.works[w], ids, edited, x);
      }
    } else {
      OtherStepsKeep(up, s, l, s', w);
    }
  }

  /** The relationships there were from the start and those pushed by then. */
  ghost function Asked(states: seq<State>, labels: seq<Label>, n: nat): set<Triple>
    requires states != [] && n <= |labels|
  {
    Pending(states[0]) + Pushed(labels[..n])
  }

  lemma AskedNext(states: seq<State>, labels: seq<Label>, n: nat, t: Triple)
    requires states != [] && n < |labels|
    ensures t in Asked(states, labels, n + 1) <==>
            t in Asked(states, labels, n) || (labels[n].External? && t in Triples([labels[n].e]))
  {
    PushedNext(labels, n);
  }

  /** In every run, each edition asked for is on its way until it has arrived, and then stays. */
  lemma {:induction false} EditionsArrive(up: Upstream, states: seq<State>, labels: seq<Label>, n: nat, w: ID, c: ID)
    requires CoherentBooks(up) && Trace(up, states, labels) && n <= |labels| && NoLoadOf(labels, w)
    requires w in states[0].works && up.book(c).Some? && |up.book(c).value.books| == 1
    requires Triple(WorkEdge, w, c) in Asked(states, labels, n)
    ensures w in states[n].works && Arrives(up, states[n], w, c)
  {
    if n > 0 {
      var s, l := states[n - 1], labels[n - 1];
      WorkStays(up, states, labels, n - 1, w);
      AskedNext(states, labels, n - 1, Triple(WorkEdge, w, c));
      if Triple(WorkEdge, w, c) in Asked(states, labels, n - 1) { EditionsArrive(up, states, labels, n - 1, w, c); }
      assert Step(up, s, l, states[n]) && (l.Load? ==> l.workID != w);
      StepBringsEdition(up, s, l, states[n], w, c);
    }
  }

  /** A step on the work itself, or on something else. */
  lemma StepKeepsEntries(up: Upstream, s: State, l: Label, s': State, w: ID, k: ID)
    requires Step(up, s, l, s') && w in s.works && (l.Load? ==> l.workID != w)
    ensures w in s'.works && (Lists(s.works[w].books, k) ==> Lists(s'.works[w].books, k))
  {
    if l.Process? && s.queue[0].kind == WorkEdge && s.queue[0].parentID == w {
      var edited := OwnEdge(up, s, s', w);
      if s.queue[0].childIDs != {} && Lists(s.works[w].books, k) {
        var i :| 0 <= i < |s.works[w].books| && s.works[w].books[i].foreignID == k;
        EntriesStay(up, s.works[w], s.queue[0].childIDs, edited, s.works[w].books[i]);
      }
    } else {
      OtherStepsKeep(up, s, l, s', w);
    }
  }

  /** A work keeps an entry under each id it ever listed. */
  lemma {:induction false} WorkStays(up: Upstream, states: seq<State>, labels: seq<Label>, n: nat, w: ID)
    requires Trace(up, states, labels) && n <= |labels| && NoLoadOf(labels, w) && w in states[0].works
    ensures w in states[n].works
    ensures forall k :: Lists(states[0].works[w].books, k) ==> Lists(states[n].works[w].books, k)
  {
    if n > 0 {
      WorkStays(up, states, labels, n - 1, w);
      forall k: ID
        ensures w in states[n].works
        ensures Lists(states[n - 1].works[w].books, k) ==> Lists(states[n].works[w].books, k)
      {
        StepKeepsEntries(up, states[n - 1], labels[n - 1], states[n], w, k);
      }
    }
  }

  /** Where an edition of the work comes from: it was there at the start, or an id that was asked for yields it. */
  ghost predicate ComesFrom(up: Upstream, start: State, asked: set<Triple>, w: ID, x: Book)
    requires w in start.works
  {
    || x in start.works[w].books
    || exists c :: Triple(WorkEdge, w, c) in asked
         && up.book(c).Some? && |up.book(c).value.books| == 1 && up.book(c).value.books[0] == x
  }

  lemma {:induction false} EditionsComeFrom(up: Upstream, states: seq<State>, labels: seq<Label>, n: nat, w: ID)
    requires Trace(up, states, labels) && n <= |labels| && NoLoadOf(labels, w) && w in states[0].works
    ensures w in states[n].works
    ensures forall c :: Triple(WorkEdge, w, c) in Pending(states[n]) ==>
              Triple(WorkEdge, w, c) in Asked(states, labels, n)
    ensures forall x :: x in states[n].works[w].books ==> ComesFrom(up, states[0], Asked(states, labels, n), w, x)
  {
    if n > 0 {
      PushedNext(labels, n - 1);
      EditionsComeFrom(up, states, labels, n - 1, w);
      var s, l, s' := states[n - 1], labels[n - 1], states[n];
      if l.Process? && s.queue[0].kind == WorkEdge && s.queue[0].parentID == w {
        var edited := OwnEdge(up, s, s', w);
        forall x | x in edited.books
          ensures ComesFrom(up, states[0], Asked(states, labels, n), w, x)
        {
          if s.queue[0].childIDs != {} { EntriesAre(up, s.works[w], s.queue[0].childIDs, edited, x); }
        }
      } else {
        OtherStepsKeep(up, s, l, s', w);
        forall x | x in s.works[w].books
          ensures ComesFrom(up, states[0], Asked(states, labels, n), w, x)
        {
          assert ComesFrom(up, states[0], Asked(states, labels, n - 1), w, x);
        }
      }
    }
  }

  /**
   At rest, a work lists each edition that an id pushed for it yields, under the edition's own id. It has
   an entry under each id it had, and every entry was there or is such an edition.
   */
  lemma {:induction false} EditionsAtRest(up: Upstream, states: seq<State>, labels: seq<Label>, w: ID)
    requires CoherentBooks(up) && Trace(up, states, labels) && NoLoadOf(labels, w) && w in states[0].works
    requires Quiescent(states[|labels|])
    ensures w in states[|labels|].works
    ensures forall c ::
              (Triple(WorkEdge, w, c) in Pending(states[0]) + Pushed(labels)
               && up.book(c).Some? && |up.book(c).value.books| == 1) ==>
              up.book(c).value.books[0] in states[|labels|].works[w].books
    ensures forall k :: Lists(states[0].works[w].books, k) ==> Lists(states[|labels|].works[w].books, k)
    ensures forall x :: x in states[|labels|].works[w].books ==>
              || x in states[0].works[w].books
              || exists c :: Triple(WorkEdge, w, c) in Pending(states[0]) + Pushed(labels)
                   && up.book(c).Some? && |up.book(c).value.books| == 1 && up.book(c).value.books[0] == x
  {
    var n := |labels|;
    assert labels[..n] == labels;
    WorkStays(up, states, labels, n, w);
    EditionsComeFrom(up, states, labels, n, w);
    forall c | Triple(WorkEdge, w, c) in Pending(states[0]) + Pushed(labels)
               && up.book(c).Some? && |up.book(c).value.books| == 1
      ensures up.book(c).value.books[0] in states[n].works[w].books
    {
      EditionsArrive(up, states, labels, n, w, c);
    }
    forall x | x in states[n].works[w].books
      ensures ComesFrom(up, states[0], Pending(states[0]) + Pushed(labels), w, x)
    {
    }
  }

  /** The editions that are kept are those listed whose own id can still be looked up. */
  lemma KeptBooksAre(up: Upstream, works: map<ID, Work>, w: ID)
    ensures forall id :: id in KeptBooks(up, works, w) <==> w in works && Lists(works[w].books, id) && up.book(id).Some?
  {
  }

  /** What loading a work asks for: the editions cached before, as far as they can be loaded. */
  lemma LoadAsksFor(up: Upstream, s: State, l: Label, s': State, c: ID)
    requires l.Load? && Step(up, s, l, s')
    ensures Triple(WorkEdge, l.workID, c) in Pending(s') <==>
            || Triple(WorkEdge, l.workID, c) in Pending(s)
            || (l.workID in s.works && up.book(c).Some?
                && exists i :: 0 <= i < |s.works[l.workID].books| && s.works[l.workID].books[i].foreignID == c)
  {
    LoadKeepsPending(up, s, l, s');
  }

  /**
   Editions survive the reload of their work: in any run from a load to rest, each edition cached before
   that can still be loaded is among those of the work at the end. And each of those was loaded with the
   work, was pushed or pending for it, or is such an edition.
   */
  lemma {:induction false} EditionsSurviveLoad(up: Upstream, s: State, l: Label, states: seq<State>, labels: seq<Label>)
    requires CoherentBooks(up) && l.Load? && Trace(up, states, labels) && Step(up, s, l, states[0])
    requires NoLoadOf(labels, l.workID) && Quiescent(states[|labels|])
    ensures l.workID in states[|labels|].works
    ensures l.workID in s.works ==>
              forall b ::
                (b in s.works[l.workID].books
                 && up.book(b.foreignID).Some? && |up.book(b.foreignID).value.books| == 1) ==>
                up.book(b.foreignID).value.books[0] in states[|labels|].works[l.workID].books
    ensures forall x :: x in states[|labels|].works[l.workID].books ==>
              || x in l.loaded.books
              || (exists c :: Triple(WorkEdge, l.workID, c) in Pending(s) + Pushed(labels)
                    && up.book(c).Some? && |up.book(c).value.books| == 1 && up.book(c).value.books[0] == x)
              || (l.workID in s.works
                  && exists b :: b in s.works[l.workID].books
                       && up.book(b.foreignID).Some? && |up.book(b.foreignID).value.books| == 1
                       && up.book(b.foreignID).value.books[0] == x)
  {
    var w, end := l.workID, states[|labels|];
    EditionsAtRest(up, states, labels, w);
    if w in s.works {
      forall b | b in s.works[w].books && up.book(b.foreignID).Some? && |up.book(b.foreignID).value.books| == 1
        ensures up.book(b.foreignID).value.books[0] in end.works[w].books
      {
        LoadAsksFor(up, s, l, states[0], b.foreignID);
      }
    }
    forall x | x in end.works[w].books && x !in l.loaded.books
      ensures || (exists c :: Triple(WorkEdge, w, c) in Pending(s) + Pushed(labels)
                    && up.book(c).Some? && |up.book(c).value.books| == 1 && up.book(c).value.books[0] == x)
              || (w in s.works
                  && exists b :: b in s.works[w].books
                       && up.book(b.foreignID).Some? && |up.book(b.foreignID).value.books| == 1
                       && up.book(b.foreignID).value.books[0] == x)
    {
      var c :| Triple(WorkEdge, w, c) in Pending(states[0]) + Pushed(labels)
                 && up.book(c).Some? && |up.book(c).value.books| == 1 && up.book(c).value.books[0] == x;
      LoadAsksFor(up, s, l, states[0], c);
    }
  }
}
