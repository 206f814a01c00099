/**
 Denormalization edges as values, and what it means for a queue of merged edges to stand
 for a plain first-in first-out log of the edges that were pushed.
 */
module Edges {
  import opened SortedList

  datatype EdgeKind = AuthorEdge | WorkEdge | RefreshDone

  datatype Edge = Edge(kind: EdgeKind, parentID: ID, childIDs: set<ID>)

  /** One parent-child relationship to denormalize. */
  datatype Triple = Triple(kind: EdgeKind, parentID: ID, childID: ID)

  ghost function Triples(edges: seq<Edge>): set<Triple> {
    set i, c | 0 <= i < |edges| && c in edges[i].childIDs :: Triple(edges[i].kind, edges[i].parentID, c)
  }

  lemma TriplesOfConcat(a: seq<Edge>, b: seq<Edge>)
    ensures Triples(a + b) == Triples(a) + Triples(b)
  {
    var ab := a + b;
    forall t | t in Triples(a) + Triples(b)
      ensures t in Triples(ab)
    {
      if t in Triples(a) {
        var i :| 0 <= i < |a| && t.childID in a[i].childIDs && t == Triple(a[i].kind, a[i].parentID, t.childID);
        assert ab[i] == a[i];
      } else {
        var i :| 0 <= i < |b| && t.childID in b[i].childIDs && t == Triple(b[i].kind, b[i].parentID, t.childID);
        assert ab[|a| + i] == b[i];
      }
    }
  }

  lemma TriplesOfEdge(e: Edge)
    ensures forall t :: t in Triples([e]) <==> t.kind == e.kind && t.parentID == e.parentID && t.childID in e.childIDs
  {
    forall t: Triple | t.kind == e.kind && t.parentID == e.parentID && t.childID in e.childIDs
      ensures t in Triples([e])
    {
      assert t.childID in [e][0].childIDs;
    }
  }

  /** Edges that may be merged: same kind and parent, and not an end-of-refresh marker. */
  predicate SameGroup(d: Edge, e: Edge) {
    d.kind == e.kind && d.parentID == e.parentID && d.kind != RefreshDone
  }

  /** The children of all edges of `log` in the group of `e`. */
  function GroupChildren(log: seq<Edge>, e: Edge): set<ID> {
    if log == [] then {}
    else (if SameGroup(log[0], e) then log[0].childIDs else {}) + GroupChildren(log[1..], e)
  }

  /** The edges of `log` outside the group of `e`. */
  function Ungrouped(log: seq<Edge>, e: Edge): (rest: seq<Edge>)
    ensures |rest| <= |log|
  {
    if log == [] then []
    else (if SameGroup(log[0], e) then [] else [log[0]]) + Ungrouped(log[1..], e)
  }

  /** The log with every group gathered where its first edge stands. */
  function Grouped(log: seq<Edge>): seq<Edge>
    decreases |log|
  {
    if log == [] then []
    else
      [log[0].(childIDs := log[0].childIDs + GroupChildren(log[1..], log[0]))] + Grouped(Ungrouped(log[1..], log[0]))
  }

  /** The log once the group at its head has been delivered. */
  function Undelivered(log: seq<Edge>): seq<Edge>
    requires log != []
  {
    Ungrouped(log[1..], log[0])
  }

  /** What `edgebuf.push` makes of a queue of merged edges. */
  function Enqueued(queue: seq<Edge>, e: Edge): seq<Edge> {
    if queue == [] then [e]
    else if SameGroup(queue[0], e) then [queue[0].(childIDs := queue[0].childIDs + e.childIDs)] + queue[1..]
    else [queue[0]] + Enqueued(queue[1..], e)
  }

  lemma {:induction false} EnqueuedMerges(queue: seq<Edge>, e: Edge, i: nat)
    requires i < |queue| && SameGroup(queue[i], e)
    requires forall j :: 0 <= j < i ==> !SameGroup(queue[j], e)
    ensures Enqueued(queue, e) == queue[i := queue[i].(childIDs := queue[i].childIDs + e.childIDs)]
  {
    if i > 0 { EnqueuedMerges(queue[1..], e, i - 1); }
  }

  lemma {:induction false} EnqueuedAppends(queue: seq<Edge>, e: Edge)
    requires forall j :: 0 <= j < |queue| ==> !SameGroup(queue[j], e)
    ensures Enqueued(queue, e) == queue + [e]
  {
    if queue != [] { EnqueuedAppends(queue[1..], e); }
  }

  lemma {:induction false} GroupChildrenOfAppend(log: seq<Edge>, d: Edge, e: Edge)
    ensures GroupChildren(log + [e], d) ==
            if SameGroup(e, d) then GroupChildren(log, d) + e.childIDs else GroupChildren(log, d)
    ensures Ungrouped(log + [e], d) == if SameGroup(e, d) then Ungrouped(log, d) else Ungrouped(log, d) + [e]
  {
    if log == [] {
      assert log + [e] == [e];
    } else {
      assert (log + [e])[1..] == log[1..] + [e];
      GroupChildrenOfAppend(log[1..], d, e);
    }
  }

  /** Pushing onto the merged queue is appending to the log: the merged queue refines a plain FIFO. */
  lemma {:induction false} PushRefinesAppend(log: seq<Edge>, e: Edge)
    ensures Enqueued(Grouped(log), e) == Grouped(log + [e])
    decreases |log|
  {
    if log == [] {
      assert log + [e] == [e] && [e][1..] == [];
      assert e.childIDs + {} == e.childIDs;
    } else {
      var h := log[0];
      assert (log + [e])[1..] == log[1..] + [e];
      GroupChildrenOfAppend(log[1..], h, e);
      PushRefinesAppend(Ungrouped(log[1..], h), e);
      var queue, children := Grouped(log), GroupChildren(log[1..], h);
      assert queue[1..] == Grouped(Ungrouped(log[1..], h));
      if SameGroup(e, h) {
        assert (h.childIDs + children) + e.childIDs == h.childIDs + (children + e.childIDs);
        assert Enqueued(queue, e) == [queue[0].(childIDs := queue[0].childIDs + e.childIDs)] + queue[1..];
      } else {
        assert Enqueued(queue, e) == [queue[0]] + Enqueued(queue[1..], e);
      }
    }
  }

  lemma {:induction false} GroupChildrenAre(log: seq<Edge>, e: Edge, c: ID)
    ensures c in GroupChildren(log, e) <==> exists i :: 0 <= i < |log| && SameGroup(log[i], e) && c in log[i].childIDs
  {
    if log != [] {
      GroupChildrenAre(log[1..], e, c);
      if i :| 0 <= i < |log[1..]| && SameGroup(log[1..][i], e) && c in log[1..][i].childIDs {
        assert SameGroup(log[i + 1], e) && c in log[i + 1].childIDs;
      }
      if i :| 0 <= i < |log| && SameGroup(log[i], e) && c in log[i].childIDs {
        if i > 0 { assert SameGroup(log[1..][i - 1], e) && c in log[1..][i - 1].childIDs; }
      }
    }
  }

  /** What is ungrouped is every edge outside the group, as often as it was there. */
  lemma {:induction false} UngroupedCounts(log: seq<Edge>, e: Edge)
    ensures forall d :: multiset(Ungrouped(log, e))[d] == if SameGroup(d, e) then 0 else multiset(log)[d]
  {
    if log != [] {
      UngroupedCounts(log[1..], e);
      assert log == [log[0]] + log[1..];
    }
  }

  /**
   Popping the merged queue delivers every child that an edge of the head's group was pushed with,
   and no other, and leaves the queue of the edges outside that group.
   */
  lemma {:induction false} PopRefinesRemoval(log: seq<Edge>)
    requires log != []
    ensures Grouped(log) != []
    ensures Grouped(log)[0].kind == log[0].kind && Grouped(log)[0].parentID == log[0].parentID
    ensures forall c :: c in Grouped(log)[0].childIDs <==>
              c in log[0].childIDs || exists d :: d in log[1..] && SameGroup(d, log[0]) && c in d.childIDs
    ensures forall d :: multiset(Undelivered(log))[d] == if SameGroup(d, log[0]) then 0 else multiset(log[1..])[d]
    ensures Grouped(log)[1..] == Grouped(Undelivered(log))
  {
    UngroupedCounts(log[1..], log[0]);
    forall c: ID {
      GroupChildrenAre(log[1..], log[0], c);
    }
  }

  lemma {:induction false} UngroupedKeeps(log: seq<Edge>, e: Edge)
    ensures forall d :: d in Ungrouped(log, e) <==> d in log && !SameGroup(d, e)
  {
    if log != [] {
      UngroupedKeeps(log[1..], e);
      assert forall d :: d in log <==> d == log[0] || d in log[1..];
    }
  }

  /** The queue never holds two edges of one group. */
  lemma {:induction false} GroupsAreDistinct(log: seq<Edge>)
    ensures forall i, j :: 0 <= i < j < |Grouped(log)| ==> !SameGroup(Grouped(log)[i], Grouped(log)[j])
    decreases |log|
  {
    if log != [] {
      var rest := Ungrouped(log[1..], log[0]);
      GroupsAreDistinct(rest);
      UngroupedKeeps(log[1..], log[0]);
      GroupedHeads(rest);
      assert Grouped(log)[1..] == Grouped(rest);
      forall j | 0 < j < |Grouped(log)|
        ensures !SameGroup(Grouped(log)[0], Grouped(log)[j])
      {
        assert Grouped(log)[j] == Grouped(rest)[j - 1];
        assert HasHead(rest, Grouped(rest)[j - 1]);
      }
    }
  }

  ghost predicate HasHead(log: seq<Edge>, g: Edge) {
    exists d :: d in log && d.kind == g.kind && d.parentID == g.parentID
  }

  lemma {:induction false} GroupedHeads(log: seq<Edge>)
    ensures forall g :: g in Grouped(log) ==> HasHead(log, g)
    decreases |log|
  {
    if log != [] {
      var rest := Ungrouped(log[1..], log[0]);
      GroupedHeads(rest);
      UngroupedKeeps(log[1..], log[0]);
      forall g | g in Grouped(log)
        ensures HasHead(log, g)
      {
        if g in Grouped(rest) {
          var d :| d in rest && d.kind == g.kind && d.parentID == g.parentID;
          assert d in log;
        } else {
          assert log[0] in log && g.kind == log[0].kind && g.parentID == log[0].parentID;
        }
      }
    }
  }

  /** Merging loses and invents no relationship. */
  lemma {:induction false} EnqueuedTriples(queue: seq<Edge>, e: Edge)
    ensures Triples(Enqueued(queue, e)) == Triples(queue) + Triples([e])
  {
    if i :| 0 <= i < |queue| && SameGroup(queue[i], e) && forall j :: 0 <= j < i ==> !SameGroup(queue[j], e) {
      EnqueuedMerges(queue, e, i);
      var q' := Enqueued(queue, e);
      forall t | t in Triples(queue) + Triples([e])
        ensures t in Triples(q')
      {
        if t in Triples(queue) {
          var j :| 0 <= j < |queue| && t.childID in queue[j].childIDs
              && t == Triple(queue[j].kind, queue[j].parentID, t.childID);
          assert t.childID in q'[j].childIDs && q'[j].kind == queue[j].kind && q'[j].parentID == queue[j].parentID;
        } else {
          assert t.childID in q'[i].childIDs;
        }
      }
      forall t | t in Triples(q')
        ensures t in Triples(queue) + Triples([e])
      {
        var j :| 0 <= j < |q'| && t.childID in q'[j].childIDs && t == Triple(q'[j].kind, q'[j].parentID, t.childID);
        if t.childID !in queue[j].childIDs { assert j == i && t.childID in [e][0].childIDs; }
      }
    } else {
      FirstOfGroup(queue, e);
      EnqueuedAppends(queue, e);
      TriplesOfConcat(queue, [e]);
    }
  }

  lemma {:induction false} FirstOfGroup(queue: seq<Edge>, e: Edge)
    ensures (exists i :: 0 <= i < |queue| && SameGroup(queue[i], e)) ==>
            (exists i :: 0 <= i < |queue| && SameGroup(queue[i], e) && forall j :: 0 <= j < i ==>
             !SameGroup(queue[j], e))
  {
    if queue != [] && !SameGroup(queue[0], e) {
      FirstOfGroup(queue[1..], e);
      if i :| 0 <= i < |queue[1..]| && SameGroup(queue[1..][i], e)
              && forall j :: 0 <= j < i ==> !SameGroup(queue[1..][j], e) {
        assert SameGroup(queue[i + 1], e);
        forall j | 0 <= j < i + 1
          ensures !SameGroup(queue[j], e)
        {
          if j > 0 { assert queue[j] == queue[1..][j - 1]; }
        }
      }
      if i :| 0 <= i < |queue| && SameGroup(queue[i], e) { assert SameGroup(queue[1..][i - 1], e); }
    }
  }

  /** The queue stands for the relationships of the log. */
  lemma {:induction false} GroupedTriples(log: seq<Edge>)
    ensures Triples(Grouped(log)) == Triples(log)
  {
    if log != [] {
      var n := |log| - 1;
      GroupedTriples(log[..n]);
      PushRefinesAppend(log[..n], log[n]);
      EnqueuedTriples(Grouped(log[..n]), log[n]);
      TriplesOfConcat(log[..n], [log[n]]);
      assert log[..n] + [log[n]] == log;
    }
  }

  // ---------------------------------------------------------------------------------------
  // Whole runs of the buffer
  // ---------------------------------------------------------------------------------------

  datatype Event = Push(e: Edge) | Pop

  /** A run so far: what was pushed, the places of the pushes not delivered yet, and what was delivered. */
  datatype Run = Run(pushed: seq<Edge>, pending: seq<nat>, delivered: seq<Edge>) {
    ghost predicate Valid() {
      Places(pushed, pending)
    }

    /** The raw edges not delivered yet, in the order in which they were pushed. */
    ghost function Log(): seq<Edge>
      requires Valid()
    {
      EdgesAt(pushed, pending)
    }
  }

  /** The places of `pending` outside the group of `e`. */
  ghost function PlacesOutside(pushed: seq<Edge>, pending: seq<nat>, e: Edge): seq<nat>
    requires forall i :: 0 <= i < |pending| ==> pending[i] < |pushed|
  {
    if pending == [] then []
    else (if SameGroup(pushed[pending[0]], e) then [] else [pending[0]]) + PlacesOutside(pushed, pending[1..], e)
  }

  ghost predicate Places(pushed: seq<Edge>, pending: seq<nat>) {
    && (forall i :: 0 <= i < |pending| ==> pending[i] < |pushed|)
    && (forall i, j :: 0 <= i < j < |pending| ==> pending[i] < pending[j])
  }

  ghost function EdgesAt(pushed: seq<Edge>, pending: seq<nat>): (log: seq<Edge>)
    requires forall i :: 0 <= i < |pending| ==> pending[i] < |pushed|
  {
    seq(|pending|, i requires 0 <= i < |pending| => pushed[pending[i]])
  }

  lemma {:induction false} PlacesOutsideMembers(pushed: seq<Edge>, pending: seq<nat>, e: Edge)
    requires Places(pushed, pending)
    ensures forall n :: n in PlacesOutside(pushed, pending, e) <==> n in pending && !SameGroup(pushed[n], e)
  {
    if pending != [] {
      PlacesOutsideMembers(pushed, pending[1..], e);
      assert forall n :: n in pending <==> n == pending[0] || n in pending[1..];
    }
  }

  lemma {:induction false} PlacesOutsideAreUngrouped(pushed: seq<Edge>, pending: seq<nat>, e: Edge)
    requires Places(pushed, pending)
    ensures Places(pushed, PlacesOutside(pushed, pending, e))
    ensures EdgesAt(pushed, PlacesOutside(pushed, pending, e)) == Ungrouped(EdgesAt(pushed, pending), e)
  {
    if pending != [] {
      PlacesOutsideAreUngrouped(pushed, pending[1..], e);
      PlacesOutsideMembers(pushed, pending[1..], e);
      var rest, log := PlacesOutside(pushed, pending[1..], e), EdgesAt(pushed, pending);
      assert log[1..] == EdgesAt(pushed, pending[1..]);
      if !SameGroup(log[0], e) {
        forall i | 0 <= i < |rest|
          ensures pending[0] < rest[i]
        {
          assert rest[i] in pending[1..];
        }
        PlacesOfCons(pushed, pending[0], rest);
      }
    }
  }

  lemma PlacesOfCons(pushed: seq<Edge>, n: nat, rest: seq<nat>)
    requires n < |pushed| && Places(pushed, rest)
    requires forall i :: 0 <= i < |rest| ==> n < rest[i]
    ensures Places(pushed, [n] + rest)
    ensures EdgesAt(pushed, [n] + rest) == [pushed[n]] + EdgesAt(pushed, rest)
  {
  }

  /** One event. A pop of an empty buffer blocks, so nothing happens. */
  ghost function Next(r: Run, ev: Event): (r': Run)
    requires r.Valid()
    ensures r'.Valid()
  {
    match ev
    case Push(e) =>
      Run(r.pushed + [e], r.pending + [|r.pushed|], r.delivered)
    case Pop =>
      if r.pending == [] then r
      else
        var head := r.pushed[r.pending[0]];
        PlacesOutsideAreUngrouped(r.pushed, r.pending[1..], head);
        Run(r.pushed, PlacesOutside(r.pushed, r.pending[1..], head), r.delivered + [Grouped(r.Log())[0]])
  }

  ghost function Play(events: seq<Event>): (r: Run)
    ensures r.Valid()
  {
    if events == [] then Run([], [], [])
    else Next(Play(events[..|events| - 1]), events[|events| - 1])
  }

  lemma PlayNext(events: seq<Event>, n: nat)
    requires n < |events|
    ensures Play(events[..n + 1]) == Next(Play(events[..n]), events[n])
  {
    assert events[..n + 1][..n] == events[..n];
  }

  /** Each event does to the log what the buffer operations do to it. */
  lemma NextDoes(r: Run, ev: Event)
    requires r.Valid()
    ensures Next(r, ev).Valid()
    ensures ev.Push? ==> Next(r, ev).Log() == r.Log() + [ev.e] && Next(r, ev).delivered == r.delivered
    ensures ev.Pop? && r.Log() == [] ==> Next(r, ev) == r
    ensures ev.Pop? && r.Log() != [] ==>
              && Next(r, ev).Log() == Undelivered(r.Log())
              && Next(r, ev).delivered == r.delivered + [Grouped(r.Log())[0]]
  {
    if ev.Pop? && r.pending != [] {
      PlacesOutsideAreUngrouped(r.pushed, r.pending[1..], r.pushed[r.pending[0]]);
      assert r.Log()[1..] == EdgesAt(r.pushed, r.pending[1..]);
    }
  }

  /** The edges at the given places of the pushes. */
  ghost predicate Settled(r: Run, n: nat) {
    n < |r.pushed| && n !in r.pending
  }

  /**
   A push that is no longer pending has had all its children delivered, only pushed
   relationships were delivered, and once an end-of-refresh marker has been delivered, every
   earlier push has been delivered.
   */
  ghost predicate Delivers(r: Run) {
    && r.Valid()
    && (forall n: nat :: Settled(r, n) ==> Triples([r.pushed[n]]) <= Triples(r.delivered))
    && Triples(r.delivered) <= Triples(r.pushed)
    && (forall n: nat, m: nat :: Settled(r, n) && r.pushed[n].kind == RefreshDone && m < n ==> Settled(r, m))
  }

  /** Conservation and barrier hold after every run of pushes and pops. */
  lemma {:induction false} RunDelivers(events: seq<Event>)
    ensures Delivers(Play(events))
  {
    if events != [] {
      var before, ev := events[..|events| - 1], events[|events| - 1];
      RunDelivers(before);
      match ev
      case Push(e) => PushDelivers(Play(before), e);
      case Pop => if Play(before).pending != [] { PopDelivers(Play(before)); }
    }
  }

  lemma PushDelivers(r: Run, e: Edge)
    requires Delivers(r)
    ensures Delivers(Next(r, Push(e)))
  {
    var r' := Next(r, Push(e));
    TriplesOfConcat(r.pushed, [e]);
    assert |r.pushed| in r'.pending by { assert r'.pending[|r.pending|] == |r.pushed|; }
    assert forall m :: m in r.pending ==> m in r'.pending;
    forall n: nat | Settled(r', n)
      ensures Settled(r, n) && r'.pushed[n] == r.pushed[n]
    {
      assert n != |r.pushed|;
    }
    forall n: nat | Settled(r, n)
      ensures Settled(r', n)
    {
    }
  }

  lemma PopDelivers(r: Run)
    requires Delivers(r) && r.pending != []
    ensures Delivers(Next(r, Pop))
  {
    var r' := Next(r, Pop);
    var first := r.pending[0];
    var head, log, places := r.pushed[first], r.Log(), r.pending[1..];
    PlacesOutsideMembers(r.pushed, places, head);
    var merged := Grouped(log)[0];
    TriplesOfConcat(r.delivered, [merged]);
    assert forall n :: n in r.pending <==> n == first || n in places;
    forall n: nat | Settled(r', n)
      ensures Triples([r.pushed[n]]) <= Triples(r'.delivered)
      ensures Settled(r, n) || n == first || SameGroup(r.pushed[n], head)
    {
      if !Settled(r, n) {
        assert n == first || SameGroup(r.pushed[n], head);
        GroupTriples(r, n);
      }
    }
    forall t | t in Triples([merged])
      ensures t in Triples(r.pushed)
    {
      MergedWasPushed(r, t);
    }
    forall n: nat, m: nat | Settled(r', n) && r'.pushed[n].kind == RefreshDone && m < n
      ensures Settled(r', m)
    {
      // A marker is never grouped, so it can only be delivered when it is the oldest push left.
      if !Settled(r, n) {
        assert n == first;
        assert forall i :: 0 <= i < |r.pending| ==> first <= r.pending[i];
      }
    }
  }

  lemma GroupTriples(r: Run, n: nat)
    requires r.Valid() && r.pending != [] && n in r.pending
    requires n == r.pending[0] || SameGroup(r.pushed[n], r.pushed[r.pending[0]])
    ensures Triples([r.pushed[n]]) <= Triples([Grouped(r.Log())[0]])
  {
    var log, head := r.Log(), r.pushed[r.pending[0]];
    var merged := Grouped(log)[0];
    assert log[0] == head;
    forall c | c in r.pushed[n].childIDs
      ensures c in merged.childIDs
    {
      if n != r.pending[0] {
        var i :| 0 <= i < |r.pending| && r.pending[i] == n;
        GroupChildrenAre(log[1..], head, c);
        assert log[1..][i - 1] == r.pushed[n];
      }
    }
    forall t | t in Triples([r.pushed[n]])
      ensures t in Triples([merged])
    {
      assert t.childID in [merged][0].childIDs;
    }
  }

  lemma MergedWasPushed(r: Run, t: Triple)
    requires r.Valid() && r.pending != [] && t in Triples([Grouped(r.Log())[0]])
    ensures t in Triples(r.pushed)
  {
    var log := r.Log();
    var head := log[0];
    if t.childID in head.childIDs {
      assert r.pushed[r.pending[0]] == head;
    } else {
      GroupChildrenAre(log[1..], head, t.childID);
      var i :| 0 <= i < |log[1..]| && SameGroup(log[1..][i], head) && t.childID in log[1..][i].childIDs;
      assert r.pushed[r.pending[i + 1]] == log[1..][i];
    }
  }
}
