/**
 The merging buffer: a queue of pointers to edges, two indexes into it, and a 32-bit count of
 the children waiting. Child sets are shared by reference, as Go maps are; a merge installs a
 fresh set, so the set of an edge that was handed over never changes.
 */
module EdgeBuffer {
  import opened Options
  import opened SortedList
  import opened Edges

  /** A set of ids held by reference. */
  class IDSet {
    var elems: set<ID>

    constructor (elems: set<ID>)
      ensures this.elems == elems
    {
      this.elems := elems;
    }
  }

  /** A fresh set with the given elements. */
  method NewSet(ids: seq<ID>) returns (s: IDSet)
    ensures fresh(s) && s.elems == set i | i in ids
  {
    s := new IDSet({});
    for k := 0 to |ids|
      invariant s.elems == set i | i in ids[..k]
    {
      s.elems := s.elems + {ids[k]};
    }
    assert ids[..|ids|] == ids;
  }

  /** Clone-then-copy: neither argument changes. */
  method Union(x: IDSet, y: IDSet) returns (r: IDSet)
    ensures fresh(r) && r.elems == x.elems + y.elems
  {
    r := new IDSet(x.elems);
    r.elems := r.elems + y.elems;
  }

  /** Go's conversion of an integer to `int32`. */
  function Wrap32(x: int): (w: int)
    ensures -0x8000_0000 <= w < 0x8000_0000
  {
    (x + 0x8000_0000) % 0x1_0000_0000 - 0x8000_0000
  }

  lemma WrappedSum(a: int, b: int)
    ensures Wrap32(Wrap32(a) + Wrap32(b)) == Wrap32(a + b)
    ensures Wrap32(Wrap32(a) - Wrap32(b)) == Wrap32(a - b)
  {
    var p, q := (a + 0x8000_0000) / 0x1_0000_0000, (b + 0x8000_0000) / 0x1_0000_0000;
    assert Wrap32(a) == a - p * 0x1_0000_0000 && Wrap32(b) == b - q * 0x1_0000_0000;
    WrapsAround(a + b, -p - q);
    WrapsAround(a - b, q - p);
  }

  lemma WrapsAround(x: int, k: int)
    ensures Wrap32(x + k * 0x1_0000_0000) == Wrap32(x)
  {
    var y := x + 0x8000_0000;
    var r, z := y % 0x1_0000_0000, y + k * 0x1_0000_0000;
    assert z == (y / 0x1_0000_0000 + k) * 0x1_0000_0000 + r;
    assert (z % 0x1_0000_0000 - r) % 0x1_0000_0000 == 0;
  }

  function TotalChildren(queue: seq<Edge>): nat {
    if queue == [] then 0 else |queue[0].childIDs| + TotalChildren(queue[1..])
  }

  /** The reported size is the number of children waiting, and so not negative, exactly below 2^31. */
  lemma {:induction false} SizeIsExactIff(queue: seq<Edge>)
    ensures Wrap32(TotalChildren(queue)) == TotalChildren(queue) <==> TotalChildren(queue) < 0x8000_0000
    ensures TotalChildren(queue) == 0x8000_0000 ==> Wrap32(TotalChildren(queue)) < 0
  {
  }

  /** Markers have no children. */
  ghost predicate ChildlessMarkers(queue: seq<Edge>) {
    forall i :: 0 <= i < |queue| && queue[i].kind == RefreshDone ==> queue[i].childIDs == {}
  }

  lemma {:induction false} ChildrenOfOneEdge(e: Edge)
    ensures |Triples([e])| == |e.childIDs|
    decreases |e.childIDs|
  {
    if c :| c in e.childIDs {
      var rest := e.(childIDs := e.childIDs - {c});
      ChildrenOfOneEdge(rest);
      OneMoreTriple(e, c);
    } else {
      assert Triples([e]) == {};
    }
  }

  lemma OneMoreTriple(e: Edge, c: ID)
    requires c in e.childIDs
    ensures Triple(e.kind, e.parentID, c) !in Triples([e.(childIDs := e.childIDs - {c})])
    ensures Triples([e]) == Triples([e.(childIDs := e.childIDs - {c})]) + {Triple(e.kind, e.parentID, c)}
  {
    var rest := e.(childIDs := e.childIDs - {c});
    TriplesOfEdge(e);
    TriplesOfEdge(rest);
  }

  /** In a queue with one edge per group, the children waiting are the distinct relationships. */
  lemma {:induction false} WaitingAreDistinct(queue: seq<Edge>)
    requires ChildlessMarkers(queue)
    requires forall i, j :: 0 <= i < j < |queue| ==> !SameGroup(queue[i], queue[j])
    ensures TotalChildren(queue) == |Triples(queue)|
  {
    if queue == [] {
      assert Triples(queue) == {};
    } else {
      var e, rest := queue[0], queue[1..];
      WaitingAreDistinct(rest);
      ChildrenOfOneEdge(e);
      TriplesOfConcat([e], rest);
      assert [e] + rest == queue;
      TriplesOfEdge(e);
      forall t | t in Triples(rest)
        ensures t !in Triples([e])
      {
        var i :| 0 <= i < |rest| && t.childID in rest[i].childIDs
            && t == Triple(rest[i].kind, rest[i].parentID, t.childID);
        assert !SameGroup(queue[0], queue[i + 1]);
      }
      DisjointSizes(Triples([e]), Triples(rest));
    }
  }

  lemma DisjointSizes(a: set<Triple>, b: set<Triple>)
    requires a !! b
    ensures |a + b| == |a| + |b|
  {
  }

  lemma {:induction false} TotalOfUpdate(queue: seq<Edge>, i: nat, e: Edge)
    requires i < |queue|
    ensures TotalChildren(queue[i := e]) == TotalChildren(queue) - |queue[i].childIDs| + |e.childIDs|
  {
    if i > 0 {
      assert queue[i := e][1..] == queue[1..][i - 1 := e];
      TotalOfUpdate(queue[1..], i - 1, e);
    }
  }

  lemma {:induction false} TotalOfAppend(queue: seq<Edge>, e: Edge)
    ensures TotalChildren(queue + [e]) == TotalChildren(queue) + |e.childIDs|
  {
    if queue == [] {
      assert queue + [e] == [e];
    } else {
      assert (queue + [e])[1..] == queue[1..] + [e];
      TotalOfAppend(queue[1..], e);
    }
  }

  lemma {:induction false} SizeAfterAppend(size: int, contents: seq<Edge>, e: Edge)
    requires size == Wrap32(TotalChildren(contents))
    ensures Wrap32(size + Wrap32(|e.childIDs|)) == Wrap32(TotalChildren(contents + [e]))
  {
    WrappedSum(TotalChildren(contents), |e.childIDs|);
    TotalOfAppend(contents, e);
  }

  lemma SizeAfterMerge(size: int, contents: seq<Edge>, i: nat, children: set<ID>)
    requires i < |contents| && size == Wrap32(TotalChildren(contents))
    ensures Wrap32(size + Wrap32(|children| - |contents[i].childIDs|)) ==
            Wrap32(TotalChildren(contents[i := contents[i].(childIDs := children)]))
  {
    WrappedSum(TotalChildren(contents), |children| - |contents[i].childIDs|);
    TotalOfUpdate(contents, i, contents[i].(childIDs := children));
  }

  lemma {:induction false} SizeAfterPop(size: int, contents: seq<Edge>)
    requires contents != [] && size == Wrap32(TotalChildren(contents))
    ensures Wrap32(size - Wrap32(|contents[0].childIDs|)) == Wrap32(TotalChildren(contents[1..]))
  {
    WrappedSum(TotalChildren(contents), |contents[0].childIDs|);
  }

  /** An edge as it travels through channels: a value that refers to its child set. */
  datatype SharedEdge = SharedEdge(kind: EdgeKind, parentID: ID, childIDs: IDSet) {
    ghost function Value(): Edge
      reads childIDs
    {
      Edge(kind, parentID, childIDs.elems)
    }
  }

  /** What the queue and the indexes point at. */
  class Cell {
    var edge: SharedEdge

    constructor (e: SharedEdge)
      ensures edge == e
    {
      edge := e;
    }
  }

  // ---------------------------------------------------------------------------------------
  // The indexes
  // ---------------------------------------------------------------------------------------

  ghost predicate Distinct(queue: seq<Cell>) {
    forall i, j :: 0 <= i < j < |queue| ==> queue[i] != queue[j]
  }

  /** The index of the queued edges of one kind by parent. */
  ghost function IndexOf(queue: seq<Cell>, contents: seq<Edge>, kind: EdgeKind): map<ID, Cell>
    requires |queue| == |contents|
  {
    if queue == [] then map[]
    else
      var n := |queue| - 1;
      var front := IndexOf(queue[..n], contents[..n], kind);
      if contents[n].kind == kind then front[contents[n].parentID := queue[n]] else front
  }

  /** No two edges belong to one group. */
  ghost predicate OnePerGroup(contents: seq<Edge>) {
    forall i, j :: 0 <= i < j < |contents| ==> !SameGroup(contents[i], contents[j])
  }

  /** Whatever an index holds is queued under that kind and parent. */
  lemma {:induction false} IndexedIsQueued(queue: seq<Cell>, contents: seq<Edge>, kind: EdgeKind, p: ID)
    returns (i: nat)
    requires |queue| == |contents| && p in IndexOf(queue, contents, kind)
    ensures i < |queue| && queue[i] == IndexOf(queue, contents, kind)[p]
    ensures contents[i].kind == kind && contents[i].parentID == p
  {
    i := |queue| - 1;
    if contents[i].kind != kind || contents[i].parentID != p {
      i := IndexedIsQueued(queue[..i], contents[..i], kind, p);
    }
  }

  /** Every queued edge of a kind is what the index of that kind holds for its parent. */
  lemma {:induction false} QueuedIsIndexed(queue: seq<Cell>, contents: seq<Edge>, kind: EdgeKind, i: nat)
    requires |queue| == |contents| && OnePerGroup(contents) && kind != RefreshDone
    requires i < |queue| && contents[i].kind == kind
    ensures contents[i].parentID in IndexOf(queue, contents, kind)
    ensures IndexOf(queue, contents, kind)[contents[i].parentID] == queue[i]
  {
    var n := |queue| - 1;
    if i < n {
      QueuedIsIndexed(queue[..n], contents[..n], kind, i);
      assert !SameGroup(contents[i], contents[n]);
    }
  }

  lemma {:induction false} IndexAfterAppend(queue: seq<Cell>, contents: seq<Edge>, kind: EdgeKind, cell: Cell, e: Edge)
    requires |queue| == |contents|
    ensures IndexOf(queue + [cell], contents + [e], kind) ==
            var index := IndexOf(queue, contents, kind);
            if e.kind == kind then index[e.parentID := cell] else index
  {
    assert (queue + [cell])[..|queue|] == queue && (contents + [e])[..|queue|] == contents;
  }

  lemma {:induction false} IndexAfterPop(queue: seq<Cell>, contents: seq<Edge>, kind: EdgeKind)
    requires |queue| == |contents| && OnePerGroup(contents) && kind != RefreshDone && queue != []
    ensures IndexOf(queue[1..], contents[1..], kind) ==
            var index := IndexOf(queue, contents, kind);
            if contents[0].kind == kind then index - {contents[0].parentID} else index
  {
    var n := |queue| - 1;
    if n > 0 {
      IndexAfterPop(queue[..n], contents[..n], kind);
      assert queue[..n][1..] == queue[1..][..n - 1] && contents[..n][1..] == contents[1..][..n - 1];
      assert !SameGroup(contents[0], contents[n]);
    }
  }

  lemma {:induction false} IndexAfterMerge(queue: seq<Cell>, a: seq<Edge>, b: seq<Edge>, kind: EdgeKind)
    requires |queue| == |a| == |b|
    requires forall i :: 0 <= i < |a| ==> a[i].kind == b[i].kind && a[i].parentID == b[i].parentID
    ensures IndexOf(queue, a, kind) == IndexOf(queue, b, kind)
  {
    if queue != [] {
      var n := |queue| - 1;
      IndexAfterMerge(queue[..n], a[..n], b[..n], kind);
    }
  }

  /** The queue holds distinct cells whose values are the contents. */
  ghost predicate Holds(queue: seq<Cell>, contents: seq<Edge>, cells: set<Cell>, sets: set<IDSet>)
    reads cells, sets
  {
    && |queue| == |contents|
    && Distinct(queue)
    && (forall i :: 0 <= i < |queue| ==> queue[i] in cells && queue[i].edge.childIDs in sets)
    && (forall i :: 0 <= i < |queue| ==> queue[i].edge.Value() == contents[i])
  }

  lemma HoldsAfterAppend(queue: seq<Cell>, contents: seq<Edge>, cells: set<Cell>, sets: set<IDSet>, cell: Cell)
    requires Holds(queue, contents, cells, sets) && cell !in queue
    ensures Holds(queue + [cell], contents + [cell.edge.Value()], cells + {cell}, sets + {cell.edge.childIDs})
  {
  }

  lemma HoldsAfterPop(queue: seq<Cell>, contents: seq<Edge>, cells: set<Cell>, sets: set<IDSet>)
    requires Holds(queue, contents, cells, sets) && queue != []
    ensures Holds(queue[1..], contents[1..], cells, sets)
  {
  }

  class EdgeBuf {
    var queue: seq<Cell>
    var works: map<ID, Cell>
    var authors: map<ID, Cell>
    var size: int
    /** The queued edges, as values. */
    ghost var contents: seq<Edge>
    /** The edges pushed and not delivered yet, in the order in which they were pushed. */
    ghost var log: seq<Edge>
    /** The cells and child sets behind the queue. */
    ghost var cells: set<Cell>
    ghost var sets: set<IDSet>

    ghost predicate Shape()
      reads this`queue, this`contents, this`cells, this`sets, cells, sets
    {
      Holds(queue, contents, cells, sets)
    }

    ghost predicate Indexed()
      reads this`queue, this`contents, this`authors, this`works, this`size
    {
      && |queue| == |contents|
      && authors == IndexOf(queue, contents, AuthorEdge)
      && works == IndexOf(queue, contents, WorkEdge)
      && size == Wrap32(TotalChildren(contents))
    }

    ghost predicate Valid()
      reads this, cells, sets
    {
      Shape() && Indexed() && contents == Grouped(log)
    }

    constructor ()
      ensures Valid() && log == [] && contents == [] && queue == [] && cells == {} && sets == {}
    {
      queue, works, authors, size := [], map[], map[], 0;
      contents, log, cells, sets := [], [], {}, {};
    }

    /** The indexes point at exactly the queued author and work edges, at most one per parent. */
    lemma IndexesAreExact(kind: EdgeKind)
      requires Valid() && kind != RefreshDone
      ensures var index := if kind == AuthorEdge then authors else works;
              && (forall p :: p in index ==>
                  index[p] in queue && index[p].edge.kind == kind && index[p].edge.parentID == p)
              && (forall i :: 0 <= i < |queue| && queue[i].edge.kind == kind ==>
                                queue[i].edge.parentID in index && index[queue[i].edge.parentID] == queue[i])
    {
      var index := if kind == AuthorEdge then authors else works;
      GroupsAreDistinct(log);
      forall p | p in index
        ensures index[p] in queue && index[p].edge.kind == kind && index[p].edge.parentID == p
      {
        var i := IndexedIsQueued(queue, contents, kind, p);
        assert queue[i].edge.Value() == contents[i];
      }
      forall i | 0 <= i < |queue| && queue[i].edge.kind == kind
        ensures queue[i].edge.parentID in index && index[queue[i].edge.parentID] == queue[i]
      {
        assert queue[i].edge.Value() == contents[i];
        QueuedIsIndexed(queue, contents, kind, i);
      }
    }

    method Push(e: SharedEdge)
      requires Valid()
      modifies this, cells
      ensures Valid()
      ensures log == old(log) + [old(e.Value())]
      ensures contents == Enqueued(old(contents), old(e.Value()))
      ensures fresh(cells - old(cells))
      ensures forall s :: s in sets ==> s in old(sets) || s == e.childIDs || fresh(s)
    {
      ghost var v := e.Value();
      GroupsAreDistinct(log);
      PushRefinesAppend(log, v);
      Enqueue(e);
      log := log + [v];
    }

    /** Queue an edge or merge it into its group. */
    method Enqueue(e: SharedEdge)
      requires Shape() && Indexed() && OnePerGroup(contents)
      modifies this`queue, this`authors, this`works, this`size, this`contents, this`cells, this`sets, cells
      ensures Shape() && Indexed()
      ensures contents == Enqueued(old(contents), old(e.Value()))
      ensures fresh(cells - old(cells))
      ensures forall s :: s in sets ==> s in old(sets) || s == e.childIDs || fresh(s)
    {
      var existing: Cell? := null;
      match e.kind {
        case AuthorEdge =>
          if e.parentID in authors { existing := authors[e.parentID]; }
        case WorkEdge =>
          if e.parentID in works { existing := works[e.parentID]; }
        case RefreshDone =>
      }
      if existing != null {
        ghost var i := ExistingMerges(existing, e);
        MergeInto(existing, e, i);
      } else {
        NewAppends(e);
        Append(e);
      }
    }

    lemma ExistingMerges(cell: Cell, e: SharedEdge) returns (i: nat)
      requires Indexed() && OnePerGroup(contents)
      requires || (e.kind == AuthorEdge && e.parentID in authors && authors[e.parentID] == cell)
               || (e.kind == WorkEdge && e.parentID in works && works[e.parentID] == cell)
      ensures i < |queue| && queue[i] == cell
      ensures Enqueued(contents, e.Value()) ==
              contents[i := contents[i].(childIDs := contents[i].childIDs + e.childIDs.elems)]
    {
      i := IndexedIsQueued(queue, contents, e.kind, e.parentID);
      EnqueuedMerges(contents, e.Value(), i);
    }

    lemma NewAppends(e: SharedEdge)
      requires Indexed() && OnePerGroup(contents)
      requires e.kind == AuthorEdge ==> e.parentID !in authors
      requires e.kind == WorkEdge ==> e.parentID !in works
      ensures Enqueued(contents, e.Value()) == contents + [e.Value()]
    {
      forall j | 0 <= j < |contents| && SameGroup(contents[j], e.Value())
        ensures false
      {
        QueuedIsIndexed(queue, contents, e.kind, j);
      }
      EnqueuedAppends(contents, e.Value());
    }

    /** Merge an edge into the queued cell of its group. */
    method MergeInto(cell: Cell, e: SharedEdge, ghost i: nat)
      requires Shape() && Indexed()
      requires i < |queue| && queue[i] == cell
      modifies this`size, this`contents, this`sets, cell
      ensures Shape() && Indexed()
      ensures contents == old(contents)[i := old(contents[i].(childIDs := contents[i].childIDs + e.childIDs.elems))]
      ensures forall s :: s in sets ==> s in old(sets) || fresh(s)
    {
      var existing := cell.edge.childIDs;
      assert cell.edge.Value() == contents[i];
      var combined := Union(existing, e.childIDs);
      ghost var merged := contents[i := contents[i].(childIDs := combined.elems)];
      Regrow(existing, combined, i, merged);
      Install(cell, combined, i, merged);
    }

    /** Count the children of a queued edge anew; its place in the indexes stays. */
    method Regrow(existing: IDSet, combined: IDSet, ghost i: nat, ghost merged: seq<Edge>)
      requires Indexed() && i < |contents| && contents[i].childIDs == existing.elems
      requires merged == contents[i := contents[i].(childIDs := combined.elems)]
      modifies this`size
      ensures authors == IndexOf(queue, merged, AuthorEdge) && works == IndexOf(queue, merged, WorkEdge)
      ensures size == Wrap32(TotalChildren(merged))
    {
      SizeAfterMerge(size, contents, i, combined.elems);
      IndexAfterMerge(queue, contents, merged, AuthorEdge);
      IndexAfterMerge(queue, contents, merged, WorkEdge);
      size := Wrap32(size + Wrap32(|combined.elems| - |existing.elems|));
    }

    /** Let a queued cell refer to another child set. */
    method Install(cell: Cell, children: IDSet, ghost i: nat, ghost merged: seq<Edge>)
      requires Shape() && i < |queue| && queue[i] == cell
      requires |queue| == |contents| && merged == contents[i := contents[i].(childIDs := children.elems)]
      modifies this`contents, this`sets, cell
      ensures Shape()
      ensures contents == merged && sets == old(sets) + {children}
    {
      cell.edge := cell.edge.(childIDs := children);
      sets := sets + {children};
      contents := merged;
    }

    /** Queue an edge that has no group in the queue yet. */
    method Append(e: SharedEdge)
      requires Shape() && Indexed()
      modifies this`queue, this`authors, this`works, this`size, this`contents, this`cells, this`sets
      ensures Shape() && Indexed()
      ensures contents == old(contents) + [old(e.Value())]
      ensures fresh(cells - old(cells))
      ensures sets == old(sets) + {e.childIDs}
    {
      Grow(e);
      var cell := new Cell(e);
      Link(cell);
    }

    /** Count the children of an edge about to be queued. */
    method Grow(e: SharedEdge)
      requires size == Wrap32(TotalChildren(contents))
      modifies this`size
      ensures size == Wrap32(TotalChildren(contents + [e.Value()]))
    {
      SizeAfterAppend(size, contents, e.Value());
      size := Wrap32(size + Wrap32(|e.childIDs.elems|));
    }

    /** Link a new cell into the queue and its index. */
    method Link(cell: Cell)
      requires Shape() && cell !in queue
      requires authors == IndexOf(queue, contents, AuthorEdge) && works == IndexOf(queue, contents, WorkEdge)
      modifies this`queue, this`authors, this`works, this`contents, this`cells, this`sets
      ensures Shape() && |queue| == |contents|
      ensures authors == IndexOf(queue, contents, AuthorEdge) && works == IndexOf(queue, contents, WorkEdge)
      ensures queue == old(queue) + [cell] && cells == old(cells) + {cell}
      ensures contents == old(contents) + [cell.edge.Value()] && sets == old(sets) + {cell.edge.childIDs}
    {
      HoldsAfterAppend(queue, contents, cells, sets, cell);
      Register(cell);
      contents := contents + [cell.edge.Value()];
      sets := sets + {cell.edge.childIDs};
      queue, cells := queue + [cell], cells + {cell};
    }

    /** Enter a cell about to be linked in the index of its kind. */
    method Register(cell: Cell)
      requires |queue| == |contents|
      requires authors == IndexOf(queue, contents, AuthorEdge) && works == IndexOf(queue, contents, WorkEdge)
      modifies this`authors, this`works
      ensures authors == IndexOf(queue + [cell], contents + [cell.edge.Value()], AuthorEdge)
      ensures works == IndexOf(queue + [cell], contents + [cell.edge.Value()], WorkEdge)
    {
      IndexAfterAppend(queue, contents, AuthorEdge, cell, cell.edge.Value());
      IndexAfterAppend(queue, contents, WorkEdge, cell, cell.edge.Value());
      match cell.edge.kind {
        case AuthorEdge => authors := authors[cell.edge.parentID := cell];
        case WorkEdge => works := works[cell.edge.parentID := cell];
        case RefreshDone =>
      }
    }

    method Peek() returns (e: Option<SharedEdge>)
      requires Valid()
      ensures e.Some? <==> contents != []
      ensures e.Some? ==> e.value == queue[0].edge && e.value.Value() == contents[0]
    {
      if |queue| == 0 {
        e := None;
      } else {
        e := Some(queue[0].edge);
      }
    }

    /** The caller waits while the buffer is empty. */
    method Pop() returns (e: SharedEdge)
      requires Valid() && queue != []
      modifies this
      ensures Valid()
      ensures e == old(queue[0].edge) && e.Value() == old(contents)[0]
      ensures queue == old(queue[1..]) && contents == old(contents)[1..] && cells == old(cells) && sets == old(sets)
      ensures old(log) != [] && log == Undelivered(old(log))
    {
      GroupsAreDistinct(log);
      PopRefinesRemoval(log);
      log := Undelivered(log);
      e := TakeFirst();
    }

    /** Take the first cell off the queue and out of its index. */
    method TakeFirst() returns (e: SharedEdge)
      requires Shape() && Indexed() && OnePerGroup(contents) && queue != []
      modifies this`queue, this`authors, this`works, this`size, this`contents
      ensures Shape() && Indexed()
      ensures e == old(queue[0].edge) && e.Value() == old(contents)[0]
      ensures queue == old(queue[1..]) && contents == old(contents)[1..]
    {
      e := First();
      Shrink(e);
      Unlink(e.kind, e.parentID);
      Detach();
    }

    method First() returns (e: SharedEdge)
      requires Shape() && queue != []
      ensures contents != [] && e == queue[0].edge && e.Value() == contents[0]
    {
      e := queue[0].edge;
    }

    method Detach()
      requires Shape() && queue != []
      modifies this`queue, this`contents
      ensures Shape() && |queue| == |contents|
      ensures queue == old(queue[1..]) && contents == old(contents)[1..]
    {
      HoldsAfterPop(queue, contents, cells, sets);
      queue, contents := queue[1..], contents[1..];
    }

    /** Discount the children of the first edge. */
    method Shrink(e: SharedEdge)
      requires contents != [] && e.Value() == contents[0] && size == Wrap32(TotalChildren(contents))
      modifies this`size
      ensures size == Wrap32(TotalChildren(contents[1..]))
    {
      SizeAfterPop(size, contents);
      size := Wrap32(size - Wrap32(|e.childIDs.elems|));
    }

    /** Take the first cell, about to leave the queue, out of its index. */
    method Unlink(kind: EdgeKind, parentID: ID)
      requires |queue| == |contents| && OnePerGroup(contents) && queue != []
      requires authors == IndexOf(queue, contents, AuthorEdge) && works == IndexOf(queue, contents, WorkEdge)
      requires kind == contents[0].kind && parentID == contents[0].parentID
      modifies this`authors, this`works
      ensures authors == IndexOf(queue[1..], contents[1..], AuthorEdge)
      ensures works == IndexOf(queue[1..], contents[1..], WorkEdge)
    {
      IndexAfterPop(queue, contents, AuthorEdge);
      IndexAfterPop(queue, contents, WorkEdge);
      match kind {
        case AuthorEdge => authors := authors - {parentID};
        case WorkEdge => works := works - {parentID};
        case RefreshDone =>
      }
    }

    /** The children waiting are the relationships pushed and not delivered yet. */
    lemma WaitingRelationships()
      requires Valid() && ChildlessMarkers(contents)
      ensures TotalChildren(contents) == |Triples(log)|
    {
      GroupsAreDistinct(log);
      GroupedTriples(log);
      WaitingAreDistinct(contents);
    }

    method Len() returns (n: int)
      requires Valid()
      ensures n == Wrap32(TotalChildren(contents))
      ensures ChildlessMarkers(contents) ==> n == Wrap32(|Triples(log)|)
    {
      if ChildlessMarkers(contents) { WaitingRelationships(); }
      n := size;
    }
  }

  /** What one round of the select statement turns out to do. */
  datatype Choice = Receive(e: SharedEdge) | HandOver

  ghost function EventOf(c: Choice): Event
    reads if c.Receive? then {c.e.childIDs} else {}
  {
    if c.Receive? then Push(c.e.Value()) else Pop
  }

  /** One round: peek, then either buffer what the producer sent or hand over the value peeked and pop. */
  method Round(buf: EdgeBuf, choice: Choice) returns (handed: Option<SharedEdge>)
    requires buf.Valid()
    modifies buf, buf.cells
    ensures buf.Valid()
    ensures fresh(buf.cells - old(buf.cells))
    ensures choice.Receive? ==> handed == None && buf.log == old(buf.log) + [old(choice.e.Value())]
    ensures choice.HandOver? && old(buf.log) == [] ==> handed == None && buf.log == old(buf.log)
    ensures choice.HandOver? && old(buf.log) != [] ==>
              && handed.Some? && handed.value.Value() == Grouped(old(buf.log))[0]
              && buf.log == Undelivered(old(buf.log))
  {
    handed := None;
    var next := buf.Peek();
    match choice {
      case Receive(e) =>
        buf.Push(e);
      case HandOver =>
        // With an empty buffer there is no one to hand over to.
        if next.Some? {
          var popped := buf.Pop();
          handed := next;
        }
    }
  }

  /** One round as an event of the run of pushes and pops. */
  method RoundOfRun(buf: EdgeBuf, choice: Choice, ghost run: Run, ghost event: Event)
    returns (handed: Option<SharedEdge>)
    requires buf.Valid() && run.Valid() && buf.log == run.Log() && event == EventOf(choice)
    modifies buf, buf.cells
    ensures buf.Valid() && buf.log == Next(run, event).Log()
    ensures fresh(buf.cells - old(buf.cells))
    ensures Next(run, event).delivered == run.delivered + if handed.Some? then [handed.value.Value()] else []
  {
    NextDoes(run, event);
    handed := Round(buf, choice);
  }

  /** The same, after the rounds that handed over `handed`. */
  method Turn(buf: EdgeBuf, choice: Choice, handed: seq<SharedEdge>, ghost run: Run, ghost event: Event)
    returns (later: seq<SharedEdge>)
    requires buf.Valid() && run.Valid() && buf.log == run.Log() && event == EventOf(choice)
    requires |handed| == |run.delivered|
    requires forall i :: 0 <= i < |handed| ==> handed[i].Value() == run.delivered[i]
    modifies buf, buf.cells
    ensures buf.Valid() && buf.log == Next(run, event).Log()
    ensures fresh(buf.cells - old(buf.cells))
    ensures |later| == |Next(run, event).delivered|
    ensures forall i :: 0 <= i < |later| ==> later[i].Value() == Next(run, event).delivered[i]
  {
    var next := RoundOfRun(buf, choice, run, event);
    later := if next.Some? then handed + [next.value] else handed;
  }

  /**
   The accumulator in front of a fresh buffer, while its producer is open: what it hands over
   and what it still holds are those of the run of pushes and pops its choices amount to. No
   child set changes, so edges handed over early keep the value they were handed over with.
   */
  method Accumulate(choices: seq<Choice>, ghost events: seq<Event>) returns (buf: EdgeBuf, handed: seq<SharedEdge>)
    requires |events| == |choices| && forall i :: 0 <= i < |choices| ==> events[i] == EventOf(choices[i])
    ensures fresh(buf) && buf.Valid() && buf.log == Play(events).Log()
    ensures |handed| == |Play(events).delivered|
    ensures forall i :: 0 <= i < |handed| ==> handed[i].Value() == Play(events).delivered[i]
  {
    buf := new EdgeBuf();
    handed := [];
    ghost var run := Play([]);
    for n := 0 to |choices|
      invariant fresh(buf) && fresh(buf.cells) && buf.Valid()
      invariant run == Play(events[..n]) && buf.log == run.Log()
      invariant |handed| == |run.delivered|
      invariant forall i :: 0 <= i < |handed| ==> handed[i].Value() == run.delivered[i]
    {
      PlayNext(events, n);
      handed := Turn(buf, choices[n], handed, run, events[n]);
      run := Play(events[..n + 1]);
    }
    assert events[..|choices|] == events;
  }

  /** A plain first-in first-out buffer. */
  class SliceBuffer<T> {
    var items: seq<T>

    constructor ()
      ensures items == []
    {
      items := [];
    }

    method Pop() returns (t: T)
      requires items != []
      modifies this
      ensures t == old(items[0]) && items == old(items[1..])
    {
      t := items[0];
      items := items[1..];
    }

    method Push(t: T)
      modifies this
      ensures items == old(items) + [t]
    {
      items := items + [t];
    }

    method Peek() returns (t: Option<T>)
      ensures t == if items == [] then None else Some(items[0])
    {
      t := if |items| == 0 then None else Some(items[0]);
    }
  }

  datatype Arrival<T> = Arrive(t: T) | Take

  ghost function Arrived<T>(choices: seq<Arrival<T>>): seq<T> {
    if choices == [] then []
    else
      var c := choices[|choices| - 1];
      Arrived(choices[..|choices| - 1]) + if c.Arrive? then [c.t] else []
  }

  /** The same accumulator over a plain buffer conserves the stream: consumed, then buffered, is produced. */
  method AccumulatePlain<T>(choices: seq<Arrival<T>>) returns (buf: SliceBuffer<T>, handed: seq<T>)
    ensures handed + buf.items == Arrived(choices)
  {
    buf := new SliceBuffer();
    handed := [];
    for n := 0 to |choices|
      invariant fresh(buf)
      invariant handed + buf.items == Arrived(choices[..n])
    {
      assert choices[..n + 1][..n] == choices[..n];
      var next := buf.Peek();
      match choices[n] {
        case Arrive(t) =>
          buf.Push(t);
        case Take =>
          if next.Some? {
            var popped := buf.Pop();
            handed := handed + [next.value];
          }
      }
    }
    assert choices[..|choices|] == choices;
  }
}
