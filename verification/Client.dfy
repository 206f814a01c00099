/** The batching client and its queue of batches. */
module Client {
  import opened Collections
  import opened Options
  import opened GraphQL
  import opened QueryMerging
  import opened Batching

  /** What one flush sends, and the callers who wait for the answer: their fields by alias. */
  datatype Request = Request(document: Document, vars: map<string, Json>, opName: string,
                             subscribers: map<string, string>)

  datatype BatchedQuery = BatchedQuery(builder: QueryBuilder, subscribers: map<string, string>)

  /** Every entry of a batch has its subscriber. */
  ghost predicate Subscribed(subscribers: map<string, string>, entries: seq<Entry>) {
    && AllSimple(entries)
    && subscribers == Subscribers(entries)
    && |subscribers| == |entries|
  }

  lemma {:induction false} SubscribedNext(subscribers: map<string, string>, entries: seq<Entry>, e: Entry)
    requires Subscribed(subscribers, entries) && Simple(e.defs) && e.id !in subscribers
    ensures Subscribed(subscribers[e.id := FieldName(e)], entries + [e])
    ensures AddAll(entries + [e]) == AddDefs(AddAll(entries), e.id, e.defs, e.vars)
  {
    assert (entries + [e])[..|entries|] == entries;
    KeysAfterUpdate(subscribers, e.id, FieldName(e));
  }

  /** A queued batch as a value: what its builder holds and whom its callers are. */
  ghost predicate BatchIs(batch: BatchedQuery, entries: seq<Entry>, view: Built) {
    view == AddAll(entries) && Subscribed(batch.subscribers, entries)
  }

  ghost predicate AllBatches(queue: seq<BatchedQuery>, waiting: seq<seq<Entry>>, views: seq<Built>) {
    && |queue| == |waiting| == |views|
    && forall i {:trigger BatchIs(queue[i], waiting[i], views[i])} :: 0 <= i < |queue| ==>
         BatchIs(queue[i], waiting[i], views[i])
  }

  lemma BatchAt(queue: seq<BatchedQuery>, waiting: seq<seq<Entry>>, views: seq<Built>, i: nat)
    requires AllBatches(queue, waiting, views) && i < |queue|
    ensures BatchIs(queue[i], waiting[i], views[i]) && |queue[i].subscribers| == |waiting[i]|
  {
    assert BatchIs(queue[i], waiting[i], views[i]);
  }

  lemma BatchesWith(queue: seq<BatchedQuery>, waiting: seq<seq<Entry>>, views: seq<Built>, batch: BatchedQuery,
                    entries: seq<Entry>, view: Built)
    requires AllBatches(queue, waiting, views) && BatchIs(batch, entries, view)
    ensures AllBatches(queue + [batch], waiting + [entries], views + [view])
  {
    forall i | 0 <= i < |queue|
      ensures BatchIs((queue + [batch])[i], (waiting + [entries])[i], (views + [view])[i])
    {
      BatchAt(queue, waiting, views, i);
    }
  }

  lemma BatchesWithout(queue: seq<BatchedQuery>, waiting: seq<seq<Entry>>, views: seq<Built>)
    requires AllBatches(queue, waiting, views) && queue != []
    ensures AllBatches(queue[1..], waiting[1..], views[1..])
    ensures var n := |queue| - 1; AllBatches(queue[..n], waiting[..n], views[..n])
  {
    var n := |queue| - 1;
    forall i | 0 <= i < n
      ensures BatchIs(queue[1..][i], waiting[1..][i], views[1..][i])
              && BatchIs(queue[..n][i], waiting[..n][i], views[..n][i])
    {
      BatchAt(queue, waiting, views, i);
      BatchAt(queue, waiting, views, i + 1);
    }
  }

  lemma NewBatch(builder: QueryBuilder)
    ensures BatchIs(BatchedQuery(builder, map[]), [], EMPTY)
  {
  }

  class BatchedClient {
    const batchSize: nat
    const cache: FragmentCache
    var queue: seq<BatchedQuery>
    ghost var waiting: seq<seq<Entry>>
    ghost var views: seq<Built>

    ghost function Builders(): set<QueryBuilder>
      reads this`queue
    {
      set b | b in queue :: b.builder
    }

    /** Each builder holds exactly the queries waiting in its batch, and the bodies of their fragments are known. */
    ghost predicate Matches()
      reads this, Builders(), cache
    {
      && AllBatches(queue, waiting, views)
      && (forall i, j :: 0 <= i < j < |queue| ==> queue[i].builder != queue[j].builder)
      && (forall i :: 0 <= i < |queue| ==>
          queue[i].builder.View() == views[i] && views[i].fragments <= cache.texts.Keys)
    }

    ghost predicate Valid()
      reads this, Builders(), cache
    {
      && Matches()
      && forall i :: 0 <= i < |waiting| ==> waiting[i] != []
    }

    constructor (batchSize: nat, cache: FragmentCache)
      ensures Valid() && this.batchSize == batchSize && this.cache == cache && waiting == [] && queue == []
    {
      this.batchSize, this.cache := batchSize, cache;
      queue, waiting, views := [], [], [];
    }

    /** Add a query to the youngest batch, or to a new one if that is full. */
    method Enqueue(e: Entry)
      requires Valid() && Simple(e.defs) && FreshFor(e.id, e.defs)
      requires forall i :: 0 <= i < |queue| ==> e.id !in queue[i].subscribers
      modifies this`queue, this`waiting, this`views, cache, Builders()
      ensures Valid() && cache.texts == Texts(old(cache.texts), e.defs)
      ensures waiting == Enqueued(old(waiting), e, batchSize)
      ensures forall i :: 0 <= i < |queue| ==> StoodAt(old(queue), i, queue[i].builder) || fresh(queue[i].builder)
    {
      EnqueuedAddsToYoungest(waiting, e);
      MakeRoom(e.id);
      AddToYoungest(e);
    }

    /** Start a new batch unless the youngest one has room. */
    method MakeRoom(id: string)
      requires Matches() && forall i :: 0 <= i < |queue| ==> id !in queue[i].subscribers
      modifies this`queue, this`waiting, this`views
      ensures Matches() && queue != [] && id !in queue[|queue| - 1].subscribers
      ensures waiting == WithRoom(old(waiting))
      ensures queue == old(queue) || (queue[..|queue| - 1] == old(queue) && fresh(queue[|queue| - 1].builder))
    {
      if |queue| > 0 { BatchAt(queue, waiting, views, |queue| - 1); }
      if |queue| == 0 || |queue[|queue| - 1].subscribers| >= batchSize {
        OpenBatch();
      }
    }

    ghost function WithRoom(waiting: seq<seq<Entry>>): (room: seq<seq<Entry>>)
      ensures room != []
    {
      if waiting == [] || |waiting[|waiting| - 1]| >= batchSize then waiting + [[]] else waiting
    }

    /** The builder stood at this place before. */
    ghost predicate StoodAt(before: seq<BatchedQuery>, i: nat, builder: QueryBuilder) {
      i < |before| && before[i].builder == builder
    }

    lemma EnqueuedAddsToYoungest(waiting: seq<seq<Entry>>, e: Entry)
      ensures var room := WithRoom(waiting);
              Enqueued(waiting, e, batchSize) == room[..|room| - 1] + [room[|room| - 1] + [e]]
      ensures (forall i :: 0 <= i < |waiting| ==> waiting[i] != []) ==>
                forall i :: 0 <= i < |Enqueued(waiting, e, batchSize)| ==> Enqueued(waiting, e, batchSize)[i] != []
    {
      assert [] + [e] == [e];
    }

    method OpenBatch()
      requires Matches()
      modifies this`queue, this`waiting, this`views
      ensures Matches() && waiting == old(waiting) + [[]]
      ensures |queue| == |old(queue)| + 1 && fresh(queue[|queue| - 1].builder)
              && queue[|queue| - 1].subscribers == map[]
      ensures queue[..|queue| - 1] == old(queue)
    {
      var builder := new QueryBuilder();
      var batch := BatchedQuery(builder, map[]);
      NewBatch(builder);
      BatchesWith(queue, waiting, views, batch, [], EMPTY);
      queue, waiting, views := queue + [batch], waiting + [[]], views + [EMPTY];
    }

    method AddToYoungest(e: Entry)
      requires Matches() && queue != []
      requires Simple(e.defs) && FreshFor(e.id, e.defs) && e.id !in queue[|queue| - 1].subscribers
      modifies this`queue, this`waiting, this`views, cache, queue[|queue| - 1].builder
      ensures Matches() && cache.texts == Texts(old(cache.texts), e.defs)
      ensures waiting == old(waiting[..|waiting| - 1] + [waiting[|waiting| - 1] + [e]])
      ensures |queue| == |old(queue)| && queue[..|queue| - 1] == old(queue)[..|queue| - 1]
      ensures queue[|queue| - 1].builder == old(queue)[|queue| - 1].builder
    {
      var last := |queue| - 1;
      var front := queue[..last];
      ghost var before, earlier := waiting[..last], views[..last];
      FrontMatches(front, before, earlier);
      Extend(front, queue[last], e, before, earlier, waiting[last], views[last]);
    }

    /** Merge a query into a batch, and put that behind the front of the queue. */
    method Extend(front: seq<BatchedQuery>, batch: BatchedQuery, e: Entry, ghost before: seq<seq<Entry>>,
                  ghost earlier: seq<Built>, ghost entries: seq<Entry>, ghost view: Built)
      requires AllBatches(front, before, earlier) && BatchIs(batch, entries, view)
      requires forall i, j :: 0 <= i < j < |front| ==> front[i].builder != front[j].builder
      requires forall i :: 0 <= i < |front| ==>
                 && front[i].builder != batch.builder
                 && front[i].builder.View() == earlier[i] && earlier[i].fragments <= cache.texts.Keys
      requires batch.builder.View() == view && view.fragments <= cache.texts.Keys
      requires Simple(e.defs) && FreshFor(e.id, e.defs) && e.id !in batch.subscribers
      modifies this`queue, this`waiting, this`views, cache, batch.builder
      ensures Matches() && cache.texts == Texts(old(cache.texts), e.defs)
      ensures waiting == before + [entries + [e]]
      ensures |queue| == |front| + 1 && queue[..|front|] == front && queue[|front|].builder == batch.builder
    {
      var extended, extendedView := Subscribe(batch, e, entries, view, front, earlier);
      PutLast(front, extended, before, earlier, entries + [e], extendedView);
    }

    /** Put a batch behind the front of the queue. */
    method PutLast(front: seq<BatchedQuery>, batch: BatchedQuery,
                   ghost before: seq<seq<Entry>>, ghost earlier: seq<Built>, ghost entries: seq<Entry>,
                   ghost view: Built)
      requires AllBatches(front, before, earlier) && BatchIs(batch, entries, view)
      requires forall i, j :: 0 <= i < j < |front| ==> front[i].builder != front[j].builder
      requires forall i :: 0 <= i < |front| ==>
                 && front[i].builder != batch.builder
                 && front[i].builder.View() == earlier[i] && earlier[i].fragments <= cache.texts.Keys
      requires batch.builder.View() == view && view.fragments <= cache.texts.Keys
      modifies this`queue, this`waiting, this`views
      ensures Matches()
      ensures queue == front + [batch] && waiting == before + [entries]
    {
      queue := front + [batch];
      waiting, views := before + [entries], earlier + [view];
      BatchesWith(front, before, earlier, batch, entries, view);
    }

    /** The last batch, and the front of the queue apart from it. */
    lemma FrontMatches(front: seq<BatchedQuery>, before: seq<seq<Entry>>, earlier: seq<Built>)
      requires Matches() && queue != []
      requires var last := |queue| - 1; front == queue[..last] && before == waiting[..last] && earlier == views[..last]
      ensures AllBatches(front, before, earlier)
      ensures forall i, j :: 0 <= i < j < |front| ==> front[i].builder != front[j].builder
      ensures forall i :: 0 <= i < |front| ==>
                && front[i].builder != queue[|queue| - 1].builder
                && front[i].builder.View() == earlier[i] && earlier[i].fragments <= cache.texts.Keys
      ensures var last := |queue| - 1;
              BatchIs(queue[last], waiting[last], views[last]) && queue[last].builder.View() == views[last]
    {
      BatchAt(queue, waiting, views, |queue| - 1);
      BatchesWithout(queue, waiting, views);
    }

    /** Merge a query into a batch; other batches are left alone. */
    method Subscribe(batch: BatchedQuery, e: Entry, ghost entries: seq<Entry>, ghost view: Built,
                     ghost others: seq<BatchedQuery>, ghost views: seq<Built>)
      returns (extended: BatchedQuery, ghost view': Built)
      requires |others| == |views| && forall i :: 0 <= i < |others| ==>
                 others[i].builder != batch.builder && others[i].builder.View() == views[i]
                   && views[i].fragments <= cache.texts.Keys
      requires BatchIs(batch, entries, view) && batch.builder.View() == view && view.fragments <= cache.texts.Keys
      requires Simple(e.defs) && FreshFor(e.id, e.defs) && e.id !in batch.subscribers
      modifies cache, batch.builder
      ensures extended.builder == batch.builder && BatchIs(extended, entries + [e], view')
      ensures batch.builder.View() == view' && view'.fragments <= cache.texts.Keys
      ensures cache.texts == Texts(old(cache.texts), e.defs)
      ensures forall i :: 0 <= i < |others| ==>
                && others[i].builder != extended.builder
                && others[i].builder.View() == views[i] && views[i].fragments <= cache.texts.Keys
    {
      SubscribedNext(batch.subscribers, entries, e);
      TextsKeep(cache.texts, e.defs);
      var field := batch.builder.Add(cache, e.id, e.defs, e.vars);
      extended := batch.(subscribers := batch.subscribers[e.id := field]);
      view' := batch.builder.View();
    }

    /** Send the oldest batch, if there is one. */
    method Flush() returns (request: Option<Request>)
      requires Valid()
      modifies this`queue, this`waiting, this`views
      ensures Valid()
      ensures request == None <==> old(waiting) == []
      ensures waiting == if old(waiting) == [] then [] else old(waiting)[1..]
      ensures queue == if old(queue) == [] then [] else old(queue)[1..]
      ensures request.Some? ==> IsRequestFor(request.value, old(waiting)[0], cache.texts)
    {
      request := None;
      if |queue| > 0 {
        var oldest := RequestOf(queue[0], waiting[0], views[0]);
        request := Some(oldest);
        BatchesWithout(queue, waiting, views);
        queue, waiting, views := queue[1..], waiting[1..], views[1..];
      }
    }

    /** Build the request for the oldest batch. */
    method RequestOf(batch: BatchedQuery, ghost entries: seq<Entry>, ghost view: Built) returns (request: Request)
      requires Valid() && queue != [] && batch == queue[0] && entries == waiting[0] && view == views[0]
      ensures IsRequestFor(request, entries, cache.texts)
    {
      BatchAt(queue, waiting, views, 0);
      BuiltSelections(entries);
      var document, vars := batch.builder.Build(cache);
      request := Request(document, vars, document.op.name, batch.subscribers);
    }
  }

  /** What `Flush` sends for a batch whose fragments are known. */
  ghost predicate IsRequestFor(request: Request, batch: seq<Entry>, texts: map<string, Fragment>) {
    && AllSimple(batch) && AddAll(batch).op.Some?
    && request ==
         Request(BuildDocument(AddAll(batch), texts), AddAll(batch).vars, AddAll(batch).op.value.name,
                 Subscribers(batch))
  }

  /** What the k-th caller of a batch is to receive. */
  ghost function Due(server: Server, root: int, batch: seq<Entry>, rank: string -> nat, bound: nat, k: nat): Reply
    requires AllSimple(batch) && k < |batch|
  {
    if AllVarFree(batch, rank, bound) then AloneReply(server, root, batch[k], rank, bound)
    else Data(map[FieldName(batch[k]) := Null])
  }

  lemma RequestIsAnswered(server: Server, root: int, request: Request, batch: seq<Entry>, texts: map<string, Fragment>,
                          rank: string -> nat, bound: nat, response: Option<map<string, Json>>, k: nat)
    requires IsRequestFor(request, batch, texts) && Ready(texts, batch, rank, bound) && k < |batch|
    requires response == Respond(server, root, request.document, request.vars, rank, bound)
    ensures batch[k].id in request.subscribers
    ensures Received(batch[k].id, request.subscribers[batch[k].id], response) ==
              Due(server, root, batch, rank, bound, k)
  {
    BatchIsAnswered(server, root, texts, batch, rank, bound, k);
  }

  /**
   The goroutine of a flush: with the server's response to the request, every caller of the batch
   gets one message, the server's answer to its query alone, or null if the batch was rejected.
   */
  method Deliver(request: Request, response: Option<map<string, Json>>, ghost server: Server, ghost root: int,
                 ghost batch: seq<Entry>, ghost texts: map<string, Fragment>, ghost rank: string -> nat,
                 ghost bound: nat)
    returns (inboxes: map<string, seq<Reply>>)
    requires IsRequestFor(request, batch, texts) && Ready(texts, batch, rank, bound)
    requires response == Respond(server, root, request.document, request.vars, rank, bound)
    ensures inboxes.Keys == request.subscribers.Keys
    ensures forall k :: 0 <= k < |batch| ==>
              batch[k].id in inboxes && inboxes[batch[k].id] == [Due(server, root, batch, rank, bound, k)]
  {
    match response {
      case Some(data) =>
        inboxes := Route(request.subscribers, [], None, data);
      case None =>
        inboxes := Route(request.subscribers, [FieldError("", INVALID)], Some(INVALID), map[]);
    }
    forall k | 0 <= k < |batch|
      ensures batch[k].id in inboxes && inboxes[batch[k].id] == [Due(server, root, batch, rank, bound, k)]
    {
      RequestIsAnswered(server, root, request, batch, texts, rank, bound, response, k);
    }
  }

  /**
   The same goroutine, whatever comes back: if the request failed as a whole, every caller of the batch
   gets that failure. A caller at whose alias an error stands gets the first such error, and every
   other one its own data, under its own field.
   */
  method DeliverOutcome(request: Request, errors: seq<FieldError>, failure: Option<string>, data: map<string, Json>,
                        ghost batch: seq<Entry>, ghost texts: map<string, Fragment>)
    returns (inboxes: map<string, seq<Reply>>)
    requires IsRequestFor(request, batch, texts) && FreshIds(batch)
    ensures forall k :: 0 <= k < |batch| ==> batch[k].id in inboxes
    ensures errors == [] && failure.Some? ==>
              forall k :: 0 <= k < |batch| ==> inboxes[batch[k].id] == [Failed(failure.value)]
    ensures forall k, i :: 0 <= k < |batch| && StandsFirst(errors, i, batch[k].id) ==>
              inboxes[batch[k].id] == [Failed(errors[i].error)]
    ensures errors != [] || failure == None ==>
              forall k :: 0 <= k < |batch| && (forall i :: 0 <= i < |errors| ==> errors[i].path != batch[k].id) ==>
                inboxes[batch[k].id] ==
                [Data(map[FieldName(batch[k]) := if batch[k].id in data then data[batch[k].id] else Null])]
  {
    inboxes := Route(request.subscribers, errors, failure, data);
    forall k | 0 <= k < |batch|
      ensures batch[k].id in request.subscribers && request.subscribers[batch[k].id] == FieldName(batch[k])
    {
      SubscriberAt(batch, k);
    }
  }
}
