/** A client at work: a script of enqueues and flushes played on the object. */
module Sessions {
  import opened Options
  import opened GraphQL
  import opened QueryMerging
  import opened Batching
  import opened Client

  /** The request is the one for the batch that the flush at place `i` of the script sends. */
  ghost predicate SentBy(texts: map<string, Fragment>, events: seq<Event>, batchSize: nat, i: nat, request: Request) {
    && i < |events| && events[i].Flush? && Play([], events[..i], batchSize).queue != []
    && IsRequestFor(request, Play([], events[..i], batchSize).queue[0], AllTexts(texts, Arrivals(events[..i])))
  }

  /** The requests are those for the batches sent, each by the flush at its place. */
  ghost predicate Sends(texts: map<string, Fragment>, events: seq<Event>, batchSize: nat, places: seq<nat>,
                        requests: seq<Request>) {
    && |requests| == |places|
    && forall j :: 0 <= j < |requests| ==> SentBy(texts, events, batchSize, places[j], requests[j])
  }

  lemma {:induction false} PlayNext(events: seq<Event>, i: nat, batchSize: nat)
    requires i < |events|
    ensures Play([], events[..i + 1], batchSize) == Next(Play([], events[..i], batchSize), events[i], batchSize)
    ensures |Play([], events[..i + 1], batchSize).sent| ==
            |Play([], events[..i], batchSize).sent|
            + if events[i].Flush? && Play([], events[..i], batchSize).queue != [] then 1 else 0
  {
    assert events[..i + 1][..i] == events[..i];
  }

  lemma ArrivalsNext(events: seq<Event>, i: nat)
    requires i < |events|
    ensures Arrivals(events[..i + 1]) ==
              if events[i].Enqueue? then Arrivals(events[..i]) + [events[i].e] else Arrivals(events[..i])
  {
    assert events[..i + 1][..i] == events[..i];
  }

  lemma {:induction false} TextsNext(texts: map<string, Fragment>, arrived: seq<Entry>, e: Entry)
    ensures AllTexts(texts, arrived + [e]) == Texts(AllTexts(texts, arrived), e.defs)
  {
    assert (arrived + [e])[..|arrived|] == arrived;
  }

  /** What has arrived early is the beginning of what arrives. */
  lemma {:induction false} ArrivalsArePrefix(events: seq<Event>, i: nat)
    requires i <= |events|
    ensures IsSlice(Arrivals(events[..i]), Arrivals(events), 0)
    decreases |events| - i
  {
    if i == |events| {
      assert events[..i] == events;
    } else {
      ArrivalsNext(events, i);
      ArrivalsArePrefix(events, i + 1);
      var early, later := Arrivals(events[..i]), Arrivals(events[..i + 1]);
      assert forall k :: 0 <= k < |early| ==> early[k] == later[k];
    }
  }

  /** A batch has subscribers only under the ids of its queries. */
  lemma {:induction false} NoSubscriber(entries: seq<Entry>, id: string)
    requires AllSimple(entries) && forall k :: 0 <= k < |entries| ==> entries[k].id != id
    ensures id !in Subscribers(entries)
  {
    if entries != [] { NoSubscriber(entries[..|entries| - 1], id); }
  }

  /** A queued query has arrived. */
  lemma QueuedHasArrived(events: seq<Event>, batchSize: nat, b: nat, k: nat) returns (a: nat)
    requires b < |Play([], events, batchSize).queue| && k < |Play([], events, batchSize).queue[b]|
    ensures a < |Arrivals(events)| && Arrivals(events)[a] == Play([], events, batchSize).queue[b][k]
  {
    var t := Play([], events, batchSize);
    TrafficIsFifo(events, batchSize);
    var at := BatchIsSlice(t.queue, b);
    a := |Flatten(t.sent)| + at + k;
  }

  /** The next query to be enqueued comes after those that have arrived. */
  lemma {:induction false} NextArrives(events: seq<Event>, i: nat)
    requires i < |events| && events[i].Enqueue?
    ensures |Arrivals(events[..i])| < |Arrivals(events)| && Arrivals(events)[|Arrivals(events[..i])|] == events[i].e
    ensures IsSlice(Arrivals(events[..i]), Arrivals(events), 0)
  {
    ArrivalsNext(events, i);
    ArrivalsArePrefix(events, i);
    ArrivalsArePrefix(events, i + 1);
    assert Arrivals(events[..i + 1])[|Arrivals(events[..i])|] == events[i].e;
  }

  lemma {:induction false} QueuedIdDiffers(events: seq<Event>, batchSize: nat, i: nat, b: nat, k: nat)
    requires FreshIds(Arrivals(events)) && i < |events| && events[i].Enqueue?
    requires b < |Play([], events[..i], batchSize).queue| && k < |Play([], events[..i], batchSize).queue[b]|
    ensures Play([], events[..i], batchSize).queue[b][k].id != events[i].e.id
  {
    NextArrives(events, i);
    var a := QueuedHasArrived(events[..i], batchSize, b, k);
    assert Arrivals(events)[a] == Arrivals(events[..i])[a];
  }

  /** So its id is fresh. */
  lemma {:induction false} NextIsFresh(events: seq<Event>, batchSize: nat, i: nat, queue: seq<BatchedQuery>,
                                       views: seq<Built>)
    requires FreshIds(Arrivals(events)) && i < |events| && events[i].Enqueue?
    requires AllBatches(queue, Play([], events[..i], batchSize).queue, views)
    ensures forall b :: 0 <= b < |queue| ==> events[i].e.id !in queue[b].subscribers
  {
    var waiting := Play([], events[..i], batchSize).queue;
    forall b | 0 <= b < |queue|
      ensures events[i].e.id !in queue[b].subscribers
    {
      BatchAt(queue, waiting, views, b);
      forall k | 0 <= k < |waiting[b]| {
        QueuedIdDiffers(events, batchSize, i, b, k);
      }
      NoSubscriber(waiting[b], events[i].e.id);
    }
  }

  lemma FreshIdsAreFresh(entries: seq<Entry>, n: nat)
    requires FreshIds(entries) && n < |entries|
    ensures Simple(entries[n].defs) && FreshFor(entries[n].id, entries[n].defs)
  {
    var e := entries[n];
    assert Simple(e.defs);
    forall i, name, rest | 0 <= i < |Ops(e.defs)| && name in Names(Ops(e.defs)[i].varDefs)
      ensures name != Prefixed(e.id, rest)
    {
      assert Ops(e.defs)[i] == OpOf(e);
    }
  }

  lemma SendsNext(texts: map<string, Fragment>, events: seq<Event>, batchSize: nat, places: seq<nat>,
                  requests: seq<Request>,
                  i: nat, request: Request)
    requires Sends(texts, events, batchSize, places, requests) && SentBy(texts, events, batchSize, i, request)
    ensures Sends(texts, events, batchSize, places + [i], requests + [request])
  {
  }

  /** Before an enqueue: what the client needs, and what will have arrived afterwards. */
  lemma {:induction false} EnqueueIsNext(texts: map<string, Fragment>, events: seq<Event>, batchSize: nat, i: nat,
                                         queue: seq<BatchedQuery>, views: seq<Built>)
    requires FreshIds(Arrivals(events)) && i < |events| && events[i].Enqueue?
    requires AllBatches(queue, Play([], events[..i], batchSize).queue, views)
    ensures var e := events[i].e;
            && Simple(e.defs) && FreshFor(e.id, e.defs)
            && (forall b :: 0 <= b < |queue| ==> e.id !in queue[b].subscribers)
            && AllTexts(texts, Arrivals(events[..i + 1])) == Texts(AllTexts(texts, Arrivals(events[..i])), e.defs)
  {
    NextArrives(events, i);
    ArrivalsNext(events, i);
    FreshIdsAreFresh(Arrivals(events), |Arrivals(events[..i])|);
    TextsNext(texts, Arrivals(events[..i]), events[i].e);
    NextIsFresh(events, batchSize, i, queue, views);
  }

  /** What a client is like that has played the beginning of a script. */
  ghost predicate HasPlayed(waiting: seq<seq<Entry>>, known: map<string, Fragment>, events: seq<Event>, i: nat,
                            batchSize: nat, texts: map<string, Fragment>) {
    && i <= |events|
    && waiting == Play([], events[..i], batchSize).queue
    && known == AllTexts(texts, Arrivals(events[..i]))
  }

  method PlayEnqueue(client: BatchedClient, events: seq<Event>, i: nat, ghost texts: map<string, Fragment>)
    requires FreshIds(Arrivals(events)) && i < |events| && events[i].Enqueue?
    requires client.Valid()
    requires HasPlayed(client.waiting, client.cache.texts, events, i, client.batchSize, texts)
    modifies client`queue, client`waiting, client`views, client.cache, client.Builders()
    ensures client.Valid()
    ensures HasPlayed(client.waiting, client.cache.texts, events, i + 1, client.batchSize, texts)
    ensures forall b :: 0 <= b < |client.queue| ==>
              client.queue[b].builder in old(client.Builders()) || fresh(client.queue[b].builder)
  {
    PlayNext(events, i, client.batchSize);
    EnqueueIsNext(texts, events, client.batchSize, i, client.queue, client.views);
    client.Enqueue(events[i].e);
  }

  method PlayFlush(client: BatchedClient, events: seq<Event>, i: nat, ghost texts: map<string, Fragment>)
    returns (request: Option<Request>)
    requires i < |events| && events[i].Flush?
    requires client.Valid()
    requires HasPlayed(client.waiting, client.cache.texts, events, i, client.batchSize, texts)
    modifies client`queue, client`waiting, client`views
    ensures client.Valid()
    ensures HasPlayed(client.waiting, client.cache.texts, events, i + 1, client.batchSize, texts)
    ensures client.queue == if old(client.queue) == [] then [] else old(client.queue)[1..]
    ensures request.Some? <==> Play([], events[..i], client.batchSize).queue != []
    ensures request.Some? ==> SentBy(texts, events, client.batchSize, i, request.value)
  {
    PlayNext(events, i, client.batchSize);
    ArrivalsNext(events, i);
    request := client.Flush();
  }

  /** Play one event of a script on a client that has played those before. */
  method PlayEvent(client: BatchedClient, events: seq<Event>, i: nat, ghost texts: map<string, Fragment>)
    returns (request: Option<Request>)
    requires FreshIds(Arrivals(events)) && i < |events|
    requires client.Valid()
    requires HasPlayed(client.waiting, client.cache.texts, events, i, client.batchSize, texts)
    modifies client`queue, client`waiting, client`views, client.cache, client.Builders()
    ensures client.Valid()
    ensures HasPlayed(client.waiting, client.cache.texts, events, i + 1, client.batchSize, texts)
    ensures forall b :: 0 <= b < |client.queue| ==>
              client.queue[b].builder in old(client.Builders()) || fresh(client.queue[b].builder)
    ensures |Play([], events[..i + 1], client.batchSize).sent| ==
            |Play([], events[..i], client.batchSize).sent| + if request.Some? then 1 else 0
    ensures request.Some? ==> SentBy(texts, events, client.batchSize, i, request.value)
  {
    request := None;
    PlayNext(events, i, client.batchSize);
    match events[i] {
      case Enqueue(_) =>
        PlayEnqueue(client, events, i, texts);
      case Flush =>
        request := PlayFlush(client, events, i, texts);
    }
  }

  /** Play a script on a new client. */
  method PlaySession(batchSize: nat, cache: FragmentCache, events: seq<Event>)
    returns (requests: seq<Request>, ghost places: seq<nat>)
    requires FreshIds(Arrivals(events))
    modifies cache
    ensures cache.texts == AllTexts(old(cache.texts), Arrivals(events))
    ensures Sends(old(cache.texts), events, batchSize, places, requests)
    ensures |requests| == |Play([], events, batchSize).sent|
  {
    var client := new BatchedClient(batchSize, cache);
    ghost var texts := cache.texts;
    requests, places := [], [];
    for i := 0 to |events|
      invariant client.Valid() && client.batchSize == batchSize && client.cache == cache
      invariant forall b :: 0 <= b < |client.queue| ==> fresh(client.queue[b].builder)
      invariant HasPlayed(client.waiting, cache.texts, events, i, batchSize, texts)
      invariant Sends(texts, events, batchSize, places, requests)
      invariant |requests| == |Play([], events[..i], batchSize).sent|
    {
      var request := PlayEvent(client, events, i, texts);
      if request.Some? {
        SendsNext(texts, events, batchSize, places, requests, i, request.value);
        requests, places := requests + [request.value], places + [i];
      }
    }
    assert events[..|events|] == events;
  }

  /** Each request of a session is ready to be answered: its callers receive what `Deliver` gives them. */
  lemma {:induction false} SessionIsReady(texts: map<string, Fragment>, events: seq<Event>, batchSize: nat,
                                          places: seq<nat>,
                                          requests: seq<Request>,
                                          rank: string -> nat, bound: nat, j: nat)
    requires Mergeable(texts, Arrivals(events), rank, bound) && Sends(texts, events, batchSize, places, requests)
             && j < |requests|
    ensures var i := places[j];
            var batch, known := Play([], events[..i], batchSize).queue[0], AllTexts(texts, Arrivals(events[..i]));
            IsRequestFor(requests[j], batch, known) && Ready(known, batch, rank, bound)
  {
    var i := places[j];
    assert SentBy(texts, events, batchSize, i, requests[j]);
    ArrivalsArePrefix(events, i);
    MergeableSlice(texts, Arrivals(events), rank, bound, Arrivals(events[..i]), 0);
    OldestIsReady(texts, events[..i], batchSize, rank, bound);
  }
}
