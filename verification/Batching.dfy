/**
 The batching client: queries are packed into bounded batches, each flush sends the oldest
 batch as one operation, and the reply is routed to the callers by alias.
 */
module Batching {
  import opened Options
  import opened GraphQL
  import opened QueryMerging

  // ---------------------------------------------------------------------------------------
  // The query builder
  // ---------------------------------------------------------------------------------------

  /** Printed fragments, kept for the life of the process. */
  class FragmentCache {
    var texts: map<string, Fragment>

    constructor ()
      ensures texts == map[]
    {
      texts := map[];
    }
  }

  /** The id prefixes no variable the query declares. */
  ghost predicate FreshFor(id: string, defs: seq<Definition>) {
    forall i, name, rest :: 0 <= i < |Ops(defs)| && name in Names(Ops(defs)[i].varDefs) ==> name != Prefixed(id, rest)
  }

  class QueryBuilder {
    var op: Option<Operation>
    var fragments: set<string>
    var vars: map<string, Json>

    ghost function View(): Built
      reads this
    {
      Built(op, fragments, vars)
    }

    constructor ()
      ensures View() == EMPTY
    {
      op, fragments, vars := None, {}, map[];
    }

    /** Rename the variable definitions of an operation and take over their values. */
    method AddVariables(id: string, varDefs: seq<VarDef>, supplied: map<string, Json>)
      returns (renaming: map<string, string>, prefixed: seq<VarDef>)
      requires forall name, rest :: name in Names(varDefs) ==> name != Prefixed(id, rest)
      modifies this`vars
      ensures renaming == Renaming(id, varDefs) && prefixed == PrefixedDefs(id, varDefs)
      ensures vars == AddVars(old(vars), id, varDefs, supplied)
    {
      renaming, prefixed := map[], [];
      for i := 0 to |varDefs|
        invariant renaming == Renaming(id, varDefs[..i]) && prefixed == PrefixedDefs(id, varDefs[..i])
        invariant vars == AddVars(old(vars), id, varDefs[..i], supplied)
      {
        DefinitionsNext(old(vars), id, varDefs, supplied, i);
        var oldName := varDefs[i].name;
        var newName := Prefixed(id, oldName);
        renaming := renaming[oldName := newName];
        vars := vars[newName := Supplied(supplied, oldName)];
        // The name inside the definition is visited once more, as a use of the variable.
        assert newName !in renaming;
        prefixed := prefixed + [varDefs[i].(name := Renamed(renaming, newName))];
      }
      assert varDefs[..|varDefs|] == varDefs;
    }

    lemma {:induction false} DefinitionsNext(all: map<string, Json>, id: string, varDefs: seq<VarDef>,
                                             supplied: map<string, Json>, i: nat)
      requires i < |varDefs|
      requires forall name, rest :: name in Names(varDefs) ==> name != Prefixed(id, rest)
      ensures var name := varDefs[i].name;
              && Renaming(id, varDefs[..i + 1]) == Renaming(id, varDefs[..i])[name := Prefixed(id, name)]
              && PrefixedDefs(id, varDefs[..i + 1]) ==
                   PrefixedDefs(id, varDefs[..i]) + [varDefs[i].(name := Prefixed(id, name))]
              && AddVars(all, id, varDefs[..i + 1], supplied) ==
                 AddVars(all, id, varDefs[..i], supplied)[Prefixed(id, name) := Supplied(supplied, name)]
              && Prefixed(id, name) !in Renaming(id, varDefs[..i + 1])
    {
      assert varDefs[..i + 1][..i] == varDefs[..i];
      assert Names(varDefs[..i + 1]) == Names(varDefs[..i]) + {varDefs[i].name};
      forall d | d in varDefs[..i + 1]
        ensures d.name != Prefixed(id, varDefs[i].name)
      {
        assert d in varDefs && d.name in Names(varDefs);
      }
    }

    /** Extend the merged operation with one more operation; its top-level field is aliased with the id. */
    method AddOperation(id: string, opDef: Operation, supplied: map<string, Json>) returns (field: string)
      requires forall name, rest :: name in Names(opDef.varDefs) ==> name != Prefixed(id, rest)
      modifies this`op, this`vars
      ensures View() == AddOp(old(View()), id, opDef, supplied)
      ensures |opDef.sels| == 1 && opDef.sels[0].Field? ==> field == opDef.sels[0].name
    {
      var renaming, prefixed := AddVariables(id, opDef.varDefs, supplied);
      var sels := Rename(opDef.sels, renaming);
      var aliased: seq<Selection> := [];
      field := "";
      for i := 0 to |sels|
        invariant aliased == seq(i, k requires 0 <= k < i => Aliased(id, sels[k]))
        invariant i == 1 && opDef.sels[0].Field? ==> field == opDef.sels[0].name
      {
        assert sels[i] == RenameOne(opDef.sels[i], renaming);
        if sels[i].Field? {
          field := sels[i].name;
        }
        aliased := aliased + [Aliased(id, sels[i])];
      }
      if op == None {
        op := Some(Operation(opDef.name, prefixed, aliased));
      } else {
        op := Some(op.value.(sels := op.value.sels + aliased, varDefs := op.value.varDefs + prefixed));
      }
    }

    /** Extend the current query with a new field, aliased with a fresh id. */
    method Add(cache: FragmentCache, id: string, defs: seq<Definition>, supplied: map<string, Json>)
      returns (field: string)
      requires Simple(defs) && FreshFor(id, defs)
      requires fragments <= cache.texts.Keys
      modifies this, cache
      ensures View() == AddDefs(old(View()), id, defs, supplied)
      ensures cache.texts == Texts(old(cache.texts), defs) && fragments <= cache.texts.Keys
      ensures field == Ops(defs)[0].sels[0].name
    {
      field := "";
      for i := 0 to |defs|
        invariant View() == AddDefs(old(View()), id, defs[..i], supplied)
        invariant cache.texts == Texts(old(cache.texts), defs[..i]) && fragments <= cache.texts.Keys
        invariant Ops(defs[..i]) != [] ==> Ops(defs[..i]) == Ops(defs) && field == Ops(defs)[0].sels[0].name
      {
        assert defs[..i + 1][..i] == defs[..i];
        OpsOfPrefix(defs, i + 1);
        match defs[i] {
          case FragmentDef(name, fragment) =>
            if name !in fragments {
              if name !in cache.texts {
                cache.texts := cache.texts[name := fragment];
              }
              fragments := fragments + {name};
            }
          case OperationDef(opDef) =>
            OperationIsTheOne(defs, i);
            field := AddOperation(id, opDef, supplied);
        }
      }
      assert defs[..|defs|] == defs;
    }

    /** The merged operation followed by the bodies of its fragments. */
    method Build(cache: FragmentCache) returns (document: Document, values: map<string, Json>)
      requires op.Some?
      ensures document == BuildDocument(View(), cache.texts) && values == vars
    {
      document := Document(op.value, map f | f in fragments && f in cache.texts :: cache.texts[f]);
      values := vars;
    }

    lemma {:induction false} OpsOfPrefix(defs: seq<Definition>, i: nat)
      requires i <= |defs|
      ensures Ops(defs[..i]) <= Ops(defs)
      decreases |defs|
    {
      if i < |defs| {
        var n := |defs| - 1;
        assert defs[..n][..i] == defs[..i];
        OpsOfPrefix(defs[..n], i);
      } else {
        assert defs[..i] == defs;
      }
    }

    lemma {:induction false} OperationIsTheOne(defs: seq<Definition>, i: nat)
      requires Simple(defs) && i < |defs| && defs[i].OperationDef?
      ensures Ops(defs[..i]) == [] && Ops(defs[..i + 1]) == Ops(defs) == [defs[i].op]
    {
      assert defs[..i + 1][..i] == defs[..i];
      OpsOfPrefix(defs, i + 1);
    }
  }

  // ---------------------------------------------------------------------------------------
  // Batches as values
  // ---------------------------------------------------------------------------------------

  /** Put a query into the youngest batch, or into a new one if that is full. */
  function Enqueued(queue: seq<seq<Entry>>, e: Entry, batchSize: nat): seq<seq<Entry>> {
    if queue == [] || |queue[|queue| - 1]| >= batchSize then queue + [[e]]
    else queue[..|queue| - 1] + [queue[|queue| - 1] + [e]]
  }

  datatype Event = Enqueue(e: Entry) | Flush

  /** The batches still queued and the batches sent, in the order of the flushes that sent them. */
  datatype Traffic = Traffic(queue: seq<seq<Entry>>, sent: seq<seq<Entry>>)

  function Next(t: Traffic, ev: Event, batchSize: nat): Traffic {
    match ev
    case Enqueue(e) => t.(queue := Enqueued(t.queue, e, batchSize))
    case Flush => if t.queue == [] then t else Traffic(t.queue[1..], t.sent + [t.queue[0]])
  }

  function Play(queue: seq<seq<Entry>>, events: seq<Event>, batchSize: nat): Traffic {
    if events == [] then Traffic(queue, [])
    else Next(Play(queue, events[..|events| - 1], batchSize), events[|events| - 1], batchSize)
  }

  function Arrivals(events: seq<Event>): seq<Entry> {
    if events == [] then []
    else
      var ev := events[|events| - 1];
      Arrivals(events[..|events| - 1]) + if ev.Enqueue? then [ev.e] else []
  }

  function Flushes(events: seq<Event>): nat {
    if events == [] then 0
    else Flushes(events[..|events| - 1]) + if events[|events| - 1].Flush? then 1 else 0
  }

  function Flatten(batches: seq<seq<Entry>>): seq<Entry> {
    if batches == [] then []
    else Flatten(batches[..|batches| - 1]) + batches[|batches| - 1]
  }

  lemma {:induction false} FlattenOfCons(first: seq<Entry>, rest: seq<seq<Entry>>)
    ensures Flatten([first] + rest) == first + Flatten(rest)
  {
    var all := [first] + rest;
    if rest == [] {
      assert all == [first] && [first][..0] == [];
    } else {
      var n := |rest| - 1;
      assert all[..|all| - 1] == [first] + rest[..n];
      FlattenOfCons(first, rest[..n]);
    }
  }

  lemma {:induction false} FlattenOfEnqueued(queue: seq<seq<Entry>>, e: Entry, batchSize: nat)
    ensures Flatten(Enqueued(queue, e, batchSize)) == Flatten(queue) + [e]
  {
    var q := Enqueued(queue, e, batchSize);
    if queue == [] || |queue[|queue| - 1]| >= batchSize {
      assert q[..|q| - 1] == queue;
    } else {
      assert q[..|q| - 1] == queue[..|queue| - 1];
    }
  }

  /** Every query is sent in the order in which it came, exactly once or not yet. */
  lemma {:induction false} TrafficIsFifo(events: seq<Event>, batchSize: nat)
    ensures Flatten(Play([], events, batchSize).sent) + Flatten(Play([], events, batchSize).queue) == Arrivals(events)
  {
    if events != [] {
      var n := |events| - 1;
      var t, ev := Play([], events[..n], batchSize), events[n];
      TrafficIsFifo(events[..n], batchSize);
      match ev
      case Enqueue(e) =>
        FlattenOfEnqueued(t.queue, e, batchSize);
      case Flush =>
        if t.queue != [] { FlattenOfSend(t.sent, t.queue); }
    }
  }

  lemma {:induction false} FlattenOfSend(sent: seq<seq<Entry>>, queue: seq<seq<Entry>>)
    requires queue != []
    ensures Flatten(sent + [queue[0]]) + Flatten(queue[1..]) == Flatten(sent) + Flatten(queue)
  {
    assert queue == [queue[0]] + queue[1..];
    FlattenOfCons(queue[0], queue[1..]);
    assert (sent + [queue[0]])[..|sent|] == sent;
  }

  /** Every batch but the youngest is full, and none is empty. */
  ghost predicate Packed(queue: seq<seq<Entry>>, batchSize: nat) {
    && (forall i :: 0 <= i < |queue| ==> 0 < |queue[i]| <= batchSize)
    && (forall i :: 0 <= i < |queue| - 1 ==> |queue[i]| == batchSize)
  }

  lemma {:induction false} BatchesArePacked(queue: seq<seq<Entry>>, events: seq<Event>, batchSize: nat)
    requires batchSize > 0 && Packed(queue, batchSize)
    ensures Packed(Play(queue, events, batchSize).queue, batchSize)
  {
    if events != [] { BatchesArePacked(queue, events[..|events| - 1], batchSize); }
  }

  lemma {:induction false} PackedLength(queue: seq<seq<Entry>>, batchSize: nat)
    requires batchSize > 0 && Packed(queue, batchSize) && queue != []
    ensures |Flatten(queue)| == (|queue| - 1) * batchSize + |queue[|queue| - 1]|
  {
    var n := |queue| - 1;
    if n > 0 {
      PackedLength(queue[..n], batchSize);
      assert |queue[n - 1]| == batchSize;
      assert (n - 1) * batchSize + batchSize == n * batchSize;
    }
  }

  lemma QuotientIs(a: nat, b: nat, q: nat, r: nat)
    requires b > 0 && a == q * b + r && r < b
    ensures a / b == q && a % b == r
  {
    Multiples(a / b - q, b);
    assert a == (a / b) * b + a % b;
    assert (a / b - q) * b == r - a % b;
  }

  lemma Multiples(d: int, b: int)
    requires b > 0
    ensures d >= 1 ==> d * b >= b
    ensures d <= -1 ==> d * b <= -b
  {
  }

  lemma EnqueuedIsLast(queue: seq<seq<Entry>>, e: Entry, batchSize: nat)
    ensures var q := Enqueued(queue, e, batchSize);
            && q != [] && q[|q| - 1] != [] && q[|q| - 1][|q[|q| - 1]| - 1] == e
            && (queue != [] && |queue[|queue| - 1]| < batchSize ==>
                |q| == |queue| && |q[|q| - 1]| == |queue[|queue| - 1]| + 1)
            && (queue == [] || |queue[|queue| - 1]| >= batchSize ==> |q| == |queue| + 1 && |q[|q| - 1]| == 1)
  {
  }

  /** A query that finds `n` others waiting goes to batch `n / batchSize`, at place `n % batchSize`. */
  lemma {:induction false} PlaceOfEnqueued(queue: seq<seq<Entry>>, e: Entry, batchSize: nat)
    requires batchSize > 0 && Packed(queue, batchSize)
    ensures var n, q := |Flatten(queue)|, Enqueued(queue, e, batchSize);
            n / batchSize < |q| && n % batchSize < |q[n / batchSize]| && q[n / batchSize][n % batchSize] == e
  {
    EnqueuedIsLast(queue, e, batchSize);
    WaitingCount(queue, batchSize);
  }

  /** The number of waiting queries tells how many batches are full and how many queries the youngest holds. */
  lemma {:induction false} WaitingCount(queue: seq<seq<Entry>>, batchSize: nat)
    requires batchSize > 0 && Packed(queue, batchSize)
    ensures var n := |Flatten(queue)|;
            if queue == [] || |queue[|queue| - 1]| == batchSize then n / batchSize == |queue| && n % batchSize == 0
            else n / batchSize == |queue| - 1 && n % batchSize == |queue[|queue| - 1]|
  {
    if queue == [] {
      QuotientIs(0, batchSize, 0, 0);
    } else {
      PackedLength(queue, batchSize);
      var m, last := |queue| - 1, |queue[|queue| - 1]|;
      if last == batchSize {
        assert m * batchSize + batchSize == (m + 1) * batchSize;
        QuotientIs(|Flatten(queue)|, batchSize, m + 1, 0);
      } else {
        QuotientIs(|Flatten(queue)|, batchSize, m, last);
      }
    }
  }

  /** Where a query is that was at place `i` of batch `b`, after some flushes. */
  ghost predicate HasAdvanced(t: Traffic, flushes: nat, b: nat, i: nat, e: Entry) {
    if flushes <= b then
      && |t.sent| == flushes
      && b - flushes < |t.queue| && i < |t.queue[b - flushes]| && t.queue[b - flushes][i] == e
    else
      b < |t.sent| && i < |t.sent[b]| && t.sent[b][i] == e
  }

  lemma AdvancesOn(t: Traffic, flushes: nat, ev: Event, batchSize: nat, b: nat, i: nat, e: Entry)
    requires HasAdvanced(t, flushes, b, i, e)
    ensures HasAdvanced(Next(t, ev, batchSize), flushes + if ev.Flush? then 1 else 0, b, i, e)
  {
  }

  /** A queued query moves up one batch with each flush and keeps its place in the batch. */
  lemma {:induction false} QueuedAdvances(queue: seq<seq<Entry>>, events: seq<Event>, batchSize: nat, b: nat, i: nat)
    requires b < |queue| && i < |queue[b]|
    ensures HasAdvanced(Play(queue, events, batchSize), Flushes(events), b, i, queue[b][i])
  {
    if events != [] {
      var n := |events| - 1;
      QueuedAdvances(queue, events[..n], batchSize, b, i);
      AdvancesOn(Play(queue, events[..n], batchSize), Flushes(events[..n]), events[n], batchSize, b, i, queue[b][i]);
    }
  }

  /**
   The queueing bound: a query that finds `n` others waiting is sent by exactly the
   (n / batchSize + 1)-th later flush, whatever is enqueued meanwhile.
   */
  lemma {:induction false} SentByTheBoundedFlush(queue: seq<seq<Entry>>, e: Entry, events: seq<Event>, batchSize: nat)
    requires batchSize > 0 && Packed(queue, batchSize)
    ensures var n, t := |Flatten(queue)|, Play(Enqueued(queue, e, batchSize), events, batchSize);
            if Flushes(events) <= n / batchSize then
              |t.sent| == Flushes(events) && e in Flatten(t.queue)
            else
              n / batchSize < |t.sent| && n % batchSize < |t.sent[n / batchSize]|
                && t.sent[n / batchSize][n % batchSize] == e
  {
    var n, q := |Flatten(queue)|, Enqueued(queue, e, batchSize);
    PlaceOfEnqueued(queue, e, batchSize);
    QueuedAdvances(q, events, batchSize, n / batchSize, n % batchSize);
    if Flushes(events) <= n / batchSize {
      InFlattened(Play(q, events, batchSize).queue, n / batchSize - Flushes(events), n % batchSize);
    }
  }

  lemma {:induction false} InFlattened(batches: seq<seq<Entry>>, b: nat, i: nat)
    requires b < |batches| && i < |batches[b]|
    ensures batches[b][i] in Flatten(batches)
  {
    if b < |batches| - 1 { InFlattened(batches[..|batches| - 1], b, i); }
  }

  // ---------------------------------------------------------------------------------------
  // Routing replies
  // ---------------------------------------------------------------------------------------

  datatype FieldError = FieldError(path: string, error: string)

  /** What a caller receives: an error, or the data decoded into its response. */
  datatype Reply = Failed(error: string) | Data(data: map<string, Json>)

  function FirstError(errors: seq<FieldError>, id: string): Option<string> {
    if errors == [] then None
    else if errors[0].path == id then Some(errors[0].error)
    else FirstError(errors[1..], id)
  }

  /**
   A field-level error at the alias of the query wins; failing that, a failure of the request without
   field errors.
   */
  function ReplyTo(id: string, field: string, errors: seq<FieldError>, failure: Option<string>,
                   data: map<string, Json>): Reply {
    match FirstError(errors, id)
    case Some(error) => Failed(error)
    case None =>
      if errors == [] && failure.Some? then Failed(failure.value)
      else Data(map[field := if id in data then data[id] else Null])
  }

  lemma {:induction false} FirstErrorOfConcat(a: seq<FieldError>, b: seq<FieldError>, id: string)
    ensures FirstError(a + b, id) == if FirstError(a, id).Some? then FirstError(a, id) else FirstError(b, id)
  {
    if a == [] {
      assert a + b == b;
    } else {
      assert (a + b)[1..] == a[1..] + b;
      FirstErrorOfConcat(a[1..], b, id);
    }
  }

  lemma {:induction false} FirstErrorNext(errors: seq<FieldError>, i: nat, id: string)
    requires i < |errors|
    ensures FirstError(errors[..i + 1], id) ==
            if FirstError(errors[..i], id).Some? then FirstError(errors[..i], id)
            else if errors[i].path == id then Some(errors[i].error) else None
  {
    assert errors[..i + 1] == errors[..i] + [errors[i]];
    FirstErrorOfConcat(errors[..i], [errors[i]], id);
    assert [errors[i]][1..] == [];
  }

  /** The first error that stands at the alias. */
  ghost predicate StandsFirst(errors: seq<FieldError>, i: int, id: string) {
    0 <= i < |errors| && errors[i].path == id && forall j :: 0 <= j < i ==> errors[j].path != id
  }

  lemma {:induction false} FirstErrorIs(errors: seq<FieldError>, id: string)
    ensures forall i :: StandsFirst(errors, i, id) ==> FirstError(errors, id) == Some(errors[i].error)
    ensures FirstError(errors, id) == None <==> forall i :: 0 <= i < |errors| ==> errors[i].path != id
  {
    if errors != [] && errors[0].path != id {
      FirstErrorIs(errors[1..], id);
      forall i | StandsFirst(errors, i, id)
        ensures StandsFirst(errors[1..], i - 1, id) && errors[1..][i - 1] == errors[i]
      {
        assert forall j :: 0 <= j < i - 1 ==> errors[1..][j] == errors[j + 1];
      }
      assert forall i :: 0 <= i < |errors[1..]| ==> errors[1..][i] == errors[i + 1];
      assert forall i :: 0 < i < |errors| ==> errors[i] == errors[1..][i - 1];
    }
  }

  lemma RepliesAre(subscribers: map<string, string>, errors: seq<FieldError>, failure: Option<string>,
                   data: map<string, Json>)
    ensures errors == [] && failure.Some? ==>
              forall id :: id in subscribers ==>
                ReplyTo(id, subscribers[id], errors, failure, data) == Failed(failure.value)
    ensures forall id, i :: id in subscribers && StandsFirst(errors, i, id) ==>
              ReplyTo(id, subscribers[id], errors, failure, data) == Failed(errors[i].error)
    ensures errors != [] || failure == None ==>
              forall id :: id in subscribers && (forall i :: 0 <= i < |errors| ==> errors[i].path != id) ==>
                ReplyTo(id, subscribers[id], errors, failure, data)
                == Data(map[subscribers[id] := if id in data then data[id] else Null])
  {
    forall id | id in subscribers {
      FirstErrorIs(errors, id);
    }
  }

  /** Answer the subscribers whose alias is the path of an error, each with the first such error. */
  method RouteErrors(subscribers: map<string, string>, errors: seq<FieldError>)
    returns (inboxes: map<string, seq<Reply>>, waiting: set<string>)
    ensures inboxes.Keys == subscribers.Keys && waiting <= subscribers.Keys
    ensures forall id :: id in subscribers ==>
              if id in waiting then FirstError(errors, id) == None && inboxes[id] == []
              else FirstError(errors, id).Some? && inboxes[id] == [Failed(FirstError(errors, id).value)]
  {
    inboxes := map id | id in subscribers :: [];
    waiting := subscribers.Keys;
    for i := 0 to |errors|
      invariant inboxes.Keys == subscribers.Keys && waiting <= subscribers.Keys
      invariant forall id :: id in subscribers ==>
                  if id in waiting then FirstError(errors[..i], id) == None && inboxes[id] == []
                  else FirstError(errors[..i], id).Some? && inboxes[id] == [Failed(FirstError(errors[..i], id).value)]
    {
      var path := errors[i].path;
      forall id | id in subscribers {
        FirstErrorNext(errors, i, id);
      }
      if path in waiting {
        inboxes := inboxes[path := inboxes[path] + [Failed(errors[i].error)]];
        waiting := waiting - {path};
      }
    }
    assert errors[..|errors|] == errors;
  }

  /**
   Answer the subscribers of a batch. Every subscriber gets exactly one message, whatever the
   errors and their paths; a path that is no alias is ignored.
   */
  method Route(subscribers: map<string, string>, errors: seq<FieldError>, failure: Option<string>,
               data: map<string, Json>)
    returns (inboxes: map<string, seq<Reply>>)
    ensures inboxes.Keys == subscribers.Keys
    ensures forall id :: id in subscribers ==> inboxes[id] == [ReplyTo(id, subscribers[id], errors, failure, data)]
    ensures errors == [] && failure.Some? ==> forall id :: id in subscribers ==> inboxes[id] == [Failed(failure.value)]
    ensures forall id, i :: id in subscribers && StandsFirst(errors, i, id) ==> inboxes[id] == [Failed(errors[i].error)]
    ensures errors != [] || failure == None ==>
              forall id :: id in subscribers && (forall i :: 0 <= i < |errors| ==> errors[i].path != id) ==>
                inboxes[id] == [Data(map[subscribers[id] := if id in data then data[id] else Null])]
  {
    RepliesAre(subscribers, errors, failure, data);
    var waiting;
    inboxes, waiting := RouteErrors(subscribers, errors);
    if |errors| == 0 && failure.Some? {
      while waiting != {}
        invariant inboxes.Keys == subscribers.Keys && waiting <= subscribers.Keys
        invariant forall id :: id in subscribers ==>
                    inboxes[id] == if id in waiting then [] else [Failed(failure.value)]
        decreases waiting
      {
        var id :| id in waiting;
        inboxes := inboxes[id := inboxes[id] + [Failed(failure.value)]];
        waiting := waiting - {id};
      }
      return;
    }
    ghost var unanswered := waiting;
    while waiting != {}
      invariant inboxes.Keys == subscribers.Keys && waiting <= unanswered <= subscribers.Keys
      invariant forall id :: id in subscribers && id in waiting ==> inboxes[id] == []
      invariant forall id :: id in subscribers && id !in waiting ==>
                               inboxes[id] == [ReplyTo(id, subscribers[id], errors, failure, data)]
      decreases waiting
    {
      var id :| id in waiting;
      var value := if id in data then data[id] else Null;
      inboxes := inboxes[id := inboxes[id] + [Data(map[subscribers[id] := value])]];
      waiting := waiting - {id};
    }
  }

  // ---------------------------------------------------------------------------------------
  // End to end
  // ---------------------------------------------------------------------------------------

  /** The batch is made of consecutive queries, the first of them at place `a`. */
  ghost predicate IsSlice(batch: seq<Entry>, all: seq<Entry>, a: nat) {
    a + |batch| <= |all| && forall i :: 0 <= i < |batch| ==> batch[i] == all[a + i]
  }

  lemma MergeableSlice(texts: map<string, Fragment>, entries: seq<Entry>, rank: string -> nat, bound: nat,
                       batch: seq<Entry>, a: nat)
    requires Mergeable(texts, entries, rank, bound) && IsSlice(batch, entries, a)
    ensures Mergeable(texts, batch, rank, bound)
  {
    assert AllSimple(batch);
  }

  lemma {:induction false} BatchIsSlice(batches: seq<seq<Entry>>, j: nat) returns (a: nat)
    requires j < |batches|
    ensures IsSlice(batches[j], Flatten(batches), a)
  {
    var n := |batches| - 1;
    if j == n {
      a := |Flatten(batches[..n])|;
    } else {
      a := BatchIsSlice(batches[..n], j);
    }
  }

  lemma {:induction false} KnownTextsStay(texts: map<string, Fragment>, defs: seq<Definition>)
    requires Frags(defs).Keys <= texts.Keys
    ensures Texts(texts, defs) == texts
  {
    if defs != [] {
      assert Frags(defs[..|defs| - 1]).Keys <= Frags(defs).Keys;
      KnownTextsStay(texts, defs[..|defs| - 1]);
    }
  }

  lemma {:induction false} AllKnownTextsStay(texts: map<string, Fragment>, entries: seq<Entry>)
    requires forall i :: 0 <= i < |entries| ==> Extends(texts, Frags(entries[i].defs))
    ensures AllTexts(texts, entries) == texts
  {
    if entries != [] {
      AllKnownTextsStay(texts, entries[..|entries| - 1]);
      KnownTextsStay(texts, entries[|entries| - 1].defs);
    }
  }

  /** Queries that have arrived stay mergeable once the fragments of all arrivals are known, and need no more. */
  lemma {:induction false} MergeableOnceKnown(texts: map<string, Fragment>, entries: seq<Entry>, rank: string -> nat,
                                              bound: nat,
                                              batch: seq<Entry>, a: nat)
    requires Mergeable(texts, entries, rank, bound) && IsSlice(batch, entries, a)
    ensures Mergeable(AllTexts(texts, entries), batch, rank, bound)
    ensures AllTexts(AllTexts(texts, entries), batch) == AllTexts(texts, entries)
  {
    var known := AllTexts(texts, entries);
    MergeableSlice(texts, entries, rank, bound, batch, a);
    forall i | 0 <= i < |batch|
      ensures Extends(known, Frags(batch[i].defs))
    {
      AllTextsExtend(texts, entries, a + i);
    }
    AllKnownTextsStay(known, batch);
  }

  /** The fields the callers of a batch asked for, by alias. */
  function Subscribers(entries: seq<Entry>): map<string, string>
    requires AllSimple(entries)
  {
    if entries == [] then map[]
    else Subscribers(entries[..|entries| - 1])[entries[|entries| - 1].id := FieldName(entries[|entries| - 1])]
  }

  lemma {:induction false} SubscriberAt(entries: seq<Entry>, k: nat)
    requires FreshIds(entries) && k < |entries|
    ensures entries[k].id in Subscribers(entries) && Subscribers(entries)[entries[k].id] == FieldName(entries[k])
  {
    if k < |entries| - 1 { SubscriberAt(entries[..|entries| - 1], k); }
  }

  /** The oldest batch is made of queries that arrived, one after the other. */
  lemma OldestHaveArrived(events: seq<Event>, batchSize: nat) returns (a: nat)
    requires Play([], events, batchSize).queue != []
    ensures IsSlice(Play([], events, batchSize).queue[0], Arrivals(events), a)
  {
    var t := Play([], events, batchSize);
    TrafficIsFifo(events, batchSize);
    a := OldestIsSlice(t.queue, Flatten(t.sent));
  }

  lemma OldestIsSlice(queue: seq<seq<Entry>>, sent: seq<Entry>) returns (a: nat)
    requires queue != []
    ensures IsSlice(queue[0], sent + Flatten(queue), a)
  {
    var at := BatchIsSlice(queue, 0);
    a := |sent| + at;
    SliceOfConcat(queue[0], sent, Flatten(queue), at);
  }

  lemma SliceOfConcat(batch: seq<Entry>, x: seq<Entry>, y: seq<Entry>, a: nat)
    requires IsSlice(batch, y, a)
    ensures IsSlice(batch, x + y, |x| + a)
  {
  }

  /** A mergeable batch whose fragments are all known. */
  ghost predicate Ready(texts: map<string, Fragment>, batch: seq<Entry>, rank: string -> nat, bound: nat) {
    Mergeable(texts, batch, rank, bound) && AllTexts(texts, batch) == texts
  }

  const INVALID := "invalid document"

  /** What a caller receives for a response; a document that is rejected is reported by an error without a path. */
  function Received(id: string, field: string, response: Option<map<string, Json>>): Reply {
    match response
    case Some(data) => ReplyTo(id, field, [], None, data)
    case None => ReplyTo(id, field, [FieldError("", INVALID)], Some(INVALID), map[])
  }

  /** What the k-th caller of a batch receives for the server's response to the document sent for the batch. */
  ghost function Answered(server: Server, root: int, texts: map<string, Fragment>, batch: seq<Entry>,
                          rank: string -> nat, bound: nat, k: nat): Option<Reply>
    requires AllSimple(batch) && AddAll(batch).op.Some? && k < |batch|
  {
    var response := Respond(server, root, BuildDocument(AddAll(batch), texts), AddAll(batch).vars, rank, bound);
    var id, subscribers := batch[k].id, Subscribers(batch);
    if id in subscribers then Some(Received(id, subscribers[id], response)) else None
  }

  /** The answer to a query on its own, as its caller receives it. */
  ghost function AloneReply(server: Server, root: int, e: Entry, rank: string -> nat, bound: nat): Reply
    requires Simple(e.defs)
  {
    match AloneResponse(server, root, e, rank, bound)
    case Some(data) => Data(data)
    case None => Failed(INVALID)
  }

  lemma {:induction false} SliceIsReady(texts: map<string, Fragment>, all: seq<Entry>, rank: string -> nat, bound: nat,
                                        batch: seq<Entry>,
                                        a: nat)
    requires Mergeable(texts, all, rank, bound) && IsSlice(batch, all, a)
    ensures Ready(AllTexts(texts, all), batch, rank, bound)
  {
    MergeableOnceKnown(texts, all, rank, bound, batch, a);
  }

  /** The next batch to be flushed, once the fragments of all arrivals are known, needs no more. */
  lemma {:induction false} OldestIsReady(texts: map<string, Fragment>, events: seq<Event>, batchSize: nat,
                                         rank: string -> nat, bound: nat)
    requires Mergeable(texts, Arrivals(events), rank, bound) && Play([], events, batchSize).queue != []
    ensures Ready(AllTexts(texts, Arrivals(events)), Play([], events, batchSize).queue[0], rank, bound)
  {
    var a := OldestHaveArrived(events, batchSize);
    SliceIsReady(texts, Arrivals(events), rank, bound, Play([], events, batchSize).queue[0], a);
  }

  lemma {:induction false} DocumentIsMerged(server: Server, root: int, texts: map<string, Fragment>, batch: seq<Entry>,
                                            rank: string -> nat, bound: nat)
    requires AllSimple(batch) && batch != [] && AllTexts(texts, batch) == texts
    ensures AddAll(batch).op.Some?
    ensures Respond(server, root, BuildDocument(AddAll(batch), texts), AddAll(batch).vars, rank, bound)
            == MergedResponse(server, root, texts, batch, rank, bound)
  {
    BuiltSelections(batch);
  }

  /** The case of one batch whose fragments are known. */
  lemma {:induction false} BatchIsAnswered(server: Server, root: int, texts: map<string, Fragment>, batch: seq<Entry>,
                                           rank: string -> nat, bound: nat, k: nat)
    requires Ready(texts, batch, rank, bound) && k < |batch|
    ensures AllSimple(batch) && AddAll(batch).op.Some?
    ensures Answered(server, root, texts, batch, rank, bound, k) ==
            Some(if AllVarFree(batch, rank, bound) then AloneReply(server, root, batch[k], rank, bound)
                 else Data(map[FieldName(batch[k]) := Null]))
  {
    DocumentIsMerged(server, root, texts, batch, rank, bound);
    SubscriberAt(batch, k);
    MergingPreservesMeaningIff(server, root, texts, batch, rank, bound);
    if AllVarFree(batch, rank, bound) {
      assert AnswersAlike(server, root, texts, batch, rank, bound, k);
    } else {
      RejectedIsNull(batch[k].id, FieldName(batch[k]));
    }
  }

  /** Nobody's alias is the empty path, and the data of a rejected request is empty. */
  lemma RejectedIsNull(id: string, field: string)
    requires id != ""
    ensures Received(id, field, None) == Data(map[field := Null])
  {
    var errors, data: map<string, Json> := [FieldError("", INVALID)], map[];
    assert errors[1..] == [] && FirstError(errors, id) == FirstError([], id) == None;
    assert id !in data;
    assert Received(id, field, None) == ReplyTo(id, field, errors, Some(INVALID), data);
  }

  /**
   Batching is transparent, exactly: in every run of enqueues and flushes over mergeable queries, if
   no query of the batch that is flushed next has a fragment that mentions a variable, each caller
   receives what the server would have answered to its query alone. If one has, the server rejects
   the batch, and every caller of it receives null.
   */
  lemma {:induction false} BatchingIsTransparentIff(server: Server, root: int, texts: map<string, Fragment>,
                                                    events: seq<Event>,
                                                    batchSize: nat,
                                                    rank: string -> nat, bound: nat, k: nat)
    requires Mergeable(texts, Arrivals(events), rank, bound)
    requires Play([], events, batchSize).queue != [] && k < |Play([], events, batchSize).queue[0]|
    ensures var batch := Play([], events, batchSize).queue[0];
            && AllSimple(batch) && AddAll(batch).op.Some?
            && Answered(server, root, AllTexts(texts, Arrivals(events)), batch, rank, bound, k) ==
               Some(if AllVarFree(batch, rank, bound) then AloneReply(server, root, batch[k], rank, bound)
                    else Data(map[FieldName(batch[k]) := Null]))
  {
    OldestIsReady(texts, events, batchSize, rank, bound);
    BatchIsAnswered(server, root, AllTexts(texts, Arrivals(events)), Play([], events, batchSize).queue[0], rank, bound,
                    k);
  }

  /**
   If instead the request of that batch fails as a whole, every caller of it receives the failure; and
   if errors stand at some aliases, exactly the callers at those receive one, the others their own data.
   */
  lemma {:induction false} FailuresReachTheirCallers(texts: map<string, Fragment>, events: seq<Event>, batchSize: nat,
                                                     rank: string -> nat, bound: nat, k: nat,
                                                     errors: seq<FieldError>, failure: Option<string>,
                                                     data: map<string, Json>)
    requires Mergeable(texts, Arrivals(events), rank, bound)
    requires Play([], events, batchSize).queue != [] && k < |Play([], events, batchSize).queue[0]|
    ensures var batch := Play([], events, batchSize).queue[0];
            var id := batch[k].id;
            && AllSimple(batch) && id in Subscribers(batch) && Subscribers(batch)[id] == FieldName(batch[k])
            && var reply := ReplyTo(id, Subscribers(batch)[id], errors, failure, data);
               && (errors == [] && failure.Some? ==> reply == Failed(failure.value))
               && (forall i :: StandsFirst(errors, i, id) ==> reply == Failed(errors[i].error))
               && ((errors != [] || failure == None) && (forall i :: 0 <= i < |errors| ==> errors[i].path != id) ==>
                     reply == Data(map[FieldName(batch[k]) := if id in data then data[id] else Null]))
  {
    OldestIsReady(texts, events, batchSize, rank, bound);
    var batch := Play([], events, batchSize).queue[0];
    SubscriberAt(batch, k);
    RepliesAre(Subscribers(batch), errors, failure, data);
  }
}
