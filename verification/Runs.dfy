/**
 Runs made to order. Every list of edges has a run that pushes it and comes to rest, and serializability makes the
 state of rest the same for all runs that push the same relationships.
 */
module Runs {
  import opened Collections
  import opened SortedList
  import opened Resources
  import opened Edges
  import opened Pipeline
  import opened Histories
  import opened Serializability

  ghost predicate OnlyWork(labels: seq<Label>) {
    forall i :: 0 <= i < |labels| ==> labels[i].Deliver? || labels[i].Process?
  }

  lemma TraceOfCons(up: Upstream, s: State, l: Label, states: seq<State>, labels: seq<Label>)
    requires Trace(up, states, labels) && Step(up, s, l, states[0])
    ensures Trace(up, [s] + states, [l] + labels)
  {
  }

  /** A run without outside input, up to the point where nothing is left to do. */
  lemma {:induction false} Drain(up: Upstream, s: State) returns (states: seq<State>, labels: seq<Label>)
    requires SortedState(s)
    ensures Trace(up, states, labels) && OnlyWork(labels)
    ensures states[0] == s && Quiescent(states[|labels|])
    decreases Bound(s)
  {
    if Quiescent(s) {
      states, labels := [s], [];
    } else {
      var l, s' := SomeStep(up, s);
      StepUsesBound(up, s, l, s');
      StepKeepsSorted(up, s, l, s');
      states, labels := Drain(up, s');
      TraceOfCons(up, s, l, states, labels);
      states, labels := [s] + states, [l] + labels;
    }
  }

  lemma SomeStep(up: Upstream, s: State) returns (l: Label, s': State)
    requires SortedState(s) && !Quiescent(s)
    ensures (l.Deliver? || l.Process?) && Step(up, s, l, s')
  {
    if s.inFlight != [] {
      l, s' := Deliver(0), s.(inFlight := s.inFlight[..0] + s.inFlight[1..], queue := Enqueued(s.queue, s.inFlight[0]));
    } else {
      l := Process;
      s' := ProcessIsEnabled(up, s);
    }
  }

  lemma {:induction false} PushedOfCons(l: Label, labels: seq<Label>)
    ensures Pushed([l] + labels) == (if l.External? then Triples([l.e]) else {}) + Pushed(labels)
  {
    var all := [l] + labels;
    if labels == [] {
      assert all[..|all| - 1] == [];
    } else {
      var n := |labels| - 1;
      assert all[..|all| - 1] == [l] + labels[..n];
      PushedOfCons(l, labels[..n]);
    }
  }

  lemma {:induction false} WorkPushesNothing(labels: seq<Label>)
    requires OnlyWork(labels)
    ensures Pushed(labels) == {}
  {
    if labels != [] { WorkPushesNothing(labels[..|labels| - 1]); }
  }

  /** The labels of a run that pushes the edges and then works. */
  ghost predicate PushesThenWork(labels: seq<Label>, edges: seq<Edge>) {
    && |edges| <= |labels|
    && (forall i :: 0 <= i < |edges| ==> labels[i] == External(edges[i]))
    && (forall i :: |edges| <= i < |labels| ==> labels[i].Deliver? || labels[i].Process?)
  }

  lemma PushesFirst(edges: seq<Edge>, labels: seq<Label>)
    requires edges != [] && PushesThenWork(labels, edges[1..])
    ensures PushesThenWork([External(edges[0])] + labels, edges)
  {
  }

  lemma {:induction false} TriplesFirst(edges: seq<Edge>, labels: seq<Label>)
    requires edges != [] && Pushed(labels) == Triples(edges[1..])
    ensures Pushed([External(edges[0])] + labels) == Triples(edges)
  {
    PushedOfCons(External(edges[0]), labels);
    TriplesOfConcat([edges[0]], edges[1..]);
    assert [edges[0]] + edges[1..] == edges;
  }

  /** A run that sends the given edges and then works until nothing is left to do. */
  lemma {:induction false} PushAndDrain(up: Upstream, s: State, edges: seq<Edge>)
    returns (states: seq<State>, labels: seq<Label>)
    requires SortedState(s)
    ensures Trace(up, states, labels) && PushesThenWork(labels, edges)
    ensures states[0] == s && Quiescent(states[|labels|])
    ensures Pushed(labels) == Triples(edges)
    decreases |edges|
  {
    if edges == [] {
      states, labels := Drain(up, s);
      WorkPushesNothing(labels);
    } else {
      var s' := s.(inFlight := s.inFlight + [edges[0]]);
      states, labels := PushAndDrain(up, s', edges[1..]);
      TraceOfCons(up, s, External(edges[0]), states, labels);
      PushesFirst(edges, labels);
      TriplesFirst(edges, labels);
      states, labels := [s] + states, [External(edges[0])] + labels;
    }
  }

  lemma PartsAreAttributed(works: map<ID, Work>, edges: seq<Edge>, i: nat)
    requires Attributed(works, Triples(edges)) && i < |edges|
    ensures Attributed(works, Triples([edges[i]]))
  {
    forall t | t in Triples([edges[i]])
      ensures t in Triples(edges)
    {
      assert t.childID in edges[i].childIDs;
    }
  }

  /** Any attributed edges can be pushed and worked off. */
  lemma EveryPushComesToRest(up: Upstream, s: State, edges: seq<Edge>) returns (states: seq<State>, labels: seq<Label>)
    requires SortedState(s) && Attributed(s.works, Triples(edges))
    ensures RestsAfter(up, s, Triples(edges), states, labels)
  {
    states, labels := PushAndDrain(up, s, edges);
    forall i | 0 <= i < |labels| && labels[i].External?
      ensures Attributed(s.works, Triples([labels[i].e]))
    {
      PartsAreAttributed(s.works, edges, i);
    }
  }

  /**
   Eventual agreement: whatever edges are pushed in a coherent state, some run comes to rest, and
   all runs that push the same relationships and come to rest end in the same state.
   */
  lemma OneStateOfRest(up: Upstream, s: State, edges: seq<Edge>) returns (states: seq<State>, labels: seq<Label>)
    requires Coherent(up, s) && Attributed(s.works, Pending(s)) && Attributed(s.works, Triples(edges))
    requires AliasesMeet(up, s, Pending(s) + Triples(edges))
    ensures RestsAfter(up, s, Triples(edges), states, labels)
    ensures forall others, ls :: RestsAfter(up, s, Triples(edges), others, ls) ==> others[|ls|] == states[|labels|]
  {
    states, labels := EveryPushComesToRest(up, s, edges);
    forall others, ls | RestsAfter(up, s, Triples(edges), others, ls)
      ensures others[|ls|] == states[|labels|]
    {
      DenormalizationIsSerializable(up, s, Triples(edges), others, ls, states, labels);
    }
  }

  // ---------------------------------------------------------------------------------------
  // Runs put together
  // ---------------------------------------------------------------------------------------

  /** A run from `s` to `end` that pushes the relationships `ts`, as part of one that started in `s0`. */
  ghost predicate Goes(up: Upstream, s0: State, s: State, ts: set<Triple>, end: State, states: seq<State>,
                       labels: seq<Label>) {
    && Trace(up, states, labels) && states[0] == s && states[|labels|] == end
    && Admissible(s0, labels) && Pushed(labels) == ts
  }

  ghost predicate Leads(up: Upstream, s0: State, s: State, ts: set<Triple>, end: State) {
    exists states, labels :: Goes(up, s0, s, ts, end, states, labels)
  }

  lemma LeadsNowhere(up: Upstream, s0: State, s: State)
    ensures Leads(up, s0, s, {}, s)
  {
    var states, labels := [s], [];
    assert Goes(up, s0, s, {}, s, states, labels);
  }

  ghost function PushedBy(l: Label): set<Triple> {
    if l.External? then Triples([l.e]) else {}
  }

  /** One step, and then a run. */
  lemma LeadsOn(up: Upstream, s0: State, s: State, l: Label, s': State, ts: set<Triple>, end: State)
    requires Step(up, s, l, s') && !l.Load? && (l.External? ==> Attributed(s0.works, Triples([l.e])))
    requires Leads(up, s0, s', ts, end)
    ensures Leads(up, s0, s, PushedBy(l) + ts, end)
  {
    var states, labels :| Goes(up, s0, s', ts, end, states, labels);
    TraceOfCons(up, s, l, states, labels);
    PushedOfCons(l, labels);
    AdmissibleCons(s0, l, labels);
    assert Goes(up, s0, s, PushedBy(l) + ts, end, [s] + states, [l] + labels);
  }

  lemma AdmissibleCons(s0: State, l: Label, labels: seq<Label>)
    requires Admissible(s0, labels) && !l.Load? && (l.External? ==> Attributed(s0.works, Triples([l.e])))
    ensures Admissible(s0, [l] + labels)
  {
  }

  /** A step that pushes nothing. */
  lemma WorkLeadsOn(up: Upstream, s0: State, s: State, l: Label, s': State, ts: set<Triple>, end: State)
    requires Step(up, s, l, s') && (l.Deliver? || l.Process?) && Leads(up, s0, s', ts, end)
    ensures Leads(up, s0, s, ts, end)
  {
    LeadsOn(up, s0, s, l, s', ts, end);
    EmptyUnion(ts);
  }

  /** One run, and then another. */
  lemma LeadsThrough(up: Upstream, s0: State, s: State, ts1: set<Triple>, m: State, ts2: set<Triple>, end: State)
    requires Leads(up, s0, s, ts1, m) && Leads(up, s0, m, ts2, end)
    ensures Leads(up, s0, s, ts1 + ts2, end)
  {
    var states, labels :| Goes(up, s0, s, ts1, m, states, labels);
    RunLeadsThrough(up, s0, states, labels, ts2, end);
  }

  lemma {:induction false} RunLeadsThrough(up: Upstream, s0: State, states: seq<State>, labels: seq<Label>,
                                           ts: set<Triple>, end: State)
    requires Trace(up, states, labels) && Admissible(s0, labels) && Leads(up, s0, states[|labels|], ts, end)
    ensures Leads(up, s0, states[0], Pushed(labels) + ts, end)
    decreases |labels|
  {
    if labels == [] {
      EmptyUnion(ts);
    } else {
      var l, rest := labels[0], labels[1..];
      assert labels == [l] + rest;
      TailOfTrace(up, s0, states, labels);
      RunLeadsThrough(up, s0, states[1..], rest, ts, end);
      LeadsOn(up, s0, states[0], l, states[1], Pushed(rest) + ts, end);
      PushedOfCons(l, rest);
      assert PushedBy(l) + (Pushed(rest) + ts) == Pushed(labels) + ts;
    }
  }

  lemma TailOfTrace(up: Upstream, s0: State, states: seq<State>, labels: seq<Label>)
    requires Trace(up, states, labels) && Admissible(s0, labels) && labels != []
    ensures Trace(up, states[1..], labels[1..]) && Admissible(s0, labels[1..])
    ensures Step(up, states[0], labels[0], states[1])
  {
    forall i | 0 <= i < |labels[1..]|
      ensures Step(up, states[1..][i], labels[1..][i], states[1..][i + 1])
    {
      assert Step(up, states[i + 1], labels[i + 1], states[i + 2]);
    }
  }

  lemma LeadsToRest(up: Upstream, s: State, ts: set<Triple>, end: State)
    returns (states: seq<State>, labels: seq<Label>)
    requires Leads(up, s, s, ts, end) && Quiescent(end)
    ensures RestsAfter(up, s, ts, states, labels) && states[|labels|] == end
  {
    states, labels :| Goes(up, s, s, ts, end, states, labels);
  }

  /** Send an edge and let the buffer receive it. */
  lemma {:induction false} PushLeads(up: Upstream, s0: State, s: State, e: Edge, ts: set<Triple>, end: State)
    requires Attributed(s0.works, Triples([e])) && Leads(up, s0, s.(queue := Enqueued(s.queue, e)), ts, end)
    ensures Leads(up, s0, s, Triples([e]) + ts, end)
  {
    var n, sent := |s.inFlight|, s.(inFlight := s.inFlight + [e]);
    assert sent.inFlight[..n] + sent.inFlight[n + 1..] == s.inFlight;
    WorkLeadsOn(up, s0, sent, Deliver(n), s.(queue := Enqueued(s.queue, e)), ts, end);
    LeadsOn(up, s0, s, External(e), sent, ts, end);
  }
}
