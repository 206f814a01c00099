/**
 The layers of the cache: an evicting memory store, a persistent store that returns expired rows
 with a TTL of zero, and a purging layer that never answers. A layered cache over them agrees
 with one expiring map.
 */
module Layers {
  import opened Options

  type Bytes = seq<bv8>

  datatype Expiry = Never | At(time: nat)

  datatype Row = Row(value: Bytes, expires: Expiry)

  datatype Kind = Memory | Postgres | Cloudflare

  datatype Layer = Layer(kind: Kind, rows: map<string, Row>)

  /** Found data and its time to live. */
  datatype Hit = Hit(value: Bytes, ttl: nat)

  function Until(time: nat, now: nat): nat {
    if time <= now then 0 else time - now
  }

  // ---------------------------------------------------------------------------------------
  // One layer
  // ---------------------------------------------------------------------------------------

  /** Memory misses an entry past its expiry; the persistent layer returns it with a TTL of zero. */
  function Lookup(l: Layer, key: string, now: nat): Option<Hit> {
    if l.kind == Cloudflare || key !in l.rows then None
    else
      match l.rows[key].expires
      case Never => Some(Hit(l.rows[key].value, 0))
      case At(time) =>
        if l.kind == Memory && now > time then None
        else Some(Hit(l.rows[key].value, Until(time, now)))
  }

  /**
   A write. Memory keeps an entry with a TTL of zero until it is evicted, and may drop the write,
   leaving the key absent.
   */
  function Stored(l: Layer, key: string, value: Bytes, ttl: nat, now: nat, dropped: bool): Layer {
    match l.kind
    case Memory =>
      if dropped then l.(rows := l.rows - {key})
      else l.(rows := l.rows[key := Row(value, if ttl == 0 then Never else At(now + ttl))])
    case Postgres => l.(rows := l.rows[key := Row(value, At(now + ttl))])
    case Cloudflare => l
  }

  /** Expiring removes an entry from memory and dates the persistent row to the epoch. */
  function Lapsed(l: Layer, key: string): Layer {
    match l.kind
    case Memory => l.(rows := l.rows - {key})
    case Postgres => if key in l.rows then l.(rows := l.rows[key := l.rows[key].(expires := At(0))]) else l
    case Cloudflare => l
  }

  function Removed(l: Layer, key: string): Layer {
    if l.kind == Cloudflare then l else l.(rows := l.rows - {key})
  }

  // ---------------------------------------------------------------------------------------
  // All layers
  // ---------------------------------------------------------------------------------------

  /** The first layer that answers, or the number of layers. */
  function FirstHit(layers: seq<Layer>, key: string, now: nat): (h: nat)
    ensures h <= |layers|
    ensures h < |layers| ==> Lookup(layers[h], key, now).Some?
    ensures forall i :: 0 <= i < h ==> Lookup(layers[i], key, now) == None
  {
    FirstHitFrom(layers, key, now, 0)
  }

  function FirstHitFrom(layers: seq<Layer>, key: string, now: nat, i: nat): (h: nat)
    requires i <= |layers|
    ensures i <= h <= |layers|
    ensures h < |layers| ==> Lookup(layers[h], key, now).Some?
    ensures forall j :: i <= j < h ==> Lookup(layers[j], key, now) == None
    decreases |layers| - i
  {
    if i == |layers| || Lookup(layers[i], key, now).Some? then i else FirstHitFrom(layers, key, now, i + 1)
  }

  lemma FirstHitIs(layers: seq<Layer>, key: string, now: nat, h: nat)
    requires h <= |layers| && forall i :: 0 <= i < h ==> Lookup(layers[i], key, now) == None
    requires h < |layers| ==> Lookup(layers[h], key, now).Some?
    ensures FirstHit(layers, key, now) == h
  {
  }

  function Found(layers: seq<Layer>, key: string, now: nat): Option<Hit> {
    var h := FirstHit(layers, key, now);
    if h < |layers| then Lookup(layers[h], key, now) else None
  }

  /** A read writes what it found, unless it is empty, into the layers above the one that answered. */
  function AfterRead(layers: seq<Layer>, key: string, now: nat, dropped: set<nat>): (r: seq<Layer>)
    ensures |r| == |layers|
  {
    var h, found := FirstHit(layers, key, now), Found(layers, key, now);
    seq(|layers|, i requires 0 <= i < |layers| =>
      if i < h && found.Some? && found.value.value != [] then
        Stored(layers[i], key, found.value.value, found.value.ttl, now, i in dropped)
      else layers[i])
  }

  function AfterSet(layers: seq<Layer>, key: string, value: Bytes, ttl: nat, now: nat,
                    dropped: set<nat>): (r: seq<Layer>)
    ensures |r| == |layers|
  {
    if value == [] || ttl == 0 then layers
    else seq(|layers|, i requires 0 <= i < |layers| => Stored(layers[i], key, value, ttl, now, i in dropped))
  }

  function AfterExpire(layers: seq<Layer>, key: string): (r: seq<Layer>)
    ensures |r| == |layers|
  {
    seq(|layers|, i requires 0 <= i < |layers| => Lapsed(layers[i], key))
  }

  function AfterDelete(layers: seq<Layer>, key: string): (r: seq<Layer>)
    ensures |r| == |layers|
  {
    seq(|layers|, i requires 0 <= i < |layers| => Removed(layers[i], key))
  }

  // ---------------------------------------------------------------------------------------
  // Agreement with one expiring map
  // ---------------------------------------------------------------------------------------

  /** The simple cache: a value and an expiry for each key. */
  datatype Item = Item(value: Bytes, expires: nat)

  function Answer(items: map<string, Item>, key: string, now: nat): Option<Hit> {
    if key in items then Some(Hit(items[key].value, Until(items[key].expires, now))) else None
  }

  /** Any number of memory layers above the persistent one, any number of purging layers below. */
  ghost predicate Shaped(layers: seq<Layer>, n: nat) {
    && n < |layers|
    && (forall i :: 0 <= i < n ==> layers[i].kind == Memory)
    && layers[n].kind == Postgres
    && (forall i :: n < i < |layers| ==> layers[i].kind == Cloudflare)
  }

  /** A memory row repeats the item, with the same expiry or, once that has passed, with none. */
  ghost predicate Repeats(l: Layer, items: map<string, Item>, now: nat) {
    forall key :: key in l.rows ==>
      && key in items
      && l.rows[key].value == items[key].value
      && (l.rows[key].expires == At(items[key].expires) || (l.rows[key].expires == Never && items[key].expires <= now))
  }

  ghost predicate Persists(l: Layer, items: map<string, Item>) {
    && l.rows.Keys == items.Keys
    && forall key :: key in items ==> l.rows[key] == Row(items[key].value, At(items[key].expires))
  }

  ghost predicate Agrees(layers: seq<Layer>, n: nat, items: map<string, Item>, now: nat) {
    && Shaped(layers, n)
    && Persists(layers[n], items)
    && forall i :: 0 <= i < n ==> Repeats(layers[i], items, now)
  }

  datatype Op =
    | Set(key: string, value: Bytes, ttl: nat, dropped: set<nat>)
    | Get(key: string, dropped: set<nat>)
    | Expire(key: string)
    | Delete(key: string)
    | Evict(layer: nat, key: string)
    | Tick(elapsed: nat)

  datatype Cache = Cache(layers: seq<Layer>, now: nat)

  function Step(c: Cache, op: Op): (c': Cache)
    ensures |c'.layers| == |c.layers|
  {
    match op
    case Set(key, value, ttl, dropped) => c.(layers := AfterSet(c.layers, key, value, ttl, c.now, dropped))
    case Get(key, dropped) => c.(layers := AfterRead(c.layers, key, c.now, dropped))
    case Expire(key) => c.(layers := AfterExpire(c.layers, key))
    case Delete(key) => c.(layers := AfterDelete(c.layers, key))
    case Evict(i, key) =>
      if i < |c.layers| && c.layers[i].kind == Memory then
        c.(layers := c.layers[i := c.layers[i].(rows := c.layers[i].rows - {key})])
      else c
    case Tick(elapsed) => c.(now := c.now + elapsed)
  }

  function Run(c: Cache, ops: seq<Op>): (c': Cache)
    ensures |c'.layers| == |c.layers|
  {
    if ops == [] then c else Step(Run(c, ops[..|ops| - 1]), ops[|ops| - 1])
  }

  /** The items after an operation; reads and evictions are none of their business. */
  function ItemsAfter(items: map<string, Item>, now: nat, op: Op): map<string, Item> {
    match op
    case Set(key, value, ttl, _) =>
      if value != [] && ttl > 0 then items[key := Item(value, now + ttl)] else items
    case Expire(key) => if key in items then items[key := items[key].(expires := 0)] else items
    case Delete(key) => items - {key}
    case _ => items
  }

  function RunItems(items: map<string, Item>, now: nat, ops: seq<Op>): map<string, Item> {
    if ops == [] then items
    else ItemsAfter(RunItems(items, now, ops[..|ops| - 1]), now + Elapsed(ops[..|ops| - 1]), ops[|ops| - 1])
  }

  function Elapsed(ops: seq<Op>): nat {
    if ops == [] then 0
    else Elapsed(ops[..|ops| - 1]) + if ops[|ops| - 1].Tick? then ops[|ops| - 1].elapsed else 0
  }

  /** What a read finds is what the map holds, whichever layer answers. */
  lemma FoundIsAnswer(layers: seq<Layer>, n: nat, items: map<string, Item>, now: nat, key: string)
    requires Agrees(layers, n, items, now)
    ensures Found(layers, key, now) == Answer(items, key, now)
  {
    var h := FirstHit(layers, key, now);
    if h < n {
      assert Repeats(layers[h], items, now);
    } else if key in items {
      assert Lookup(layers[n], key, now).Some?;
    } else {
      assert forall i :: n <= i < |layers| ==> Lookup(layers[i], key, now) == None;
    }
  }

  /** A write of an item into memory, with the time to live it has now. */
  lemma StoredRepeats(l: Layer, items: map<string, Item>, now: nat, key: string, dropped: bool)
    requires l.kind == Memory && Repeats(l, items, now) && key in items
    ensures Repeats(Stored(l, key, items[key].value, Until(items[key].expires, now), now, dropped), items, now)
  {
  }

  lemma StoredAnew(l: Layer, items: map<string, Item>, now: nat, key: string, value: Bytes, ttl: nat, dropped: bool)
    requires l.kind == Memory && Repeats(l, items, now) && ttl > 0
    ensures Repeats(Stored(l, key, value, ttl, now, dropped), items[key := Item(value, now + ttl)], now)
  {
  }

  lemma StepAgrees(c: Cache, n: nat, items: map<string, Item>, op: Op)
    requires Agrees(c.layers, n, items, c.now)
    ensures Agrees(Step(c, op).layers, n, ItemsAfter(items, c.now, op), Step(c, op).now)
  {
    match op
    case Set(key, value, ttl, dropped) => SetAgrees(c.layers, n, items, c.now, key, value, ttl, dropped);
    case Get(key, dropped) => ReadAgrees(c.layers, n, items, c.now, key, dropped);
    case Expire(key) => ExpireAgrees(c.layers, n, items, c.now, key);
    case Delete(key) => DeleteAgrees(c.layers, n, items, c.now, key);
    case Evict(i, key) => EvictAgrees(c, n, items, i, key);
    case Tick(elapsed) => TickAgrees(c.layers, n, items, c.now, elapsed);
  }

  lemma EvictAgrees(c: Cache, n: nat, items: map<string, Item>, i: nat, key: string)
    requires Agrees(c.layers, n, items, c.now)
    ensures Agrees(Step(c, Evict(i, key)).layers, n, items, c.now)
  {
  }

  lemma TickAgrees(layers: seq<Layer>, n: nat, items: map<string, Item>, now: nat, elapsed: nat)
    requires Agrees(layers, n, items, now)
    ensures Agrees(layers, n, items, now + elapsed)
  {
    assert forall i :: 0 <= i < n ==> Repeats(layers[i], items, now + elapsed);
  }

  lemma SetAgrees(layers: seq<Layer>, n: nat, items: map<string, Item>, now: nat, key: string, value: Bytes, ttl: nat,
                  dropped: set<nat>)
    requires Agrees(layers, n, items, now)
    ensures Agrees(AfterSet(layers, key, value, ttl, now, dropped), n,
                   if value != [] && ttl > 0 then items[key := Item(value, now + ttl)] else items, now)
  {
    if value != [] && ttl > 0 { WriteAgrees(layers, n, items, now, key, value, ttl, dropped); }
  }

  lemma WriteAgrees(layers: seq<Layer>, n: nat, items: map<string, Item>, now: nat, key: string, value: Bytes, ttl: nat,
                    dropped: set<nat>)
    requires Agrees(layers, n, items, now) && value != [] && ttl > 0
    ensures Agrees(AfterSet(layers, key, value, ttl, now, dropped), n, items[key := Item(value, now + ttl)], now)
  {
    var after := AfterSet(layers, key, value, ttl, now, dropped);
    StoredPersists(layers[n], items, now, key, value, ttl, n in dropped);
    forall i | 0 <= i < n
      ensures Repeats(after[i], items[key := Item(value, now + ttl)], now)
    {
      StoredAnew(layers[i], items, now, key, value, ttl, i in dropped);
    }
  }

  lemma StoredPersists(l: Layer, items: map<string, Item>, now: nat, key: string, value: Bytes, ttl: nat, dropped: bool)
    requires l.kind == Postgres && Persists(l, items)
    ensures Persists(Stored(l, key, value, ttl, now, dropped), items[key := Item(value, now + ttl)])
  {
  }

  lemma ExpireAgrees(layers: seq<Layer>, n: nat, items: map<string, Item>, now: nat, key: string)
    requires Agrees(layers, n, items, now)
    ensures Agrees(AfterExpire(layers, key), n,
                   if key in items then items[key := items[key].(expires := 0)] else items, now)
  {
  }

  lemma DeleteAgrees(layers: seq<Layer>, n: nat, items: map<string, Item>, now: nat, key: string)
    requires Agrees(layers, n, items, now)
    ensures Agrees(AfterDelete(layers, key), n, items - {key}, now)
  {
  }

  lemma ReadAgrees(layers: seq<Layer>, n: nat, items: map<string, Item>, now: nat, key: string, dropped: set<nat>)
    requires Agrees(layers, n, items, now)
    ensures Agrees(AfterRead(layers, key, now, dropped), n, items, now)
  {
    FoundIsAnswer(layers, n, items, now, key);
    assert key in items ==> FirstHit(layers, key, now) <= n;
    forall i | 0 <= i < n
      ensures Repeats(AfterRead(layers, key, now, dropped)[i], items, now)
    {
      if key in items { StoredRepeats(layers[i], items, now, key, i in dropped); }
    }
  }

  /**
   The layered cache refines one expiring map: under any sequence of operations, evictions and
   clock ticks, whatever memory keeps or drops, a read finds what the map holds then.
   */
  lemma {:induction false} CacheIsAnExpiringMap(c: Cache, n: nat, items: map<string, Item>, ops: seq<Op>, key: string,
                                                end: Cache)
    requires Agrees(c.layers, n, items, c.now) && end == Run(c, ops)
    ensures Found(end.layers, key, end.now) == Answer(RunItems(items, c.now, ops), key, c.now + Elapsed(ops))
  {
    RunAgrees(c, n, items, ops);
    FoundIsAnswer(end.layers, n, RunItems(items, c.now, ops), end.now, key);
  }

  lemma {:induction false} RunTakesTime(c: Cache, ops: seq<Op>)
    ensures Run(c, ops).now == c.now + Elapsed(ops)
  {
    if ops != [] { RunTakesTime(c, ops[..|ops| - 1]); }
  }

  lemma ItemsNext(items: map<string, Item>, now: nat, ops: seq<Op>)
    requires ops != []
    ensures var front := ops[..|ops| - 1];
            RunItems(items, now, ops) == ItemsAfter(RunItems(items, now, front), now + Elapsed(front), ops[|ops| - 1])
  {
  }

  lemma AgreesAfterStep(c: Cache, n: nat, items: map<string, Item>, op: Op, c': Cache, items': map<string, Item>)
    requires Agrees(c.layers, n, items, c.now) && c' == Step(c, op) && items' == ItemsAfter(items, c.now, op)
    ensures Agrees(c'.layers, n, items', c'.now)
  {
    StepAgrees(c, n, items, op);
  }

  lemma {:induction false} RunAgrees(c: Cache, n: nat, items: map<string, Item>, ops: seq<Op>)
    requires Agrees(c.layers, n, items, c.now)
    ensures Run(c, ops).now == c.now + Elapsed(ops)
    ensures Agrees(Run(c, ops).layers, n, RunItems(items, c.now, ops), Run(c, ops).now)
  {
    RunTakesTime(c, ops);
    if ops != [] {
      var front, last := ops[..|ops| - 1], ops[|ops| - 1];
      RunTakesTime(c, front);
      RunAgrees(c, n, items, front);
      ItemsNext(items, c.now, ops);
      AgreesAfterStep(Run(c, front), n, RunItems(items, c.now, front), last, Run(c, ops), RunItems(items, c.now, ops));
    }
  }

  // ---------------------------------------------------------------------------------------
  // Expiry is sticky
  // ---------------------------------------------------------------------------------------

  /** An accepted write of the key, or its deletion. */
  predicate Replaces(op: Op, key: string) {
    match op
    case Set(k, value, ttl, _) => k == key && value != [] && ttl > 0
    case Delete(k) => k == key
    case _ => false
  }

  ghost predicate Untouched(ops: seq<Op>, key: string) {
    forall i :: 0 <= i < |ops| ==> !Replaces(ops[i], key)
  }

  /**
   After `Expire` of a stored key, every read returns the same data with a TTL of zero until the
   next accepted write or deletion of the key, although reads bring the value back into memory.
   */
  lemma {:induction false} ExpiryIsSticky(c: Cache, n: nat, items: map<string, Item>, key: string, ops: seq<Op>,
                                          end: Cache)
    requires Agrees(c.layers, n, items, c.now) && key in c.layers[n].rows
    requires Untouched(ops, key)
    requires end == Run(Step(c, Expire(key)), ops)
    ensures Found(end.layers, key, end.now) == Some(Hit(c.layers[n].rows[key].value, 0))
  {
    StepAgrees(c, n, items, Expire(key));
    LapsedIsFound(Step(c, Expire(key)), n, ItemsAfter(items, c.now, Expire(key)), key, ops, end);
  }

  lemma {:induction false} LapsedIsFound(c: Cache, n: nat, items: map<string, Item>, key: string, ops: seq<Op>,
                                         end: Cache)
    requires Agrees(c.layers, n, items, c.now) && key in items && items[key].expires == 0
    requires Untouched(ops, key) && end == Run(c, ops)
    ensures Found(end.layers, key, end.now) == Some(Hit(items[key].value, 0))
  {
    LapsedAnswer(items, c.now, key, ops);
    CacheIsAnExpiringMap(c, n, items, ops, key, end);
  }

  lemma {:induction false} LapsedItemStays(items: map<string, Item>, now: nat, key: string, ops: seq<Op>)
    requires key in items && items[key].expires == 0
    requires Untouched(ops, key)
    ensures key in RunItems(items, now, ops) && RunItems(items, now, ops)[key] == items[key]
  {
    if ops != [] { LapsedItemStays(items, now, key, ops[..|ops| - 1]); }
  }

  lemma {:induction false} LapsedAnswer(items: map<string, Item>, now: nat, key: string, ops: seq<Op>)
    requires key in items && items[key].expires == 0 && Untouched(ops, key)
    ensures Answer(RunItems(items, now, ops), key, now + Elapsed(ops)) == Some(Hit(items[key].value, 0))
  {
    LapsedItemStays(items, now, key, ops);
  }

  // ---------------------------------------------------------------------------------------
  // Reads find what was written last
  // ---------------------------------------------------------------------------------------

  /** None of the operations writes, expires or deletes the key; a write of nothing or for no time is none. */
  ghost predicate LeavesAlone(ops: seq<Op>, key: string) {
    forall i :: 0 <= i < |ops| ==>
      match ops[i]
      case Set(k, value, ttl, _) => k != key || value == [] || ttl == 0
      case Expire(k) => k != key
      case Delete(k) => k != key
      case _ => true
  }

  lemma {:induction false} ItemStays(items: map<string, Item>, now: nat, key: string, ops: seq<Op>)
    requires LeavesAlone(ops, key)
    ensures key in RunItems(items, now, ops) <==> key in items
    ensures key in items ==> RunItems(items, now, ops)[key] == items[key]
  {
    if ops != [] {
      var front, last := ops[..|ops| - 1], ops[|ops| - 1];
      ItemStays(items, now, key, front);
      assert LeavesAlone([last], key) by { assert [last][0] == ops[|ops| - 1]; }
    }
  }

  /** As long as the key is left alone, reads find what the map held for it. */
  lemma {:induction false} FoundMeanwhile(c: Cache, n: nat, items: map<string, Item>, key: string, ops: seq<Op>,
                                          end: Cache)
    requires Agrees(c.layers, n, items, c.now) && LeavesAlone(ops, key) && end == Run(c, ops)
    ensures end.now == c.now + Elapsed(ops)
    ensures Found(end.layers, key, end.now) == Answer(items, key, end.now)
  {
    RunTakesTime(c, ops);
    CacheIsAnExpiringMap(c, n, items, ops, key, end);
    AnswerStays(items, c.now, key, ops, end.now);
  }

  lemma {:induction false} AnswerStays(items: map<string, Item>, now: nat, key: string, ops: seq<Op>, later: nat)
    requires LeavesAlone(ops, key)
    ensures Answer(RunItems(items, now, ops), key, later) == Answer(items, key, later)
  {
    ItemStays(items, now, key, ops);
  }

  lemma AnswerOfWritten(items: map<string, Item>, key: string, value: Bytes, ttl: nat, now: nat, elapsed: nat)
    ensures Answer(items[key := Item(value, now + ttl)], key, now + elapsed) ==
            Some(Hit(value, if elapsed >= ttl then 0 else ttl - elapsed))
  {
  }

  lemma {:induction false} FoundAfterWrite(c: Cache, n: nat, items: map<string, Item>, key: string, value: Bytes,
                                           ttl: nat, ops: seq<Op>, end: Cache)
    requires Agrees(c.layers, n, items[key := Item(value, c.now + ttl)], c.now) && LeavesAlone(ops, key)
    requires end == Run(c, ops)
    ensures end.now >= c.now
    ensures Found(end.layers, key, end.now) ==
            Some(Hit(value, if end.now - c.now >= ttl then 0 else ttl - (end.now - c.now)))
  {
    FoundMeanwhile(c, n, items[key := Item(value, c.now + ttl)], key, ops, end);
    AnswerOfWritten(items, key, value, ttl, c.now, Elapsed(ops));
  }

  /**
   What was written is found, whichever layers dropped it and whatever else happens meanwhile, with
   the time to live that is left of it.
   */
  lemma {:induction false} WrittenIsFound(c: Cache, n: nat, items: map<string, Item>, key: string, value: Bytes,
                                          ttl: nat,
                                          dropped: set<nat>, ops: seq<Op>, end: Cache)
    requires Agrees(c.layers, n, items, c.now) && value != [] && ttl > 0 && LeavesAlone(ops, key)
    requires end == Run(Step(c, Set(key, value, ttl, dropped)), ops)
    ensures end.now >= c.now
    ensures Found(end.layers, key, end.now) ==
            Some(Hit(value, if end.now - c.now >= ttl then 0 else ttl - (end.now - c.now)))
  {
    WriteAgrees(c.layers, n, items, c.now, key, value, ttl, dropped);
    FoundAfterWrite(Step(c, Set(key, value, ttl, dropped)), n, items, key, value, ttl, ops, end);
  }

  /** Nothing is written for a value that is empty or a time to live of zero. */
  lemma EmptyIsNotWritten(c: Cache, key: string, value: Bytes, ttl: nat, dropped: set<nat>)
    requires value == [] || ttl == 0
    ensures Step(c, Set(key, value, ttl, dropped)) == c
  {
  }

  /** What is in no layer is not found until it is written. */
  lemma {:induction false} UnwrittenIsMissing(c: Cache, n: nat, items: map<string, Item>, key: string, ops: seq<Op>,
                                              end: Cache)
    requires Agrees(c.layers, n, items, c.now) && key !in items && LeavesAlone(ops, key) && end == Run(c, ops)
    ensures Found(end.layers, key, end.now) == None
  {
    FoundMeanwhile(c, n, items, key, ops, end);
  }

  /** What was deleted is not found until it is written again. */
  lemma {:induction false} DeletedIsMissing(c: Cache, n: nat, items: map<string, Item>, key: string, ops: seq<Op>,
                                            end: Cache)
    requires Agrees(c.layers, n, items, c.now) && LeavesAlone(ops, key) && end == Run(Step(c, Delete(key)), ops)
    ensures Found(end.layers, key, end.now) == None
  {
    StepAgrees(c, n, items, Delete(key));
    UnwrittenIsMissing(Step(c, Delete(key)), n, items - {key}, key, ops, end);
  }

  /** A write reaches every layer that does not drop it, so that each of them answers for itself. */
  lemma WriteReachesEveryLayer(layers: seq<Layer>, key: string, value: Bytes, ttl: nat, now: nat, dropped: set<nat>,
                               i: nat)
    requires i < |layers| && layers[i].kind != Cloudflare && value != [] && ttl > 0
    ensures var after := AfterSet(layers, key, value, ttl, now, dropped)[i];
            Lookup(after, key, now) ==
            if layers[i].kind == Memory && i in dropped then None else Some(Hit(value, ttl))
  {
  }

  /** What a read finds below, memory answers from then on by itself, unless it drops it. */
  lemma ReadWarmsMemory(layers: seq<Layer>, key: string, now: nat, dropped: set<nat>, i: nat, hit: Hit)
    requires Found(layers, key, now) == Some(hit) && hit.value != []
    requires i < |layers| && layers[i].kind == Memory && i !in dropped
    requires forall j :: 0 <= j <= i ==> Lookup(layers[j], key, now) == None
    ensures Lookup(AfterRead(layers, key, now, dropped)[i], key, now) == Some(hit)
  {
  }

  /** It leaves alone the layer that answered and those below. */
  lemma ReadStopsAtTheHit(layers: seq<Layer>, key: string, now: nat, dropped: set<nat>, i: nat, j: nat)
    requires j <= i < |layers| && Lookup(layers[j], key, now).Some?
    ensures AfterRead(layers, key, now, dropped)[i] == layers[i]
  {
  }

  /** Expiring empties memory and keeps the persistent row, which has no time left. */
  lemma ExpiryInEachLayer(layers: seq<Layer>, key: string, now: nat, i: nat)
    requires i < |layers|
    ensures var after := AfterExpire(layers, key)[i];
            && (layers[i].kind == Memory ==> Lookup(after, key, now) == None)
            && (layers[i].kind == Postgres ==>
                  Lookup(after, key, now) ==
                  if key in layers[i].rows then Some(Hit(layers[i].rows[key].value, 0)) else None)
  {
  }

  // ---------------------------------------------------------------------------------------
  // Deleting from the bottom up
  // ---------------------------------------------------------------------------------------

  /** What may happen between the deletions of two layers: whole reads of any key, evictions and ticks. */
  predicate Harmless(op: Op) {
    op.Get? || op.Evict? || op.Tick?
  }

  ghost predicate AllHarmless(ops: seq<Op>) {
    forall i :: 0 <= i < |ops| ==> Harmless(ops[i])
  }

  /** No layer from the i-th one down answers for the key. */
  ghost predicate GoneBelow(layers: seq<Layer>, i: nat, key: string) {
    forall j :: i <= j < |layers| ==> layers[j].kind == Cloudflare || key !in layers[j].rows
  }

  lemma HarmlessKeepsGone(c: Cache, op: Op, i: nat, key: string)
    requires Harmless(op) && GoneBelow(c.layers, i, key)
    ensures GoneBelow(Step(c, op).layers, i, key)
  {
  }

  lemma {:induction false} HarmlessRunKeepsGone(c: Cache, ops: seq<Op>, i: nat, key: string)
    requires AllHarmless(ops) && GoneBelow(c.layers, i, key)
    ensures GoneBelow(Run(c, ops).layers, i, key)
  {
    if ops != [] {
      HarmlessRunKeepsGone(c, ops[..|ops| - 1], i, key);
      HarmlessKeepsGone(Run(c, ops[..|ops| - 1]), ops[|ops| - 1], i, key);
    }
  }

  /** Delete the key from one layer. */
  function DeleteAt(c: Cache, i: nat, key: string): Cache
    requires i < |c.layers|
  {
    c.(layers := c.layers[i := Removed(c.layers[i], key)])
  }

  /**
   Delete the key from the layers `..i`, the lowest first, with `between[k]` happening after the
   deletion from layer k.
   */
  function DeleteUpwards(c: Cache, key: string, i: nat, between: seq<seq<Op>>): Cache
    requires i <= |between| && i <= |c.layers|
    decreases i
  {
    if i == 0 then c
    else DeleteUpwards(Run(DeleteAt(c, i - 1, key), between[i - 1]), key, i - 1, between)
  }

  /** Whatever the layers and whatever is read meanwhile, once `Delete` has finished no layer answers for the key. */
  lemma {:induction false} DeleteIsFinal(c: Cache, key: string, between: seq<seq<Op>>)
    requires |between| == |c.layers| && forall k :: 0 <= k < |between| ==> AllHarmless(between[k])
    ensures var end := DeleteUpwards(c, key, |c.layers|, between);
            GoneBelow(end.layers, 0, key) && Found(end.layers, key, end.now) == None
  {
    DeleteUpwardsFrom(c, key, |c.layers|, between);
  }

  lemma DeletedIsGone(c: Cache, i: nat, key: string)
    requires i < |c.layers| && GoneBelow(c.layers, i + 1, key)
    ensures GoneBelow(DeleteAt(c, i, key).layers, i, key)
  {
  }

  lemma {:induction false} DeleteUpwardsFrom(c: Cache, key: string, i: nat, between: seq<seq<Op>>)
    requires i <= |c.layers| == |between| && GoneBelow(c.layers, i, key)
    requires forall k :: 0 <= k < |between| ==> AllHarmless(between[k])
    ensures var end := DeleteUpwards(c, key, i, between);
            GoneBelow(end.layers, 0, key)
    decreases i
  {
    if i > 0 {
      var next := DeleteAt(c, i - 1, key);
      DeletedIsGone(c, i - 1, key);
      HarmlessRunKeepsGone(next, between[i - 1], i - 1, key);
      DeleteUpwardsFrom(Run(next, between[i - 1]), key, i - 1, between);
    }
  }

  /** Undisturbed, it is the deletion from every layer. */
  lemma {:induction false} DeleteUndisturbed(c: Cache, key: string, i: nat, between: seq<seq<Op>>)
    requires i <= |c.layers| == |between| && forall k :: 0 <= k < |between| ==> between[k] == []
    ensures DeleteUpwards(c, key, i, between) == c.(layers := AfterDelete(c.layers[..i], key) + c.layers[i..])
    decreases i
  {
    if i > 0 {
      DeleteUndisturbed(DeleteAt(c, i - 1, key), key, i - 1, between);
    }
  }

  /** From the top down, with one read between the two deletions, memory keeps the key unless it drops the write. */
  lemma DeletingDownwardsIff(memory: Layer, store: Layer, now: nat, key: string, dropped: set<nat>)
    requires memory.kind == Memory && store.kind == Postgres && key in store.rows
    ensures var layers := AfterRead([Removed(memory, key), store], key, now, dropped);
            Found([layers[0], Removed(layers[1], key)], key, now) == None <==>
                store.rows[key].value == [] || 0 in dropped
  {
    var first := Removed(memory, key);
    OneAboveTheStore(first, store, now, key);
    var layers := AfterRead([first, store], key, now, dropped);
    assert layers[1] == store;
    OneAboveTheStore(layers[0], Removed(store, key), now, key);
  }

  /**
   `Expire` works from the top down: a read in between leaves a positive TTL behind, unless memory
   drops it or the row had lapsed.
   */
  lemma ExpiryWithReadBetweenIff(memory: Layer, store: Layer, now: nat, key: string, dropped: set<nat>)
    requires memory.kind == Memory && store.kind == Postgres && key in store.rows && store.rows[key].expires.At?
    ensures var layers := AfterRead([Lapsed(memory, key), store], key, now, dropped);
            var found := Found([layers[0], Lapsed(layers[1], key)], key, now);
            && found.Some?
            && (found.value.ttl == 0 <==>
                store.rows[key].value == [] || 0 in dropped || store.rows[key].expires.time <= now)
  {
    var first := Lapsed(memory, key);
    OneAboveTheStore(first, store, now, key);
    var layers := AfterRead([first, store], key, now, dropped);
    assert layers[1] == store;
    OneAboveTheStore(layers[0], Lapsed(store, key), now, key);
  }

  lemma OneAboveTheStore(memory: Layer, store: Layer, now: nat, key: string)
    ensures FirstHit([memory, store], key, now) ==
            if Lookup(memory, key, now).Some? then 0 else if Lookup(store, key, now).Some? then 1 else 2
  {
    var h := if Lookup(memory, key, now).Some? then 0 else if Lookup(store, key, now).Some? then 1 else 2;
    FirstHitIs([memory, store], key, now, h);
  }
}
