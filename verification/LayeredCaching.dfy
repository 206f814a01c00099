/** The stores and the layered cache as objects that are updated in place. */
module LayeredCaching {
  import opened Options
  import opened Layers

  class Store {
    const kind: Kind
    var rows: map<string, Row>

    ghost function View(): Layer
      reads this
    {
      Layer(kind, rows)
    }

    constructor (kind: Kind)
      ensures View() == Layer(kind, map[])
    {
      this.kind, rows := kind, map[];
    }

    method GetWithTTL(key: string, now: nat) returns (hit: Option<Hit>)
      ensures hit == Lookup(View(), key, now)
      ensures hit.Some? ==> kind != Cloudflare && key in rows && hit.value.value == rows[key].value
      ensures hit.Some? ==>
                hit.value.ttl ==
                if rows[key].expires.At? && rows[key].expires.time > now then rows[key].expires.time - now else 0
      ensures kind == Postgres && key in rows ==> hit.Some?
      ensures kind == Memory && key in rows ==>
                (hit == None <==> rows[key].expires.At? && rows[key].expires.time < now)
    {
      hit := None;
      if kind != Cloudflare && key in rows {
        var row := rows[key];
        match row.expires {
          case Never =>
            hit := Some(Hit(row.value, 0));
          case At(time) =>
            if time > now {
              hit := Some(Hit(row.value, time - now));
            } else if kind == Postgres || time == now {
              hit := Some(Hit(row.value, 0));
            }
        }
      }
    }

    method Set(key: string, value: Bytes, ttl: nat, now: nat, dropped: bool)
      modifies this
      ensures View() == Stored(old(View()), key, value, ttl, now, dropped)
      ensures kind == Postgres ==> rows == old(rows)[key := Row(value, At(now + ttl))]
      ensures kind == Memory && !dropped ==>
                rows == old(rows)[key := Row(value, if ttl == 0 then Never else At(now + ttl))]
      ensures kind == Memory && dropped ==> rows == old(rows) - {key}
      ensures kind == Cloudflare ==> rows == old(rows)
    {
      match kind {
        case Memory =>
          rows := rows - {key};
          if !dropped {
            var expires := Never;
            if ttl > 0 {
              expires := At(now + ttl);
            }
            rows := rows[key := Row(value, expires)];
          }
        case Postgres =>
          rows := rows[key := Row(value, At(now + ttl))];
        case Cloudflare =>
      }
    }

    method Expire(key: string)
      modifies this
      ensures View() == Lapsed(old(View()), key)
    {
      match kind {
        case Memory =>
          rows := rows - {key};
        case Postgres =>
          if key in rows {
            rows := rows[key := Row(rows[key].value, At(0))];
          }
        case Cloudflare =>
      }
    }

    method Delete(key: string)
      modifies this
      ensures View() == Removed(old(View()), key)
    {
      if kind != Cloudflare {
        rows := rows - {key};
      }
    }
  }

  class LayeredCache {
    const wrapped: seq<Store>

    /** Only the purging layer, which keeps no rows, may be wrapped twice. */
    ghost predicate Valid() {
      forall i, j :: 0 <= i < j < |wrapped| ==> wrapped[i] != wrapped[j] || wrapped[i].kind == Cloudflare
    }

    ghost function View(): (r: seq<Layer>)
      reads wrapped
      ensures |r| == |wrapped|
    {
      seq(|wrapped|, i requires 0 <= i < |wrapped| reads wrapped => wrapped[i].View())
    }

    /** Memory over the persistent store and, if there is one, the purging layer, which is appended twice. */
    constructor (purging: Option<Store>)
      requires purging.Some? ==> purging.value.kind == Cloudflare
      ensures Valid() && forall now :: Agrees(View(), 1, map[], now)
      ensures |wrapped| == if purging.Some? then 4 else 2
    {
      var memory := new Store(Memory);
      var persistent := new Store(Postgres);
      wrapped := if purging.Some? then [memory, persistent, purging.value, purging.value] else [memory, persistent];
    }

    /** Ask the layers from the top down, then write what was found into those that missed, the lowest first. */
    method GetWithTTL(key: string, now: nat, dropped: set<nat>) returns (found: Option<Hit>)
      requires Valid()
      modifies wrapped
      ensures found == Found(old(View()), key, now)
      ensures View() == AfterRead(old(View()), key, now, dropped)
    {
      found := None;
      ghost var layers := View();
      var missed := 0;
      while missed < |wrapped|
        modifies {}
        invariant missed <= |wrapped|
        invariant found == None
        invariant forall k :: 0 <= k < missed ==> Lookup(layers[k], key, now) == None
      {
        assert layers[missed] == wrapped[missed].View();
        found := wrapped[missed].GetWithTTL(key, now);
        if found.Some? {
          break;
        }
        missed := missed + 1;
      }
      assert forall k {:trigger wrapped[k]} :: 0 <= k < |wrapped| ==> wrapped[k].View() == layers[k];
      FirstHitIs(layers, key, now, missed);
      for i := missed downto 0
        invariant forall k {:trigger wrapped[k]} :: 0 <= k < |wrapped| ==>
                    wrapped[k].View() ==
                    if i <= k < missed && found.Some? && found.value.value != [] then
                      Stored(layers[k], key, found.value.value, found.value.ttl, now, k in dropped)
                    else layers[k]
      {
        if found.Some? && |found.value.value| > 0 {
          wrapped[i].Set(key, found.value.value, found.value.ttl, now, i in dropped);
        }
      }
    }

    method Set(key: string, value: Bytes, ttl: nat, now: nat, dropped: set<nat>)
      requires Valid()
      modifies wrapped
      ensures View() == AfterSet(old(View()), key, value, ttl, now, dropped)
      ensures value == [] || ttl == 0 ==> View() == old(View())
    {
      if |value| == 0 || ttl == 0 {
        return;
      }
      for i := 0 to |wrapped|
        invariant forall k {:trigger wrapped[k]} :: 0 <= k < |wrapped| ==>
                    wrapped[k].View() ==
                        if k < i then Stored(old(wrapped[k].View()), key, value, ttl, now, k in dropped)
                          else old(wrapped[k].View())
      {
        wrapped[i].Set(key, value, ttl, now, i in dropped);
      }
    }

    method Expire(key: string)
      requires Valid()
      modifies wrapped
      ensures View() == AfterExpire(old(View()), key)
    {
      for i := 0 to |wrapped|
        invariant forall k {:trigger wrapped[k]} :: 0 <= k < |wrapped| ==>
                    wrapped[k].View() == if k < i then Lapsed(old(wrapped[k].View()), key) else old(wrapped[k].View())
      {
        wrapped[i].Expire(key);
      }
    }

    /** From the bottom up, so that a read cannot bring the entry back. */
    method Delete(key: string)
      requires Valid()
      modifies wrapped
      ensures View() == AfterDelete(old(View()), key)
    {
      for i := |wrapped| downto 0
        invariant forall k {:trigger wrapped[k]} :: 0 <= k < |wrapped| ==>
                    wrapped[k].View() == if k >= i then Removed(old(wrapped[k].View()), key) else old(wrapped[k].View())
      {
        wrapped[i].Delete(key);
      }
    }
  }
}
