/**
  Memory as an object: its map, changed in place one lock section at a time. now is always the
  operation's own sample, taken before the lock, and may be stale by the time the section runs.
 */
module Memory {
  import opened Basics
  import opened Expiry
  import opened MemoryModel

  datatype Item = Item(key: Key, val: Val)

  /** items are the entries of view, each once, in some order. */
  ghost predicate Lists(items: seq<Item>, view: map<Key, Entry>) {
    && (forall i :: 0 <= i < |items| ==> items[i].key in view && items[i].val == view[items[i].key].value)
    && (forall i, j :: 0 <= i < j < |items| ==> items[i].key != items[j].key)
    && (forall k :: k in view ==> Item(k, view[k].value) in items)
  }

  class Memory {
    const cfg: Config
    var m: map<Key, Entry>

    constructor (cfg: Config)
      ensures m == map[] && this.cfg == cfg
    {
      this.cfg := cfg;
      m := map[];
    }

    /** lookup's first section: the value if live, and whether the key is there at all. */
    method Read(k: Key, now: Time) returns (v: Option<Val>, present: bool)
      ensures Value(v) == OutOf(cfg, m, Action.Read(k, now)) && present == (k in m)
      ensures v == if k in m && (m[k].expiresAt == 0 || now < m[k].expiresAt) then Some(m[k].value) else None
    {
      present := k in m;
      v := if present && !Expired(m[k].expiresAt, now) then Some(m[k].value) else None;
    }

    /** lookup's second section. */
    method Recheck(k: Key, now: Time)
      modifies this
      ensures m == NextMap(cfg, old(m), Action.Recheck(k, now))
      ensures m == if k in old(m) && old(m)[k].expiresAt != 0 && old(m)[k].expiresAt <= now then old(m) - {k} else old(m)
    {
      if k in m && Expired(m[k].expiresAt, now) { m := m - {k}; }
    }

    /** lookup with nothing in between. */
    method Lookup(k: Key, now: Time) returns (v: Option<Val>)
      modifies this
      ensures v == ReadAt(old(m), k, now) && m == EvictKey(old(m), k, now)
      ensures v == if k in old(m) && (old(m)[k].expiresAt == 0 || now < old(m)[k].expiresAt) then Some(old(m)[k].value) else None
      ensures m == if k in old(m) && old(m)[k].expiresAt != 0 && old(m)[k].expiresAt <= now then old(m) - {k} else old(m)
    {
      var present;
      v, present := Read(k, now);
      if v == None && present { Recheck(k, now); }
    }

    method Set(k: Key, v: Val, exp: Expiry, now: Time) returns (e: Time)
      modifies this
      ensures m == NextMap(cfg, old(m), Action.Set(k, v, exp, now))
      ensures SetTo(e) == OutOf(cfg, old(m), Action.Set(k, v, exp, now))
      ensures m == old(m)[k := Entry(v, e)]
      ensures e == ResolveExpiry(cfg, exp, now, if k in old(m) then old(m)[k].expiresAt else 0,
        k in old(m) && (old(m)[k].expiresAt == 0 || now < old(m)[k].expiresAt))
    {
      var found := k in m && !Expired(m[k].expiresAt, now);
      e := ResolveExpiry(cfg, exp, now, if k in m then m[k].expiresAt else 0, found);
      m := m[k := Entry(v, e)];
    }

    method Delete(k: Key)
      modifies this
      ensures m == NextMap(cfg, old(m), Action.Delete(k))
      ensures m == old(m) - {k}
    {
      m := m - {k};
    }

    /** cleanup: the expired entries are deleted one by one. */
    method Cleanup(now: Time)
      modifies this
      ensures m == NextMap(cfg, old(m), Maintain(now))
      ensures forall k :: k in m <==> k in old(m) && (old(m)[k].expiresAt == 0 || now < old(m)[k].expiresAt)
      ensures forall k :: k in m ==> m[k] == old(m)[k]
    {
      var keys := m.Keys;
      while keys != {}
        invariant keys <= m.Keys
        invariant forall k :: k in m ==> k in old(m) && m[k] == old(m)[k]
        invariant forall k :: k in old(m) && k !in m ==> Expired(old(m)[k].expiresAt, now)
        invariant forall k :: k in m && k !in keys ==> !Expired(m[k].expiresAt, now)
        decreases |keys|
      {
        var k :| k in keys;
        keys := keys - {k};
        if Expired(m[k].expiresAt, now) { m := m - {k}; }
      }
    }

    /** rebuild: the live entries are copied into a fresh map. */
    method Rebuild(now: Time)
      modifies this
      ensures m == NextMap(cfg, old(m), Maintain(now))
      ensures forall k :: k in m <==> k in old(m) && (old(m)[k].expiresAt == 0 || now < old(m)[k].expiresAt)
      ensures forall k :: k in m ==> m[k] == old(m)[k]
    {
      var rebuilt: map<Key, Entry> := map[];
      var keys := m.Keys;
      while keys != {}
        invariant keys <= m.Keys && m == old(m)
        invariant forall k :: k in rebuilt <==> k in m && k !in keys && !Expired(m[k].expiresAt, now)
        invariant forall k :: k in rebuilt ==> rebuilt[k] == m[k]
        decreases |keys|
      {
        var k :| k in keys;
        keys := keys - {k};
        if !Expired(m[k].expiresAt, now) { rebuilt := rebuilt[k := m[k]]; }
      }
      m := rebuilt;
    }

    /** The copy of the live entries that iteration takes under the lock, in whatever order the map gives. */
    method Snapshot(now: Time) returns (items: seq<Item>)
      ensures Lists(items, View(m, now))
      ensures forall k, v :: Item(k, v) in items <==>
        (k in m && (m[k].expiresAt == 0 || now < m[k].expiresAt) && m[k].value == v)
    {
      items := [];
      var keys := m.Keys;
      while keys != {}
        invariant keys <= m.Keys
        invariant forall i :: 0 <= i < |items| ==>
          && items[i].key in m && items[i].key !in keys && items[i].val == m[items[i].key].value
          && !Expired(m[items[i].key].expiresAt, now)
        invariant forall i, j :: 0 <= i < j < |items| ==> items[i].key != items[j].key
        invariant forall k :: k in m && k !in keys && !Expired(m[k].expiresAt, now) ==>
          Item(k, m[k].value) in items
        decreases |keys|
      {
        var k :| k in keys;
        keys := keys - {k};
        if !Expired(m[k].expiresAt, now) { items := items + [Item(k, m[k].value)]; }
      }
    }

    /**
      ItemsContext: a look at the context, then the snapshot, then the yields. items is the snapshot,
      if one is taken. The context's next alive looks find it live and all later ones done; the
      consumer takes at most want more items, the last with a false yield.
     */
    method ItemsContext(now: Time, alive: nat, want: nat)
      returns (yielded: seq<Item>, end: End, aliveLeft: nat, items: Option<seq<Item>>)
      requires want > 0
      ensures items.Some? <==> alive > 0
      ensures items.None? ==> yielded == [] && end == CtxDone && aliveLeft == 0
      ensures items.Some? ==>
        Lists(items.value, View(m, now)) && Ended(items.value, alive - 1, want, yielded, end, aliveLeft)
    {
      if alive == 0 { return [], CtxDone, 0, None; }
      var copy := Snapshot(now);
      yielded, end, aliveLeft := Iterate(copy, alive - 1, want);
      items := Some(copy);
    }
  }

  /** How an iteration ended: ran out, the consumer stopped it, or the context was done. */
  datatype End = Exhausted | Stopped | CtxDone

  /** An iteration over items with one look at the context before each: what it yields, how it ends, and the looks left. */
  predicate Ended(items: seq<Item>, alive: int, want: nat, yielded: seq<Item>, end: End, aliveLeft: int) {
    && yielded <= items
    && match end
       case Exhausted => yielded == items && |items| < want && aliveLeft == alive - |items|
       case Stopped => |yielded| == want && aliveLeft == alive - want
       case CtxDone => |yielded| < want && |yielded| == alive && aliveLeft == 0
  }

  /** The yields from a snapshot, with no lock held. */
  method Iterate(items: seq<Item>, alive: nat, want: nat)
    returns (yielded: seq<Item>, end: End, aliveLeft: nat)
    requires want > 0
    ensures Ended(items, alive, want, yielded, end, aliveLeft)
  {
    yielded, aliveLeft := [], alive;
    for i := 0 to |items|
      invariant yielded == items[..i] && i < want && aliveLeft == alive - i
    {
      if aliveLeft == 0 { return yielded, CtxDone, 0; }
      aliveLeft := aliveLeft - 1;
      yielded := yielded + [items[i]];
      if |yielded| == want { return yielded, Stopped, aliveLeft; }
    }
    end := Exhausted;
  }
}
