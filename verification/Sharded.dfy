/**
  Sharded: keys routed to one of a fixed number of Memories. Operation by operation it is one Memory;
  iteration visits the shards one at a time while writers go on.
 */
module Sharded {
  import opened Basics
  import opened Expiry
  import opened MemoryModel
  import opened Memory

  class Sharded {
    const algorithm: Key -> nat
    const shards: seq<Memory>

    /** The shards are separate objects with one configuration. */
    ghost predicate Valid(cfg: Config) {
      && |shards| > 0 && NoDuplicates(shards)
      && forall i :: 0 <= i < |shards| ==> shards[i].cfg == cfg
    }

    constructor (algorithm: Key -> nat, shards: seq<Memory>)
      ensures this.algorithm == algorithm && this.shards == shards
    {
      this.algorithm, this.shards := algorithm, shards;
    }

    /** The index of the shard responsible for k. */
    function Index(k: Key): (i: nat)
      requires |shards| > 0
      ensures i < |shards|
    {
      algorithm(k) % |shards|
    }

    ghost function Maps(): seq<map<Key, Entry>>
      reads shards
    {
      seq(|shards|, i requires 0 <= i < |shards| reads shards => shards[i].m)
    }

    /** The routing as a function of the key alone. */
    ghost function Route(): (route: Key -> nat)
      requires |shards| > 0
      ensures forall k :: route(k) == Index(k)
    {
      k => Index(k)
    }

    /** Together the shards hold what the one Memory one holds, every key where it is routed. */
    ghost predicate Represents(one: map<Key, Entry>)
      requires |shards| > 0
      reads shards
    {
      Splits(Route(), Maps(), one)
    }

    /** Get is one Memory's lookup, lazy eviction included. */
    method Get(cfg: Config, ghost one: map<Key, Entry>, k: Key, now: Time) returns (v: Option<Val>)
      requires Valid(cfg) && Represents(one)
      modifies shards
      ensures v == ReadAt(one, k, now) && Represents(EvictKey(one, k, now))
      ensures v == if k in one && (one[k].expiresAt == 0 || now < one[k].expiresAt) then Some(one[k].value) else None
      ensures Represents(if k in one && one[k].expiresAt != 0 && one[k].expiresAt <= now then one - {k} else one)
      ensures forall j :: 0 <= j < |shards| && j != algorithm(k) % |shards| ==> shards[j].m == old(shards[j].m)
    {
      var i := Index(k);
      ghost var maps := Maps();
      SplitsAt(Route(), maps, one, k);
      v := shards[i].Lookup(k, now);
      OthersSame(maps, i);
      SplitsUpdate(Route(), maps, one, k, shards[i].m, EvictKey(one, k, now));
    }

    method Set(cfg: Config, ghost one: map<Key, Entry>, k: Key, v: Val, exp: Expiry, now: Time) returns (e: Time)
      requires Valid(cfg) && Represents(one)
      modifies shards
      ensures SetTo(e) == OutOf(cfg, one, Action.Set(k, v, exp, now))
      ensures Represents(NextMap(cfg, one, Action.Set(k, v, exp, now)))
      ensures Represents(one[k := Entry(v, e)]) && k in shards[algorithm(k) % |shards|].m
      ensures forall j :: 0 <= j < |shards| && j != algorithm(k) % |shards| ==> shards[j].m == old(shards[j].m)
    {
      var i := Index(k);
      ghost var maps := Maps();
      SplitsAt(Route(), maps, one, k);
      e := shards[i].Set(k, v, exp, now);
      OthersSame(maps, i);
      SplitsUpdate(Route(), maps, one, k, shards[i].m, NextMap(cfg, one, Action.Set(k, v, exp, now)));
    }

    method Delete(cfg: Config, ghost one: map<Key, Entry>, k: Key)
      requires Valid(cfg) && Represents(one)
      modifies shards
      ensures Represents(NextMap(cfg, one, Action.Delete(k)))
      ensures Represents(one - {k})
      ensures forall j :: 0 <= j < |shards| && j != algorithm(k) % |shards| ==> shards[j].m == old(shards[j].m)
    {
      var i := Index(k);
      ghost var maps := Maps();
      shards[i].Delete(k);
      OthersSame(maps, i);
      SplitsUpdate(Route(), maps, one, k, shards[i].m, one - {k});
    }

    /** An operation on shard i leaves the other shards' maps as they were. */
    lemma OthersSame(maps: seq<map<Key, Entry>>, i: nat)
      requires |maps| == |shards| && i < |shards|
      requires forall j :: 0 <= j < |shards| && j != i ==> shards[j].m == maps[j]
      ensures Maps() == maps[i := shards[i].m]
    {}

    /** A shard's own cleanup, with however stale a time, is invisible in the whole from that time on. */
    method CleanupShard(cfg: Config, ghost one: map<Key, Entry>, i: nat, now: Time)
      requires Valid(cfg) && Represents(one) && i < |shards|
      modifies shards
      ensures Represents(Swept(Route(), one, i, now))
      ensures forall t :: now <= t ==> View(Swept(Route(), one, i, now), t) == View(one, t)
    {
      ghost var maps := Maps();
      shards[i].Cleanup(now);
      OthersSame(maps, i);
      SplitsSwept(Route(), maps, one, i, now);
    }

    /** What other callers and maintenance do to the shards, in order. */
    method Interfere(cfg: Config, writes: seq<Write>)
      requires Valid(cfg) && AllInRange(writes, |shards|)
      modifies shards
      ensures Maps() == ApplyAll(cfg, old(Maps()), writes)
    {
      assert writes[..0] == [];
      for n := 0 to |writes|
        invariant Maps() == ApplyAll(cfg, old(Maps()), writes[..n])
      {
        ghost var maps := Maps();
        var i := writes[n].shard;
        assert writes[n] in writes;
        match writes[n].act {
          case Set(k, v, exp, now) => var e := shards[i].Set(k, v, exp, now);
          case Delete(k) => shards[i].Delete(k);
          case Recheck(k, now) => shards[i].Recheck(k, now);
          case Maintain(now) => shards[i].Cleanup(now);
          case _ =>
        }
        OthersSame(maps, i);
        ApplyAllLast(cfg, old(Maps()), writes[..n], writes[n]);
        assert writes[..n + 1] == writes[..n] + [writes[n]];
      }
      assert writes[..|writes|] == writes;
    }

    /** One round of the scan: what others write, then the iteration of shard i. */
    method Visit(cfg: Config, writes: seq<Write>, i: nat, now: Time, alive: nat, want: nat)
      returns (yielded: seq<Item>, end: End, aliveLeft: nat, items: Option<seq<Item>>)
      requires Valid(cfg) && AllInRange(writes, |shards|) && i < |shards| && want > 0
      modifies shards
      ensures Maps() == ApplyAll(cfg, old(Maps()), writes)
      ensures items.Some? <==> alive > 0
      ensures items.None? ==> yielded == [] && end == CtxDone && aliveLeft == 0
      ensures items.Some? ==>
        Lists(items.value, View(Maps()[i], now)) && Ended(items.value, alive - 1, want, yielded, end, aliveLeft)
    {
      Interfere(cfg, writes);
      yielded, end, aliveLeft, items := shards[i].ItemsContext(now, alive, want);
    }

    /** The scan's loop; visits are the snapshots taken. */
    method VisitAll(cfg: Config, writes: seq<seq<Write>>, nows: seq<Time>, alive: nat, want: nat)
      returns (yielded: seq<Item>, end: End, ghost visits: seq<seq<Item>>)
      requires Valid(cfg) && AllBatchesInRange(writes, |shards|)
      requires |nows| == |shards| == |writes| && want > 0
      modifies shards
      ensures |visits| <= |shards| && VisitsListed(cfg, old(Maps()), writes, nows, visits)
      ensures yielded <= Concat(visits)
      ensures end == Exhausted ==> |visits| == |shards| && yielded == Concat(visits) && |yielded| < want
      ensures end == Stopped ==> |yielded| == want
      ensures end == CtxDone ==> |yielded| < want && alive <= 2 * |shards| + |yielded|
    {
      yielded, end, visits := [], Exhausted, [];
      ghost var start := Maps();
      var left: nat := alive;
      for i := 0 to |shards|
        invariant Maps() == WorldAfter(cfg, start, writes, i)
        invariant |visits| == i && VisitsListed(cfg, start, writes, nows, visits)
        invariant yielded == Concat(visits) && |yielded| < want && end == Exhausted
        invariant left + 2 * i + |yielded| == alive
      {
        if left == 0 { return yielded, CtxDone, visits; }
        var sub, items;
        sub, end, left, items := Visit(cfg, writes[i], i, nows[i], left - 1, want - |yielded|);
        if items.None? { return; }
        OneMoreListed(cfg, start, writes, nows, visits, items.value);
        visits := visits + [items.value];
        yielded := yielded + sub;
        if end != Exhausted { return; }
      }
    }

    /**
      ItemsContext: each shard in turn is snapshot at its own time and yielded from, after whatever
      writes[i] others did since the visit before. The context's next alive checks find it live, and
      the consumer takes at most want items. A scan that is stopped, or whose context ends, has yielded
      a prefix of the shard-by-shard concatenation; one that runs out has yielded all of it.
     */
    method ItemsContext(cfg: Config, writes: seq<seq<Write>>, nows: seq<Time>, alive: nat, want: nat)
      returns (yielded: seq<Item>, end: End, ghost h: History)
      requires Valid(cfg) && Routed(Route(), Maps()) && WritesRouted(Route(), writes, |shards|)
      requires |nows| == |shards| == |writes| && want > 0
      modifies shards
      ensures h == HistoryOf(cfg, Route(), old(Maps()), writes, nows, h.visits) && h.Valid()
      ensures yielded <= Concat(h.visits)
      ensures end == Exhausted ==> |h.visits| == |shards| && yielded == Concat(h.visits) && |yielded| < want
      ensures end == Stopped ==> |yielded| == want
      ensures end == CtxDone ==> |yielded| < want && alive <= 2 * |shards| + |yielded|
    {
      ghost var start, route := Maps(), Route();
      ghost var visits;
      yielded, end, visits := VisitAll(cfg, writes, nows, alive, want);
      h := HistoryOf(cfg, route, start, writes, nows, visits);
      HistoryOfIsValid(cfg, route, start, writes, nows, visits);
    }
  }

  // ---------------------------------------------------------------- writes between visits

  /** A section of shard: another caller's, or that shard's own maintenance. */
  datatype Write = Write(shard: nat, act: Action)
  {
    predicate Routed(route: Key -> nat) {
      act.Set? || act.Delete? || act.Recheck? ==> shard == route(act.k)
    }
  }

  predicate AllInRange(writes: seq<Write>, n: nat) {
    forall w :: w in writes ==> w.shard < n
  }

  predicate AllBatchesInRange(writes: seq<seq<Write>>, n: nat) {
    forall i :: 0 <= i < |writes| ==> AllInRange(writes[i], n)
  }

  ghost predicate WritesRouted(route: Key -> nat, writes: seq<seq<Write>>, n: nat) {
    AllBatchesInRange(writes, n) && forall i, w :: 0 <= i < |writes| && w in writes[i] ==> w.Routed(route)
  }

  /** Each key only where it is routed. */
  ghost predicate Routed(route: Key -> nat, maps: seq<map<Key, Entry>>) {
    forall i, k :: 0 <= i < |maps| && k in maps[i] ==> route(k) == i
  }

  function Apply(cfg: Config, maps: seq<map<Key, Entry>>, w: Write): seq<map<Key, Entry>>
    requires w.shard < |maps|
  {
    maps[w.shard := NextMap(cfg, maps[w.shard], w.act)]
  }

  function ApplyAll(cfg: Config, maps: seq<map<Key, Entry>>, writes: seq<Write>): (r: seq<map<Key, Entry>>)
    requires AllInRange(writes, |maps|)
    ensures |r| == |maps|
    decreases |writes|
  {
    if writes == [] then maps else ApplyAll(cfg, Apply(cfg, maps, writes[0]), writes[1..])
  }

  lemma {:induction false} ApplyAllLast(cfg: Config, maps: seq<map<Key, Entry>>, writes: seq<Write>, w: Write)
    requires AllInRange(writes + [w], |maps|)
    ensures AllInRange(writes, |maps|) && w.shard < |maps|
    ensures ApplyAll(cfg, maps, writes + [w]) == Apply(cfg, ApplyAll(cfg, maps, writes), w)
    decreases |writes|
  {
    assert w in writes + [w] && forall x :: x in writes ==> x in writes + [w];
    if writes == [] {
      assert writes + [w] == [w] && [w][1..] == [];
    } else {
      assert (writes + [w])[1..] == writes[1..] + [w];
      ApplyAllLast(cfg, Apply(cfg, maps, writes[0]), writes[1..], w);
    }
  }

  /** The shards after the first n batches of writes. */
  function WorldAfter(cfg: Config, start: seq<map<Key, Entry>>, writes: seq<seq<Write>>, n: nat): (r: seq<map<Key, Entry>>)
    requires n <= |writes| && AllBatchesInRange(writes, |start|)
    ensures |r| == |start|
  {
    if n == 0 then start else ApplyAll(cfg, WorldAfter(cfg, start, writes, n - 1), writes[n - 1])
  }

  lemma ApplyKeepsRouted(cfg: Config, route: Key -> nat, maps: seq<map<Key, Entry>>, w: Write)
    requires w.shard < |maps| && Routed(route, maps) && w.Routed(route)
    ensures Routed(route, Apply(cfg, maps, w))
  {
    var next := Apply(cfg, maps, w);
    forall i, k | 0 <= i < |next| && k in next[i] ensures route(k) == i {
      assert k in maps[i] || (i == w.shard && w.act.Set? && w.act.k == k);
    }
  }

  lemma {:induction false} ApplyAllKeepsRouted(cfg: Config, route: Key -> nat, maps: seq<map<Key, Entry>>, writes: seq<Write>)
    requires AllInRange(writes, |maps|) && Routed(route, maps) && forall w :: w in writes ==> w.Routed(route)
    ensures Routed(route, ApplyAll(cfg, maps, writes))
    decreases |writes|
  {
    if writes != [] {
      ApplyKeepsRouted(cfg, route, maps, writes[0]);
      ApplyAllKeepsRouted(cfg, route, Apply(cfg, maps, writes[0]), writes[1..]);
    }
  }

  lemma {:induction false} WorldIsRouted(
      cfg: Config, route: Key -> nat, start: seq<map<Key, Entry>>, writes: seq<seq<Write>>, n: nat)
    requires n <= |writes| && Routed(route, start) && WritesRouted(route, writes, |start|)
    ensures Routed(route, WorldAfter(cfg, start, writes, n))
  {
    if n > 0 {
      WorldIsRouted(cfg, route, start, writes, n - 1);
      ApplyAllKeepsRouted(cfg, route, WorldAfter(cfg, start, writes, n - 1), writes[n - 1]);
    }
  }

  /** A write that neither writes k nor finds its entry e expired. */
  predicate Spares(w: Write, route: Key -> nat, k: Key, e: Entry) {
    w.shard == route(k) ==> !Writes(w.act, k) && !Condemns(w.act, k, e.expiresAt)
  }

  lemma {:induction false} ApplyAllSpares(cfg: Config, route: Key -> nat, maps: seq<map<Key, Entry>>, writes: seq<Write>, k: Key, e: Entry)
    requires AllInRange(writes, |maps|) && route(k) < |maps| && Lookup(maps[route(k)], k) == Some(e)
    requires forall w :: w in writes ==> Spares(w, route, k, e)
    ensures Lookup(ApplyAll(cfg, maps, writes)[route(k)], k) == Some(e)
    decreases |writes|
  {
    if writes != [] {
      assert Spares(writes[0], route, k, e);
      ApplyAllSpares(cfg, route, Apply(cfg, maps, writes[0]), writes[1..], k, e);
    }
  }

  lemma {:induction false} WorldSpares(
      cfg: Config, route: Key -> nat, start: seq<map<Key, Entry>>, writes: seq<seq<Write>>, n: nat, k: Key, e: Entry)
    requires n <= |writes| && AllBatchesInRange(writes, |start|)
    requires route(k) < |start| && Lookup(start[route(k)], k) == Some(e)
    requires forall i, w :: 0 <= i < |writes| && w in writes[i] ==> Spares(w, route, k, e)
    ensures Lookup(WorldAfter(cfg, start, writes, n)[route(k)], k) == Some(e)
  {
    if n > 0 {
      WorldSpares(cfg, route, start, writes, n - 1, k, e);
      ApplyAllSpares(cfg, route, WorldAfter(cfg, start, writes, n - 1), writes[n - 1], k, e);
    }
  }

  // ---------------------------------------------------------------- one map, in shards

  /** maps hold what one holds, every key where it is routed. */
  ghost predicate Splits(route: Key -> nat, maps: seq<map<Key, Entry>>, one: map<Key, Entry>) {
    && (forall k :: route(k) < |maps|)
    && forall i, k :: 0 <= i < |maps| ==>
      (k in maps[i] <==> i == route(k) && k in one) && (k in maps[i] ==> maps[i][k] == one[k])
  }

  lemma SplitsAt(route: Key -> nat, maps: seq<map<Key, Entry>>, one: map<Key, Entry>, k: Key)
    requires Splits(route, maps, one)
    ensures Lookup(maps[route(k)], k) == Lookup(one, k)
  {}

  /** one without the expired entries of shard i. */
  function Swept(route: Key -> nat, one: map<Key, Entry>, i: nat, now: Time): map<Key, Entry> {
    map k | k in one && !(route(k) == i && Expired(one[k].expiresAt, now)) :: one[k]
  }

  lemma SplitsSwept(route: Key -> nat, maps: seq<map<Key, Entry>>, one: map<Key, Entry>, i: nat, now: Time)
    requires Splits(route, maps, one) && i < |maps|
    ensures Splits(route, maps[i := View(maps[i], now)], Swept(route, one, i, now))
  {
    var maps', one' := maps[i := View(maps[i], now)], Swept(route, one, i, now);
    forall j, k | 0 <= j < |maps'|
      ensures k in maps'[j] <==> j == route(k) && k in one'
      ensures k in maps'[j] ==> maps'[j][k] == one'[k]
    {
      assert maps'[j] == if j == i then View(maps[i], now) else maps[j];
      assert k in maps[j] <==> j == route(k) && k in one;
    }
  }

  lemma OtherKeySame(m: map<Key, Entry>, m': map<Key, Entry>, k: Key, x: Key)
    requires m' - {k} == m - {k} && x != k
    ensures Lookup(m', x) == Lookup(m, x)
  {
    assert x in m <==> x in m - {k};
    assert x in m' <==> x in m' - {k};
  }

  /** A change to one key, made in its shard and in the whole alike. */
  lemma SplitsUpdate(
      route: Key -> nat, maps: seq<map<Key, Entry>>, one: map<Key, Entry>, k: Key,
      shard': map<Key, Entry>, one': map<Key, Entry>)
    requires Splits(route, maps, one)
    requires shard' - {k} == maps[route(k)] - {k} && one' - {k} == one - {k}
    requires Lookup(shard', k) == Lookup(one', k)
    ensures Splits(route, maps[route(k) := shard'], one')
  {
    var i := route(k);
    var maps' := maps[i := shard'];
    forall j, x | 0 <= j < |maps'|
      ensures x in maps'[j] <==> j == route(x) && x in one'
      ensures x in maps'[j] ==> maps'[j][x] == one'[x]
    {
      assert maps'[j] == if j == i then shard' else maps[j];
      if x != k {
        OtherKeySame(maps[i], shard', k, x);
        OtherKeySame(one, one', k, x);
      }
    }
  }

  // ---------------------------------------------------------------- iteration

  function Concat(visits: seq<seq<Item>>): seq<Item> {
    if visits == [] then [] else visits[0] + Concat(visits[1..])
  }

  lemma {:induction false} ConcatAppend(visits: seq<seq<Item>>, last: seq<Item>)
    ensures Concat(visits + [last]) == Concat(visits) + last
    decreases |visits|
  {
    if visits == [] {
      assert visits + [last] == [last] && Concat([last][1..]) == [];
    } else {
      assert (visits + [last])[1..] == visits[1..] + [last];
      ConcatAppend(visits[1..], last);
    }
  }

  /**
    A scan under concurrent writes, perhaps stopped before the last shards: worlds[i] is every shard's
    map when shard i is visited and nows[i] the time its snapshot samples; each visit made lists the
    live entries its shard has then.
   */
  datatype History = History(
    route: Key -> nat, worlds: seq<seq<map<Key, Entry>>>, nows: seq<Time>, visits: seq<seq<Item>>)
  {
    function Size(): nat { |worlds| }

    ghost predicate Valid() {
      && (forall k :: route(k) < Size()) && |visits| <= |nows| == Size()
      && (forall i :: 0 <= i < Size() ==> |worlds[i]| == Size() && Routed(route, worlds[i]))
      && (forall i :: 0 <= i < |visits| ==> Lists(visits[i], View(worlds[i][i], nows[i])))
    }
  }

  /** The history of a scan that starts from the maps start, with writes[i] done just before visit i. */
  function HistoryOf(
      cfg: Config, route: Key -> nat, start: seq<map<Key, Entry>>, writes: seq<seq<Write>>,
      nows: seq<Time>, visits: seq<seq<Item>>): History
    requires AllBatchesInRange(writes, |start|)
  {
    History(route, seq(|writes|, i requires 0 <= i < |writes| => WorldAfter(cfg, start, writes, i + 1)), nows, visits)
  }

  /** Each visit made lists what its shard has live by then. */
  ghost predicate VisitsListed(
      cfg: Config, start: seq<map<Key, Entry>>, writes: seq<seq<Write>>, nows: seq<Time>, visits: seq<seq<Item>>)
    requires |visits| <= |nows| == |writes| == |start|
    requires AllBatchesInRange(writes, |start|)
  {
    forall i :: 0 <= i < |visits| ==> Lists(visits[i], View(WorldAfter(cfg, start, writes, i + 1)[i], nows[i]))
  }

  lemma OneMoreListed(
      cfg: Config, start: seq<map<Key, Entry>>, writes: seq<seq<Write>>, nows: seq<Time>,
      visits: seq<seq<Item>>, items: seq<Item>)
    requires |visits| < |nows| == |writes| == |start| && AllBatchesInRange(writes, |start|)
    requires VisitsListed(cfg, start, writes, nows, visits)
    requires var i := |visits|; Lists(items, View(WorldAfter(cfg, start, writes, i + 1)[i], nows[i]))
    ensures VisitsListed(cfg, start, writes, nows, visits + [items])
    ensures Concat(visits + [items]) == Concat(visits) + items
  {
    ConcatAppend(visits, items);
  }

  lemma HistoryOfIsValid(
      cfg: Config, route: Key -> nat, start: seq<map<Key, Entry>>, writes: seq<seq<Write>>,
      nows: seq<Time>, visits: seq<seq<Item>>)
    requires Routed(route, start) && WritesRouted(route, writes, |start|) && forall k :: route(k) < |start|
    requires |visits| <= |nows| == |writes| == |start|
    requires VisitsListed(cfg, start, writes, nows, visits)
    ensures HistoryOf(cfg, route, start, writes, nows, visits).Valid()
  {
    var h := HistoryOf(cfg, route, start, writes, nows, visits);
    forall i | 0 <= i < h.Size() ensures |h.worlds[i]| == h.Size() && Routed(route, h.worlds[i]) {
      WorldIsRouted(cfg, route, start, writes, i + 1);
    }
  }

  /** Where an item of the concatenation comes from. */
  lemma {:induction false} FromSomeVisit(visits: seq<seq<Item>>, item: Item)
    ensures item in Concat(visits) <==> exists i :: 0 <= i < |visits| && item in visits[i]
    decreases |visits|
  {
    if visits != [] {
      FromSomeVisit(visits[1..], item);
      if i :| 0 <= i < |visits[1..]| && item in visits[1..][i] { assert item in visits[i + 1]; }
      if i :| 0 <= i < |visits| && item in visits[i] { assert i > 0 ==> item in visits[1..][i - 1]; }
    }
  }

  /** Every pair yielded, by a stopped scan too, was live in its key's shard at that shard's snapshot. */
  lemma YieldedWasLive(h: History, yielded: seq<Item>, item: Item)
    requires h.Valid() && yielded <= Concat(h.visits) && item in yielded
    ensures var i := h.route(item.key);
      && i < |h.visits| && item.key in h.worlds[i][i]
      && var e := h.worlds[i][i][item.key]; e.value == item.val && (e.expiresAt == 0 || h.nows[i] < e.expiresAt)
  {
    FromSomeVisit(h.visits, item);
    var i :| 0 <= i < |h.visits| && item in h.visits[i];
    assert Lists(h.visits[i], View(h.worlds[i][i], h.nows[i]));
  }

  ghost predicate DistinctKeys(items: seq<Item>) {
    forall i, j :: 0 <= i < j < |items| ==> items[i].key != items[j].key
  }

  lemma DistinctKeysAppend(a: seq<Item>, b: seq<Item>)
    requires DistinctKeys(a) && DistinctKeys(b)
    requires forall x, y :: x in a && y in b ==> x.key != y.key
    ensures DistinctKeys(a + b)
  {
    forall i, j | 0 <= i < j < |a + b| ensures (a + b)[i].key != (a + b)[j].key {
      if i < |a| <= j { assert a[i] in a && b[j - |a|] in b; }
    }
  }

  /** A visit lists only keys routed to its shard, and each once. */
  lemma VisitIsRouted(h: History, i: nat)
    requires h.Valid() && i < |h.visits|
    ensures DistinctKeys(h.visits[i]) && forall x :: x in h.visits[i] ==> h.route(x.key) == i
  {
    assert Lists(h.visits[i], View(h.worlds[i][i], h.nows[i]));
    forall x | x in h.visits[i] ensures h.route(x.key) == i {
      assert x.key in h.worlds[i][i];
    }
  }

  lemma {:induction false} LaterVisitsAreRouted(h: History, n: nat, y: Item)
    requires h.Valid() && n <= |h.visits| && y in Concat(h.visits[n..])
    ensures h.route(y.key) >= n
  {
    FromSomeVisit(h.visits[n..], y);
    var i :| 0 <= i < |h.visits[n..]| && y in h.visits[n..][i];
    VisitIsRouted(h, n + i);
  }

  lemma {:induction false} NoKeyTwiceFrom(h: History, n: nat)
    requires h.Valid() && n <= |h.visits|
    ensures DistinctKeys(Concat(h.visits[n..]))
    decreases |h.visits| - n
  {
    if n < |h.visits| {
      var rest := h.visits[n + 1..];
      assert h.visits[n..] == [h.visits[n]] + rest;
      NoKeyTwiceFrom(h, n + 1);
      VisitIsRouted(h, n);
      forall x, y | x in h.visits[n] && y in Concat(rest) ensures x.key != y.key {
        LaterVisitsAreRouted(h, n + 1, y);
      }
      DistinctKeysAppend(h.visits[n], Concat(rest));
    }
  }

  /** No key is yielded twice, whatever is written between visits and wherever the scan stops. */
  lemma NoKeyTwice(h: History, yielded: seq<Item>)
    requires h.Valid() && yielded <= Concat(h.visits)
    ensures DistinctKeys(yielded)
  {
    NoKeyTwiceFrom(h, 0);
    assert h.visits[0..] == h.visits;
  }

  /** A key that stays as it is, and live, through a completed scan is yielded, once, with its value. */
  lemma UntouchedKeyIsYieldedOnce(h: History, k: Key, e: Entry)
    requires h.Valid() && |h.visits| == h.Size()
    requires forall i :: 0 <= i < h.Size() ==>
      Lookup(h.worlds[i][h.route(k)], k) == Some(e) && (e.expiresAt == 0 || h.nows[i] < e.expiresAt)
    ensures Item(k, e.value) in Concat(h.visits)
    ensures var all := Concat(h.visits);
      forall i, j :: (0 <= i < |all| && 0 <= j < |all| && all[i].key == k && all[j].key == k) ==> i == j
  {
    var i := h.route(k);
    assert Lookup(h.worlds[i][i], k) == Some(e);
    var view := View(h.worlds[i][i], h.nows[i]);
    assert Lists(h.visits[i], view);
    assert k in view && Item(k, view[k].value) in h.visits[i];
    FromSomeVisit(h.visits, Item(k, e.value));
    NoKeyTwice(h, Concat(h.visits));
  }

  /** The same, said of the writes: none touches the key, and no maintenance finds it expired. */
  lemma SparedKeyIsYieldedOnce(
      cfg: Config, start: seq<map<Key, Entry>>, writes: seq<seq<Write>>, h: History, k: Key, e: Entry)
    requires |writes| == |start| && WritesRouted(h.route, writes, |start|)
    requires h == HistoryOf(cfg, h.route, start, writes, h.nows, h.visits) && h.Valid() && |h.visits| == h.Size()
    requires Lookup(start[h.route(k)], k) == Some(e)
    requires forall i, w :: 0 <= i < |writes| && w in writes[i] ==> Spares(w, h.route, k, e)
    requires forall i :: 0 <= i < |h.nows| ==> e.expiresAt == 0 || h.nows[i] < e.expiresAt
    ensures Item(k, e.value) in Concat(h.visits)
    ensures var all := Concat(h.visits);
      forall i, j :: (0 <= i < |all| && 0 <= j < |all| && all[i].key == k && all[j].key == k) ==> i == j
  {
    forall i | 0 <= i < h.Size() ensures Lookup(h.worlds[i][h.route(k)], k) == Some(e) {
      WorldSpares(cfg, h.route, start, writes, i + 1, k, e);
    }
    UntouchedKeyIsYieldedOnce(h, k, e);
  }

  /** A completed scan during which the shards stay at maps. */
  ghost predicate Quiet(h: History, maps: seq<map<Key, Entry>>) {
    h.Valid() && |h.visits| == h.Size() && forall i :: 0 <= i < h.Size() ==> h.worlds[i] == maps
  }

  lemma {:induction false} WritesNothing(cfg: Config, start: seq<map<Key, Entry>>, writes: seq<seq<Write>>, n: nat)
    requires n <= |writes| && forall i :: 0 <= i < |writes| ==> writes[i] == []
    ensures WorldAfter(cfg, start, writes, n) == start
  {
    if n > 0 { WritesNothing(cfg, start, writes, n - 1); }
  }

  /** What one map shows when each key is judged at the time its shard was visited. */
  function ViewPerShard(one: map<Key, Entry>, route: Key -> nat, nows: seq<Time>): map<Key, Entry>
    requires forall k :: route(k) < |nows|
  {
    map k | k in one && (one[k].expiresAt == 0 || nows[route(k)] < one[k].expiresAt) :: one[k]
  }

  lemma QuietYieldsOnlyLive(h: History, maps: seq<map<Key, Entry>>, one: map<Key, Entry>, item: Item)
    requires Quiet(h, maps) && Splits(h.route, maps, one) && item in Concat(h.visits)
    ensures item.key in ViewPerShard(one, h.route, h.nows) && item.val == one[item.key].value
  {
    YieldedWasLive(h, Concat(h.visits), item);
    var i := h.route(item.key);
    assert h.worlds[i] == maps;
    assert item.key in maps[i] && maps[i][item.key] == one[item.key];
  }

  lemma QuietYieldsAllLive(h: History, maps: seq<map<Key, Entry>>, one: map<Key, Entry>, k: Key)
    requires Quiet(h, maps) && Splits(h.route, maps, one) && k in ViewPerShard(one, h.route, h.nows)
    ensures Item(k, one[k].value) in Concat(h.visits)
  {
    var i := h.route(k);
    assert h.worlds[i] == maps && k in maps[i] && maps[i][k] == one[k];
    var view := View(maps[i], h.nows[i]);
    assert Lists(h.visits[i], view) && k in view && Item(k, view[k].value) in h.visits[i];
    FromSomeVisit(h.visits, Item(k, one[k].value));
  }

  /** With no writes in between, a completed scan yields what one Memory holds, each key judged when its shard was visited. */
  lemma QuietScanListsOneMemory(
      cfg: Config, start: seq<map<Key, Entry>>, writes: seq<seq<Write>>, h: History, one: map<Key, Entry>)
    requires |writes| == |start| && forall i :: 0 <= i < |writes| ==> writes[i] == []
    requires h == HistoryOf(cfg, h.route, start, writes, h.nows, h.visits) && h.Valid() && |h.visits| == h.Size()
    requires Splits(h.route, start, one)
    ensures Lists(Concat(h.visits), ViewPerShard(one, h.route, h.nows))
  {
    forall i | 0 <= i < h.Size() ensures h.worlds[i] == start {
      WritesNothing(cfg, start, writes, i + 1);
    }
    var all, view := Concat(h.visits), ViewPerShard(one, h.route, h.nows);
    NoKeyTwice(h, all);
    forall i | 0 <= i < |all| ensures all[i].key in view && all[i].val == view[all[i].key].value {
      QuietYieldsOnlyLive(h, start, one, all[i]);
    }
    forall k | k in view ensures Item(k, view[k].value) in all {
      QuietYieldsAllLive(h, start, one, k);
    }
  }

  /** In particular, if all snapshots sample one time, exactly what one Memory's iteration lists at that time. */
  lemma QuietScanAtOneTime(
      cfg: Config, start: seq<map<Key, Entry>>, writes: seq<seq<Write>>, h: History, one: map<Key, Entry>, now: Time)
    requires |writes| == |start| && forall i :: 0 <= i < |writes| ==> writes[i] == []
    requires h == HistoryOf(cfg, h.route, start, writes, h.nows, h.visits) && h.Valid() && |h.visits| == h.Size()
    requires Splits(h.route, start, one) && forall i :: 0 <= i < |h.nows| ==> h.nows[i] == now
    ensures Lists(Concat(h.visits), View(one, now))
  {
    QuietScanListsOneMemory(cfg, start, writes, h, one);
    assert ViewPerShard(one, h.route, h.nows) == View(one, now);
  }

  // ---------------------------------------------------------------- ModuloShard

  /** ModuloShard: an integer key's unsigned 64-bit value, as an index into size shards. */
  function ModuloIndex(k: int, size: nat): nat
    requires size > 0
  {
    (k % Wrap) % size
  }

  lemma {:induction false} ModShift(a: nat, i: nat, n: nat)
    requires n > 0 && i < n
    ensures (a + i) % n == if a % n + i < n then a % n + i else a % n + i - n
  {
    var q, r := a / n, a % n;
    assert a == q * n + r;
    if r + i < n {
      ModUnique(a + i, q, r + i, n);
    } else {
      assert a + i == (q + 1) * n + (r + i - n);
      ModUnique(a + i, q + 1, r + i - n, n);
    }
  }

  lemma ModUnique(x: int, q: int, r: int, n: int)
    requires n > 0 && x == q * n + r && 0 <= r < n
    ensures x % n == r
  {
    var d := q - x / n;
    assert x == (x / n) * n + x % n;
    assert d * n == x % n - r;
    MultipleInside(d, n);
  }

  lemma MultipleInside(d: int, n: int)
    requires 0 < n && -n < d * n < n
    ensures d == 0
  {
    assert d > 0 ==> d * n >= n;
    assert d < 0 ==> d * n <= -n;
  }

  const Wrap := 0x1_0000_0000_0000_0000

  lemma NoWrap(k: int, i: nat)
    requires k % Wrap + i < Wrap
    ensures (k + i) % Wrap == k % Wrap + i
  {
    assert k == (k / Wrap) * Wrap + k % Wrap;
    ModUnique(k + i, k / Wrap, k % Wrap + i, Wrap);
  }

  /** Key number i from k on goes to shard x. */
  predicate GoesTo(k: int, i: nat, size: nat, x: nat)
    requires size > 0
  {
    ModuloIndex(k + i, size) == x
  }

  lemma GoesToExactly(k: int, i: nat, size: nat, x: nat)
    requires i < size && x < size && k % Wrap + size <= Wrap
    ensures var r := (k % Wrap) % size;
      GoesTo(k, i, size, x) <==> i == if r <= x then x - r else x + size - r
  {
    NoWrap(k, i);
    ModShift(k % Wrap, i, size);
    assert 0 <= (k % Wrap) % size < size;
  }

  /** Dense keys spread evenly: of any size consecutive keys whose 64-bit values do not wrap, each shard gets one. */
  lemma ConsecutiveKeysReachAllShards(k: int, size: nat, x: nat)
    requires x < size && k % Wrap + size <= Wrap
    ensures exists i: nat :: i < size && GoesTo(k, i, size, x)
    ensures forall i: nat, j: nat :: i < size && j < size && GoesTo(k, i, size, x) && GoesTo(k, j, size, x) ==> i == j
  {
    var r := (k % Wrap) % size;
    GoesToExactly(k, if r <= x then x - r else x + size - r, size, x);
    forall i: nat, j: nat | i < size && j < size && GoesTo(k, i, size, x) && GoesTo(k, j, size, x) ensures i == j {
      GoesToExactly(k, i, size, x);
      GoesToExactly(k, j, size, x);
    }
  }
}
