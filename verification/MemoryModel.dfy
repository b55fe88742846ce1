/**
  Memory's map section by section, beside the map it stands for: one that evicts nothing by itself.

  Every operation samples its clock before it takes the lock, so sections run in any order with any
  stale time. What is exact is this: each operation acts at its lock section on the never-evicting
  map, judging a key at its own sampled time or, if maintenance with a later time has examined the
  key since it was last written, at that later time. Both lie between the sample and the section.
 */
module MemoryModel {
  import opened Basics
  import opened Expiry

  type Key(==, !new)
  type Val(==, !new)

  datatype Entry = Entry(value: Val, expiresAt: Time)

  predicate Live(m: map<Key, Entry>, k: Key, t: Time) {
    k in m && !Expired(m[k].expiresAt, t)
  }

  /** The entries a reader at time t can see. */
  function View(m: map<Key, Entry>, t: Time): map<Key, Entry> {
    map k | k in m && !Expired(m[k].expiresAt, t) :: m[k]
  }

  // What each section does to the map, and gives back.

  function ReadAt(m: map<Key, Entry>, k: Key, t: Time): Option<Val> {
    if Live(m, k, t) then Some(m[k].value) else None
  }

  /** lookup's second section: the re-check under the write lock. */
  function EvictKey(m: map<Key, Entry>, k: Key, now: Time): map<Key, Entry> {
    if k in m && Expired(m[k].expiresAt, now) then m - {k} else m
  }

  /** The expiry a set resolves to, when liveness of the existing entry is judged at time judged. */
  function SetExpiry(cfg: Config, m: map<Key, Entry>, k: Key, exp: Expiry, now: Time, judged: Time): Time {
    ResolveExpiry(cfg, exp, now, if k in m then m[k].expiresAt else 0, Live(m, k, judged))
  }

  function SetAt(cfg: Config, m: map<Key, Entry>, k: Key, v: Val, exp: Expiry, now: Time, judged: Time): map<Key, Entry> {
    m[k := Entry(v, SetExpiry(cfg, m, k, exp, now, judged))]
  }

  datatype Action =
    | Tick(elapsed: nat)
    | Read(k: Key, now: Time)                        // lookup's first section
    | Recheck(k: Key, now: Time)                     // lookup's second section
    | Set(k: Key, v: Val, exp: Expiry, now: Time)
    | Delete(k: Key)
    | Maintain(now: Time)                            // cleanup or rebuild
    | Snapshot(now: Time)

  /** What a section gives back: nothing, a lookup's value, a set's expiry, or the items. */
  datatype Out = Nothing | Value(v: Option<Val>) | SetTo(e: Time) | Items(items: map<Key, Entry>)

  /** The real map as the section leaves it. */
  function NextMap(cfg: Config, m: map<Key, Entry>, a: Action): map<Key, Entry> {
    match a
    case Recheck(k, now) => EvictKey(m, k, now)
    case Set(k, v, exp, now) => SetAt(cfg, m, k, v, exp, now, now)
    case Delete(k) => m - {k}
    case Maintain(now) => View(m, now)
    case _ => m
  }

  function OutOf(cfg: Config, m: map<Key, Entry>, a: Action): Out {
    match a
    case Read(k, now) => Value(ReadAt(m, k, now))
    case Set(k, _, exp, now) => SetTo(SetExpiry(cfg, m, k, exp, now, now))
    case Snapshot(now) => Items(View(m, now))
    case _ => Nothing
  }

  // ---------------------------------------------------------------- the map it stands for

  /** The never-evicting map, the latest time maintenance examined each key since its last write, and the clock. */
  datatype Ideal = Ideal(kept: map<Key, Entry>, seen: map<Key, Time>, clock: Time, lastSet: Time)
  {
    /** The time at which an operation sampled at now judges k. */
    function Judge(k: Key, now: Time): Time {
      if k in seen then Max(now, seen[k]) else now
    }
  }

  function Examine(d: Ideal, k: Key, now: Time): Ideal {
    d.(seen := d.seen[k := d.Judge(k, now)])
  }

  function NextIdeal(cfg: Config, d: Ideal, a: Action): Ideal {
    match a
    case Tick(elapsed) => d.(clock := d.clock + elapsed)
    case Recheck(k, now) => Examine(d, k, now)
    case Set(k, v, exp, now) =>
      d.(kept := SetAt(cfg, d.kept, k, v, exp, now, d.Judge(k, now)), seen := d.seen - {k},
         lastSet := Max(d.lastSet, now))
    case Delete(k) => d.(kept := d.kept - {k}, seen := d.seen - {k})
    case Maintain(now) => d.(seen := map k | k in d.kept :: d.Judge(k, now))
    case _ => d
  }

  function IdealOut(cfg: Config, d: Ideal, a: Action): Out {
    match a
    case Read(k, now) => Value(ReadAt(d.kept, k, d.Judge(k, now)))
    case Set(k, _, exp, now) => SetTo(SetExpiry(cfg, d.kept, k, exp, now, d.Judge(k, now)))
    case Snapshot(now) => Items(map k | k in d.kept && Live(d.kept, k, d.Judge(k, now)) :: d.kept[k])
    case _ => Nothing
  }

  /** Sampled times are positive and not in the future. */
  predicate Sampled(d: Ideal, a: Action) {
    match a
    case Read(_, now) => 0 < now <= d.clock
    case Recheck(_, now) => 0 < now <= d.clock
    case Set(_, _, _, now) => 0 < now <= d.clock
    case Maintain(now) => 0 < now <= d.clock
    case Snapshot(now) => 0 < now <= d.clock
    case _ => true
  }

  /** The real map lacks exactly the kept entries that were expired when last examined. */
  ghost predicate StandsFor(m: map<Key, Entry>, d: Ideal) {
    && (forall k :: k in m <==> k in d.kept && !(k in d.seen && Expired(d.kept[k].expiresAt, d.seen[k])))
    && (forall k :: k in m ==> m[k] == d.kept[k])
    && (forall k :: k in d.seen ==> d.seen[k] <= d.clock)
  }

  /** Within StandsFor, the real map at the sampled time is the kept map at the judged time. */
  lemma LiveAsJudged(m: map<Key, Entry>, d: Ideal, k: Key, now: Time)
    requires StandsFor(m, d)
    ensures Live(m, k, now) <==> Live(d.kept, k, d.Judge(k, now))
  {}

  lemma SectionSimulates(cfg: Config, m: map<Key, Entry>, d: Ideal, a: Action)
    requires StandsFor(m, d) && Sampled(d, a)
    ensures OutOf(cfg, m, a) == IdealOut(cfg, d, a)
  {
    match a
    case Read(k, now) => LiveAsJudged(m, d, k, now);
    case Set(k, _, exp, now) => LiveAsJudged(m, d, k, now);
    case Snapshot(now) => forall k ensures Live(m, k, now) <==> Live(d.kept, k, d.Judge(k, now)) { LiveAsJudged(m, d, k, now); }
    case _ =>
  }

  lemma SectionKeepsStandsFor(cfg: Config, m: map<Key, Entry>, d: Ideal, a: Action)
    requires StandsFor(m, d) && Sampled(d, a)
    ensures StandsFor(NextMap(cfg, m, a), NextIdeal(cfg, d, a))
  {
    if a.Set? { LiveAsJudged(m, d, a.k, a.now); }
  }

  ghost predicate IsRun(cfg: Config, d: Ideal, acts: seq<Action>)
    decreases |acts|
  {
    acts == [] || (Sampled(d, acts[0]) && IsRun(cfg, NextIdeal(cfg, d, acts[0]), acts[1..]))
  }

  function ExecMap(cfg: Config, m: map<Key, Entry>, acts: seq<Action>): map<Key, Entry>
    decreases |acts|
  {
    if acts == [] then m else ExecMap(cfg, NextMap(cfg, m, acts[0]), acts[1..])
  }

  function ExecIdeal(cfg: Config, d: Ideal, acts: seq<Action>): Ideal
    decreases |acts|
  {
    if acts == [] then d else ExecIdeal(cfg, NextIdeal(cfg, d, acts[0]), acts[1..])
  }

  const Empty := Ideal(map[], map[], 0, 0)

  lemma {:induction false} RunKeepsStandsFor(cfg: Config, m: map<Key, Entry>, d: Ideal, acts: seq<Action>)
    requires StandsFor(m, d) && IsRun(cfg, d, acts)
    ensures StandsFor(ExecMap(cfg, m, acts), ExecIdeal(cfg, d, acts))
    decreases |acts|
  {
    if acts != [] {
      SectionKeepsStandsFor(cfg, m, d, acts[0]);
      RunKeepsStandsFor(cfg, NextMap(cfg, m, acts[0]), NextIdeal(cfg, d, acts[0]), acts[1..]);
    }
  }

  /**
    After any interleaving of sections with any sampled times, the next one gives back exactly what
    the never-evicting map gives when each key is judged no earlier than the operation sampled its
    clock and no later than its section ran.
   */
  lemma EveryOperationIsAtomic(cfg: Config, acts: seq<Action>, a: Action)
    requires IsRun(cfg, Empty, acts) && Sampled(ExecIdeal(cfg, Empty, acts), a)
    ensures var d := ExecIdeal(cfg, Empty, acts);
      && OutOf(cfg, ExecMap(cfg, map[], acts), a) == IdealOut(cfg, d, a)
      && forall k: Key, now: Time :: now <= d.clock ==> now <= d.Judge(k, now) <= d.clock
  {
    RunKeepsStandsFor(cfg, map[], Empty, acts);
    SectionSimulates(cfg, ExecMap(cfg, map[], acts), ExecIdeal(cfg, Empty, acts), a);
  }

  // ---------------------------------------------------------------- at the operation's own time

  predicate Writes(a: Action, k: Key) {
    (a.Set? && a.k == k) || a == Delete(k)
  }

  /** a is maintenance that finds an entry of k with expiry e expired. */
  predicate Condemns(a: Action, k: Key, e: Time) {
    e != 0 && ((a.Recheck? && a.k == k) || a.Maintain?) && a.now >= e
  }

  /** Since k was last written, some maintenance that sampled at or after e ran. */
  ghost predicate CondemnedSince(acts: seq<Action>, k: Key, e: Time) {
    exists i :: 0 <= i < |acts| && Condemns(acts[i], k, e) && forall j :: i < j < |acts| ==> !Writes(acts[j], k)
  }

  lemma CondemnedAfter(acts: seq<Action>, a: Action, k: Key, e: Time)
    ensures CondemnedSince(acts + [a], k, e) <==>
      Condemns(a, k, e) || (!Writes(a, k) && CondemnedSince(acts, k, e))
  {
    var more := acts + [a];
    assert more[|acts|] == a && forall i :: 0 <= i < |acts| ==> more[i] == acts[i];
    if CondemnedSince(acts, k, e) && !Writes(a, k) {
      var i :| 0 <= i < |acts| && Condemns(acts[i], k, e) && forall j :: i < j < |acts| ==> !Writes(acts[j], k);
      assert Condemns(more[i], k, e) && forall j :: i < j < |more| ==> !Writes(more[j], k);
    }
    if CondemnedSince(more, k, e) && !Condemns(a, k, e) {
      var i :| 0 <= i < |more| && Condemns(more[i], k, e) && forall j :: i < j < |more| ==> !Writes(more[j], k);
      assert Condemns(acts[i], k, e) && forall j :: i < j < |acts| ==> !Writes(acts[j], k) by {
        forall j | i < j < |acts| ensures !Writes(acts[j], k) { assert !Writes(more[j], k); }
      }
      assert !Writes(more[|acts|], k);
    }
  }

  lemma {:induction false} ExecIdealLast(cfg: Config, d: Ideal, acts: seq<Action>, a: Action)
    requires IsRun(cfg, d, acts + [a])
    ensures IsRun(cfg, d, acts) && Sampled(ExecIdeal(cfg, d, acts), a)
    ensures ExecIdeal(cfg, d, acts + [a]) == NextIdeal(cfg, ExecIdeal(cfg, d, acts), a)
    decreases |acts|
  {
    if acts == [] {
      assert acts + [a] == [a] && [a][1..] == [];
    } else {
      assert (acts + [a])[1..] == acts[1..] + [a];
      ExecIdealLast(cfg, NextIdeal(cfg, d, acts[0]), acts[1..], a);
    }
  }

  /** The real map lacks a kept entry exactly if maintenance has condemned it since it was written. */
  lemma {:induction false} MissingIsCondemned(cfg: Config, acts: seq<Action>, k: Key)
    requires IsRun(cfg, Empty, acts) && k in ExecIdeal(cfg, Empty, acts).kept
    ensures var d := ExecIdeal(cfg, Empty, acts);
      && k in ExecMap(cfg, map[], acts) <==> !CondemnedSince(acts, k, d.kept[k].expiresAt)
  {
    RunKeepsStandsFor(cfg, map[], Empty, acts);
    SeenIsCondemned(cfg, acts, k);
  }

  lemma {:induction false} SeenIsCondemned(cfg: Config, acts: seq<Action>, k: Key)
    requires IsRun(cfg, Empty, acts) && k in ExecIdeal(cfg, Empty, acts).kept
    ensures var d := ExecIdeal(cfg, Empty, acts);
      (k in d.seen && Expired(d.kept[k].expiresAt, d.seen[k])) <==> CondemnedSince(acts, k, d.kept[k].expiresAt)
    decreases |acts|
  {
    if acts != [] {
      var init, a := acts[..|acts| - 1], acts[|acts| - 1];
      assert acts == init + [a];
      ExecIdealLast(cfg, Empty, init, a);
      CondemnedAfter(init, a, k, ExecIdeal(cfg, Empty, acts).kept[k].expiresAt);
      if !Writes(a, k) { SeenIsCondemned(cfg, init, k); }
    }
  }

  /** Live at now as it was written, but condemned since by maintenance that sampled later than now. */
  ghost predicate Overtaken(acts: seq<Action>, kept: map<Key, Entry>, k: Key, now: Time) {
    Live(kept, k, now) && CondemnedSince(acts, k, kept[k].expiresAt)
  }

  lemma LiveUnlessOvertaken(cfg: Config, acts: seq<Action>, k: Key, now: Time)
    requires IsRun(cfg, Empty, acts)
    ensures var m, kept := ExecMap(cfg, map[], acts), ExecIdeal(cfg, Empty, acts).kept;
      && (Live(m, k, now) <==> Live(kept, k, now) && !Overtaken(acts, kept, k, now))
      && (k in m ==> k in kept && m[k] == kept[k])
  {
    RunKeepsStandsFor(cfg, map[], Empty, acts);
    if k in ExecIdeal(cfg, Empty, acts).kept { MissingIsCondemned(cfg, acts, k); }
  }

  /** A lookup agrees with the never-evicting map at its own sampled time exactly unless the key was overtaken. */
  lemma ReadAtOwnTimeExactly(cfg: Config, acts: seq<Action>, k: Key, now: Time)
    requires IsRun(cfg, Empty, acts)
    ensures var m, kept := ExecMap(cfg, map[], acts), ExecIdeal(cfg, Empty, acts).kept;
      ReadAt(m, k, now) == ReadAt(kept, k, now) <==> !Overtaken(acts, kept, k, now)
  {
    LiveUnlessOvertaken(cfg, acts, k, now);
  }

  /** A snapshot does exactly unless some key was overtaken. */
  lemma SnapshotAtOwnTimeExactly(cfg: Config, acts: seq<Action>, now: Time)
    requires IsRun(cfg, Empty, acts)
    ensures var m, kept := ExecMap(cfg, map[], acts), ExecIdeal(cfg, Empty, acts).kept;
      View(m, now) == View(kept, now) <==> forall k :: !Overtaken(acts, kept, k, now)
  {
    var m, kept := ExecMap(cfg, map[], acts), ExecIdeal(cfg, Empty, acts).kept;
    forall k ensures Live(m, k, now) <==> Live(kept, k, now) && !Overtaken(acts, kept, k, now)
      ensures k in m ==> k in kept && m[k] == kept[k]
    {
      LiveUnlessOvertaken(cfg, acts, k, now);
    }
    forall k ensures k in View(m, now) <==> Live(m, k, now) {}
    forall k ensures k in View(kept, now) <==> Live(kept, k, now) {}
    if View(m, now) == View(kept, now) {
      forall k ensures !Overtaken(acts, kept, k, now) {
        assert k in View(m, now) <==> k in View(kept, now);
      }
    }
  }

  /** A set does exactly unless it keeps the expiry of an overtaken key, and Default would not give the same. */
  lemma SetAtOwnTimeExactly(cfg: Config, acts: seq<Action>, k: Key, exp: Expiry, now: Time)
    requires IsRun(cfg, Empty, acts)
    ensures var m, kept := ExecMap(cfg, map[], acts), ExecIdeal(cfg, Empty, acts).kept;
      SetExpiry(cfg, m, k, exp, now, now) == SetExpiry(cfg, kept, k, exp, now, now) <==>
      !(exp.Keep? && Overtaken(acts, kept, k, now) && kept[k].expiresAt != ResolveDefault(cfg, now))
  {
    LiveUnlessOvertaken(cfg, acts, k, now);
  }

  /**
    Such operations exist. Sampled at 5, overtaken by a cleanup that sampled at 8, of an entry that
    expires at 7: a lookup misses, a snapshot is empty, and a Keep set makes the entry permanent.
   */
  lemma OvertakenOperationsDiffer(k: Key, v: Val)
    ensures var cfg := Config(0, 0, 0);
      var acts := [Tick(8), Set(k, v, At(7), 4), Maintain(8)];
      && IsRun(cfg, Empty, acts)
      && var m, kept := ExecMap(cfg, map[], acts), ExecIdeal(cfg, Empty, acts).kept;
      && ReadAt(kept, k, 5) == Some(v) && ReadAt(m, k, 5) == None
      && View(kept, 5) == map[k := Entry(v, 7)] && View(m, 5) == map[]
      && SetExpiry(cfg, kept, k, Keep, 5, 5) == 7 && SetExpiry(cfg, m, k, Keep, 5, 5) == 0
  {
    var cfg := Config(0, 0, 0);
    var acts := [Tick(8), Set(k, v, At(7), 4), Maintain(8)];
    var d1 := NextIdeal(cfg, Empty, acts[0]);
    var d2 := NextIdeal(cfg, d1, acts[1]);
    var d3 := NextIdeal(cfg, d2, acts[2]);
    assert acts[1..] == [acts[1], acts[2]] && acts[1..][1..] == [acts[2]] && acts[1..][1..][1..] == [];
    assert IsRun(cfg, d2, [acts[2]]) && IsRun(cfg, d1, [acts[1], acts[2]]);
    assert ExecIdeal(cfg, d2, [acts[2]]) == d3 && ExecIdeal(cfg, d1, [acts[1], acts[2]]) == d3;
    var m2 := NextMap(cfg, map[], acts[1]);
    assert ExecMap(cfg, m2, [acts[2]]) == View(m2, 8);
    assert ExecMap(cfg, map[], [acts[1], acts[2]]) == View(m2, 8);
  }

  // ---------------------------------------------------------------- what is stored, and what a lookup finds

  /** The value of k's last Set since its last Delete. */
  function LastWritten(acts: seq<Action>, k: Key): Option<Val> {
    if acts == [] then None
    else
      var last := acts[|acts| - 1];
      if last.Set? && last.k == k then Some(last.v)
      else if last == Delete(k) then None
      else LastWritten(acts[..|acts| - 1], k)
  }

  /** The never-evicting map has exactly the keys set and not deleted since, each with the value last set. */
  lemma {:induction false} KeptIsLastWritten(cfg: Config, acts: seq<Action>, k: Key)
    requires IsRun(cfg, Empty, acts)
    ensures var kept := ExecIdeal(cfg, Empty, acts).kept;
      (if k in kept then Some(kept[k].value) else None) == LastWritten(acts, k)
    decreases |acts|
  {
    if acts != [] {
      var init, a := acts[..|acts| - 1], acts[|acts| - 1];
      assert acts == init + [a];
      ExecIdealLast(cfg, Empty, init, a);
      KeptIsLastWritten(cfg, init, k);
    }
  }

  /**
    After any run a lookup finds v exactly if v is what the key was last set to, no maintenance has
    condemned the entry since, and it never expires or expires later than the lookup's time.
   */
  lemma LookupFindsTheLastWritten(cfg: Config, acts: seq<Action>, k: Key, now: Time, v: Val)
    requires IsRun(cfg, Empty, acts)
    ensures var m, kept := ExecMap(cfg, map[], acts), ExecIdeal(cfg, Empty, acts).kept;
      && (k in kept <==> LastWritten(acts, k).Some?)
      && (OutOf(cfg, m, Action.Read(k, now)) == Value(Some(v)) <==>
        && LastWritten(acts, k) == Some(v)
        && !CondemnedSince(acts, k, kept[k].expiresAt)
        && (kept[k].expiresAt == 0 || now < kept[k].expiresAt))
      && (OutOf(cfg, m, Action.Read(k, now)) == Value(None) <==>
        forall w :: OutOf(cfg, m, Action.Read(k, now)) != Value(Some(w)))
  {
    KeptIsLastWritten(cfg, acts, k);
    RunKeepsStandsFor(cfg, map[], Empty, acts);
    if k in ExecIdeal(cfg, Empty, acts).kept { MissingIsCondemned(cfg, acts, k); }
  }

  /** An entry that never expires is found at every time, whatever maintenance runs. */
  lemma PermanentEntryIsAlwaysFound(cfg: Config, acts: seq<Action>, k: Key, now: Time)
    requires IsRun(cfg, Empty, acts)
    requires k in ExecIdeal(cfg, Empty, acts).kept && ExecIdeal(cfg, Empty, acts).kept[k].expiresAt == 0
    ensures OutOf(cfg, ExecMap(cfg, map[], acts), Action.Read(k, now)) == Value(LastWritten(acts, k))
  {
    KeptIsLastWritten(cfg, acts, k);
    MissingIsCondemned(cfg, acts, k);
    RunKeepsStandsFor(cfg, map[], Empty, acts);
  }

  /** A set stores its value with the expiry it gives back, in the real map and in the one it stands for, and nothing else. */
  lemma SetStoresValueAndExpiry(cfg: Config, acts: seq<Action>, k: Key, v: Val, exp: Expiry, now: Time)
    requires IsRun(cfg, Empty, acts) && Sampled(ExecIdeal(cfg, Empty, acts), Action.Set(k, v, exp, now))
    ensures var m, d, a := ExecMap(cfg, map[], acts), ExecIdeal(cfg, Empty, acts), Action.Set(k, v, exp, now);
      && OutOf(cfg, m, a).SetTo?
      && var e := OutOf(cfg, m, a).e;
      && NextMap(cfg, m, a) == m[k := Entry(v, e)] && NextIdeal(cfg, d, a).kept == d.kept[k := Entry(v, e)]
      && e == ResolveExpiry(cfg, exp, now, if k in m then m[k].expiresAt else 0,
                            k in m && (m[k].expiresAt == 0 || now < m[k].expiresAt))
  {
    RunKeepsStandsFor(cfg, map[], Empty, acts);
    SectionSimulates(cfg, ExecMap(cfg, map[], acts), ExecIdeal(cfg, Empty, acts), Action.Set(k, v, exp, now));
  }

  /** An entry set to expire at its own time or before, with no minimum, is gone at the moment it is set. */
  lemma SetInThePastIsGone(cfg: Config, m: map<Key, Entry>, k: Key, v: Val, exp: Expiry, now: Time)
    requires cfg.Valid() && cfg.minTTL == 0 && now > 0
    requires (exp.At? && exp.at != 0 && exp.at <= now) || (exp.After? && exp.dur <= 0)
    ensures OutOf(cfg, NextMap(cfg, m, Action.Set(k, v, exp, now)), Action.Read(k, now)) == Value(None)
  {
    ResolvedAsClamped(cfg, exp, now, if k in m then m[k].expiresAt else 0, Live(m, k, now));
  }

  /** Eviction with however stale a time is invisible from that time on, and never removes a live entry. */
  lemma EvictionIsInvisible(cfg: Config, m: map<Key, Entry>, a: Action, t: Time)
    requires (a.Recheck? || a.Maintain?) && a.now <= t
    ensures View(NextMap(cfg, m, a), t) == View(m, t)
    ensures forall k :: k in m && !Expired(m[k].expiresAt, a.now) ==> k in NextMap(cfg, m, a) && NextMap(cfg, m, a)[k] == m[k]
  {}

  // ---------------------------------------------------------------- lifetimes over whole runs

  /** With a maximum, every entry ends, and within the maximum of the latest set. */
  ghost predicate Bounded(cfg: Config, d: Ideal) {
    cfg.maxTTL > 0 ==>
      forall k :: k in d.kept ==> d.kept[k].expiresAt != 0 && d.kept[k].expiresAt <= d.lastSet + cfg.maxTTL
  }

  lemma SectionKeepsBounded(cfg: Config, d: Ideal, a: Action)
    requires cfg.Valid() && Bounded(cfg, d) && Sampled(d, a)
    ensures Bounded(cfg, NextIdeal(cfg, d, a))
  {
    if a.Set? && !(a.exp.Keep? && Live(d.kept, a.k, d.Judge(a.k, a.now))) {
      ResolvedBounds(cfg, a.exp, a.now, if a.k in d.kept then d.kept[a.k].expiresAt else 0,
                     Live(d.kept, a.k, d.Judge(a.k, a.now)));
    }
  }

  lemma {:induction false} RunKeepsBounded(cfg: Config, d: Ideal, acts: seq<Action>)
    requires cfg.Valid() && Bounded(cfg, d) && IsRun(cfg, d, acts)
    ensures Bounded(cfg, ExecIdeal(cfg, d, acts))
    decreases |acts|
  {
    if acts != [] {
      SectionKeepsBounded(cfg, d, acts[0]);
      RunKeepsBounded(cfg, NextIdeal(cfg, d, acts[0]), acts[1..]);
    }
  }

  /** The maximum is a hard ceiling through any mix of sets, Keep included: no entry is ever permanent. */
  lemma NoEntryOutlivesTheMaximum(cfg: Config, acts: seq<Action>, k: Key)
    requires cfg.Valid() && cfg.maxTTL > 0 && IsRun(cfg, Empty, acts) && k in ExecMap(cfg, map[], acts)
    ensures var e := ExecMap(cfg, map[], acts)[k].expiresAt;
      e != 0 && e <= ExecIdeal(cfg, Empty, acts).lastSet + cfg.maxTTL
  {
    RunKeepsStandsFor(cfg, map[], Empty, acts);
    RunKeepsBounded(cfg, Empty, acts);
  }

  /** The expiry of any entry of a run, kept ones included, can be passed back to At at a later set. */
  lemma StoredExpiryReapplies(cfg: Config, acts: seq<Action>, k: Key, later: Time, existing: Time, found: bool)
    requires cfg.Valid() && IsRun(cfg, Empty, acts) && k in ExecMap(cfg, map[], acts)
    requires 0 < later && ExecIdeal(cfg, Empty, acts).lastSet <= later
    ensures var e := ExecMap(cfg, map[], acts)[k].expiresAt;
      ResolveExpiry(cfg, At(e), later, existing, found) == if e == 0 then 0 else Max(e, later + cfg.minTTL)
  {
    var e := ExecMap(cfg, map[], acts)[k].expiresAt;
    if cfg.maxTTL > 0 { NoEntryOutlivesTheMaximum(cfg, acts, k); }
    if e != 0 { ResolvedAsClamped(cfg, At(e), later, existing, found); }
  }

  /** A run from m in which k is only ever set with Keep while live, and never deleted. */
  ghost predicate OnlyKept(cfg: Config, m: map<Key, Entry>, acts: seq<Action>, k: Key)
    decreases |acts|
  {
    acts == [] || (
      && (acts[0].Set? && acts[0].k == k ==> acts[0].exp == Keep && Live(m, k, acts[0].now))
      && acts[0] != Delete(k)
      && OnlyKept(cfg, NextMap(cfg, m, acts[0]), acts[1..], k))
  }

  /**
    However often Keep replaces a live value, the expiry stays the one of the last other set; and the
    entry stays there until maintenance finds that expiry past.
   */
  lemma {:induction false} KeepPreservesExpiry(cfg: Config, m: map<Key, Entry>, acts: seq<Action>, k: Key)
    requires k in m && OnlyKept(cfg, m, acts, k)
    ensures var m' := ExecMap(cfg, m, acts);
      && (k in m' ==> m'[k].expiresAt == m[k].expiresAt)
      && (k in m' <==> forall i :: 0 <= i < |acts| ==> !Condemns(acts[i], k, m[k].expiresAt))
    decreases |acts|
  {
    if acts != [] {
      var next := NextMap(cfg, m, acts[0]);
      if k in next {
        KeepPreservesExpiry(cfg, next, acts[1..], k);
        assert forall i :: 0 < i < |acts| ==> acts[i] == acts[1..][i - 1];
      } else {
        assert Condemns(acts[0], k, m[k].expiresAt);
        StaysGone(cfg, next, acts[1..], k);
      }
    }
  }

  lemma {:induction false} StaysGone(cfg: Config, m: map<Key, Entry>, acts: seq<Action>, k: Key)
    requires k !in m && OnlyKept(cfg, m, acts, k)
    ensures k !in ExecMap(cfg, m, acts)
    decreases |acts|
  {
    if acts != [] {
      StaysGone(cfg, NextMap(cfg, m, acts[0]), acts[1..], k);
    }
  }
}
