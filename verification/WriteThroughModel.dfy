/**
  The per-key lock protocol of WriteThrough as a transition system.

  One step is one section under the mutex, one channel event, one call into the store or one update
  of the front. A caller is one invocation of SetContext or DeleteContext; any number may be under
  way. L is the type of lock references, so that a lock that was removed from the table and a newer
  one for the same key are told apart by identity, as pointers are.
 */
module WriteThroughModel {
  import opened Basics

  type Key(==, !new)
  type Val(==, !new)
  type Caller = nat

  datatype Op = SetOp(val: Val) | DeleteOp

  datatype Result = Ok | StoreFailed | Panicked | CtxEnded

  /** Where the holder of a lock is: before the store call, between store and front, or past both. */
  datatype Stage = Locked | Stored | Unwinding(result: Result)

  datatype Pc<L> =
    | Trying(key: Key, lock: L, op: Op)                  // referenced, before the first select
    | Waiting(key: Key, lock: L, op: Op)                 // in the second select
    | Holding(key: Key, lock: L, op: Op, stage: Stage)   // its token is in the channel
    | Leaving(key: Key, lock: L, op: Op, result: Result) // token gone, reference still counted
    | Returned(key: Key, op: Op, result: Result)
  {
    ghost predicate Refers(l: L) { !Returned? && lock == l }
    ghost predicate Holds(l: L) { Holding? && lock == l }
    predicate HoldsKey(k: Key) { Holding? && key == k }
    /** The store has this caller's update and the front does not yet. */
    predicate AheadOfFront(k: Key) { Holding? && key == k && stage == Stored }
    predicate OffStored() { Holding? ==> stage != Stored }
    /** This caller's update has reached the front. */
    predicate Applied() {
      (Holding? && stage == Unwinding(Ok)) || (Leaving? && result == Ok) || (Returned? && result == Ok)
    }
  }

  /** A keyLock: its reference count, and whether its one-slot channel is full. */
  datatype Cell = Cell(refs: int, full: bool)

  /** An update of the store or of the front, and the caller that made it. */
  datatype Update = Update(caller: Caller, op: Op)

  /** One key of the store and of the front, and the history of its updates. */
  datatype KeyData = KeyData(
    store: Option<Val>,
    front: Option<Val>,
    given: Option<Val>,      // what the front held when it was wrapped
    evicted: bool,           // the front has dropped the key since its last front update
    ahead: Option<Update>,   // the update the key's holder has done in the store and not in the front
    storeLog: seq<Update>,
    frontLog: seq<Update>)

  const Untouched := KeyData(None, None, None, false, None, [], [])

  function At(data: map<Key, KeyData>, k: Key): KeyData {
    if k in data then data[k] else Untouched
  }

  datatype State<L(==)> = State(
    hasDeleter: bool,
    locks: map<Key, L>,
    cells: map<L, Cell>,
    pcs: map<Caller, Pc<L>>,
    ended: set<Caller>,   // callers whose context has ended
    data: map<Key, KeyData>)

  datatype Action<L> =
    | EndCtx(c: Caller)
    | Enter(c: Caller, k: Key, op: Op, l: L)   // l: the listed lock, or a new one if none is listed
    | TrySend(c: Caller)
    | WaitSend(c: Caller)
    | GiveUp(c: Caller)
    | StoreSucceeds(c: Caller)
    | StoreFails(c: Caller, panics: bool)
    | UpdateFront(c: Caller)
    | Drain(c: Caller)
    | Release(c: Caller)
    | Expire(k: Key)

  function Effect(op: Op): Option<Val> {
    if op.SetOp? then Some(op.val) else None
  }

  /** Deletes reach the store only when a deleter is configured. */
  predicate Durable(hasDeleter: bool, op: Op) {
    op.SetOp? || hasDeleter
  }

  function UpdateStore(hasDeleter: bool, d: KeyData, u: Update): KeyData {
    if Durable(hasDeleter, u.op)
    then d.(store := Effect(u.op), storeLog := d.storeLog + [u], ahead := Some(u))
    else d.(ahead := Some(u))
  }

  function UpdateFrontOf(d: KeyData, u: Update): KeyData {
    d.(front := Effect(u.op), evicted := false, frontLog := d.frontLog + [u], ahead := None)
  }

  /** The front drops a live entry by itself: expiry, or maintenance. */
  function EvictFront(d: KeyData): KeyData {
    d.(front := None, evicted := d.evicted || d.front.Some?)
  }

  /** The part of a log that the store sees. */
  function Mirrored(hasDeleter: bool, log: seq<Update>): seq<Update> {
    if log == [] then []
    else
      var last := log[|log| - 1];
      Mirrored(hasDeleter, log[..|log| - 1]) + (if Durable(hasDeleter, last.op) then [last] else [])
  }

  ghost predicate Init<L>(s: State<L>) {
    && s.locks == map[] && s.cells == map[] && s.pcs == map[] && s.ended == {}
    && forall k :: k in s.data ==>
      var given := s.data[k].given; s.data[k] == Untouched.(store := s.data[k].store, front := given, given := given)
  }

  ghost predicate Enabled<L>(s: State<L>, a: Action<L>) {
    match a
    case EndCtx(c) => true
    case Enter(c, k, op, l) => c !in s.pcs && (if k in s.locks then l == s.locks[k] else l !in s.cells)
    case TrySend(c) => c in s.pcs && s.pcs[c].Trying? && s.pcs[c].lock in s.cells
    case WaitSend(c) => c in s.pcs && s.pcs[c].Waiting? && s.pcs[c].lock in s.cells && !s.cells[s.pcs[c].lock].full
    case GiveUp(c) => c in s.pcs && s.pcs[c].Waiting? && c in s.ended
    case StoreSucceeds(c) => c in s.pcs && s.pcs[c].Holding? && s.pcs[c].stage == Locked
    case StoreFails(c, _) =>
      c in s.pcs && s.pcs[c].Holding? && s.pcs[c].stage == Locked && Durable(s.hasDeleter, s.pcs[c].op)
    case UpdateFront(c) => c in s.pcs && s.pcs[c].Holding? && s.pcs[c].stage == Stored
    case Drain(c) =>
      c in s.pcs && s.pcs[c].Holding? && s.pcs[c].stage.Unwinding? && s.pcs[c].lock in s.cells
    case Release(c) => c in s.pcs && s.pcs[c].Leaving? && s.pcs[c].lock in s.cells
    case Expire(k) => true
  }

  ghost function Next<L>(s: State<L>, a: Action<L>): State<L>
    requires Enabled(s, a)
  {
    match a
    case EndCtx(c) => s.(ended := s.ended + {c})
    case Enter(c, k, op, l) =>
      var cell := if l in s.cells then s.cells[l] else Cell(0, false);
      s.(locks := s.locks[k := l], cells := s.cells[l := cell.(refs := cell.refs + 1)],
         pcs := s.pcs[c := Trying(k, l, op)])
    case TrySend(c) =>
      var p := s.pcs[c];
      if s.cells[p.lock].full then s.(pcs := s.pcs[c := Waiting(p.key, p.lock, p.op)]) else TakeSlot(s, c)
    case WaitSend(c) => TakeSlot(s, c)
    case GiveUp(c) => s.(pcs := s.pcs[c := Leaving(s.pcs[c].key, s.pcs[c].lock, s.pcs[c].op, CtxEnded)])
    case StoreSucceeds(c) =>
      var p := s.pcs[c];
      s.(pcs := s.pcs[c := p.(stage := Stored)],
         data := s.data[p.key := UpdateStore(s.hasDeleter, At(s.data, p.key), Update(c, p.op))])
    case StoreFails(c, panics) =>
      s.(pcs := s.pcs[c := s.pcs[c].(stage := Unwinding(if panics then Panicked else StoreFailed))])
    case UpdateFront(c) =>
      var p := s.pcs[c];
      s.(pcs := s.pcs[c := p.(stage := Unwinding(Ok))],
         data := s.data[p.key := UpdateFrontOf(At(s.data, p.key), Update(c, p.op))])
    case Drain(c) =>
      var p := s.pcs[c];
      s.(cells := s.cells[p.lock := s.cells[p.lock].(full := false)],
         pcs := s.pcs[c := Leaving(p.key, p.lock, p.op, p.stage.result)])
    case Release(c) =>
      var p := s.pcs[c];
      var cell := s.cells[p.lock];
      s.(cells := s.cells[p.lock := cell.(refs := cell.refs - 1)],
         locks := if cell.refs - 1 == 0 then s.locks - {p.key} else s.locks,
         pcs := s.pcs[c := Returned(p.key, p.op, p.result)])
    case Expire(k) =>
      s.(data := s.data[k := EvictFront(At(s.data, k))])
  }

  /** A send on the lock's empty channel succeeds. */
  ghost function TakeSlot<L>(s: State<L>, c: Caller): State<L>
    requires c in s.pcs && (s.pcs[c].Trying? || s.pcs[c].Waiting?) && s.pcs[c].lock in s.cells
  {
    var p := s.pcs[c];
    s.(cells := s.cells[p.lock := s.cells[p.lock].(full := true)],
       pcs := s.pcs[c := Holding(p.key, p.lock, p.op, Locked)])
  }

  /** Each action is enabled in the state the ones before it lead to. */
  ghost predicate IsRun<L>(s: State<L>, acts: seq<Action<L>>)
    decreases |acts|
  {
    acts == [] || (Enabled(s, acts[0]) && IsRun(Next(s, acts[0]), acts[1..]))
  }

  ghost function Exec<L>(s: State<L>, acts: seq<Action<L>>): State<L>
    requires IsRun(s, acts)
    decreases |acts|
  {
    if acts == [] then s else Exec(Next(s, acts[0]), acts[1..])
  }

  function Last<T>(s: seq<T>): T
    requires s != []
  {
    s[|s| - 1]
  }

  // ---------------------------------------------------------------- the lock invariant

  ghost function RefersTo<L>(l: L): Pc<L> -> bool { (p: Pc<L>) => p.Refers(l) }

  ghost function HoldsLock<L>(l: L): Pc<L> -> bool { (p: Pc<L>) => p.Holds(l) }

  /** The callers that refer to lock l: waiting for it, holding it, or about to drop their reference. */
  ghost function Referrers<L>(pcs: map<Caller, Pc<L>>, l: L): set<Caller> {
    KeysWhere(pcs, RefersTo(l))
  }

  ghost function Holders<L>(pcs: map<Caller, Pc<L>>, l: L): set<Caller> {
    KeysWhere(pcs, HoldsLock(l))
  }

  ghost predicate RefsCounted<L>(s: State<L>) {
    forall l :: l in s.cells ==> s.cells[l].refs == |Referrers(s.pcs, l)|
  }

  /** A channel is full exactly when one caller holds its lock; otherwise none does. */
  ghost predicate TokensCounted<L>(s: State<L>) {
    forall l :: l in s.cells ==> |Holders(s.pcs, l)| == Count(s.cells[l].full)
  }

  /** A lock some caller refers to is the one in the table under that caller's key. */
  ghost predicate ReferredIsListed<L>(s: State<L>) {
    forall c :: c in s.pcs && !s.pcs[c].Returned? ==>
      && s.pcs[c].lock in s.cells
      && s.pcs[c].key in s.locks && s.locks[s.pcs[c].key] == s.pcs[c].lock
  }

  ghost predicate ListedIsUsed<L>(s: State<L>) {
    forall k :: k in s.locks ==> s.locks[k] in s.cells && s.cells[s.locks[k]].refs > 0
  }

  ghost predicate OneKeyPerLock<L>(s: State<L>) {
    forall k, k' :: k in s.locks && k' in s.locks && s.locks[k] == s.locks[k'] ==> k == k'
  }

  ghost predicate TableInv<L>(s: State<L>) {
    ReferredIsListed(s) && ListedIsUsed(s) && OneKeyPerLock(s)
  }

  ghost predicate LockInv<L>(s: State<L>) {
    RefsCounted(s) && TokensCounted(s) && TableInv(s)
  }

  /** The caller whose step it is; the two environment steps belong to nobody. */
  function Mover<L>(a: Action<L>): Option<Caller> {
    match a
    case EndCtx(_) => None
    case Expire(_) => None
    case Enter(c, _, _, _) => Some(c)
    case TrySend(c) => Some(c)
    case WaitSend(c) => Some(c)
    case GiveUp(c) => Some(c)
    case StoreSucceeds(c) => Some(c)
    case StoreFails(c, _) => Some(c)
    case UpdateFront(c) => Some(c)
    case Drain(c) => Some(c)
    case Release(c) => Some(c)
  }

  /** A caller's step moves that caller only. */
  lemma StepMoves<L>(s: State<L>, a: Action<L>, c: Caller)
    requires Enabled(s, a) && Mover(a) == Some(c)
    ensures c in Next(s, a).pcs && Next(s, a).pcs == s.pcs[c := Next(s, a).pcs[c]]
  {}

  lemma StepKeepsRefs<L>(s: State<L>, a: Action<L>)
    requires LockInv(s) && Enabled(s, a)
    ensures RefsCounted(Next(s, a))
  {
    var s' := Next(s, a);
    if Mover(a).Some? {
      var c := Mover(a).value;
      StepMoves(s, a, c);
      forall l | l in s'.cells ensures s'.cells[l].refs == |Referrers(s'.pcs, l)| {
        SizeAfterUpdate(s.pcs, c, s'.pcs[c], RefersTo(l));
        if l !in s.cells { assert Referrers(s.pcs, l) == {}; }
      }
    }
  }

  lemma StepKeepsTokens<L>(s: State<L>, a: Action<L>)
    requires LockInv(s) && Enabled(s, a)
    ensures TokensCounted(Next(s, a))
  {
    var s' := Next(s, a);
    if Mover(a).Some? {
      var c := Mover(a).value;
      StepMoves(s, a, c);
      forall l | l in s'.cells ensures |Holders(s'.pcs, l)| == Count(s'.cells[l].full) {
        SizeAfterUpdate(s.pcs, c, s'.pcs[c], HoldsLock(l));
        if l !in s.cells { assert Holders(s.pcs, l) == {}; }
      }
    }
  }

  lemma EnterKeepsTable<L>(s: State<L>, a: Action<L>)
    requires TableInv(s) && Enabled(s, a) && a.Enter?
    requires forall l :: l in s.cells ==> s.cells[l].refs >= 0
    ensures TableInv(Next(s, a))
  {}

  lemma ReleaseKeepsTable<L>(s: State<L>, a: Action<L>)
    requires TableInv(s) && Enabled(s, a) && a.Release?
    requires s.cells[s.pcs[a.c].lock].refs == 1 ==>
      forall d :: d in s.pcs && s.pcs[d].Refers(s.pcs[a.c].lock) ==> d == a.c
    ensures TableInv(Next(s, a))
  {}

  lemma OtherStepKeepsTable<L>(s: State<L>, a: Action<L>)
    requires TableInv(s) && Enabled(s, a) && !a.Enter? && !a.Release?
    ensures TableInv(Next(s, a))
  {}

  lemma SoleReferrer<L>(s: State<L>, c: Caller, d: Caller)
    requires LockInv(s) && c in s.pcs && d in s.pcs && !s.pcs[c].Returned? && !s.pcs[d].Returned?
    requires s.pcs[c].lock == s.pcs[d].lock && s.cells[s.pcs[c].lock].refs == 1
    ensures c == d
  {
    var r := Referrers(s.pcs, s.pcs[c].lock);
    assert {c, d} <= r;
    SubsetSize({c, d}, r);
  }

  lemma StepKeepsLocks<L>(s: State<L>, a: Action<L>)
    requires LockInv(s) && Enabled(s, a)
    ensures LockInv(Next(s, a))
  {
    StepKeepsRefs(s, a);
    StepKeepsTokens(s, a);
    if a.Enter? {
      EnterKeepsTable(s, a);
    } else if a.Release? {
      forall d | d in s.pcs && s.pcs[d].Refers(s.pcs[a.c].lock) && s.cells[s.pcs[a.c].lock].refs == 1
        ensures d == a.c
      {
        SoleReferrer(s, a.c, d);
      }
      ReleaseKeepsTable(s, a);
    } else {
      OtherStepKeepsTable(s, a);
    }
  }

  // ---------------------------------------------------------------- the data invariant

  /** Two callers never hold one key at once, whichever lock objects they went through. */
  ghost predicate OneHolderPerKey<L>(pcs: map<Caller, Pc<L>>) {
    forall c, c' ::
      (c in pcs && c' in pcs && pcs[c].Holding? && pcs[c'].HoldsKey(pcs[c].key)) ==> c == c'
  }

  lemma HoldersAreOne<L>(s: State<L>, c: Caller, c': Caller)
    requires TokensCounted(s) && ReferredIsListed(s)
    requires c in s.pcs && c' in s.pcs && s.pcs[c].Holding? && s.pcs[c'].HoldsKey(s.pcs[c].key)
    ensures c == c'
  {
    var h := Holders(s.pcs, s.pcs[c].lock);
    assert {c, c'} <= h && |h| <= 1;
    SubsetSize({c, c'}, h);
  }

  lemma LocksExclude<L>(s: State<L>)
    requires LockInv(s)
    ensures OneHolderPerKey(s.pcs)
  {
    forall c, c' | c in s.pcs && c' in s.pcs && s.pcs[c].Holding? && s.pcs[c'].HoldsKey(s.pcs[c].key)
      ensures c == c'
    {
      HoldersAreOne(s, c, c');
    }
  }

  /** The history the front will have once the key's holder, if any, gets there. */
  function DueLog(d: KeyData): seq<Update> {
    if d.ahead.Some? then d.frontLog + [d.ahead.value] else d.frontLog
  }

  /** The store's history is the mirror of the front's, with the one update the front still lacks. */
  ghost predicate HistoryAgrees(hasDeleter: bool, d: KeyData) {
    d.storeLog == Mirrored(hasDeleter, DueLog(d))
  }

  /** Store and front hold what their last update left there, evictions aside; before any, the front holds what it was given. */
  ghost predicate ValuesMatch(d: KeyData) {
    && (d.storeLog != [] ==> d.store == Effect(Last(d.storeLog).op))
    && d.front == if d.evicted then None else if d.frontLog == [] then d.given else Effect(Last(d.frontLog).op)
  }

  ghost predicate DataInv(hasDeleter: bool, data: map<Key, KeyData>) {
    forall k :: k in data ==> KeyInv(hasDeleter, data[k])
  }

  /** A key is ahead exactly while its holder is between the two updates. */
  ghost predicate AheadMatches<L>(pcs: map<Caller, Pc<L>>, data: map<Key, KeyData>) {
    && (forall k :: k in data && data[k].ahead.Some? ==>
      var u := data[k].ahead.value;
      u.caller in pcs && pcs[u.caller].AheadOfFront(k) && pcs[u.caller].op == u.op)
    && (forall c :: c in pcs && pcs[c].AheadOfFront(pcs[c].key) ==>
      At(data, pcs[c].key).ahead == Some(Update(c, pcs[c].op)))
  }

  /** Each entry of the front's history is by a caller that succeeded with that update. */
  ghost predicate EntriesSucceeded<L>(pcs: map<Caller, Pc<L>>, data: map<Key, KeyData>) {
    forall k, u :: k in data && u in data[k].frontLog ==>
      u.caller in pcs && pcs[u.caller].Applied() && pcs[u.caller].key == k && pcs[u.caller].op == u.op
  }

  /** Each caller that succeeded has its entry, and no caller has two. */
  ghost predicate SuccessesEntered<L>(pcs: map<Caller, Pc<L>>, data: map<Key, KeyData>) {
    && (forall c :: c in pcs && pcs[c].Applied() ==> Update(c, pcs[c].op) in At(data, pcs[c].key).frontLog)
    && (forall k :: k in data ==> NoDuplicates(data[k].frontLog))
  }

  lemma MirroredAppend(hasDeleter: bool, log: seq<Update>, u: Update)
    ensures Mirrored(hasDeleter, log + [u]) ==
      Mirrored(hasDeleter, log) + (if Durable(hasDeleter, u.op) then [u] else [])
  {
    assert (log + [u])[..|log|] == log;
  }

  ghost predicate KeyInv(hasDeleter: bool, d: KeyData) {
    HistoryAgrees(hasDeleter, d) && ValuesMatch(d)
  }

  lemma UpdateStoreKeepsKey(hasDeleter: bool, d: KeyData, u: Update)
    requires KeyInv(hasDeleter, d) && d.ahead == None
    ensures KeyInv(hasDeleter, UpdateStore(hasDeleter, d, u))
  {
    MirroredAppend(hasDeleter, d.frontLog, u);
  }

  lemma UpdateFrontKeepsKey(hasDeleter: bool, d: KeyData, u: Update)
    requires KeyInv(hasDeleter, d) && d.ahead == Some(u)
    ensures KeyInv(hasDeleter, UpdateFrontOf(d, u))
  {}

  lemma EvictFrontKeepsKey(hasDeleter: bool, d: KeyData)
    requires KeyInv(hasDeleter, d)
    ensures KeyInv(hasDeleter, EvictFront(d))
  {}

  lemma SetKeyKeepsData(hasDeleter: bool, data: map<Key, KeyData>, k: Key, d: KeyData)
    requires DataInv(hasDeleter, data) && KeyInv(hasDeleter, d)
    ensures DataInv(hasDeleter, data[k := d])
  {}

  /** What a caller's step does to its own place: key and operation stay, success is only gained at the front. */
  lemma StepAdvances<L>(s: State<L>, a: Action<L>, c: Caller)
    requires Enabled(s, a) && Mover(a) == Some(c) && c in s.pcs
    ensures Next(s, a).pcs[c].key == s.pcs[c].key && Next(s, a).pcs[c].op == s.pcs[c].op
    ensures Next(s, a).pcs[c].Applied() <==> s.pcs[c].Applied() || a.UpdateFront?
    ensures a.UpdateFront? ==> !s.pcs[c].Applied() && s.pcs[c].AheadOfFront(s.pcs[c].key)
  {}

  /** The only steps that touch the data, and what they do to it. */
  lemma DataEffect<L>(s: State<L>, a: Action<L>)
    requires Enabled(s, a)
    ensures !a.StoreSucceeds? && !a.UpdateFront? && !a.Expire? ==> Next(s, a).data == s.data
    ensures a.Enter? ==> !Next(s, a).pcs[a.c].Applied()
  {}

  /** A caller about to update the store finds nothing pending for its key. */
  lemma NothingPending<L>(s: State<L>, c: Caller)
    requires Enabled(s, StoreSucceeds(c)) && OneHolderPerKey(s.pcs) && AheadMatches(s.pcs, s.data)
    ensures At(s.data, s.pcs[c].key).ahead == None
  {}

  lemma OwnUpdatePending<L>(s: State<L>, c: Caller)
    requires Enabled(s, UpdateFront(c)) && AheadMatches(s.pcs, s.data)
    ensures At(s.data, s.pcs[c].key).ahead == Some(Update(c, s.pcs[c].op))
  {
    assert s.pcs[c].AheadOfFront(s.pcs[c].key);
  }

  lemma StepKeepsData<L>(s: State<L>, a: Action<L>)
    requires Enabled(s, a) && OneHolderPerKey(s.pcs) && AheadMatches(s.pcs, s.data)
    requires DataInv(s.hasDeleter, s.data)
    ensures DataInv(s.hasDeleter, Next(s, a).data)
  {
    DataEffect(s, a);
    match a
    case StoreSucceeds(c) =>
      var d, u := At(s.data, s.pcs[c].key), Update(c, s.pcs[c].op);
      NothingPending(s, c);
      UpdateStoreKeepsKey(s.hasDeleter, d, u);
      SetKeyKeepsData(s.hasDeleter, s.data, s.pcs[c].key, UpdateStore(s.hasDeleter, d, u));
    case UpdateFront(c) =>
      var d, u := At(s.data, s.pcs[c].key), Update(c, s.pcs[c].op);
      OwnUpdatePending(s, c);
      UpdateFrontKeepsKey(s.hasDeleter, d, u);
      SetKeyKeepsData(s.hasDeleter, s.data, s.pcs[c].key, UpdateFrontOf(d, u));
    case Expire(k) =>
      EvictFrontKeepsKey(s.hasDeleter, At(s.data, k));
      SetKeyKeepsData(s.hasDeleter, s.data, k, EvictFront(At(s.data, k)));
    case _ =>
  }

  lemma StoreKeepsAhead<L>(s: State<L>, c: Caller)
    requires Enabled(s, StoreSucceeds(c)) && OneHolderPerKey(s.pcs) && AheadMatches(s.pcs, s.data)
    ensures AheadMatches(Next(s, StoreSucceeds(c)).pcs, Next(s, StoreSucceeds(c)).data)
  {}

  lemma FrontKeepsAhead<L>(s: State<L>, c: Caller)
    requires Enabled(s, UpdateFront(c)) && OneHolderPerKey(s.pcs) && AheadMatches(s.pcs, s.data)
    ensures AheadMatches(Next(s, UpdateFront(c)).pcs, Next(s, UpdateFront(c)).data)
  {
    assert s.pcs[c].AheadOfFront(s.pcs[c].key);
  }

  lemma MoveKeepsAhead<L>(pcs: map<Caller, Pc<L>>, pcs': map<Caller, Pc<L>>, c: Caller, data: map<Key, KeyData>)
    requires AheadMatches(pcs, data) && c in pcs' && pcs' == pcs[c := pcs'[c]]
    requires (c in pcs ==> pcs[c].OffStored()) && pcs'[c].OffStored()
    ensures AheadMatches(pcs', data)
  {}

  lemma StepKeepsAhead<L>(s: State<L>, a: Action<L>)
    requires Enabled(s, a) && OneHolderPerKey(s.pcs) && AheadMatches(s.pcs, s.data)
    ensures AheadMatches(Next(s, a).pcs, Next(s, a).data)
  {
    DataEffect(s, a);
    if a.StoreSucceeds? {
      StoreKeepsAhead(s, a.c);
    } else if a.UpdateFront? {
      FrontKeepsAhead(s, a.c);
    } else if Mover(a).Some? {
      var c := Mover(a).value;
      StepMoves(s, a, c);
      StaysOffStored(s, a, c);
      MoveKeepsAhead(s.pcs, Next(s, a).pcs, c, s.data);
    }
  }

  lemma StaysOffStored<L>(s: State<L>, a: Action<L>, c: Caller)
    requires Enabled(s, a) && Mover(a) == Some(c) && !a.StoreSucceeds? && !a.UpdateFront?
    ensures (c in s.pcs ==> s.pcs[c].OffStored()) && Next(s, a).pcs[c].OffStored()
  {}

  /** Authorship survives any move of one caller that keeps the logs. */
  lemma MoveKeepsAuthors<L>(pcs: map<Caller, Pc<L>>, pcs': map<Caller, Pc<L>>, c: Caller, data: map<Key, KeyData>)
    requires EntriesSucceeded(pcs, data) && SuccessesEntered(pcs, data)
    requires c in pcs' && pcs' == pcs[c := pcs'[c]]
    requires c in pcs ==> pcs'[c].key == pcs[c].key && pcs'[c].op == pcs[c].op
    requires pcs'[c].Applied() <==> c in pcs && pcs[c].Applied()
    ensures EntriesSucceeded(pcs', data) && SuccessesEntered(pcs', data)
  {}

  /** So does appending the update of a caller that has just succeeded. */
  lemma AppendKeepsAuthors<L>(
      pcs: map<Caller, Pc<L>>, pcs': map<Caller, Pc<L>>, c: Caller,
      data: map<Key, KeyData>, k: Key, d: KeyData)
    requires EntriesSucceeded(pcs, data) && SuccessesEntered(pcs, data)
    requires c in pcs && c in pcs' && pcs' == pcs[c := pcs'[c]]
    requires pcs'[c].key == pcs[c].key == k && pcs'[c].op == pcs[c].op
    requires pcs'[c].Applied() && !pcs[c].Applied()
    requires d.frontLog == At(data, k).frontLog + [Update(c, pcs[c].op)]
    ensures EntriesSucceeded(pcs', data[k := d]) && SuccessesEntered(pcs', data[k := d])
  {
    var log, u := At(data, k).frontLog, Update(c, pcs[c].op);
    assert u !in log;
    assert forall v :: v in d.frontLog <==> v in log || v == u;
  }

  /** Other changes to a key's data leave the front's history alone. */
  lemma SameLogKeepsAuthors<L>(pcs: map<Caller, Pc<L>>, data: map<Key, KeyData>, k: Key, d: KeyData)
    requires EntriesSucceeded(pcs, data) && SuccessesEntered(pcs, data)
    requires d.frontLog == At(data, k).frontLog
    ensures EntriesSucceeded(pcs, data[k := d]) && SuccessesEntered(pcs, data[k := d])
  {}

  ghost predicate AuthorsMatch<L>(s: State<L>) {
    EntriesSucceeded(s.pcs, s.data) && SuccessesEntered(s.pcs, s.data)
  }

  lemma StepKeepsAuthors<L>(s: State<L>, a: Action<L>)
    requires Enabled(s, a) && AuthorsMatch(s)
    ensures AuthorsMatch(Next(s, a))
  {
    var s' := Next(s, a);
    DataEffect(s, a);
    if a.Expire? {
      SameLogKeepsAuthors(s.pcs, s.data, a.k, EvictFront(At(s.data, a.k)));
    } else if Mover(a).Some? {
      var c := Mover(a).value;
      StepMoves(s, a, c);
      if c in s.pcs { StepAdvances(s, a, c); }
      if a.UpdateFront? {
        AppendKeepsAuthors(s.pcs, s'.pcs, c, s.data, s.pcs[c].key, s'.data[s.pcs[c].key]);
      } else {
        MoveKeepsAuthors(s.pcs, s'.pcs, c, s.data);
        if a.StoreSucceeds? {
          SameLogKeepsAuthors(s'.pcs, s.data, s.pcs[c].key, s'.data[s.pcs[c].key]);
        }
      }
    }
  }

  ghost predicate Inv<L>(s: State<L>) {
    && LockInv(s) && DataInv(s.hasDeleter, s.data) && AheadMatches(s.pcs, s.data)
    && AuthorsMatch(s)
  }

  lemma StepKeepsInv<L>(s: State<L>, a: Action<L>)
    requires Inv(s) && Enabled(s, a)
    ensures Inv(Next(s, a))
  {
    LocksExclude(s);
    StepKeepsLocks(s, a);
    StepKeepsData(s, a);
    StepKeepsAhead(s, a);
    StepKeepsAuthors(s, a);
  }

  lemma {:induction false} RunKeepsInv<L>(s: State<L>, acts: seq<Action<L>>)
    requires Inv(s) && IsRun(s, acts)
    ensures Inv(Exec(s, acts)) && Exec(s, acts).hasDeleter == s.hasDeleter
    decreases |acts|
  {
    if acts != [] {
      StepKeepsInv(s, acts[0]);
      RunKeepsInv(Next(s, acts[0]), acts[1..]);
    }
  }

  // ---------------------------------------------------------------- what holds after every run

  lemma InitHasInv<L>(s: State<L>)
    requires Init(s)
    ensures Inv(s)
  {}

  lemma ReachableHasInv<L>(s: State<L>, acts: seq<Action<L>>)
    requires Init(s) && IsRun(s, acts)
    ensures Inv(Exec(s, acts)) && Exec(s, acts).hasDeleter == s.hasDeleter
  {
    InitHasInv(s);
    RunKeepsInv(s, acts);
  }

  /**
    Writes and deletes of one key never overlap, even though its lock is removed and made anew: at
    most one caller is ever between taking and draining a lock of that key.
   */
  lemma MutualExclusion<L>(s: State<L>, acts: seq<Action<L>>, k: Key, c: Caller, c': Caller)
    requires Init(s) && IsRun(s, acts)
    requires c in Exec(s, acts).pcs && Exec(s, acts).pcs[c].HoldsKey(k)
    requires c' in Exec(s, acts).pcs && Exec(s, acts).pcs[c'].HoldsKey(k)
    ensures c == c'
  {
    ReachableHasInv(s, acts);
    LocksExclude(Exec(s, acts));
  }

  /** A key has a lock in the table exactly while some call for it is under way, so none is leaked. */
  lemma ListedIffInUse<L>(s: State<L>, acts: seq<Action<L>>, k: Key)
    requires Init(s) && IsRun(s, acts)
    ensures k in Exec(s, acts).locks <==>
      exists c :: c in Exec(s, acts).pcs && !Exec(s, acts).pcs[c].Returned? && Exec(s, acts).pcs[c].key == k
  {
    ReachableHasInv(s, acts);
    var t := Exec(s, acts);
    if k in t.locks {
      UsedByItsKey(t, k);
    }
  }

  lemma UsedByItsKey<L>(t: State<L>, k: Key)
    requires LockInv(t) && k in t.locks
    ensures exists c :: c in t.pcs && !t.pcs[c].Returned? && t.pcs[c].key == k
  {
    var l := t.locks[k];
    assert |Referrers(t.pcs, l)| > 0;
    var c :| c in Referrers(t.pcs, l);
    assert t.pcs[c].Refers(l) && t.locks[t.pcs[c].key] == l;
  }

  /** Every lock's count and channel, read off the callers. */
  lemma LocksCount<L>(s: State<L>, acts: seq<Action<L>>, l: L)
    requires Init(s) && IsRun(s, acts) && l in Exec(s, acts).cells
    ensures var t := Exec(s, acts);
      && t.cells[l].refs == |set c | c in t.pcs && t.pcs[c].Refers(l)|
      && |set c | c in t.pcs && t.pcs[c].Holds(l)| == (if t.cells[l].full then 1 else 0)
  {
    ReachableHasInv(s, acts);
    var t := Exec(s, acts);
    assert Referrers(t.pcs, l) == set c | c in t.pcs && t.pcs[c].Refers(l);
    assert Holders(t.pcs, l) == set c | c in t.pcs && t.pcs[c].Holds(l);
  }

  lemma {:induction false} MirroredWithDeleter(log: seq<Update>)
    ensures Mirrored(true, log) == log
  {
    if log != [] {
      MirroredWithDeleter(log[..|log| - 1]);
      assert log == log[..|log| - 1] + [log[|log| - 1]];
    }
  }

  ghost predicate Unheld<L>(t: State<L>, k: Key) {
    forall c :: c in t.pcs ==> !t.pcs[c].HoldsKey(k)
  }

  lemma NothingAhead<L>(t: State<L>, k: Key)
    requires AheadMatches(t.pcs, t.data) && Unheld(t, k)
    ensures At(t.data, k).ahead == None
  {}

  /**
    With a deleter, a key's front history is always a prefix of its store history, at most one
    update behind, and the two are the same whenever nobody holds the key.
   */
  lemma FrontFollowsStore<L>(s: State<L>, acts: seq<Action<L>>, k: Key)
    requires Init(s) && IsRun(s, acts) && s.hasDeleter
    ensures var d := At(Exec(s, acts).data, k);
      && d.frontLog <= d.storeLog
      && |d.storeLog| <= |d.frontLog| + 1
      && (Unheld(Exec(s, acts), k) ==> d.storeLog == d.frontLog)
  {
    ReachableHasInv(s, acts);
    var t := Exec(s, acts);
    var d := At(t.data, k);
    MirroredWithDeleter(DueLog(d));
    assert HistoryAgrees(true, d);
    if Unheld(t, k) { NothingAhead(t, k); }
  }

  /** If the front shows a value set by the last entry of its history, the mirror's last entry is the same. */
  lemma MirroredLastSet(hasDeleter: bool, log: seq<Update>)
    requires log != [] && Last(log).op.SetOp?
    ensures Mirrored(hasDeleter, log) != [] && Last(Mirrored(hasDeleter, log)) == Last(log)
  {}

  /** The front was wrapped with a value that is not the store's, and neither an update nor an eviction has reached it. */
  predicate StillStale(d: KeyData) {
    d.frontLog == [] && !d.evicted && d.given.Some? && d.given != d.store
  }

  /**
    Deleter or not, and whatever failed, panicked or gave up before: a key nobody holds is missing in
    the front or has the store's value there, unless, and only unless, the front came with a stale
    value that nothing has reached since. With a deleter and no eviction since its last update, front
    and store agree on it outright.
   */
  lemma UnheldKeyIsConsistent<L>(s: State<L>, acts: seq<Action<L>>, k: Key)
    requires Init(s) && IsRun(s, acts) && Unheld(Exec(s, acts), k)
    ensures var d := At(Exec(s, acts).data, k);
      && (d.front == None || d.front == d.store <==> !StillStale(d))
      && (s.hasDeleter && !d.evicted && d.frontLog != [] ==> d.front == d.store)
  {
    ReachableHasInv(s, acts);
    var t := Exec(s, acts);
    var d := At(t.data, k);
    assert KeyInv(s.hasDeleter, d);
    NothingAhead(t, k);
    if d.front.Some? && d.frontLog != [] {
      MirroredLastSet(s.hasDeleter, d.frontLog);
    }
    if s.hasDeleter { MirroredWithDeleter(d.frontLog); }
  }

  /** Such a front exists: a value the store does not have, before anything has happened. */
  lemma StaleFrontIsPossible<L>(k: Key, v: Val) returns (s: State<L>)
    ensures Init(s) && IsRun(s, []) && Unheld(Exec(s, []), k) && StillStale(At(Exec(s, []).data, k))
    ensures At(Exec(s, []).data, k).front == Some(v) && At(Exec(s, []).data, k).store == None
  {
    s := State(true, map[], map[], map[], {}, map[k := Untouched.(front := Some(v), given := Some(v))]);
  }

  /** Every entry the store has of a key is in the front's due history too. */
  lemma {:induction false} MirroredIsPart(hasDeleter: bool, log: seq<Update>, u: Update)
    ensures u in Mirrored(hasDeleter, log) <==> u in log && Durable(hasDeleter, u.op)
  {
    if log != [] {
      MirroredIsPart(hasDeleter, log[..|log| - 1], u);
      assert log == log[..|log| - 1] + [log[|log| - 1]];
    }
  }

  /**
    A call that returned success made its update in the front and, if durable, in the store; a call
    that returned an error made none, in any key.
   */
  lemma ReturnedCallsTellTheTruth<L>(s: State<L>, acts: seq<Action<L>>, c: Caller)
    requires Init(s) && IsRun(s, acts) && c in Exec(s, acts).pcs && Exec(s, acts).pcs[c].Returned?
    ensures var t := Exec(s, acts);
      var p := t.pcs[c];
      if p.result == Ok then
        && Update(c, p.op) in At(t.data, p.key).frontLog
        && (p.op.SetOp? || s.hasDeleter ==> Update(c, p.op) in At(t.data, p.key).storeLog)
      else forall k, u: Update :: k in t.data && u.caller == c ==>
        u !in t.data[k].frontLog && u !in t.data[k].storeLog
  {
    ReachableHasInv(s, acts);
    var t := Exec(s, acts);
    var p := t.pcs[c];
    if p.result == Ok {
      var d := At(t.data, p.key);
      assert HistoryAgrees(s.hasDeleter, d);
      assert Update(c, p.op) in DueLog(d);
      MirroredIsPart(s.hasDeleter, DueLog(d), Update(c, p.op));
    } else {
      forall k, u: Update | k in t.data && u.caller == c
        ensures u !in t.data[k].frontLog && u !in t.data[k].storeLog
      {
        assert HistoryAgrees(s.hasDeleter, t.data[k]);
        MirroredIsPart(s.hasDeleter, DueLog(t.data[k]), u);
      }
    }
  }

  /** The sets of a log, in order. */
  function SetsOf(log: seq<Update>): seq<Update> {
    if log == [] then []
    else
      var last := log[|log| - 1];
      SetsOf(log[..|log| - 1]) + (if last.op.SetOp? then [last] else [])
  }

  lemma {:induction false} MirroredIsSets(log: seq<Update>)
    ensures Mirrored(false, log) == SetsOf(log)
  {
    if log != [] { MirroredIsSets(log[..|log| - 1]); }
  }

  lemma {:induction false} SetsOfAreSets(log: seq<Update>)
    ensures forall u :: u in SetsOf(log) <==> u in log && u.op.SetOp?
  {
    if log != [] {
      SetsOfAreSets(log[..|log| - 1]);
      assert log == log[..|log| - 1] + [log[|log| - 1]];
    }
  }

  /**
    Which operations reach the store: with a deleter all of them, in the front's order; without one
    the sets alone. The front's history counts the update its holder has yet to make.
   */
  lemma StoreSeesWhatItShould<L>(s: State<L>, acts: seq<Action<L>>, k: Key)
    requires Init(s) && IsRun(s, acts)
    ensures var d := At(Exec(s, acts).data, k);
      var due := d.frontLog + (if d.ahead.Some? then [d.ahead.value] else []);
      && (s.hasDeleter ==> d.storeLog == due)
      && (!s.hasDeleter ==> d.storeLog == SetsOf(due) && forall u :: u in d.storeLog <==> u in due && u.op.SetOp?)
      && (d.ahead.Some? ==>
        d.ahead.value.caller in Exec(s, acts).pcs && Exec(s, acts).pcs[d.ahead.value.caller].AheadOfFront(k))
  {
    ReachableHasInv(s, acts);
    var t := Exec(s, acts);
    var d := At(t.data, k);
    assert HistoryAgrees(s.hasDeleter, d);
    var due := d.frontLog + (if d.ahead.Some? then [d.ahead.value] else []);
    assert DueLog(d) == due;
    if s.hasDeleter {
      MirroredWithDeleter(due);
    } else {
      MirroredIsSets(due);
      SetsOfAreSets(due);
    }
  }

  /** A step leaves a key's store alone unless it adds to its history. */
  lemma StepWritesStore<L>(s: State<L>, a: Action<L>, k: Key)
    requires Enabled(s, a)
    ensures At(s.data, k).storeLog <= At(Next(s, a).data, k).storeLog
    ensures At(Next(s, a).data, k).storeLog == At(s.data, k).storeLog ==> At(Next(s, a).data, k).store == At(s.data, k).store
    ensures At(Next(s, a).data, k).given == At(s.data, k).given
  {
    DataEffect(s, a);
  }

  lemma {:induction false} UnwrittenStoreStays<L>(s: State<L>, acts: seq<Action<L>>, k: Key)
    requires IsRun(s, acts)
    ensures At(s.data, k).storeLog <= At(Exec(s, acts).data, k).storeLog
    ensures At(Exec(s, acts).data, k).storeLog == At(s.data, k).storeLog ==> At(Exec(s, acts).data, k).store == At(s.data, k).store
    ensures At(Exec(s, acts).data, k).given == At(s.data, k).given
    decreases |acts|
  {
    if acts != [] {
      StepWritesStore(s, acts[0], k);
      UnwrittenStoreStays(Next(s, acts[0]), acts[1..], k);
    }
  }

  /**
    What store and front hold: the value of the last set in their history, nothing after a delete, and
    what they started with before any update; the front holds nothing once it has dropped the key.
   */
  lemma ValuesAreTheLastUpdates<L>(s: State<L>, acts: seq<Action<L>>, k: Key)
    requires Init(s) && IsRun(s, acts)
    ensures var d0, d := At(s.data, k), At(Exec(s, acts).data, k);
      && (d.storeLog == [] ==> d.store == d0.store)
      && (d.storeLog != [] ==>
        match Last(d.storeLog).op case SetOp(v) => d.store == Some(v) case DeleteOp => d.store == None)
      && (d.evicted ==> d.front == None)
      && (!d.evicted && d.frontLog == [] ==> d.front == d0.front)
      && (!d.evicted && d.frontLog != [] ==>
        match Last(d.frontLog).op case SetOp(v) => d.front == Some(v) case DeleteOp => d.front == None)
  {
    ReachableHasInv(s, acts);
    UnwrittenStoreStays(s, acts, k);
    assert KeyInv(s.hasDeleter, At(Exec(s, acts).data, k));
  }

  /** How a call may have come back: given up only if its context ended while it waited, and without touching store or front. */
  ghost predicate GaveUpInv<L>(s: State<L>) {
    forall c :: (c in s.pcs && (s.pcs[c].Leaving? || s.pcs[c].Returned?) && s.pcs[c].result == CtxEnded) ==> c in s.ended
  }

  lemma StepKeepsGaveUp<L>(s: State<L>, a: Action<L>)
    requires GaveUpInv(s) && UnwindingInv(s) && Enabled(s, a)
    ensures GaveUpInv(Next(s, a)) && UnwindingInv(Next(s, a))
  {}

  /** A holder never unwinds with a context error. */
  ghost predicate UnwindingInv<L>(s: State<L>) {
    forall c :: (c in s.pcs && s.pcs[c].Holding? && s.pcs[c].stage.Unwinding?) ==> s.pcs[c].stage.result != CtxEnded
  }

  lemma {:induction false} RunKeepsGaveUp<L>(s: State<L>, acts: seq<Action<L>>)
    requires GaveUpInv(s) && UnwindingInv(s) && IsRun(s, acts)
    ensures GaveUpInv(Exec(s, acts))
    decreases |acts|
  {
    if acts != [] {
      StepKeepsGaveUp(s, acts[0]);
      RunKeepsGaveUp(Next(s, acts[0]), acts[1..]);
    }
  }

  /** A call returns its context's error only if its context has ended. */
  lemma GivingUpNeedsAnEndedContext<L>(s: State<L>, acts: seq<Action<L>>, c: Caller)
    requires Init(s) && IsRun(s, acts) && c in Exec(s, acts).pcs
    requires Exec(s, acts).pcs[c].Returned? && Exec(s, acts).pcs[c].result == CtxEnded
    ensures c in Exec(s, acts).ended
  {
    RunKeepsGaveUp(s, acts);
  }

  /** The step a caller at p takes next; a waiting caller's is the send. */
  ghost function OwnStep<L>(c: Caller, p: Pc<L>): (a: Action<L>)
    requires !p.Returned?
    ensures Mover(a) == Some(c)
  {
    match p
    case Trying(_, _, _) => TrySend(c)
    case Waiting(_, _, _) => WaitSend(c)
    case Holding(_, _, _, Locked) => StoreSucceeds(c)
    case Holding(_, _, _, Stored) => UpdateFront(c)
    case Holding(_, _, _, Unwinding(_)) => Drain(c)
    case Leaving(_, _, _, _) => Release(c)
  }

  ghost predicate CanMove<L>(t: State<L>, c: Caller) {
    c in t.pcs && !t.pcs[c].Returned? && Enabled(t, OwnStep(c, t.pcs[c]))
  }

  /**
    Nothing wedges a key: a caller that has not returned can take its next step, or waits on a lock
    whose one holder can.
   */
  lemma NoWedge<L>(s: State<L>, acts: seq<Action<L>>, c: Caller)
    requires Init(s) && IsRun(s, acts) && c in Exec(s, acts).pcs && !Exec(s, acts).pcs[c].Returned?
    ensures var t := Exec(s, acts);
      || CanMove(t, c)
      || (t.pcs[c].Waiting? && exists h :: h in t.pcs && t.pcs[h].Holds(t.pcs[c].lock) && CanMove(t, h))
  {
    ReachableHasInv(s, acts);
    var t := Exec(s, acts);
    MoversMove(t, c);
    if t.pcs[c].Waiting? && t.cells[t.pcs[c].lock].full {
      assert |Holders(t.pcs, t.pcs[c].lock)| == 1;
      var h :| h in Holders(t.pcs, t.pcs[c].lock);
      assert t.pcs[h].Holds(t.pcs[c].lock);
      MoversMove(t, h);
    }
  }

  lemma MoversMove<L>(t: State<L>, c: Caller)
    requires LockInv(t) && c in t.pcs && !t.pcs[c].Returned?
    ensures CanMove(t, c) || (t.pcs[c].Waiting? && t.cells[t.pcs[c].lock].full)
  {}
}
