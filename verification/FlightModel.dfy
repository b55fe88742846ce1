/**
  The single-flight protocol of flightGroup.Do and lead as a transition system.

  A run has a fixed number of invocations of Do, each at any point of its loop; one may reach the
  loop's head at any time, so late arrivals are covered. C is the type of call references: a call
  that left the table and a newer one for the same key differ by identity.
 */
module FlightModel {
  import opened Basics

  type Key(==, !new)
  type Val(==, !new)
  type LoaderError(==, !new)

  /** How the load function ends: it returns, panics, or calls Goexit. */
  datatype Outcome = Returns(val: Val, err: Option<LoaderError>) | Panics | Exits

  datatype Err = FromLoader(e: LoaderError) | PanicErr | GoexitErr

  /** What waiters read of a call. A val of None is the zero value, which no loader produced. */
  datatype Published = Published(val: Option<Val>, err: Option<Err>, abandoned: bool)

  /** leaderEnded: when its load ended, so had its leader's context. */
  datatype Call = Call(
    key: Key, leader: nat, outcome: Option<Outcome>, leaderEnded: bool, result: Published, closed: bool)

  datatype How<C> =
    | Led(call: C)
    | Joined(call: C, val: Option<Val>, err: Option<Err>)
    | LeftEarly                                            // with the cause of its own context

  datatype Pc<C> =
    | Start                 // at the head of the loop
    | Waiting(call: C)      // in the select
    | Woken(call: C)        // saw the call closed
    | Loading(call: C)      // leader, running the load function
    | Publishing(call: C)   // leader, val and err written, entry still in the table
    | Unlinked(call: C)     // leader, entry deleted, channel still open
    | Finished(how: How<C>)
  {
    predicate Leads() { Loading? || Publishing? || Unlinked? }
    predicate Joins() { Waiting? || Woken? }
    predicate LedOne() { Leads() || (Finished? && how.Led?) }
  }

  /** One invocation: its key, its place, and every call it ever waited on. */
  datatype Caller<C(==)> = Caller(key: Key, pc: Pc<C>, waited: set<C>)

  datatype State<C(==)> = State(
    table: map<Key, C>,
    calls: map<C, Call>,
    callers: seq<Caller<C>>,
    ended: set<nat>)          // callers whose context has ended

  datatype Action<C> =
    | EndCtx(i: nat)
    | Enter(i: nat, c: C)     // c: the call in the table, or a new one if there is none
    | LoadEnds(i: nat, outcome: Outcome)
    | Unlink(i: nat)
    | Close(i: nat)
    | Wake(i: nat)
    | Leave(i: nat)
    | Resolve(i: nat)

  const Unpublished := Published(None, None, false)

  /** What lead writes into the call: a context that ended during a failed load abandons it. */
  function Publish(outcome: Outcome, ctxEnded: bool): Published {
    match outcome
    case Returns(v, None) => Published(Some(v), None, false)
    case Returns(v, Some(e)) => Published(Some(v), Some(FromLoader(e)), ctxEnded)
    case Panics => Published(None, Some(PanicErr), false)
    case Exits => Published(None, Some(GoexitErr), false)
  }

  ghost predicate Init<C>(s: State<C>) {
    && s.table == map[] && s.calls == map[] && s.ended == {}
    && forall i :: 0 <= i < |s.callers| ==> s.callers[i].pc == Start && s.callers[i].waited == {}
  }

  ghost predicate Enabled<C>(s: State<C>, a: Action<C>) {
    && a.i < |s.callers|
    && var p := s.callers[a.i];
    match a
    case EndCtx(i) => i !in s.ended
    case Enter(i, c) => p.pc.Start? && (if p.key in s.table then c == s.table[p.key] else c !in s.calls)
    case LoadEnds(i, _) => p.pc.Loading? && p.pc.call in s.calls
    case Unlink(i) => p.pc.Publishing?
    case Close(i) => p.pc.Unlinked? && p.pc.call in s.calls
    case Wake(i) => p.pc.Waiting? && p.pc.call in s.calls && s.calls[p.pc.call].closed
    case Leave(i) => p.pc.Waiting? && i in s.ended
    case Resolve(i) => p.pc.Woken? && p.pc.call in s.calls
  }

  ghost function Move<C>(s: State<C>, i: nat, pc: Pc<C>): seq<Caller<C>>
    requires i < |s.callers|
  {
    s.callers[i := s.callers[i].(pc := pc)]
  }

  ghost function Next<C>(s: State<C>, a: Action<C>): (t: State<C>)
    requires Enabled(s, a)
    ensures |t.callers| == |s.callers|
  {
    var p := s.callers[a.i];
    match a
    case EndCtx(i) => s.(ended := s.ended + {i})
    case Enter(i, c) =>
      if p.key in s.table
      then s.(callers := s.callers[i := p.(pc := Waiting(c), waited := p.waited + {c})])
      else s.(table := s.table[p.key := c],
              calls := s.calls[c := Call(p.key, i, None, false, Unpublished, false)],
              callers := Move(s, i, Loading(c)))
    case LoadEnds(i, outcome) =>
      var c := p.pc.call;
      s.(calls := s.calls[c := s.calls[c].(
           outcome := Some(outcome), leaderEnded := i in s.ended, result := Publish(outcome, i in s.ended))],
         callers := Move(s, i, Publishing(c)))
    case Unlink(i) => s.(table := s.table - {p.key}, callers := Move(s, i, Unlinked(p.pc.call)))
    case Close(i) =>
      var c := p.pc.call;
      s.(calls := s.calls[c := s.calls[c].(closed := true)], callers := Move(s, i, Finished(Led(c))))
    case Wake(i) => s.(callers := Move(s, i, Woken(p.pc.call)))
    case Leave(i) => s.(callers := Move(s, i, Finished(LeftEarly)))
    case Resolve(i) =>
      var r := s.calls[p.pc.call].result;
      if !r.abandoned then s.(callers := Move(s, i, Finished(Joined(p.pc.call, r.val, r.err))))
      else if i in s.ended then s.(callers := Move(s, i, Finished(LeftEarly)))
      else s.(callers := Move(s, i, Start))
  }

  ghost predicate IsRun<C>(s: State<C>, acts: seq<Action<C>>)
    decreases |acts|
  {
    acts == [] || (Enabled(s, acts[0]) && IsRun(Next(s, acts[0]), acts[1..]))
  }

  ghost function Exec<C>(s: State<C>, acts: seq<Action<C>>): (t: State<C>)
    requires IsRun(s, acts)
    ensures |t.callers| == |s.callers|
    decreases |acts|
  {
    if acts == [] then s else Exec(Next(s, acts[0]), acts[1..])
  }

  // ---------------------------------------------------------------- the invariant

  /** A table entry is an open call for its key whose leader has not deleted it yet. */
  ghost predicate EntryInv<C>(s: State<C>, k: Key)
    requires k in s.table
  {
    var c := s.table[k];
    && c in s.calls && s.calls[c].key == k && !s.calls[c].closed
    && s.calls[c].leader < |s.callers|
    && var pc := s.callers[s.calls[c].leader].pc; (pc == Loading(c) || pc == Publishing(c))
  }

  /** A call is open exactly while its leader is at work on it; it is published before it is closed. */
  ghost predicate CallInv<C>(s: State<C>, c: C)
    requires c in s.calls
  {
    var call := s.calls[c];
    && call.leader < |s.callers| && s.callers[call.leader].key == call.key
    && var pc := s.callers[call.leader].pc;
    && (if call.closed then pc == Finished(Led(c)) else pc.Leads() && pc.call == c)
    && (call.outcome.None? <==> pc.Loading?)
    && (call.outcome.None? ==> call.result == Unpublished)
    && (call.outcome.Some? ==> call.result == Publish(call.outcome.value, call.leaderEnded))
    && (call.leaderEnded ==> call.leader in s.ended)
  }

  /** A leader's call is its own, and in the table until it deletes it. */
  ghost predicate LeaderInv<C>(s: State<C>, i: nat)
    requires i < |s.callers|
  {
    var p := s.callers[i];
    && (p.pc.Leads() ==> p.pc.call in s.calls && s.calls[p.pc.call].leader == i)
    && (p.pc.Loading? || p.pc.Publishing? ==> p.key in s.table && s.table[p.key] == p.pc.call)
    && (p.pc.Finished? && p.pc.how.Led? ==>
      p.pc.how.call in s.calls && s.calls[p.pc.how.call].leader == i && s.calls[p.pc.how.call].closed)
  }

  /** What a caller knows of the call it joined, and how it finished. */
  ghost predicate JoinerInv<C>(s: State<C>, i: nat)
    requires i < |s.callers|
  {
    var p := s.callers[i];
    && (p.pc.Joins() ==> p.pc.call in s.calls && s.calls[p.pc.call].key == p.key && p.pc.call in p.waited)
    && (p.pc.Woken? ==> s.calls[p.pc.call].closed)
    && (p.pc.Finished? && p.pc.how == LeftEarly ==> i in s.ended)
    && (p.pc.Finished? && p.pc.how.Joined? ==>
      && var c := p.pc.how.call;
      && c in s.calls && s.calls[c].closed && s.calls[c].key == p.key && c in p.waited
      && s.calls[c].result == Published(p.pc.how.val, p.pc.how.err, false))
  }

  /** A call that was given up on: its leader's context ended its load. */
  ghost predicate GivenUp<C>(s: State<C>, c: C) {
    c in s.calls && s.calls[c].closed && s.calls[c].result.abandoned
  }

  /** Of some calls, those not given up on. */
  ghost function NotGivenUp<C>(s: State<C>, waited: set<C>): set<C> {
    set c | c in waited && !GivenUp(s, c)
  }

  /** At its place, of the calls a caller has waited on, those in left can be the ones not given up on. */
  ghost predicate MayHaveLeft<C>(pc: Pc<C>, left: set<C>) {
    && (pc.Start? || pc.LedOne() ==> left == {})
    && (pc.Joins() ==> left <= {pc.call})
    && (pc.Finished? ==> forall c, c' :: c in left && c' in left ==> c == c')
  }

  /** All calls a caller has waited on were given up on, but for the one it is on or came back from. */
  ghost predicate WaitedInv<C>(s: State<C>, i: nat)
    requires i < |s.callers|
  {
    var p := s.callers[i];
    && (forall c :: c in p.waited ==> c in s.calls)
    && MayHaveLeft(p.pc, NotGivenUp(s, p.waited))
  }

  ghost predicate CallerInv<C>(s: State<C>, i: nat)
    requires i < |s.callers|
  {
    LeaderInv(s, i) && JoinerInv(s, i) && WaitedInv(s, i)
  }

  ghost predicate Inv<C>(s: State<C>) {
    && (forall k :: k in s.table ==> EntryInv(s, k))
    && (forall c :: c in s.calls ==> CallInv(s, c))
    && (forall i :: 0 <= i < |s.callers| ==> CallerInv(s, i))
    && (forall i :: i in s.ended ==> i < |s.callers|)
  }

  lemma StepKeepsEntry<C>(s: State<C>, a: Action<C>, k: Key)
    requires Inv(s) && Enabled(s, a) && k in Next(s, a).table
    ensures EntryInv(Next(s, a), k)
  {
    if k in s.table { assert EntryInv(s, k); }
    assert CallerInv(s, a.i);
  }

  /** The call the moving caller leads, or has just made. */
  lemma StepKeepsOwnCall<C>(s: State<C>, a: Action<C>, c: C)
    requires Inv(s) && Enabled(s, a) && c in Next(s, a).calls && Next(s, a).calls[c].leader == a.i
    ensures CallInv(Next(s, a), c)
  {
    if c in s.calls { assert CallInv(s, c); }
    assert CallerInv(s, a.i);
  }

  lemma StepKeepsOtherCall<C>(s: State<C>, a: Action<C>, c: C)
    requires Inv(s) && Enabled(s, a) && c in Next(s, a).calls && Next(s, a).calls[c].leader != a.i
    ensures CallInv(Next(s, a), c)
  {
    var s' := Next(s, a);
    OthersCallUntouched(s, a, c);
    assert s'.callers[s.calls[c].leader] == s.callers[s.calls[c].leader] && s.ended <= s'.ended;
  }

  lemma OthersCallUntouched<C>(s: State<C>, a: Action<C>, c: C)
    requires Inv(s) && Enabled(s, a) && c in Next(s, a).calls && Next(s, a).calls[c].leader != a.i
    ensures c in s.calls && CallInv(s, c) && Next(s, a).calls[c] == s.calls[c]
  {
    assert c in s.calls && CallInv(s, c) && CallerInv(s, a.i);
  }

  /** A call keeps its key and leader, and nothing about it changes once it is closed. */
  lemma CallsOnlyAdvance<C>(s: State<C>, a: Action<C>, c: C)
    requires Inv(s) && Enabled(s, a) && c in s.calls
    ensures c in Next(s, a).calls
    ensures Next(s, a).calls[c].key == s.calls[c].key && Next(s, a).calls[c].leader == s.calls[c].leader
    ensures s.calls[c].closed ==> Next(s, a).calls[c] == s.calls[c]
  {
    assert CallInv(s, c) && CallerInv(s, a.i);
  }

  /** A leader's entry is touched by nobody else. */
  lemma StepKeepsOthersEntry<C>(s: State<C>, a: Action<C>, i: nat)
    requires Inv(s) && Enabled(s, a) && i < |s.callers| && i != a.i
    requires s.callers[i].pc.Loading? || s.callers[i].pc.Publishing?
    ensures s.callers[i].key in Next(s, a).table
    ensures Next(s, a).table[s.callers[i].key] == s.callers[i].pc.call
  {
    assert CallerInv(s, i) && CallerInv(s, a.i);
  }

  lemma StepKeepsOtherCaller<C>(s: State<C>, a: Action<C>, i: nat)
    requires Inv(s) && Enabled(s, a) && i < |s.callers| && i != a.i
    ensures CallerInv(Next(s, a), i)
  {
    var s' := Next(s, a);
    var p := s.callers[i];
    assert s'.callers[i] == p && s.ended <= s'.ended;
    assert CallerInv(s, i);
    if p.pc.Loading? || p.pc.Publishing? { StepKeepsOthersEntry(s, a, i); }
    CallsStay(s, a);
    NotGivenUpShrinks(s, a, p.waited);
  }

  lemma CallsStay<C>(s: State<C>, a: Action<C>)
    requires Inv(s) && Enabled(s, a)
    ensures forall c :: c in s.calls ==>
      && c in Next(s, a).calls
      && Next(s, a).calls[c].key == s.calls[c].key && Next(s, a).calls[c].leader == s.calls[c].leader
      && (s.calls[c].closed ==> Next(s, a).calls[c] == s.calls[c])
  {
    forall c | c in s.calls
      ensures c in Next(s, a).calls
        && Next(s, a).calls[c].key == s.calls[c].key && Next(s, a).calls[c].leader == s.calls[c].leader
        && (s.calls[c].closed ==> Next(s, a).calls[c] == s.calls[c])
    {
      CallsOnlyAdvance(s, a, c);
    }
  }

  lemma StepKeepsMoverLeads<C>(s: State<C>, a: Action<C>)
    requires Inv(s) && Enabled(s, a)
    ensures LeaderInv(Next(s, a), a.i)
  {
    assert CallerInv(s, a.i);
    if s.callers[a.i].pc.Leads() { assert CallInv(s, s.callers[a.i].pc.call); }
  }

  lemma StepKeepsMoverJoins<C>(s: State<C>, a: Action<C>)
    requires Inv(s) && Enabled(s, a)
    ensures JoinerInv(Next(s, a), a.i)
  {
    assert CallerInv(s, a.i);
    var p := s.callers[a.i];
    if p.key in s.table { assert EntryInv(s, p.key); }
    CallsStay(s, a);
  }

  /** A call given up on stays so. */
  lemma NotGivenUpShrinks<C>(s: State<C>, a: Action<C>, waited: set<C>)
    requires Inv(s) && Enabled(s, a)
    ensures NotGivenUp(Next(s, a), waited) <= NotGivenUp(s, waited)
  {
    forall c | c in waited && GivenUp(s, c) ensures GivenUp(Next(s, a), c) {
      CallsOnlyAdvance(s, a, c);
    }
  }

  /** Where a caller's own step takes it, and what it may leave behind. */
  lemma MoverWaits<C>(s: State<C>, a: Action<C>)
    requires Inv(s) && Enabled(s, a)
    ensures var p, p' := s.callers[a.i], Next(s, a).callers[a.i];
      if p'.pc.Joins() && !p.pc.Joins() then p.pc.Start? && p'.waited == p.waited + {p'.pc.call}
      else
        && p'.waited == p.waited
        && (p'.pc.Joins() ==> p'.pc.call == p.pc.call)
        && (p'.pc.LedOne() ==> p.pc.LedOne() || p.pc.Start?)
        && (p'.pc.Start? ==> p.pc.Start? || (p.pc.Joins() && GivenUp(s, p.pc.call)))
  {
    assert CallerInv(s, a.i);
    assert s.callers[a.i].pc.Woken? ==> s.callers[a.i].pc.call in s.calls;
  }

  lemma StepKeepsMoverWaited<C>(s: State<C>, a: Action<C>)
    requires Inv(s) && Enabled(s, a)
    ensures WaitedInv(Next(s, a), a.i)
  {
    var s' := Next(s, a);
    var p, p' := s.callers[a.i], s'.callers[a.i];
    assert CallerInv(s, a.i);
    MoverWaits(s, a);
    NotGivenUpShrinks(s, a, p.waited);
    assert NotGivenUp(s', p'.waited) <= NotGivenUp(s', p.waited) + (p'.waited - p.waited);
    StepKeepsMoverJoins(s, a);
    CallsStay(s, a);
  }

  lemma StepKeepsInv<C>(s: State<C>, a: Action<C>)
    requires Inv(s) && Enabled(s, a)
    ensures Inv(Next(s, a))
  {
    var s' := Next(s, a);
    forall k | k in s'.table ensures EntryInv(s', k) { StepKeepsEntry(s, a, k); }
    forall c | c in s'.calls ensures CallInv(s', c) {
      if s'.calls[c].leader == a.i { StepKeepsOwnCall(s, a, c); } else { StepKeepsOtherCall(s, a, c); }
    }
    forall i | 0 <= i < |s'.callers| ensures CallerInv(s', i) {
      if i == a.i {
        StepKeepsMoverLeads(s, a);
        StepKeepsMoverJoins(s, a);
        StepKeepsMoverWaited(s, a);
      } else {
        StepKeepsOtherCaller(s, a, i);
      }
    }
  }

  lemma {:induction false} RunKeepsInv<C>(s: State<C>, acts: seq<Action<C>>)
    requires Inv(s) && IsRun(s, acts)
    ensures Inv(Exec(s, acts))
    decreases |acts|
  {
    if acts != [] {
      StepKeepsInv(s, acts[0]);
      RunKeepsInv(Next(s, acts[0]), acts[1..]);
    }
  }

  // ---------------------------------------------------------------- safety of every run

  lemma InitHasInv<C>(s: State<C>)
    requires Init(s)
    ensures Inv(s)
  {}

  lemma ReachableHasInv<C>(s: State<C>, acts: seq<Action<C>>)
    requires Init(s) && IsRun(s, acts)
    ensures Inv(Exec(s, acts))
  {
    InitHasInv(s);
    RunKeepsInv(s, acts);
  }

  /** At most one load of a key runs at any time. */
  lemma OneLoadPerKey<C>(s: State<C>, acts: seq<Action<C>>, i: nat, j: nat)
    requires Init(s) && IsRun(s, acts) && i < |s.callers| && j < |s.callers|
    requires var t := Exec(s, acts);
      t.callers[i].pc.Loading? && t.callers[j].pc.Loading? && t.callers[i].key == t.callers[j].key
    ensures i == j
  {
    ReachableHasInv(s, acts);
    assert CallerInv(Exec(s, acts), i) && CallerInv(Exec(s, acts), j);
  }

  /** A leader that deletes its key's entry deletes the entry of its own call, and no other changes. */
  lemma UnlinkDeletesOwnEntry<C>(s: State<C>, acts: seq<Action<C>>, i: nat)
    requires Init(s) && IsRun(s, acts) && Enabled(Exec(s, acts), Unlink(i))
    ensures var t := Exec(s, acts);
      && t.callers[i].key in t.table && t.table[t.callers[i].key] == t.callers[i].pc.call
      && Next(t, Unlink(i)).table == t.table - {t.callers[i].key}
  {
    ReachableHasInv(s, acts);
    assert CallerInv(Exec(s, acts), i);
  }

  lemma {:induction false} ClosedStaysInRun<C>(s: State<C>, acts: seq<Action<C>>, c: C)
    requires Inv(s) && IsRun(s, acts) && c in s.calls && s.calls[c].closed
    ensures c in Exec(s, acts).calls && Exec(s, acts).calls[c] == s.calls[c]
    decreases |acts|
  {
    if acts != [] {
      CallsOnlyAdvance(s, acts[0], c);
      StepKeepsInv(s, acts[0]);
      ClosedStaysInRun(Next(s, acts[0]), acts[1..], c);
    }
  }

  /** Whatever happens after a call is closed, even a new call for its key, leaves it as it was. */
  lemma ClosedCallNeverChanges<C>(s: State<C>, acts: seq<Action<C>>, more: seq<Action<C>>, c: C)
    requires Init(s) && IsRun(s, acts) && IsRun(Exec(s, acts), more)
    requires c in Exec(s, acts).calls && Exec(s, acts).calls[c].closed
    ensures c in Exec(Exec(s, acts), more).calls
    ensures Exec(Exec(s, acts), more).calls[c] == Exec(s, acts).calls[c]
  {
    ReachableHasInv(s, acts);
    ClosedStaysInRun(Exec(s, acts), more, c);
  }

  /**
    Every way a caller can come back. A leader comes back with its own load's end. A waiter comes
    back with exactly the result of one closed call for its key that it waited on and that was not
    abandoned, or because its own context ended. So a nil error comes only with a value the loader
    returned with a nil error, never with a zero value left by a panic or Goexit.
   */
  lemma ResultsAreShared<C>(s: State<C>, acts: seq<Action<C>>, i: nat)
    requires Init(s) && IsRun(s, acts) && i < |s.callers|
    requires Exec(s, acts).callers[i].pc.Finished?
    ensures var t := Exec(s, acts);
      match t.callers[i].pc.how
      case LeftEarly => i in t.ended
      case Led(c) => c in t.calls && t.calls[c].leader == i && t.calls[c].outcome.Some?
      case Joined(c, val, err) =>
        && c in t.calls && t.calls[c].key == t.callers[i].key && t.calls[c].leader != i
        && t.calls[c].closed && !t.calls[c].result.abandoned
        && c in t.callers[i].waited
        && t.calls[c].outcome.Some? && Agrees(val, err, t.calls[c].outcome.value)
        && (err == None <==> t.calls[c].outcome.value.Returns? && t.calls[c].outcome.value.err == None)
        && (err == None ==> val == Some(t.calls[c].outcome.value.val))
  {
    ReachableHasInv(s, acts);
    var t := Exec(s, acts);
    assert CallerInv(t, i);
    match t.callers[i].pc.how
    case LeftEarly =>
    case Led(c) => assert CallInv(t, c);
    case Joined(c, _, _) => assert CallInv(t, c);
  }

  /**
    The other way round: whoever waited on a call that was not given up, and did not leave early,
    comes back with exactly that call's value and error. Nobody moves on from a good call.
   */
  lemma JoinedCallsAreReturned<C>(s: State<C>, acts: seq<Action<C>>, i: nat, c: C)
    requires Init(s) && IsRun(s, acts) && i < |s.callers|
    requires Exec(s, acts).callers[i].pc.Finished? && c in Exec(s, acts).callers[i].waited
    ensures var t := Exec(s, acts);
      var how := t.callers[i].pc.how;
      && c in t.calls
      && (GivenUp(t, c) || how == LeftEarly ||
        (how.Joined? && how.call == c && t.calls[c].closed && t.calls[c].result == Published(how.val, how.err, false)))
  {
    ReachableHasInv(s, acts);
    var t := Exec(s, acts);
    assert CallerInv(t, i);
    var how := t.callers[i].pc.how;
    if !GivenUp(t, c) {
      assert c in NotGivenUp(t, t.callers[i].waited);
      if how.Joined? { assert how.call in NotGivenUp(t, t.callers[i].waited); }
    }
  }

  /** A load that returned an error. */
  predicate ReturnedError(call: Call) {
    call.outcome.Some? && call.outcome.value.Returns? && call.outcome.value.err.Some?
  }

  /**
    When a load ends, the call records whether its leader's context has ended, and is abandoned exactly
    if it has and the load returned an error: not for a panic or Goexit, and not for a success.
   */
  lemma LoadEndDecidesAbandonment<C>(s: State<C>, acts: seq<Action<C>>, i: nat, outcome: Outcome)
    requires Init(s) && IsRun(s, acts) && Enabled(Exec(s, acts), LoadEnds(i, outcome))
    ensures var t := Exec(s, acts);
      var c := t.callers[i].pc.call;
      var call := Next(t, LoadEnds(i, outcome)).calls[c];
      && call.outcome == Some(outcome) && call.leader == i
      && (call.leaderEnded <==> i in t.ended)
      && (call.result.abandoned <==> i in t.ended && outcome.Returns? && outcome.err.Some?)
      && Agrees(call.result.val, call.result.err, outcome)
  {
    ReachableHasInv(s, acts);
    assert CallerInv(Exec(s, acts), i);
  }

  /**
    In every run a call is abandoned if and only if its load returned an error after its leader's
    context had ended, and no caller ever comes back with the result of such a call.
   */
  lemma AbandonedExactly<C>(s: State<C>, acts: seq<Action<C>>, c: C)
    requires Init(s) && IsRun(s, acts) && c in Exec(s, acts).calls
    ensures var t := Exec(s, acts);
      && (t.calls[c].result.abandoned <==> ReturnedError(t.calls[c]) && t.calls[c].leaderEnded)
      && (ReturnedError(t.calls[c]) && t.calls[c].leaderEnded ==>
        forall j :: 0 <= j < |t.callers| && t.callers[j].pc.Finished? && t.callers[j].pc.how.Joined? ==>
          t.callers[j].pc.how.call != c)
  {
    ReachableHasInv(s, acts);
    var t := Exec(s, acts);
    assert CallInv(t, c);
    forall j | 0 <= j < |t.callers| && t.callers[j].pc.Finished? && t.callers[j].pc.how.Joined?
      ensures t.callers[j].pc.how.call == c ==> !t.calls[c].result.abandoned
    {
      assert CallerInv(t, j);
    }
  }

  /** What a load ended with is recorded once: no later step changes it. */
  lemma {:induction false} EndedLoadStays<C>(s: State<C>, acts: seq<Action<C>>, c: C)
    requires Inv(s) && IsRun(s, acts) && c in s.calls && s.calls[c].outcome.Some?
    ensures var t := Exec(s, acts);
      && c in t.calls && t.calls[c].outcome == s.calls[c].outcome
      && t.calls[c].leaderEnded == s.calls[c].leaderEnded && t.calls[c].result == s.calls[c].result
    decreases |acts|
  {
    if acts != [] {
      OutcomeStays(s, acts[0], c);
      StepKeepsInv(s, acts[0]);
      EndedLoadStays(Next(s, acts[0]), acts[1..], c);
    }
  }

  lemma OutcomeStays<C>(s: State<C>, a: Action<C>, c: C)
    requires Inv(s) && Enabled(s, a) && c in s.calls && s.calls[c].outcome.Some?
    ensures c in Next(s, a).calls && Next(s, a).calls[c] == s.calls[c].(closed := Next(s, a).calls[c].closed)
  {
    assert CallInv(s, c) && CallerInv(s, a.i);
  }

  /** A woken waiter goes round again exactly if its call was abandoned and its own context is live. */
  lemma RetriesExactly<C>(s: State<C>, acts: seq<Action<C>>, i: nat)
    requires Init(s) && IsRun(s, acts) && Enabled(Exec(s, acts), Resolve(i))
    ensures var t := Exec(s, acts);
      var call := t.calls[t.callers[i].pc.call];
      var givenUp := ReturnedError(call) && call.leaderEnded;
      var pc := Next(t, Resolve(i)).callers[i].pc;
      && (pc == Start <==> givenUp && i !in t.ended)
      && (pc == Finished(LeftEarly) <==> givenUp && i in t.ended)
      && (!givenUp ==> pc == Finished(Joined(t.callers[i].pc.call, call.result.val, call.result.err)))
  {
    ReachableHasInv(s, acts);
    assert CallerInv(Exec(s, acts), i);
    AbandonedExactly(s, acts, Exec(s, acts).callers[i].pc.call);
  }

  /** What a waiter is given for each way a load can end. */
  ghost predicate Agrees(val: Option<Val>, err: Option<Err>, outcome: Outcome) {
    match outcome
    case Returns(v, None) => val == Some(v) && err == None
    case Returns(v, Some(e)) => val == Some(v) && err == Some(FromLoader(e))
    case Panics => val == None && err == Some(PanicErr)
    case Exits => val == None && err == Some(GoexitErr)
  }

  // ---------------------------------------------------------------- termination

  /** The loads started so far: one for every call ever made. */
  ghost function Loads<C>(t: State<C>): nat {
    |t.calls|
  }

  /** Each caller leads at most one call. */
  lemma LeadsOnce<C>(t: State<C>, c: C, c': C)
    requires Inv(t) && c in t.calls && c' in t.calls && t.calls[c].leader == t.calls[c'].leader
    ensures c == c'
  {
    assert CallInv(t, c) && CallInv(t, c');
  }

  lemma CallsBounded<C>(t: State<C>)
    requires Inv(t)
    ensures |t.calls| <= |t.callers|
  {
    var leaders := map c | c in t.calls :: t.calls[c].leader;
    forall c | c in leaders ensures leaders[c] in Below(|t.callers|) { assert CallInv(t, c); }
    forall c, c' | c in leaders && c' in leaders && leaders[c] == leaders[c'] ensures c == c' {
      LeadsOnce(t, c, c');
    }
    InjectiveSize(leaders, Below(|t.callers|));
    assert leaders.Keys == t.calls.Keys;
  }

  lemma WaitedBounded<C>(t: State<C>, i: nat)
    requires Inv(t) && i < |t.callers|
    ensures |t.callers[i].waited| <= |t.callers|
  {
    assert CallerInv(t, i);
    SubsetSize(t.callers[i].waited, t.calls.Keys);
    CallsBounded(t);
  }

  /** n invocations start at most n loads, and none leads twice. */
  lemma LoadsBounded<C>(s: State<C>, acts: seq<Action<C>>)
    requires Init(s) && IsRun(s, acts)
    ensures Loads(Exec(s, acts)) <= |s.callers|
    ensures var calls := Exec(s, acts).calls;
      forall c, c' :: (c in calls && c' in calls && calls[c].leader == calls[c'].leader) ==> c == c'
  {
    ReachableHasInv(s, acts);
    CallsBounded(Exec(s, acts));
    var calls := Exec(s, acts).calls;
    forall c, c' | c in calls && c' in calls && calls[c].leader == calls[c'].leader ensures c == c' {
      LeadsOnce(Exec(s, acts), c, c');
    }
  }

  /** A caller back at the head of the loop finds a call it has never waited on. */
  lemma RejoinsNeverRepeat<C>(s: State<C>, acts: seq<Action<C>>, i: nat, c: C)
    requires Init(s) && IsRun(s, acts) && Enabled(Exec(s, acts), Enter(i, c))
    ensures c !in Exec(s, acts).callers[i].waited
  {
    ReachableHasInv(s, acts);
    NewToCaller(Exec(s, acts), i, c);
  }

  lemma NewToCaller<C>(t: State<C>, i: nat, c: C)
    requires Inv(t) && Enabled(t, Enter(i, c))
    ensures c !in t.callers[i].waited
  {
    assert CallerInv(t, i);
    if t.callers[i].key in t.table { assert EntryInv(t, t.callers[i].key); }
    assert c !in NotGivenUp(t, t.callers[i].waited) && !GivenUp(t, c);
  }

  /** Its rounds of the loop, the one it led included, are at most one more than the abandoned calls, finished or not. */
  lemma LoopsPerAbandonedCall<C>(s: State<C>, acts: seq<Action<C>>, i: nat)
    requires Init(s) && IsRun(s, acts) && i < |s.callers|
    ensures var t := Exec(s, acts);
      var p := t.callers[i];
      |p.waited| + Count(p.pc.LedOne()) <= |set c | c in t.calls && t.calls[c].result.abandoned| + 1
  {
    ReachableHasInv(s, acts);
    var t := Exec(s, acts);
    var p := t.callers[i];
    assert CallerInv(t, i);
    var abandoned := set c | c in t.calls && t.calls[c].result.abandoned;
    if rest :| rest in p.waited && !GivenUp(t, rest) {
      assert rest in NotGivenUp(t, p.waited) && !p.pc.LedOne();
      forall c | c in p.waited - {rest} ensures c in abandoned {
        assert c in NotGivenUp(t, p.waited) || GivenUp(t, c);
      }
      SubsetSize(p.waited - {rest}, abandoned);
      SizeWithout(p.waited, rest);
    } else {
      forall c | c in p.waited ensures c in abandoned { assert GivenUp(t, c); }
      SubsetSize(p.waited, abandoned);
    }
  }

  /** How many more steps a caller can take, with n callers in all. */
  ghost function Rank<C>(p: Caller<C>, n: nat): int {
    var left := 4 * (n - |p.waited|);
    match p.pc
    case Finished(_) => 0
    case Unlinked(_) => 1
    case Publishing(_) => 2
    case Loading(_) => 3
    case Start => left + 4
    case Woken(_) => left + 5
    case Waiting(_) => left + 6
  }

  ghost function Ranks<C>(s: State<C>): seq<int> {
    seq(|s.callers|, i requires 0 <= i < |s.callers| => Rank(s.callers[i], |s.callers|))
  }

  ghost function StepsLeft<C>(s: State<C>): int {
    Sum(Ranks(s)) + |s.callers| - |s.ended|
  }

  lemma StepLowersRank<C>(s: State<C>, a: Action<C>)
    requires Inv(s) && Enabled(s, a) && !a.EndCtx?
    ensures Rank(Next(s, a).callers[a.i], |s.callers|) < Rank(s.callers[a.i], |s.callers|)
  {
    WaitedBounded(s, a.i);
    match a
    case Enter(i, c) => NewToCaller(s, i, c);
    case _ =>
  }

  lemma StepLowersStepsLeft<C>(s: State<C>, a: Action<C>)
    requires Inv(s) && Enabled(s, a)
    ensures StepsLeft(Next(s, a)) < StepsLeft(s)
  {
    var s' := Next(s, a);
    if a.EndCtx? {
      assert Ranks(s') == Ranks(s);
    } else {
      StepLowersRank(s, a);
      assert Ranks(s') == Ranks(s)[a.i := Rank(s'.callers[a.i], |s.callers|)];
      SumUpdate(Ranks(s), a.i, Rank(s'.callers[a.i], |s.callers|));
    }
  }

  lemma StepsLeftNotNegative<C>(s: State<C>)
    requires Inv(s)
    ensures StepsLeft(s) >= 0
  {
    forall i | 0 <= i < |Ranks(s)| ensures Ranks(s)[i] >= 0 { WaitedBounded(s, i); }
    SumNotNegative(Ranks(s));
    SubsetSize(s.ended, Below(|s.callers|));
  }

  lemma {:induction false} RunShorterThanStepsLeft<C>(s: State<C>, acts: seq<Action<C>>)
    requires Inv(s) && IsRun(s, acts)
    ensures |acts| <= StepsLeft(s)
    decreases |acts|
  {
    if acts == [] {
      StepsLeftNotNegative(s);
    } else {
      StepKeepsInv(s, acts[0]);
      StepLowersStepsLeft(s, acts[0]);
      RunShorterThanStepsLeft(Next(s, acts[0]), acts[1..]);
    }
  }

  /** The unbounded loop of Do ends: with n invocations, no run of the protocol has more than n(4n + 5) steps. */
  lemma RunsAreBounded<C>(s: State<C>, acts: seq<Action<C>>)
    requires Init(s) && IsRun(s, acts)
    ensures |acts| <= |s.callers| * (4 * |s.callers| + 5)
  {
    var n := |s.callers|;
    InitHasInv(s);
    RunShorterThanStepsLeft(s, acts);
    SumBound(Ranks(s), 4 * n + 4);
    assert n * (4 * n + 4) + n == n * (4 * n + 5);
  }

  /** The step a caller that has not finished takes next; spare is a call reference not yet in use. */
  ghost function OwnStep<C>(t: State<C>, i: nat, spare: C): Action<C>
    requires i < |t.callers| && !t.callers[i].pc.Finished?
  {
    var p := t.callers[i];
    match p.pc
    case Start => Enter(i, if p.key in t.table then t.table[p.key] else spare)
    case Waiting(_) => Wake(i)
    case Woken(_) => Resolve(i)
    case Loading(_) => LoadEnds(i, Exits)
    case Publishing(_) => Unlink(i)
    case Unlinked(_) => Close(i)
  }

  /**
    Nothing is wedged, even by a load that panicked or called Goexit: a caller that has not finished
    can take its next step, or waits on an open call whose leader has not finished and can. With
    RunsAreBounded, every run in which loads end can only stop with all callers back.
   */
  lemma NoWedge<C>(s: State<C>, acts: seq<Action<C>>, i: nat, spare: C)
    requires Init(s) && IsRun(s, acts) && i < |s.callers|
    requires !Exec(s, acts).callers[i].pc.Finished? && spare !in Exec(s, acts).calls
    ensures var t := Exec(s, acts);
      || Enabled(t, OwnStep(t, i, spare))
      || (t.callers[i].pc.Waiting? && t.callers[i].pc.call in t.calls
          && var j := t.calls[t.callers[i].pc.call].leader;
             j < |t.callers| && t.callers[j].pc.Leads() && Enabled(t, OwnStep(t, j, spare)))
  {
    ReachableHasInv(s, acts);
    var t := Exec(s, acts);
    assert CallerInv(t, i);
    if t.callers[i].pc.Waiting? {
      assert CallInv(t, t.callers[i].pc.call);
      assert CallerInv(t, t.calls[t.callers[i].pc.call].leader);
    }
  }
}
