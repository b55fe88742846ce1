/**
  Throttle.Do as a transition system: callers queue for a slot, take a turn of the cadence, wait until
  it is due and run. Contexts end at any time; time passes at any time.
 */
module ThrottleModel {
  import opened Basics
  import opened Cadence

  /** One call of Do. */
  type Caller = nat

  /** How a call ends: refused without a turn, cancelled while it waited for its turn, or after fn. */
  datatype End = Refused | Abandoned(turn: nat) | Ran(turn: nat)
  {
    predicate TookTurn() { !Refused? }
  }

  datatype Pc =
    | Queued                // in the select on the semaphore
    | Holding               // has a slot, context not yet looked at again
    | Cleared               // context was live
    | Drawn(delay: int)     // Next has given it a delay
    | Paced(turn: nat)      // sleeping until its turn is due
    | Running(turn: nat)    // in fn
    | Leaving(end: End)     // about to give the slot back
    | Gone(end: End)
  {
    predicate Slot() { !Queued? && !Gone? }
    predicate HasTurn() { Paced? || Running? || ((Leaving? || Gone?) && end.TookTurn()) }
    function Turn(): nat
      requires HasTurn()
    {
      if Paced? || Running? then turn else end.turn
    }
  }

  /** takers[i] is the caller that took turn i. */
  datatype State = State(
    pcs: map<Caller, Pc>, done: set<Caller>, used: nat, clock: int, nextAllowed: int,
    turns: seq<Turn>, takers: seq<Caller>)

  datatype Action =
    | Tick(elapsed: nat)
    | EndCtx(c: Caller)
    | Arrive(c: Caller)
    | Acquire(c: Caller)
    | Quit(c: Caller)                 // queued when its context ended
    | Check(c: Caller)                // the look at the context after the select
    | Draw(c: Caller, delay: int)
    | NextSlot(c: Caller)
    | Wake(c: Caller)
    | GiveUp(c: Caller)               // cancelled during the paced wait
    | FnEnds(c: Caller)
    | Release(c: Caller)
  {
    /** A step of Do by a caller already in it. */
    predicate Progress() { !Tick? && !EndCtx? && !Arrive? }
  }

  /** A throttle as New makes it, at some time. */
  function Start(clock: int): State {
    State(map[], {}, 0, clock, 0, [], [])
  }

  predicate Enabled(cap: Option<nat>, s: State, a: Action) {
    match a
    case Tick(_) => true
    case EndCtx(c) => true
    case Arrive(c) => c !in s.pcs
    case Acquire(c) => c in s.pcs && s.pcs[c].Queued? && (cap.Some? ==> s.used < cap.value)
    case Quit(c) => c in s.pcs && s.pcs[c].Queued? && cap.Some? && c in s.done
    case Check(c) => c in s.pcs && s.pcs[c].Holding?
    case Draw(c, _) => c in s.pcs && s.pcs[c].Cleared?
    case NextSlot(c) => c in s.pcs && s.pcs[c].Drawn?
    case Wake(c) =>
      // A timer may win against a context that has ended; a wait of zero looks at the context alone.
      && c in s.pcs && s.pcs[c].Paced? && s.pcs[c].turn < |s.turns| && DueAt(s.turns, s.pcs[c].turn) <= s.clock
      && (c in s.done ==> DueAt(s.turns, s.pcs[c].turn) > s.turns[s.pcs[c].turn].now)
    case GiveUp(c) => c in s.pcs && s.pcs[c].Paced? && c in s.done
    case FnEnds(c) => c in s.pcs && s.pcs[c].Running?
    case Release(c) => c in s.pcs && s.pcs[c].Leaving? && (cap.Some? ==> s.used > 0)
  }

  /** Where the caller that moves goes. */
  function Goes(cap: Option<nat>, s: State, a: Action): Pc
    requires Enabled(cap, s, a) && !a.Tick? && !a.EndCtx?
  {
    match a
    case Arrive(_) => Queued
    case Acquire(_) => Holding
    case Quit(_) => Gone(Refused)
    case Check(c) => if c in s.done then Leaving(Refused) else Cleared
    case Draw(_, delay) => Drawn(delay)
    case NextSlot(_) => Paced(|s.turns|)
    case Wake(c) => Running(s.pcs[c].turn)
    case GiveUp(c) => Leaving(Abandoned(s.pcs[c].turn))
    case FnEnds(c) => Leaving(Ran(s.pcs[c].turn))
    case Release(c) => Gone(s.pcs[c].end)
  }

  function Next(cap: Option<nat>, s: State, a: Action): State
    requires Enabled(cap, s, a)
  {
    match a
    case Tick(elapsed) => s.(clock := s.clock + elapsed)
    case EndCtx(c) => s.(done := s.done + {c})
    case Acquire(c) =>
      s.(pcs := s.pcs[c := Goes(cap, s, a)], used := if cap.Some? then s.used + 1 else s.used)
    case Release(c) =>
      s.(pcs := s.pcs[c := Goes(cap, s, a)], used := if cap.Some? then s.used - 1 else s.used)
    case NextSlot(c) =>
      var allowed := if s.nextAllowed < s.clock then s.clock else s.nextAllowed;
      s.(pcs := s.pcs[c := Goes(cap, s, a)], nextAllowed := allowed + s.pcs[c].delay,
         turns := s.turns + [Turn(s.clock, s.pcs[c].delay)], takers := s.takers + [c])
    case _ => s.(pcs := s.pcs[a.c := Goes(cap, s, a)])
  }

  ghost predicate IsRun(cap: Option<nat>, s: State, acts: seq<Action>)
    decreases |acts|
  {
    acts == [] || (Enabled(cap, s, acts[0]) && IsRun(cap, Next(cap, s, acts[0]), acts[1..]))
  }

  function Exec(cap: Option<nat>, s: State, acts: seq<Action>): State
    requires IsRun(cap, s, acts)
    decreases |acts|
  {
    if acts == [] then s else Exec(cap, Next(cap, s, acts[0]), acts[1..])
  }

  // ---------------------------------------------------------------- the invariant

  ghost function Holders(pcs: map<Caller, Pc>): set<Caller> {
    KeysWhere(pcs, (pc: Pc) => pc.Slot())
  }

  ghost function Runners(pcs: map<Caller, Pc>): set<Caller> {
    KeysWhere(pcs, (pc: Pc) => pc.Running?)
  }

  ghost predicate SlotsInv(cap: Option<nat>, s: State) {
    if cap.Some? then s.used == |Holders(s.pcs)| <= cap.value else s.used == 0
  }

  /** A caller's turn is its own, and it has not run before the turn was due. */
  ghost predicate CallerInv(s: State, c: Caller)
    requires c in s.pcs
  {
    var pc := s.pcs[c];
    && (pc.HasTurn() ==> pc.Turn() < |s.turns| && |s.takers| == |s.turns| && s.takers[pc.Turn()] == c)
    && (pc.Running? || ((pc.Leaving? || pc.Gone?) && pc.end.Ran?) ==> DueAt(s.turns, pc.Turn()) <= s.clock)
    && ((pc.Leaving? || pc.Gone?) && !pc.end.Ran? ==> c in s.done)
  }

  ghost predicate TurnInv(s: State, i: nat)
    requires i < |s.turns| && |s.takers| == |s.turns|
  {
    && s.takers[i] in s.pcs && s.pcs[s.takers[i]].HasTurn() && s.pcs[s.takers[i]].Turn() == i
    && 0 < s.turns[i].now <= s.clock
  }

  ghost predicate Inv(cap: Option<nat>, s: State) {
    && SlotsInv(cap, s)
    && s.clock > 0 && |s.takers| == |s.turns| && s.nextAllowed == NextAllowed(s.turns)
    && (forall c :: c in s.pcs ==> CallerInv(s, c))
    && (forall i :: 0 <= i < |s.turns| ==> TurnInv(s, i))
  }

  lemma StepKeepsSlots(cap: Option<nat>, s: State, a: Action)
    requires SlotsInv(cap, s) && Enabled(cap, s, a)
    ensures SlotsInv(cap, Next(cap, s, a))
  {
    if !a.Tick? && !a.EndCtx? {
      SizeAfterUpdate(s.pcs, a.c, Goes(cap, s, a), (pc: Pc) => pc.Slot());
    }
  }

  /** Turns are only ever added, and keep their due times. */
  lemma TurnsStay(cap: Option<nat>, s: State, a: Action)
    requires Enabled(cap, s, a)
    ensures var s' := Next(cap, s, a);
      && s.turns <= s'.turns && s.takers <= s'.takers
      && forall i :: 0 <= i < |s.turns| ==> DueAt(s'.turns, i) == DueAt(s.turns, i)
  {
    if a.NextSlot? { DueOfAppended(s.turns, Turn(s.clock, s.pcs[a.c].delay)); }
  }

  lemma MoverKeeps(cap: Option<nat>, s: State, a: Action)
    requires Inv(cap, s) && Enabled(cap, s, a) && !a.Tick? && a.c in Next(cap, s, a).pcs
    ensures CallerInv(Next(cap, s, a), a.c)
  {
    TurnsStay(cap, s, a);
    if a.c in s.pcs { assert CallerInv(s, a.c); }
  }

  lemma StepKeepsCaller(cap: Option<nat>, s: State, a: Action, c: Caller)
    requires Inv(cap, s) && Enabled(cap, s, a) && c in Next(cap, s, a).pcs
    ensures CallerInv(Next(cap, s, a), c)
  {
    TurnsStay(cap, s, a);
    if !a.Tick? && a.c == c { MoverKeeps(cap, s, a); } else { assert CallerInv(s, c); }
  }

  lemma StepKeepsTurn(cap: Option<nat>, s: State, a: Action, i: nat)
    requires Inv(cap, s) && Enabled(cap, s, a) && i < |Next(cap, s, a).turns|
    ensures |Next(cap, s, a).takers| == |Next(cap, s, a).turns| && TurnInv(Next(cap, s, a), i)
  {
    if i < |s.turns| {
      assert TurnInv(s, i);
      TurnsStay(cap, s, a);
    }
  }

  lemma StepKeepsInv(cap: Option<nat>, s: State, a: Action)
    requires Inv(cap, s) && Enabled(cap, s, a)
    ensures Inv(cap, Next(cap, s, a))
  {
    var s' := Next(cap, s, a);
    StepKeepsSlots(cap, s, a);
    forall c | c in s'.pcs ensures CallerInv(s', c) { StepKeepsCaller(cap, s, a, c); }
    forall i | 0 <= i < |s'.turns| ensures |s'.takers| == |s'.turns| && TurnInv(s', i) { StepKeepsTurn(cap, s, a, i); }
    if a.NextSlot? { DueOfAppended(s.turns, Turn(s.clock, s.pcs[a.c].delay)); }
  }

  lemma {:induction false} RunKeepsInv(cap: Option<nat>, s: State, acts: seq<Action>)
    requires Inv(cap, s) && IsRun(cap, s, acts)
    ensures Inv(cap, Exec(cap, s, acts))
    decreases |acts|
  {
    if acts != [] {
      StepKeepsInv(cap, s, acts[0]);
      RunKeepsInv(cap, Next(cap, s, acts[0]), acts[1..]);
    }
  }

  /** What any run of a throttle with a valid cap reaches. */
  ghost predicate Reached(cap: Option<nat>, clock: int, acts: seq<Action>, s: State) {
    && clock > 0 && (cap.Some? ==> cap.value > 0)
    && IsRun(cap, Start(clock), acts) && s == Exec(cap, Start(clock), acts)
  }

  lemma ReachedHasInv(cap: Option<nat>, clock: int, acts: seq<Action>, s: State)
    requires Reached(cap, clock, acts, s)
    ensures Inv(cap, s)
  {
    assert Holders(map[]) == {};
    RunKeepsInv(cap, Start(clock), acts);
  }

  // ---------------------------------------------------------------- theorems

  /** On every path the slots in use are the callers between acquire and release; fn runs at most n at a time. */
  lemma SlotsAreHolders(n: nat, clock: int, acts: seq<Action>, s: State)
    requires Reached(Some(n), clock, acts, s)
    ensures s.used == |Holders(s.pcs)| <= n
    ensures |Runners(s.pcs)| <= n
  {
    ReachedHasInv(Some(n), clock, acts, s);
    SubsetSize(Runners(s.pcs), Holders(s.pcs));
  }

  /** fn never runs before its caller's own turn is due, whatever the calls before it did. */
  lemma NeverBeforeDue(cap: Option<nat>, clock: int, acts: seq<Action>, s: State, c: Caller)
    requires Reached(cap, clock, acts, s) && c in s.pcs
    requires s.pcs[c].Running? || (s.pcs[c].Gone? && s.pcs[c].end.Ran?)
    ensures s.pcs[c].Turn() < |s.turns| && DueAt(s.turns, s.pcs[c].Turn()) <= s.clock
  {
    ReachedHasInv(cap, clock, acts, s);
    assert CallerInv(s, c);
  }

  /**
    The cadence is made of turns alone: the field is the recurrence over them, each belongs to one
    caller, a caller has at most one, and a caller refused before its turn has none.
   */
  lemma OneTurnPerCaller(cap: Option<nat>, clock: int, acts: seq<Action>, s: State)
    requires Reached(cap, clock, acts, s)
    ensures s.nextAllowed == NextAllowed(s.turns) && |s.takers| == |s.turns| && NoDuplicates(s.takers)
    ensures forall c :: c in s.takers <==> c in s.pcs && s.pcs[c].HasTurn()
  {
    ReachedHasInv(cap, clock, acts, s);
    forall i, j | 0 <= i < j < |s.takers| ensures s.takers[i] != s.takers[j] {
      assert TurnInv(s, i) && TurnInv(s, j);
    }
    forall c ensures c in s.takers <==> c in s.pcs && s.pcs[c].HasTurn() {
      if c in s.takers {
        var i :| 0 <= i < |s.takers| && s.takers[i] == c;
        assert TurnInv(s, i);
      }
      if c in s.pcs { assert CallerInv(s, c); }
    }
  }

  /** The slot is never lost: a caller still in Do can move, or something it waits for can, or will when due. */
  lemma NoWedge(cap: Option<nat>, clock: int, acts: seq<Action>, s: State, c: Caller) returns (a: Action)
    requires Reached(cap, clock, acts, s) && c in s.pcs && !s.pcs[c].Gone?
    ensures a.Progress() && (s.pcs[c].Slot() ==> a.c == c)
    ensures a.c == c || (a.c in s.pcs && s.pcs[a.c].Slot())
    ensures Enabled(cap, s, a) ||
      (a.Wake? && a.c in s.pcs && s.pcs[a.c].Paced? && s.pcs[a.c].turn < |s.turns| && DueAt(s.turns, s.pcs[a.c].turn) > s.clock)
  {
    ReachedHasInv(cap, clock, acts, s);
    var h := c;
    if s.pcs[c].Queued? {
      if cap.None? || s.used < cap.value { return Acquire(c); }
      assert Holders(s.pcs) != {};
      h :| h in Holders(s.pcs);
    }
    assert CallerInv(s, h);
    match s.pcs[h]
    case Holding => a := Check(h);
    case Cleared => a := Draw(h, 0);
    case Drawn(_) => a := NextSlot(h);
    case Paced(turn) =>
      a := if h in s.done && DueAt(s.turns, turn) <= s.clock then GiveUp(h) else Wake(h);
    case Running(_) => a := FnEnds(h);
    case Leaving(_) =>
      assert cap.Some? ==> h in Holders(s.pcs);
      a := Release(h);
  }

  /** A caller whose context has ended before it was looked at again is on its way out, or will be. */
  ghost predicate BeforeCheck(s: State, c: Caller) {
    c in s.done && (c in s.pcs ==>
      s.pcs[c].Queued? || s.pcs[c].Holding? || s.pcs[c] == Leaving(Refused) || s.pcs[c] == Gone(Refused))
  }

  lemma {:induction false} StaysBeforeCheck(cap: Option<nat>, s: State, acts: seq<Action>, c: Caller)
    requires IsRun(cap, s, acts) && BeforeCheck(s, c)
    ensures BeforeCheck(Exec(cap, s, acts), c)
    decreases |acts|
  {
    if acts != [] {
      StaysBeforeCheck(cap, Next(cap, s, acts[0]), acts[1..], c);
    }
  }

  /**
    A caller cancelled before Do, while queued, or before the look at its context, takes no turn and
    never runs, whatever happens afterwards; so it leaves the cadence untouched.
   */
  lemma CancelledCallersTakeNoTurn(cap: Option<nat>, clock: int, acts: seq<Action>, s: State, c: Caller, more: seq<Action>)
    requires Reached(cap, clock, acts, s) && IsRun(cap, s, more)
    requires c in s.done && (c in s.pcs ==> s.pcs[c].Queued? || s.pcs[c].Holding?)
    ensures var t := Exec(cap, s, more);
      c !in t.takers && (c in t.pcs ==> !t.pcs[c].Running? && !t.pcs[c].HasTurn())
  {
    StaysBeforeCheck(cap, s, more, c);
    RunsCompose(cap, Start(clock), acts, more);
    OneTurnPerCaller(cap, clock, acts + more, Exec(cap, s, more));
  }

  /** Paced with nothing to wait for, and cancelled; or past that. */
  ghost predicate CutShort(s: State, c: Caller, turn: nat) {
    && c in s.done && c in s.pcs && turn < |s.turns| && DueAt(s.turns, turn) <= s.turns[turn].now
    && (s.pcs[c] == Paced(turn) || s.pcs[c] == Leaving(Abandoned(turn)) || s.pcs[c] == Gone(Abandoned(turn)))
  }

  lemma {:induction false} StaysCutShort(cap: Option<nat>, s: State, acts: seq<Action>, c: Caller, turn: nat)
    requires IsRun(cap, s, acts) && CutShort(s, c, turn)
    ensures CutShort(Exec(cap, s, acts), c, turn)
    decreases |acts|
  {
    if acts != [] {
      TurnsStay(cap, s, acts[0]);
      StaysCutShort(cap, Next(cap, s, acts[0]), acts[1..], c, turn);
    }
  }

  /** A caller with nothing to wait for still looks at its context: if that has ended, fn never runs. */
  lemma ZeroWaitLooksAtTheContext(cap: Option<nat>, s: State, c: Caller, more: seq<Action>)
    requires IsRun(cap, s, more) && c in s.done && c in s.pcs && s.pcs[c].Paced? && s.pcs[c].turn < |s.turns|
    requires DueAt(s.turns, s.pcs[c].turn) == s.turns[s.pcs[c].turn].now
    ensures c in Exec(cap, s, more).pcs && !Exec(cap, s, more).pcs[c].Running?
  {
    StaysCutShort(cap, s, more, c, s.pcs[c].turn);
  }

  /** Do returns without running fn only to a caller whose context has ended. */
  lemma OnlyCancelledCallersDoNotRun(cap: Option<nat>, clock: int, acts: seq<Action>, s: State, c: Caller)
    requires Reached(cap, clock, acts, s) && c in s.pcs && s.pcs[c].Gone? && !s.pcs[c].end.Ran?
    ensures c in s.done
  {
    ReachedHasInv(cap, clock, acts, s);
    assert CallerInv(s, c);
  }

  /** A queued caller can take a slot exactly while fewer than n callers hold one. */
  lemma FreeSlotsAreTaken(n: nat, clock: int, acts: seq<Action>, s: State, c: Caller)
    requires Reached(Some(n), clock, acts, s) && c in s.pcs && s.pcs[c].Queued?
    ensures Enabled(Some(n), s, Acquire(c)) <==> |Holders(s.pcs)| < n
  {
    ReachedHasInv(Some(n), clock, acts, s);
  }

  // ---------------------------------------------------------------- how far ahead the cadence is reserved

  ghost predicate Waits(s: State, c: Caller) {
    c in s.pcs && s.pcs[c].Paced? && s.pcs[c].turn < |s.turns| && DueAt(s.turns, s.pcs[c].turn) > s.clock
  }

  /** Cancelled during the paced wait, and its turn is still ahead. */
  ghost predicate Wasted(s: State, c: Caller) {
    && c in s.pcs && (s.pcs[c].Leaving? || s.pcs[c].Gone?) && s.pcs[c].end.Abandoned?
    && s.pcs[c].end.turn < |s.turns| && DueAt(s.turns, s.pcs[c].end.turn) > s.clock
  }

  ghost function Waiting(s: State): set<Caller> { set c | c in s.pcs && Waits(s, c) }

  ghost function WastedTurns(s: State): set<Caller> { set c | c in s.pcs && Wasted(s, c) }

  lemma CallersAheadHaveTurnsAhead(cap: Option<nat>, s: State, c: Caller)
    requires Inv(cap, s) && (Waits(s, c) || Wasted(s, c))
    ensures s.pcs[c].HasTurn() && s.pcs[c].Turn() in Ahead(s.turns, s.clock) && s.takers[s.pcs[c].Turn()] == c
  {
    assert CallerInv(s, c);
  }

  lemma TurnsAheadHaveCallers(cap: Option<nat>, s: State, i: nat)
    requires Inv(cap, s) && i in Ahead(s.turns, s.clock)
    ensures var c := s.takers[i]; (Waits(s, c) || Wasted(s, c)) && s.pcs[c].HasTurn() && s.pcs[c].Turn() == i
  {
    assert TurnInv(s, i) && CallerInv(s, s.takers[i]);
  }

  lemma SameSize<A, B>(xs: set<A>, ys: set<B>, f: map<A, B>, g: map<B, A>)
    requires f.Keys == xs && g.Keys == ys
    requires forall x :: x in xs ==> f[x] in ys && g[f[x]] == x
    requires forall y :: y in ys ==> g[y] in xs && f[g[y]] == y
    ensures |xs| == |ys|
  {
    assert |f| == |xs| && |g| == |ys|;
    InjectiveSize(f, ys);
    InjectiveSize(g, xs);
  }

  /** The turns still ahead belong to the callers waiting for them and to those that gave up on theirs. */
  lemma TurnsAheadAreAccountedFor(cap: Option<nat>, s: State)
    requires Inv(cap, s)
    ensures |Ahead(s.turns, s.clock)| == |Waiting(s)| + |WastedTurns(s)|
  {
    var all := Waiting(s) + WastedTurns(s);
    var ahead := Ahead(s.turns, s.clock);
    assert Waiting(s) !! WastedTurns(s);
    forall c | c in all
      ensures s.pcs[c].HasTurn() && s.pcs[c].Turn() in ahead && s.takers[s.pcs[c].Turn()] == c
    {
      CallersAheadHaveTurnsAhead(cap, s, c);
    }
    forall i | i in ahead ensures s.takers[i] in all && s.pcs[s.takers[i]].HasTurn() && s.pcs[s.takers[i]].Turn() == i {
      TurnsAheadHaveCallers(cap, s, i);
    }
    SameSize(all, ahead, map c | c in all :: s.pcs[c].Turn(), map i | i in ahead :: s.takers[i]);
  }

  lemma WaitingIsCapped(n: nat, s: State)
    requires SlotsInv(Some(n), s)
    ensures |Waiting(s)| <= n
  {
    SubsetSize(Waiting(s), Holders(s.pcs));
  }

  /** In any run, the cadence is reserved no further ahead than the slots and the wasted turns account for. */
  lemma ReservationIsBounded(n: nat, clock: int, acts: seq<Action>, s: State, d: nat)
    requires Reached(Some(n), clock, acts, s) && forall t :: t in s.turns ==> t.delay <= d
    ensures s.nextAllowed <= s.clock + (n + |WastedTurns(s)| + 1) * d
  {
    ReachedHasInv(Some(n), clock, acts, s);
    TurnsAheadAreAccountedFor(Some(n), s);
    WaitingIsCapped(n, s);
    forall i | 0 <= i < |s.turns| ensures s.turns[i].now <= s.clock && s.turns[i].delay <= d { assert TurnInv(s, i); }
    ReservedAtMost(s.turns, s.clock, d);
    TimesGrows(|Ahead(s.turns, s.clock)| + 1, n + |WastedTurns(s)| + 1, d);
    TimesIsProduct(n + |WastedTurns(s)| + 1, d);
  }

  /** The cap bounds the reservation exactly when the turns waited for and wasted are within the cap. */
  lemma CapBoundsReservationExactly(n: nat, clock: int, acts: seq<Action>, s: State, d: nat)
    requires Reached(Some(n), clock, acts, s) && d > 0 && forall t :: t in s.turns ==> t.delay == d
    ensures s.nextAllowed <= s.clock + (n + 1) * d <==> |Waiting(s)| + |WastedTurns(s)| <= n
  {
    ReachedHasInv(Some(n), clock, acts, s);
    TurnsAheadAreAccountedFor(Some(n), s);
    forall i | 0 <= i < |s.turns| ensures s.turns[i].now <= s.clock && s.turns[i].delay == d { assert TurnInv(s, i); }
    ReservedExactly(s.turns, s.clock, d, n);
  }

  // ---------------------------------------------------------------- the cap alone bounds nothing

  lemma {:induction false} RunsCompose(cap: Option<nat>, s: State, acts: seq<Action>, more: seq<Action>)
    requires IsRun(cap, s, acts) && IsRun(cap, Exec(cap, s, acts), more)
    ensures IsRun(cap, s, acts + more) && Exec(cap, s, acts + more) == Exec(cap, Exec(cap, s, acts), more)
    decreases |acts|
  {
    if acts == [] {
      assert acts + more == more;
    } else {
      assert (acts + more)[1..] == acts[1..] + more;
      RunsCompose(cap, Next(cap, s, acts[0]), acts[1..], more);
    }
  }

  /** One step more at the end of a run. */
  lemma ThenStep(cap: Option<nat>, s: State, acts: seq<Action>, a: Action)
    requires IsRun(cap, s, acts) && Enabled(cap, Exec(cap, s, acts), a)
    ensures IsRun(cap, s, acts + [a]) && Exec(cap, s, acts + [a]) == Next(cap, Exec(cap, s, acts), a)
  {
    var mid := Exec(cap, s, acts);
    assert [a][1..] == [] && IsRun(cap, mid, [a]);
    RunsCompose(cap, s, acts, [a]);
  }

  lemma OneTakesATurn(s: State, c: Caller, d: nat) returns (acts: seq<Action>)
    requires c !in s.pcs && c !in s.done && s.used == 0
    ensures IsRun(Some(1), s, acts)
    ensures Exec(Some(1), s, acts) == s.(
      pcs := s.pcs[c := Paced(|s.turns|)], used := 1, nextAllowed := Max(s.nextAllowed, s.clock) + d,
      turns := s.turns + [Turn(s.clock, d)], takers := s.takers + [c])
  {
    var cap := Some(1);
    acts := [];
    ThenStep(cap, s, acts, Arrive(c)); acts := acts + [Arrive(c)];
    ThenStep(cap, s, acts, Acquire(c)); acts := acts + [Acquire(c)];
    ThenStep(cap, s, acts, Check(c)); acts := acts + [Check(c)];
    ThenStep(cap, s, acts, Draw(c, d)); acts := acts + [Draw(c, d)];
    ThenStep(cap, s, acts, NextSlot(c)); acts := acts + [NextSlot(c)];
  }

  /** A caller that arrives at a free throttle, takes a turn, is cancelled and leaves. */
  lemma OneIsCancelled(s: State, c: Caller, d: nat) returns (acts: seq<Action>)
    requires c !in s.pcs && c !in s.done && s.used == 0
    ensures IsRun(Some(1), s, acts)
    ensures var s' := Exec(Some(1), s, acts);
      && s'.used == 0 && s'.clock == s.clock && s'.nextAllowed == Max(s.nextAllowed, s.clock) + d
      && s'.pcs.Keys == s.pcs.Keys + {c} && s'.done == s.done + {c}
  {
    var cap := Some(1);
    acts := OneTakesATurn(s, c, d);
    ThenStep(cap, s, acts, EndCtx(c)); acts := acts + [EndCtx(c)];
    ThenStep(cap, s, acts, GiveUp(c)); acts := acts + [GiveUp(c)];
    ThenStep(cap, s, acts, Release(c)); acts := acts + [Release(c)];
  }

  lemma {:induction false} ManyAreCancelled(s: State, from: nat, n: nat, d: nat) returns (acts: seq<Action>)
    requires s.used == 0 && s.nextAllowed >= s.clock && from <= n
    requires forall c: Caller :: c >= from ==> c !in s.pcs && c !in s.done
    ensures IsRun(Some(1), s, acts)
    ensures var s' := Exec(Some(1), s, acts); s'.clock == s.clock && s'.nextAllowed == s.nextAllowed + Times(n - from, d)
    decreases n - from
  {
    acts := [];
    if from < n {
      var first := OneIsCancelled(s, from, d);
      var rest := ManyAreCancelled(Exec(Some(1), s, first), from + 1, n, d);
      RunsCompose(Some(1), s, first, rest);
      acts := first + rest;
    }
  }

  /**
    With one slot and a delay of d, n callers cancelled in their paced waits reserve the cadence n
    delays ahead, for any n; from three callers on, that is beyond what the cap would allow.
   */
  lemma ReservationHasNoBound(n: nat, d: nat) returns (acts: seq<Action>)
    requires n > 0
    ensures IsRun(Some(1), Start(1), acts)
    ensures var s := Exec(Some(1), Start(1), acts);
      && s.nextAllowed == s.clock + n * d
      && (n > 2 && d > 0 ==> s.nextAllowed > s.clock + (1 + 1) * d)
  {
    var first := OneIsCancelled(Start(1), 0, d);
    var rest := ManyAreCancelled(Exec(Some(1), Start(1), first), 1, n, d);
    RunsCompose(Some(1), Start(1), first, rest);
    acts := first + rest;
    TimesIsProduct(n, d);
    if n > 2 {
      TimesGrows(3, n, d);
      TimesIsProduct(3, d);
    }
  }
}
