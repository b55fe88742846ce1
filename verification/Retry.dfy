/**
  Retry.Do: the loop, what it reports to its hook, and how many attempts it makes.

  The world it runs in is a finite trace, one item per attempt fn would get; a loop that outlives the
  trace is Unfinished. The schedule is an object with its own place in its sequence of delays.
 */
module Retry {
  import opened Basics
  import opened Stop

  /** Attempt i in the world: fn's error, the elapsed time then, and the context at the sleep after it. */
  datatype Attempt = Attempt(
    err: Option<Error>, elapsed: int,
    ended: bool,        // context done when the sleep begins
    endedFirst: bool)   // select took the context rather than the timer

  datatype End = Succeeded | Halted(err: Error) | CtxErr | Unfinished

  datatype Info = Info(attempt: int, elapsed: int, err: Option<Error>, next: int)

  datatype Outcome = Outcome(end: End, hooks: seq<Info>, nexts: nat)

  class Schedule {
    const delays: nat -> int
    const resettable: bool
    var place: nat

    constructor (delays: nat -> int, resettable: bool)
      ensures this.delays == delays && this.resettable == resettable && place == 0
    {
      this.delays, this.resettable, place := delays, resettable, 0;
    }

    method Next() returns (d: int)
      modifies this
      ensures d == delays(old(place)) && place == old(place) + 1
    {
      d := delays(place);
      place := place + 1;
    }

    method Reset()
      requires resettable
      modifies this
      ensures place == 0
    {
      place := 0;
    }
  }

  /** sleep returns the context's error: at once for no delay, else if it beats the timer. */
  predicate SleepFails(a: Attempt, delay: int) {
    if delay <= 0 then a.ended else a.endedFirst
  }

  predicate StopsAt(stop: StopFunc, world: seq<Attempt>, i: nat)
    requires i < |world|
  {
    world[i].err.Some? && stop.Halts(i + 1, world[i].elapsed, world[i].err.value)
  }

  predicate GoesOnAt(stop: StopFunc, delays: nat -> int, world: seq<Attempt>, i: nat)
    requires i < |world|
  {
    world[i].err.Some? && !StopsAt(stop, world, i) && !SleepFails(world[i], delays(i))
  }

  /** What the hook is told of attempt i: the delay about to be waited, or zero if Do is about to return. */
  function InfoOf(stop: StopFunc, delays: nat -> int, world: seq<Attempt>, i: nat): Info
    requires i < |world|
  {
    Info(i + 1, world[i].elapsed, world[i].err,
         if world[i].err.Some? && !StopsAt(stop, world, i) then delays(i) else 0)
  }

  /**
    Do as promised: it goes on through every attempt but the last, ends for the reason it gives, fires
    the hook once per attempt in order, and asks the schedule for a delay except before success or halt.
    delays(i) is the schedule's answer after attempt i.
   */
  ghost predicate IsOutcome(stop: StopFunc, delays: nat -> int, world: seq<Attempt>, o: Outcome) {
    var n := |o.hooks|;
    && n <= |world|
    && (forall i :: 0 <= i < n - 1 ==> GoesOnAt(stop, delays, world, i))
    && (forall i :: 0 <= i < n ==> o.hooks[i] == InfoOf(stop, delays, world, i))
    && o.nexts == n - Count(o.end.Succeeded? || o.end.Halted?)
    && match o.end
       case Succeeded => n > 0 && world[n - 1].err.None?
       case Halted(err) => n > 0 && StopsAt(stop, world, n - 1) && world[n - 1].err == Some(err)
       case CtxErr => n > 0 && world[n - 1].err.Some? && !StopsAt(stop, world, n - 1) && SleepFails(world[n - 1], delays(n - 1))
       case Unfinished => n == |world| && (n > 0 ==> GoesOnAt(stop, delays, world, n - 1))
  }

  /** Every attempt so far has gone on. */
  ghost predicate Ongoing(stop: StopFunc, delays: nat -> int, world: seq<Attempt>, hooks: seq<Info>) {
    && |hooks| <= |world|
    && (forall i :: 0 <= i < |hooks| ==> GoesOnAt(stop, delays, world, i))
    && (forall i :: 0 <= i < |hooks| ==> hooks[i] == InfoOf(stop, delays, world, i))
  }

  lemma LastAttempt(stop: StopFunc, delays: nat -> int, world: seq<Attempt>, hooks: seq<Info>, o: Outcome)
    requires Ongoing(stop, delays, world, hooks) && |hooks| < |world|
    requires var i := |hooks|;
      && o.hooks == hooks + [InfoOf(stop, delays, world, i)]
      && o.nexts == i + 1 - Count(o.end.Succeeded? || o.end.Halted?)
      && match o.end
         case Succeeded => world[i].err.None?
         case Halted(err) => StopsAt(stop, world, i) && world[i].err == Some(err)
         case CtxErr => world[i].err.Some? && !StopsAt(stop, world, i) && SleepFails(world[i], delays(i))
         case Unfinished => false
    ensures IsOutcome(stop, delays, world, o)
  {}

  /** The delays of a schedule that has given from of them. */
  function After(delays: nat -> int, from: nat): nat -> int {
    (i: nat) => delays(from + i)
  }

  /** Retry.Do. */
  method Do(schedule: Schedule, stop: StopFunc, world: seq<Attempt>) returns (o: Outcome)
    modifies schedule
    ensures var from := if schedule.resettable then 0 else old(schedule.place);
      && IsOutcome(stop, After(schedule.delays, from), world, o)
      && schedule.place == from + o.nexts
  {
    if schedule.resettable { schedule.Reset(); }
    ghost var from := schedule.place;
    ghost var delays := After(schedule.delays, from);
    var hooks: seq<Info> := [];
    for i := 0 to |world|
      invariant |hooks| == i && schedule.place == from + i && Ongoing(stop, delays, world, hooks)
    {
      var attempt, elapsed := i + 1, world[i].elapsed;
      if world[i].err.None? {
        o := Outcome(Succeeded, hooks + [Info(attempt, elapsed, None, 0)], i);
        LastAttempt(stop, delays, world, hooks, o);
        return;
      }
      var err := world[i].err.value;
      var halt := Consult(stop, attempt, elapsed, err);
      if halt {
        o := Outcome(Halted(err), hooks + [Info(attempt, elapsed, Some(err), 0)], i);
        LastAttempt(stop, delays, world, hooks, o);
        return;
      }
      var next := schedule.Next();
      assert next == delays(i);
      var info := Info(attempt, elapsed, Some(err), next);
      if SleepFails(world[i], next) {
        o := Outcome(CtxErr, hooks + [info], i + 1);
        LastAttempt(stop, delays, world, hooks, o);
        return;
      }
      hooks := hooks + [info];
    }
    o := Outcome(Unfinished, hooks, |world|);
  }

  /** The promise leaves nothing open: a world has one outcome. */
  lemma OutcomeIsUnique(stop: StopFunc, delays: nat -> int, world: seq<Attempt>, o: Outcome, o': Outcome)
    requires IsOutcome(stop, delays, world, o) && IsOutcome(stop, delays, world, o')
    ensures o == o'
  {
    var n, n' := |o.hooks|, |o'.hooks|;
    assert 0 < n < n' ==> GoesOnAt(stop, delays, world, n - 1);
    assert 0 < n' < n ==> GoesOnAt(stop, delays, world, n' - 1);
    assert o.hooks == o'.hooks;
  }

  /** Whatever the world does, a value caps the attempts, so a loop with a value ends. */
  lemma ValueCapsAttempts(stop: StopFunc, delays: nat -> int, world: seq<Attempt>, o: Outcome)
    requires stop.Valid() && stop.Value(Never).From? && IsOutcome(stop, delays, world, o)
    ensures |o.hooks| <= stop.Value(Never).n
    ensures |world| >= stop.Value(Never).n ==> o.end != Unfinished
  {
    var v := stop.Value(Never).n;
    ValueIsPositive(stop, Never);
    if |world| >= v && GoesOnAt(stop, delays, world, v - 1) {
      HaltsWithinValues(stop, v, world[v - 1].elapsed, world[v - 1].err.value);
    }
  }

  /** And a halt never comes before the value that counts every other leaf as immediate. */
  lemma HaltIsNotTooEarly(stop: StopFunc, delays: nat -> int, world: seq<Attempt>, o: Outcome)
    requires stop.Valid() && IsOutcome(stop, delays, world, o) && o.end.Halted?
    ensures stop.Value(From(1)).Reached(|o.hooks|)
  {
    var n := |o.hooks|;
    HaltsWithinValues(stop, n, world[n - 1].elapsed, world[n - 1].err.value);
  }

  /** fn fails every time, no sleep is cut short, and no other leaf fires. */
  ghost predicate FailsOn(stop: StopFunc, delays: nat -> int, world: seq<Attempt>) {
    forall i :: 0 <= i < |world| ==>
      && world[i].err.Some? && stop.OthersSilent(world[i].elapsed, world[i].err.value)
      && !SleepFails(world[i], delays(i))
  }

  /** Against persistent failure, Do halts after v attempts exactly when v is the value; with none it never does. */
  lemma HaltsAfterValueAttempts(stop: StopFunc, delays: nat -> int, world: seq<Attempt>, o: Outcome)
    requires stop.Valid() && FailsOn(stop, delays, world) && IsOutcome(stop, delays, world, o)
    ensures o.end.Halted? <==> stop.Value(Never).Reached(|world|)
    ensures o.end.Halted? ==> |o.hooks| == stop.Value(Never).n && o.nexts == |o.hooks| - 1
    ensures !o.end.Halted? ==> o.end == Unfinished && |o.hooks| == |world|
  {
    ValueIsPositive(stop, Never);
    forall i: nat | i < |world| ensures StopsAt(stop, world, i) <==> stop.Value(Never).Reached(i + 1) {
      HaltsExactlyFromValue(stop, i + 1, world[i].elapsed, world[i].err.value);
    }
    var n := |o.hooks|;
    assert n > 1 ==> GoesOnAt(stop, delays, world, n - 2);
  }

  /** A tree of MaxAttempts under Any and All makes exactly its value's number of attempts. */
  lemma CountingTreeMakesValueAttempts(stop: StopFunc, delays: nat -> int, world: seq<Attempt>, o: Outcome)
    requires stop.Valid() && stop.OnlyCountsAttempts() && stop.Value(Never).Reached(|world|)
    requires forall i :: 0 <= i < |world| ==> world[i].err.Some? && !SleepFails(world[i], delays(i))
    requires IsOutcome(stop, delays, world, o)
    ensures |o.hooks| == stop.Value(Never).n && o.nexts == stop.Value(Never).n - 1
    ensures o.end == Halted(world[stop.Value(Never).n - 1].err.value)
    ensures forall i :: 0 <= i < |o.hooks| ==> o.hooks[i].attempt == i + 1 && o.hooks[i].err == world[i].err
  {
    CountingTreeHasValue(stop);
    HaltsAfterValueAttempts(stop, delays, world, o);
  }

  /** MaxAttempts(n) alone makes exactly n attempts at a function that keeps failing. */
  lemma MaxAttemptsMakesItsAttempts(n: nat, delays: nat -> int, world: seq<Attempt>, o: Outcome)
    requires 0 < n <= |world| && IsOutcome(MaxAttempts(n), delays, world, o)
    requires forall i :: 0 <= i < |world| ==> world[i].err.Some? && !SleepFails(world[i], delays(i))
    ensures |o.hooks| == n && o.nexts == n - 1 && o.end == Halted(world[n - 1].err.value)
  {
    CountingTreeMakesValueAttempts(MaxAttempts(n), delays, world, o);
  }

  /** Why attempt number i in the world is not the last: it failed, nothing halts, and the wait after it is not cut short. */
  ghost predicate IsPassed(stop: StopFunc, delays: nat -> int, world: seq<Attempt>, i: nat)
    requires i < |world|
  {
    && world[i].err.Some? && !stop.Halts(i + 1, world[i].elapsed, world[i].err.value)
    && (delays(i) <= 0 ==> !world[i].ended) && (delays(i) > 0 ==> !world[i].endedFirst)
  }

  /**
    The outcome in plain terms: every attempt but the last is passed. The last ends Do because it
    succeeded; or because the stop condition halts on it, and then its error is returned; or because the
    context cut the wait after it short: at once when there is no delay, else before the timer.
   */
  lemma OutcomeMeans(stop: StopFunc, delays: nat -> int, world: seq<Attempt>, o: Outcome)
    requires IsOutcome(stop, delays, world, o) && o.hooks != []
    ensures |o.hooks| <= |world| && forall i :: 0 <= i < |o.hooks| - 1 ==> IsPassed(stop, delays, world, i)
    ensures var i := |o.hooks| - 1;
      var last := world[i];
      match o.end
      case Succeeded => last.err.None?
      case Halted(err) => last.err == Some(err) && stop.Halts(i + 1, last.elapsed, err)
      case CtxErr =>
        && last.err.Some? && !stop.Halts(i + 1, last.elapsed, last.err.value)
        && if delays(i) <= 0 then last.ended else last.endedFirst
      case Unfinished => IsPassed(stop, delays, world, i) && |o.hooks| == |world|
  {
    forall i | 0 <= i < |o.hooks| - 1 ensures IsPassed(stop, delays, world, i) {
      assert GoesOnAt(stop, delays, world, i);
    }
  }

  /** What the hook is told: attempts in order from one, their time and error, and the delay about to be waited, zero at the end. */
  lemma HooksTell(stop: StopFunc, delays: nat -> int, world: seq<Attempt>, o: Outcome, i: nat)
    requires IsOutcome(stop, delays, world, o) && i < |o.hooks|
    ensures i < |world| && o.hooks[i].attempt == i + 1
    ensures o.hooks[i].elapsed == world[i].elapsed && o.hooks[i].err == world[i].err
    ensures o.hooks[i].next == if i == |o.hooks| - 1 && (o.end.Succeeded? || o.end.Halted?) then 0 else delays(i)
    ensures o.nexts == |o.hooks| - (if o.end.Succeeded? || o.end.Halted? then 1 else 0)
  {
    assert i < |o.hooks| - 1 ==> GoesOnAt(stop, delays, world, i);
  }

  /** With a time limit among Any, Do makes no attempt after a failure at or past the limit; a predicate likewise. */
  lemma AnyLimitEndsDo(stops: seq<StopFunc>, l: nat, delays: nat -> int, world: seq<Attempt>, o: Outcome, i: nat)
    requires IsOutcome(Any(stops), delays, world, o) && l < |stops| && i + 1 < |o.hooks|
    ensures i < |world| && world[i].err.Some?
    ensures stops[l].MaxElapsed? ==> world[i].elapsed < stops[l].d
    ensures stops[l].OnError? ==> !stops[l].pred(world[i].err.value)
    ensures stops[l].MaxAttempts? ==> i + 1 < stops[l].n
  {
    assert GoesOnAt(Any(stops), delays, world, i);
    LeavesHalt(Any(stops), i + 1, world[i].elapsed, world[i].err.value);
  }

  /** With one among All, Do halts only once it is met. */
  lemma AllLimitsHoldDo(stops: seq<StopFunc>, l: nat, delays: nat -> int, world: seq<Attempt>, o: Outcome)
    requires IsOutcome(All(stops), delays, world, o) && l < |stops| && o.end.Halted?
    ensures var i := |o.hooks| - 1;
      && 0 <= i < |world|
      && (stops[l].MaxElapsed? ==> world[i].elapsed >= stops[l].d)
      && (stops[l].OnError? ==> stops[l].pred(o.end.err))
      && (stops[l].MaxAttempts? ==> i + 1 >= stops[l].n)
  {
    var i := |o.hooks| - 1;
    LeavesHalt(All(stops), i + 1, world[i].elapsed, world[i].err.value);
  }
}
