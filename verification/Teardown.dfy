/**
  The timed tail of Group.run: from the cancellation of the group's context to Run's return, with
  drains, callbacks and the wait for the goroutines sharing one graceful budget. Times are integers.
 */
module Teardown {
  import opened Basics

  /** A server's drain: it would take work; one that obeys its context returns by its deadline. broken: it fails anyway. */
  datatype Drain = Drain(work: nat, obeys: bool, broken: bool)

  datatype Callback = Callback(timeout: int, work: nat, obeys: bool)

  /** When a drain started at t0 under the overall deadline returns. */
  function DrainEnd(d: Drain, t0: int, deadline: int): int {
    if d.obeys then Min(t0 + d.work, deadline) else t0 + d.work
  }

  /** A drain reports an error of its own, or that its deadline cut it short. */
  predicate DrainFails(d: Drain, t0: int, deadline: int) {
    d.broken || (d.obeys && deadline < t0 + d.work)
  }

  /** When a callback started at start returns; its context ends at its own timeout or the overall deadline. */
  function CallbackEnd(c: Callback, start: int, deadline: int): int {
    if c.obeys then Min(start + c.work, Min(start + c.timeout, deadline)) else start + c.work
  }

  /** A callback runs its work out unless it obeys a context that ends first, by its own timeout or the budget. */
  predicate EndsInTime(c: Callback, start: int, deadline: int, end: int) {
    && end <= start + c.work
    && (c.obeys ==> end <= start + c.timeout && end <= deadline)
    && (end < start + c.work ==> c.obeys && (end == start + c.timeout || end == deadline))
  }

  lemma CallbacksEndInTime(c: Callback, start: int, deadline: int)
    ensures forall end :: EndsInTime(c, start, deadline, end) <==> end == CallbackEnd(c, start, deadline)
  {}

  /** A drain likewise, on the budget alone. */
  lemma DrainsEndInTime(d: Drain, t0: int, deadline: int, end: int)
    ensures end == DrainEnd(d, t0, deadline) <==>
      && end <= t0 + d.work && (d.obeys ==> end <= deadline)
      && (end < t0 + d.work ==> d.obeys && end == deadline)
    ensures DrainFails(d, t0, deadline) <==> d.broken || DrainEnd(d, t0, deadline) < t0 + d.work
  {}

  ghost predicate AllBy(times: seq<int>, t: int) {
    forall i :: 0 <= i < |times| ==> times[i] <= t
  }

  ghost predicate DrainsObey(drains: seq<Drain>) {
    forall i :: 0 <= i < |drains| ==> drains[i].obeys
  }

  ghost predicate CallbacksObey(callbacks: seq<Callback>) {
    forall i :: 0 <= i < |callbacks| ==> callbacks[i].obeys
  }

  /** run can return at t: drains and callbacks are over, and the goroutines are, or the budget is spent. */
  ghost predicate Over(t0: int, deadline: int, drainEnds: seq<int>, ends: seq<int>, goroutinesDone: Option<int>, t: int) {
    && t0 <= t && AllBy(drainEnds, t) && AllBy(ends, t)
    && (deadline <= t || (goroutinesDone.Some? && goroutinesDone.value <= t))
  }

  ghost predicate IsEarliest(t0: int, deadline: int, drainEnds: seq<int>, ends: seq<int>, goroutinesDone: Option<int>, finish: int) {
    && Over(t0, deadline, drainEnds, ends, goroutinesDone, finish)
    && forall t :: Over(t0, deadline, drainEnds, ends, goroutinesDone, t) ==> finish <= t
  }

  /** Every server is drained concurrently from t0; drained is when the last one is done. */
  method RunDrains(t0: int, deadline: int, drains: seq<Drain>) returns (ends: seq<int>, drained: int)
    requires t0 < deadline
    ensures |ends| == |drains|
    ensures forall i :: 0 <= i < |drains| ==> ends[i] == DrainEnd(drains[i], t0, deadline)
    ensures AllBy(ends, drained) && t0 <= drained && (drained == t0 || drained in ends)
    ensures DrainsObey(drains) ==> drained <= deadline
    ensures forall i :: 0 <= i < |drains| ==>
      && ends[i] <= t0 + drains[i].work && (drains[i].obeys ==> ends[i] <= deadline)
      && (ends[i] < t0 + drains[i].work ==> drains[i].obeys && ends[i] == deadline)
  {
    drained := t0;
    ends := [];
    for i := 0 to |drains|
      invariant |ends| == i
      invariant forall j :: 0 <= j < i ==> ends[j] == DrainEnd(drains[j], t0, deadline)
      invariant AllBy(ends, drained) && t0 <= drained && (drained == t0 || drained in ends)
      invariant DrainsObey(drains) ==> drained <= deadline
    {
      ends := ends + [DrainEnd(drains[i], t0, deadline)];
      drained := Max(drained, ends[i]);
    }
  }

  /** Callback i ran, right after the one before it or, for the first, after the last drain. */
  ghost predicate RanInTurn(
      callbacks: seq<Callback>, starts: seq<int>, ends: seq<int>, from: int, deadline: int, i: nat)
    requires i < |starts| == |ends| <= |callbacks|
  {
    && starts[i] == (if i == 0 then from else ends[i - 1])
    && from <= starts[i] < deadline && starts[i] <= ends[i]
    && ends[i] == CallbackEnd(callbacks[i], starts[i], deadline)
  }

  ghost predicate AllInTurn(callbacks: seq<Callback>, starts: seq<int>, ends: seq<int>, from: int, deadline: int)
    requires |starts| == |ends| <= |callbacks|
  {
    forall i :: 0 <= i < |ends| ==> RanInTurn(callbacks, starts, ends, from, deadline, i)
  }

  /**
    The callbacks that run are a prefix in registration order, one at a time. None starts on a spent
    budget, so at most the last one can run past it, and one is skipped only if the budget is spent.
   */
  method RunCallbacks(from: int, deadline: int, callbacks: seq<Callback>)
    returns (starts: seq<int>, ends: seq<int>, now: int)
    requires forall i :: 0 <= i < |callbacks| ==> callbacks[i].timeout > 0
    ensures |starts| == |ends| <= |callbacks|
    ensures AllInTurn(callbacks, starts, ends, from, deadline)
    ensures now == if ends == [] then from else ends[|ends| - 1]
    ensures |ends| < |callbacks| ==> deadline <= now
    ensures AllBy(ends, now) && from <= now
    ensures CallbacksObey(callbacks) && from <= deadline ==> now <= deadline
    ensures forall i :: 0 <= i < |ends| ==> EndsInTime(callbacks[i], starts[i], deadline, ends[i])
  {
    now := from;
    starts, ends := [], [];
    for n := 0 to |callbacks|
      invariant |starts| == |ends| == n
      invariant AllInTurn(callbacks, starts, ends, from, deadline)
      invariant now == if n == 0 then from else ends[n - 1]
      invariant AllBy(ends, now) && from <= now
      invariant CallbacksObey(callbacks) && from <= deadline ==> now <= deadline
    {
      if deadline <= now { break; }
      starts := starts + [now];
      ends := ends + [CallbackEnd(callbacks[n], now, deadline)];
      now := ends[n];
      forall i | 0 <= i < n + 1 ensures RanInTurn(callbacks, starts, ends, from, deadline, i) {
        if i < n { assert RanInTurn(callbacks, starts[..n], ends[..n], from, deadline, i); }
      }
    }
    forall i | 0 <= i < |ends| ensures EndsInTime(callbacks[i], starts[i], deadline, ends[i]) {
      assert RanInTurn(callbacks, starts, ends, from, deadline, i);
    }
  }

  /**
    Drains, then callbacks, then the wait for the goroutines, who are all done at goroutinesDone if
    ever. finish is when run returns: within the budget exactly if every drain and every callback
    that ran was, as they are when all obey their contexts, whatever their number and timeouts. It is
    the earliest time at which all drains and callbacks are over, and the goroutines or the budget are.
   */
  method Run(t0: int, graceful: int, drains: seq<Drain>, callbacks: seq<Callback>, goroutinesDone: Option<int>)
    returns (drainEnds: seq<int>, drained: int, starts: seq<int>, ends: seq<int>, finish: int)
    requires graceful > 0 && forall i :: 0 <= i < |callbacks| ==> callbacks[i].timeout > 0
    ensures |drainEnds| == |drains| && |starts| == |ends| <= |callbacks|
    ensures forall i :: 0 <= i < |drains| ==> drainEnds[i] == DrainEnd(drains[i], t0, t0 + graceful)
    ensures forall i :: 0 <= i < |starts| ==> AllBy(drainEnds, starts[i])
    ensures AllBy(drainEnds, drained) && t0 <= drained && (drained == t0 || drained in drainEnds)
    ensures AllInTurn(callbacks, starts, ends, drained, t0 + graceful)
    ensures |ends| < |callbacks| ==>
      exists t :: (t in drainEnds || t in ends) && t0 + graceful <= t
    ensures finish <= t0 + graceful <==> AllBy(drainEnds, t0 + graceful) && AllBy(ends, t0 + graceful)
    ensures DrainsObey(drains) && CallbacksObey(callbacks) ==> finish <= t0 + graceful
    ensures IsEarliest(t0, t0 + graceful, drainEnds, ends, goroutinesDone, finish)
    ensures finish < t0 + graceful ==> |ends| == |callbacks|
  {
    var deadline := t0 + graceful;
    var now;
    drainEnds, drained := RunDrains(t0, deadline, drains);
    starts, ends, now := RunCallbacks(drained, deadline, callbacks);
    // The select between the drained wait group and the spent budget.
    finish := match goroutinesDone
      case Some(t) => Max(now, Min(t, deadline))
      case None => Max(now, deadline);
    assert now > t0 ==> now in drainEnds || now in ends;
    forall i | 0 <= i < |starts| ensures AllBy(drainEnds, starts[i]) {
      assert RanInTurn(callbacks, starts, ends, drained, deadline, i);
    }
  }
}
