/**
  lifecycle.Group as an object: the fields its mutex guards, the wait group and the context, changed
  in place one section at a time. Any interleaving of registration, goroutines, shutdown and run is
  a sequence of these methods, and each is exactly one step of the transition system.
 */
module Lifecycle {
  import opened Basics
  import opened LifecycleModel
  import opened LifecycleCalls
  import Timed = Teardown

  class Group {
    var started: bool
    var stopped: bool
    var pending: seq<nat>
    var serverTeardowns: seq<nat>
    var callbacks: seq<nat>
    var errs: seq<Entry>
    var cause: Option<Cause>
    var wg: int
    var cancelled: bool   // the group's context
    var onceDone: bool    // shutdownOnce has run
    ghost var model: State

    ghost predicate Agrees()
      reads this
    {
      && model.started == started && model.stopped == stopped && model.pending == pending
      && model.serverTeardowns == serverTeardowns && model.callbacks == callbacks
      && model.errs == errs && model.cause == cause && model.wg == wg && model.cancelled == cancelled
      && (onceDone <==> model.once.Complete?)
    }

    constructor ()
      ensures Agrees() && Init(model)
    {
      started, stopped, cancelled, onceDone := false, false, false, false;
      pending, serverTeardowns, callbacks, errs := [], [], [], [];
      cause, wg := None, 0;
      model := State(false, false, [], [], [], [], [], map[], 0, [], Idle, None, false, false, NotRun, NoTeardown);
    }

    /** register's section: g is the next goroutine's number. */
    method Register(g: nat) returns (accepted: bool)
      requires Agrees() && g == |model.gos|
      modifies this`pending, this`wg
      ensures accepted == !stopped
      ensures pending == if accepted && !started then old(pending) + [g] else old(pending)
      ensures wg == if accepted && started then old(wg) + 1 else old(wg)
    {
      if stopped { return false; }
      if started {
        wg := wg + 1;
      } else {
        pending := pending + [g];
      }
      accepted := true;
    }

    method Require(g: nat) returns (accepted: bool)
      requires Agrees() && g == |model.gos|
      modifies this`pending, this`wg, this`model
      ensures Agrees() && model == Next(old(model), Action.Require)
      ensures accepted == !model.gos[g].pc.Rejected?
      ensures accepted == !stopped
    {
      accepted := Register(g);
      model := Next(model, Action.Require);
    }

    /** Serve's first section: the server's shutdown. */
    method ServeFirst(v: nat)
      requires Agrees() && v == |model.servers|
      modifies this`serverTeardowns, this`model
      ensures Agrees() && model == Next(old(model), Action.ServeFirst)
      ensures serverTeardowns == if stopped then old(serverTeardowns) else old(serverTeardowns) + [v]
    {
      if !stopped { serverTeardowns := serverTeardowns + [v]; }
      model := Next(model, Action.ServeFirst);
    }

    /** Serve's second section: the server's goroutine. */
    method ServeSecond(v: nat, g: nat) returns (accepted: bool)
      requires Agrees() && g == |model.gos| && Enabled(model, Action.ServeSecond(v))
      modifies this`pending, this`wg, this`model
      ensures Agrees() && model == Next(old(model), Action.ServeSecond(v))
      ensures accepted == !model.gos[g].pc.Rejected?
      ensures accepted == !stopped
    {
      accepted := Register(g);
      model := Next(model, Action.ServeSecond(v));
    }

    method Defer(callback: nat)
      requires Agrees()
      modifies this`callbacks, this`model
      ensures Agrees() && model == Next(old(model), Action.Defer(callback))
      ensures callbacks == if stopped then old(callbacks) else old(callbacks) + [callback]
    {
      if !stopped { callbacks := callbacks + [callback]; }
      model := Next(model, Action.Defer(callback));
    }

    /** run's first section; taken is what it will spawn. */
    method RunStart() returns (taken: seq<nat>)
      requires Agrees() && Enabled(model, Action.RunStart)
      modifies this`started, this`pending, this`model
      ensures Agrees() && model == Next(old(model), Action.RunStart) && model.run == Spawning(taken)
      ensures started && taken == old(pending) && pending == []
    {
      started := true;
      taken := pending;
      pending := [];
      model := Next(model, Action.RunStart);
    }

    /** One round of run's spawn loop: the wait group counts the goroutine and starts it. */
    method SpawnNext()
      requires Agrees() && Enabled(model, Action.SpawnNext)
      modifies this`wg, this`model
      ensures Agrees() && model == Next(old(model), Action.SpawnNext)
      ensures wg == old(wg) + 1
    {
      wg := wg + 1;
      model := Next(model, Action.SpawnNext);
    }

    /** run's second section: close registration and take the lists to tear down. */
    method StopRegistration() returns (servers: seq<nat>, cbs: seq<nat>)
      requires Agrees() && Enabled(model, Action.StopRegistration)
      modifies this`stopped, this`model
      ensures Agrees() && model == Next(old(model), Action.StopRegistration)
      ensures servers == model.local.servers && cbs == model.local.callbacks
      ensures stopped && servers == serverTeardowns && cbs == callbacks
    {
      stopped := true;
      servers, cbs := serverTeardowns, callbacks;
      model := Next(model, Action.StopRegistration);
    }

    /** run's third section: the drains' errors, in registration order. */
    method RecordDrains(servers: seq<nat>, failed: set<nat>)
      requires Agrees() && Enabled(model, CollectDrains(failed)) && servers == model.local.servers
      modifies this`errs, this`model
      ensures Agrees() && model == Next(old(model), CollectDrains(failed))
    {
      for i := 0 to |servers|
        modifies this`errs
        invariant errs == old(errs) + DrainErrors(FailedDrains(servers[..i], failed))
      {
        FailedDrainsAppend(servers[..i], servers[i], failed);
        assert servers[..i + 1] == servers[..i] + [servers[i]];
        if servers[i] in failed {
          errs := errs + [DrainError(servers[i])];
        }
      }
      assert servers[..|servers|] == servers;
      model := Next(old(model), CollectDrains(failed));
    }

    /** run's last section. */
    method FinishRun() returns (result: seq<Entry>)
      requires Agrees() && Enabled(model, Action.FinishRun)
      modifies this`model
      ensures Agrees() && model == Next(old(model), Action.FinishRun) && model.local.result == result
      ensures result == errs
    {
      result := errs;
      model := Next(model, Action.FinishRun);
    }

    /** shutdown's section under the mutex, run by the first caller only. */
    method RecordCause(c: Cause)
      requires Agrees() && Enabled(model, Action.RecordCause) && model.once.c == c
      modifies this`cause, this`stopped, this`model
      ensures Agrees() && model == Next(old(model), Action.RecordCause)
      ensures cause == Some(c) && stopped
    {
      cause := Some(c);
      stopped := true;
      model := Next(model, Action.RecordCause);
    }

    method CancelContext()
      requires Agrees() && Enabled(model, Action.CancelContext)
      modifies this`cancelled, this`onceDone, this`model
      ensures Agrees() && model == Next(old(model), Action.CancelContext)
      ensures cancelled
    {
      cancelled, onceDone := true, true;
      model := Next(model, Action.CancelContext);
    }

    /** What a goroutine's wrapper does with the error its function returned. */
    method GoReturns(g: nat, err: Option<Err>, parentDone: bool) returns (collect: bool)
      requires Agrees() && Enabled(model, Action.GoReturns(g, err)) && parentDone == model.parentDone
      modifies this`model
      ensures Agrees() && model == Next(old(model), Action.GoReturns(g, err))
      ensures collect ==> err.Some?
      ensures model.gos[g].pc == if collect then Collecting(err.value) else Checking
      ensures collect <==> err.Some? && ((!cancelled && !parentDone) || !err.value.isContext)
    {
      var shuttingDown := cancelled || parentDone;
      collect := err.Some? && (!shuttingDown || !err.value.isContext);
      model := Next(model, Action.GoReturns(g, err));
    }

    /** collectError's section. */
    method Collect(g: nat, err: Err)
      requires Agrees() && g < |model.gos| && model.gos[g].pc == Collecting(err)
      modifies this`errs, this`model
      ensures Agrees() && model == Next(old(model), Action.Collect(g))
      ensures errs == old(errs) + [GoError(g, err)]
    {
      errs := errs + [GoError(g, err)];
      model := Next(model, Action.Collect(g));
    }

    /** The wrapper's check after a clean return. */
    method CheckExit(g: nat) returns (early: bool)
      requires Agrees() && Enabled(model, Action.CheckExit(g))
      modifies this`model
      ensures Agrees() && model == Next(old(model), Action.CheckExit(g))
      ensures model.gos[g].pc == if early then Triggering(EarlyExit) else Ended(Clean)
      ensures early == !cancelled
    {
      early := !cancelled;
      model := Next(model, Action.CheckExit(g));
    }

    method GoDone(g: nat)
      requires Agrees() && Enabled(model, Action.GoDone(g))
      modifies this`wg, this`model
      ensures Agrees() && model == Next(old(model), Action.GoDone(g))
      ensures wg == old(wg) - 1
    {
      wg := wg - 1;
      model := Next(model, Action.GoDone(g));
    }

    /** Steps that touch none of the fields: a goroutine's start, the ends of run's waits, entering shutdown. */
    ghost method Elsewhere(a: Action)
      requires Agrees() && Enabled(model, a)
      requires a.StartGo? || a.BecomeReady? || a.FinishCallbacks? || a.EndParent? || a.ShutdownBy? || a.GoPastShutdown?
      modifies this`model
      ensures Agrees() && model == Next(old(model), a)
    {
      model := Next(model, a);
    }

    // Whole calls, for a group that is otherwise quiet.

    /** shutdown: only the first call has any effect. */
    method Shutdown(c: Cause)
      requires Agrees() && (model.once.Idle? || model.once.Complete?) && Enabled(model, ShutdownBy(c))
      modifies this`cause, this`stopped, this`cancelled, this`onceDone, this`model
      ensures Agrees() && model == ShutDown(old(model), c)
      ensures if old(onceDone) then cause == old(cause) && stopped == old(stopped) && cancelled == old(cancelled)
        else cause == Some(c) && stopped && cancelled && onceDone
    {
      if !onceDone {
        Elsewhere(ShutdownBy(c));
        RecordCause(c);
        CancelContext();
      }
    }

    /** The spawn loop. */
    method SpawnAll(taken: seq<nat>)
      requires Agrees() && model.run == Spawning(taken) && forall g :: g in taken ==> g < |model.gos|
      modifies this`wg, this`model
      ensures Agrees() && model == Spawned(old(model), taken, |taken|)
    {
      for n := 0 to |taken|
        modifies this`wg, this`model
        invariant Agrees() && model == Spawned(old(model), taken, n)
      {
        assert taken[n] in taken;
        SpawnNext();
        SpawnedNext(old(model), taken, n);
      }
    }

    /** run up to the wait for its context: everything pending is started, counted, and ready is closed. */
    method Begin() returns (taken: seq<nat>)
      requires Agrees() && model.run.NotRun? && forall g :: g in pending ==> g < |model.gos|
      modifies this`started, this`pending, this`wg, this`model
      ensures Agrees() && taken == old(pending) && model == Begun(old(model))
    {
      taken := RunStart();
      SpawnAll(taken);
      Elsewhere(BecomeReady);
    }

    /** The rest of a goroutine's wrapper, once its function has returned err during shutdown. */
    method EndGoroutine(g: nat, err: Option<Err>, parentDone: bool)
      requires Agrees() && CanEnd(model, g) && parentDone == model.parentDone
      modifies this`errs, this`wg, this`model
      ensures Agrees() && model == GoEnded(old(model), g, err)
      ensures errs == if err.Some? && !err.value.isContext then old(errs) + [GoError(g, err.value)] else old(errs)
    {
      if VerdictOf(err).Failed? { FailureEndsInSteps(model, g, err); } else { CleanStopEndsInSteps(model, g, err); }
      var collect := GoReturns(g, err, parentDone);
      if collect {
        Collect(g, err.value);
        Elsewhere(GoPastShutdown(g));
      } else {
        var early := CheckExit(g);
      }
      GoDone(g);
    }

    /** The goroutines' side of the wait: those taken that return by t end. */
    method AwaitGoroutines(taken: seq<nat>, endings: nat -> Ending, parentDone: bool, t: int)
      requires Agrees() && TakenRun(model, taken) && parentDone == model.parentDone
      modifies this`errs, this`wg, this`model
      ensures Agrees() && model == EndedBy(old(model), taken, endings, t, |taken|)
    {
      ghost var w := model;
      for n := 0 to |taken|
        modifies this`errs, this`wg, this`model
        invariant Agrees() && model == EndedBy(w, taken, endings, t, n)
      {
        EndedByMeans(w, taken, endings, t, n);
        assert taken[n] in taken && taken[n] !in taken[..n] && At(w, taken[n], Running);
        if endings(taken[n]).By(t) {
          EndGoroutine(taken[n], endings(taken[n]).err, parentDone);
        }
      }
    }

    /** Run from its start to the snapshot of the teardown lists. */
    method UntilStopped(c: Cause) returns (taken: seq<nat>, servers: seq<nat>, cbs: seq<nat>)
      requires Agrees() && CanRun(model, c)
      modifies this`started, this`pending, this`wg, this`cause, this`stopped, this`cancelled, this`onceDone, this`model
      ensures Agrees() && model == Stopped(ShutDown(Begun(old(model)), c))
      ensures taken == old(pending) && servers == serverTeardowns && cbs == callbacks
    {
      taken := Begin();
      Shutdown(c);
      servers, cbs := StopRegistration();
    }

    /** The section that records the drains' errors, and the end of the callbacks. */
    method Record(servers: seq<nat>, bad: set<nat>)
      requires Agrees() && model.run.Draining? && servers == model.local.servers
      modifies this`errs, this`model
      ensures Agrees() && model == Drained(old(model), bad)
    {
      RecordDrains(servers, bad);
      Elsewhere(FinishCallbacks);
    }

    /** Run's sections in order, with nobody else calling. */
    method RunSections(
        c: Cause, parentDone: bool, t0: int, graceful: int,
        drainOf: nat -> Timed.Drain, callbackOf: nat -> Timed.Callback, endings: nat -> Ending)
      returns (result: seq<Entry>, ran: seq<nat>, finish: int, drainEnds: seq<int>, drained: int, ends: seq<int>)
      requires Agrees() && CanRun(model, c) && parentDone == model.parentDone && graceful > 0
      requires forall cb :: cb in callbacks ==> callbackOf(cb).timeout > 0
      modifies this
      ensures Agrees() && model.local.result == result
      ensures var bad := FailingServers(old(serverTeardowns), drainOf, t0, t0 + graceful);
        model == AfterRun(old(model), c, bad, endings, finish)
      ensures |ran| == |ends| && InOrder(
        old(serverTeardowns), old(callbacks), drainOf, callbackOf, t0, t0 + graceful, drainEnds, drained, ran, ends)
      ensures Timed.IsEarliest(t0, t0 + graceful, drainEnds, ends, AllBack(old(pending), endings, t0), finish)
    {
      var taken, servers, cbs := UntilStopped(c);
      drainEnds, drained, ran, ends, finish := TearDown(
        servers, cbs, t0, graceful, drainOf, callbackOf, AllBack(taken, endings, t0));
      var bad := FailingServers(servers, drainOf, t0, t0 + graceful);
      Record(servers, bad);
      TakenRunAtWait(old(model), c, bad);
      AwaitGoroutines(taken, endings, parentDone, finish);
      EndedByMeans(AtWait(old(model), c, bad), taken, endings, finish, |taken|);
      result := FinishRun();
    }

    /**
      Run, with nobody else calling: everything pending is started; shutdown comes with cause c, unless
      it came before; the accepted servers drain and the accepted callbacks run on one budget from t0;
      and the goroutines come back as endings says. What it returns, which callbacks ran, and when.
     */
    method Run(
        c: Cause, parentDone: bool, t0: int, graceful: int,
        drainOf: nat -> Timed.Drain, callbackOf: nat -> Timed.Callback, endings: nat -> Ending)
      returns (result: seq<Entry>, ran: seq<nat>, finish: int, drainEnds: seq<int>, drained: int, ends: seq<int>)
      requires Agrees() && QuietBefore(model, c) && parentDone == model.parentDone && graceful > 0
      requires forall cb :: cb in callbacks ==> callbackOf(cb).timeout > 0
      modifies this
      ensures Agrees() && model.run.Finished? && stopped && cancelled
      ensures cause == if old(onceDone) then old(cause) else Some(c)
      // What it returns: failed drains in order, failures of goroutines that were back, nothing else.
      ensures var bad := FailingServers(old(serverTeardowns), drainOf, t0, t0 + graceful);
        IsResult(old(serverTeardowns), bad, old(pending), endings, finish, result)
      ensures forall v: nat :: DrainError(v) in result <==>
        (v in old(serverTeardowns) && (drainOf(v).broken || (drainOf(v).obeys && drainOf(v).work > graceful)))
      // Which callbacks ran: in order, after all drains, and all of them unless the budget is spent.
      ensures |ran| == |ends| && InOrder(
        old(serverTeardowns), old(callbacks), drainOf, callbackOf, t0, t0 + graceful, drainEnds, drained, ran, ends)
      // When it returns: as soon as all that is over, and the goroutines or the budget are.
      ensures Timed.IsEarliest(t0, t0 + graceful, drainEnds, ends, AllBack(old(pending), endings, t0), finish)
      ensures wg == 0 <==> AllIn(old(pending), endings, finish)
      ensures finish < t0 + graceful ==> wg == 0
    {
      result, ran, finish, drainEnds, drained, ends := RunSections(c, parentDone, t0, graceful, drainOf, callbackOf, endings);
      var bad := FailingServers(old(serverTeardowns), drainOf, t0, t0 + graceful);
      AfterRunMeans(old(model), c, bad, endings, finish);
      AllBackMeans(old(pending), endings, t0, finish);
    }
  }

  /** Callback i started right after the one before it, or the last drain, on a budget not yet spent, and ended in time. */
  ghost predicate RanOnTime(
      callbackOf: nat -> Timed.Callback, deadline: int, drained: int, ran: seq<nat>, ends: seq<int>, i: nat)
    requires i < |ran| == |ends|
  {
    var start := if i == 0 then drained else ends[i - 1];
    start < deadline && Timed.EndsInTime(callbackOf(ran[i]), start, deadline, ends[i])
  }

  /** Callbacks ran in registration order, back to back from the last drain on, none on a spent budget, and all of them unless the budget is spent. */
  ghost predicate InOrder(
      servers: seq<nat>, callbacks: seq<nat>, drainOf: nat -> Timed.Drain, callbackOf: nat -> Timed.Callback,
      t0: int, deadline: int, drainEnds: seq<int>, drained: int, ran: seq<nat>, ends: seq<int>)
    requires |ran| == |ends|
  {
    && ran <= callbacks
    && |drainEnds| == |servers|
    && (forall i :: 0 <= i < |servers| ==> drainEnds[i] == Timed.DrainEnd(drainOf(servers[i]), t0, deadline))
    && Timed.AllBy(drainEnds, drained) && t0 <= drained && (drained == t0 || drained in drainEnds)
    && (forall i :: 0 <= i < |ran| ==> RanOnTime(callbackOf, deadline, drained, ran, ends, i))
    && (|ran| < |callbacks| ==> exists t :: (t in drainEnds || t in ends) && deadline <= t)
  }

  /** The timed part of run over the lists it took. */
  method TearDown(
      servers: seq<nat>, cbs: seq<nat>, t0: int, graceful: int,
      drainOf: nat -> Timed.Drain, callbackOf: nat -> Timed.Callback, goroutinesDone: Option<int>)
    returns (drainEnds: seq<int>, drained: int, ran: seq<nat>, ends: seq<int>, finish: int)
    requires graceful > 0 && forall cb :: cb in cbs ==> callbackOf(cb).timeout > 0
    ensures |ran| == |ends| && InOrder(servers, cbs, drainOf, callbackOf, t0, t0 + graceful, drainEnds, drained, ran, ends)
    ensures Timed.IsEarliest(t0, t0 + graceful, drainEnds, ends, goroutinesDone, finish)
  {
    var deadline := t0 + graceful;
    var drains := seq(|servers|, i requires 0 <= i < |servers| => drainOf(servers[i]));
    var callbacks := seq(|cbs|, i requires 0 <= i < |cbs| => callbackOf(cbs[i]));
    var starts;
    drainEnds, drained, starts, ends, finish := Timed.Run(t0, graceful, drains, callbacks, goroutinesDone);
    ran := cbs[..|ends|];
    forall i | 0 <= i < |ran| ensures RanOnTime(callbackOf, deadline, drained, ran, ends, i) {
      assert Timed.RanInTurn(callbacks, starts, ends, drained, deadline, i);
      Timed.CallbacksEndInTime(callbacks[i], starts[i], deadline);
    }
  }

  /** The servers whose drain fails. */
  function FailingServers(servers: seq<nat>, drainOf: nat -> Timed.Drain, t0: int, deadline: int): set<nat> {
    set v | v in servers && Timed.DrainFails(drainOf(v), t0, deadline)
  }

  lemma {:induction false} FailedDrainsAppend(servers: seq<nat>, v: nat, bad: set<nat>)
    ensures FailedDrains(servers + [v], bad) == FailedDrains(servers, bad) + (if v in bad then [v] else [])
    decreases |servers|
  {
    var tail := if v in bad then [v] else [];
    if servers == [] {
      assert servers + [v] == [v] && [v][1..] == [];
    } else {
      var head := if servers[0] in bad then [servers[0]] else [];
      assert (servers + [v])[1..] == servers[1..] + [v];
      FailedDrainsAppend(servers[1..], v, bad);
      assert head + (FailedDrains(servers[1..], bad) + tail) == (head + FailedDrains(servers[1..], bad)) + tail;
    }
  }
}
