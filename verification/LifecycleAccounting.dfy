/**
  What a Group's bookkeeping rests on, in every run: which returned errors are collected, what may
  become the cause, when registration is open, and the order of what it accepts.
 */
module LifecycleAccounting {
  import opened Basics
  import opened LifecycleModel

  /** Where goroutine g is fits what its function returned. A context error counts only before shutdown. */
  ghost predicate SaidInv(s: State, g: nat)
    requires g < |s.gos|
  {
    var pc := s.gos[g].pc;
    && (g in s.said <==> pc.Collecting? || pc.Checking? || pc.HasVerdict())
    && (g in s.said ==>
      if pc.Collecting? || (pc.HasVerdict() && pc.verdict.Failed?)
      then MustCollect(s.said[g]) && s.said[g].err == Some(if pc.Collecting? then pc.err else pc.verdict.err)
      else !MustCollect(s.said[g]))
  }

  predicate MustCollect(said: Said) {
    said.err.Some? && (!said.late || !said.err.value.isContext)
  }

  /** A goroutine is over only once shutdown has begun, which it triggers itself if need be. */
  ghost predicate OverInv(s: State, g: nat)
    requires g < |s.gos|
  {
    var pc := s.gos[g].pc;
    && (pc.Ended? || pc.Done? ==> s.cancelled)
    && (pc.Triggering? ==> !pc.verdict.Clean?)
  }

  /** The recorded or coming cause is one that happened. */
  ghost predicate GenuineInv(s: State) {
    !s.once.Idle? ==>
      var c := s.once.c;
      && (c.GoFailed? ==> c.g < |s.gos| && FailedWith(s.gos[c.g].pc, c.err))
      && (c.UnexpectedExit? ==> c.g < |s.gos| && s.gos[c.g].pc.HasVerdict() && s.gos[c.g].pc.verdict == EarlyExit)
      && (c.ParentEnded? ==> s.parentDone)
  }

  ghost predicate AccountInv(s: State) {
    && (forall g :: g in s.said ==> g < |s.gos|)
    && (forall g :: 0 <= g < |s.gos| ==> SaidInv(s, g) && OverInv(s, g))
    && GenuineInv(s)
  }

  /** A step that is not g's own leaves what g returned, and moves g at most before it has returned. */
  lemma OthersLeave(s: State, a: Action, g: nat)
    requires QueuesInv(s) && Enabled(s, a) && Mover(a) != Some(g) && g < |s.gos|
    ensures var s' := Next(s, a);
      && g < |s'.gos| && (g in s'.said <==> g in s.said) && (g in s.said ==> s'.said[g] == s.said[g])
      && (s'.gos[g].pc == s.gos[g].pc || (Early(s.gos[g].pc) && Early(s'.gos[g].pc)))
  {
    if a.RunStart? && g in s.pending { assert At(s, g, Queued); }
    if a.SpawnNext? { assert At(s, s.run.rest[0], Taken); }
  }

  /** The function has not returned. */
  predicate Early(pc: GoPc) {
    pc.Rejected? || pc.Queued? || pc.Taken? || pc.Added? || pc.Running?
  }

  lemma NewcomersAreEarly(s: State, a: Action, g: nat)
    requires Enabled(s, a) && |s.gos| <= g < |Next(s, a).gos|
    ensures Early(Next(s, a).gos[g].pc) && Next(s, a).said == s.said && (a.Require? || a.ServeSecond?)
  {
    if Mover(a).Some? {
      MoverMoves(s, a);
    } else if !ChangesQueues(a) {
      OthersStay(s, a);
    }
  }

  lemma OwnStepKeepsSaid(s: State, a: Action, g: nat)
    requires Enabled(s, a) && Mover(a) == Some(g) && g < |s.gos| && SaidInv(s, g)
    ensures g < |Next(s, a).gos| && SaidInv(Next(s, a), g)
  {}

  lemma OwnStepKeepsOver(s: State, a: Action, g: nat)
    requires PhasesInv(s) && Enabled(s, a) && Mover(a) == Some(g) && g < |s.gos| && OverInv(s, g)
    ensures g < |Next(s, a).gos| && OverInv(Next(s, a), g)
  {}

  lemma CancelledStays(s: State, a: Action)
    requires Enabled(s, a)
    ensures (s.cancelled ==> Next(s, a).cancelled) && (s.parentDone ==> Next(s, a).parentDone)
  {
    if !IsRunStep(a) && !IsShutdownStep(a) { PhasesStay(s, a); }
  }

  lemma StepKeepsGoroutine(s: State, a: Action, g: nat)
    requires PhasesInv(s) && QueuesInv(s) && AccountInv(s) && Enabled(s, a) && g < |Next(s, a).gos|
    ensures SaidInv(Next(s, a), g) && OverInv(Next(s, a), g)
  {
    CancelledStays(s, a);
    if g >= |s.gos| {
      NewcomersAreEarly(s, a, g);
      assert g !in s.said;
    } else if Mover(a) == Some(g) {
      OwnStepKeepsSaid(s, a, g);
      OwnStepKeepsOver(s, a, g);
    } else {
      assert SaidInv(s, g) && OverInv(s, g);
      OthersLeave(s, a, g);
    }
  }

  lemma VerdictStays(s: State, a: Action, g: nat)
    requires QueuesInv(s) && Enabled(s, a) && g < |s.gos| && s.gos[g].pc.HasVerdict()
    ensures g < |Next(s, a).gos| && Next(s, a).gos[g].pc.HasVerdict()
    ensures Next(s, a).gos[g].pc.verdict == s.gos[g].pc.verdict
  {
    if Mover(a) != Some(g) { OthersLeave(s, a, g); }
  }

  /** What may newly enter the once. */
  lemma OnceStep(s: State, a: Action)
    requires Enabled(s, a)
    ensures !s.once.Idle? ==> !Next(s, a).once.Idle? && Next(s, a).once.c == s.once.c
    ensures s.once.Idle? && !Next(s, a).once.Idle? ==> a.ShutdownBy? || a.GoShutdown?
  {
    if !IsRunStep(a) && !IsShutdownStep(a) { PhasesStay(s, a); }
  }

  lemma StepKeepsGenuine(s: State, a: Action)
    requires QueuesInv(s) && GenuineInv(s) && Enabled(s, a)
    requires a.GoShutdown? ==> OverInv(s, a.g)
    ensures GenuineInv(Next(s, a))
  {
    OnceStep(s, a);
    CancelledStays(s, a);
    if !s.once.Idle? {
      if s.once.c.GoFailed? || s.once.c.UnexpectedExit? { VerdictStays(s, a, s.once.c.g); }
    }
  }

  lemma StepKeepsAccount(s: State, a: Action)
    requires Inv(s) && AccountInv(s) && Enabled(s, a)
    ensures AccountInv(Next(s, a))
  {
    var s' := Next(s, a);
    StepKeepsGenuine(s, a);
    forall g | 0 <= g < |s'.gos| ensures SaidInv(s', g) && OverInv(s', g) { StepKeepsGoroutine(s, a, g); }
    forall g | g in s'.said ensures g < |s'.gos| { SaidIsOfGoroutines(s, a, g); }
  }

  /** run, shutdown and the goroutines leave what was registered; only a goroutine's return adds to what was said. */
  lemma RunStepKeepsBooks(s: State, a: Action)
    requires Enabled(s, a) && IsRunStep(a)
    ensures SameLists(s, Next(s, a)) && Next(s, a).said == s.said && |Next(s, a).gos| == |s.gos|
  {}

  lemma ShutdownStepKeepsBooks(s: State, a: Action)
    requires Enabled(s, a) && IsShutdownStep(a)
    ensures SameLists(s, Next(s, a)) && Next(s, a).said == s.said && Next(s, a).gos == s.gos
  {}

  lemma GoStepKeepsBooks(s: State, a: Action)
    requires Enabled(s, a) && Mover(a).Some?
    ensures SameLists(s, Next(s, a)) && |Next(s, a).gos| == |s.gos|
    ensures forall g :: g in Next(s, a).said ==> g in s.said || g < |s.gos|
  {}

  ghost predicate SameLists(s: State, s': State) {
    s'.callbacks == s.callbacks && s'.serverTeardowns == s.serverTeardowns
  }

  lemma SaidIsOfGoroutines(s: State, a: Action, g: nat)
    requires Enabled(s, a) && g in Next(s, a).said && forall h :: h in s.said ==> h < |s.gos|
    ensures g < |Next(s, a).gos|
  {
    if Mover(a).Some? {
      GoStepKeepsBooks(s, a);
    } else if IsRunStep(a) {
      RunStepKeepsBooks(s, a);
    } else if IsShutdownStep(a) {
      ShutdownStepKeepsBooks(s, a);
    }
  }

  lemma {:induction false} RunKeepsAccount(s: State, acts: seq<Action>)
    requires Inv(s) && AccountInv(s) && IsRun(s, acts)
    ensures Inv(Exec(s, acts)) && AccountInv(Exec(s, acts))
    decreases |acts|
  {
    if acts != [] {
      StepKeepsAccount(s, acts[0]);
      StepKeepsInv(s, acts[0]);
      RunKeepsAccount(Next(s, acts[0]), acts[1..]);
    }
  }

  lemma ReachableHasAccount(s: State, acts: seq<Action>)
    requires Init(s) && IsRun(s, acts)
    ensures AccountInv(Exec(s, acts)) && PhasesInv(Exec(s, acts))
  {
    RunKeepsAccount(s, acts);
  }

  // ---------------------------------------------------------------- errors

  /**
    When a goroutine's function returns, what it returned is noted with whether the group's or the
    parent's context had ended; the error goes to be collected unless it is nil, or a context error
    returned that late.
   */
  lemma ReturnIsNoted(s: State, acts: seq<Action>, g: nat, err: Option<Err>)
    requires Init(s) && IsRun(s, acts) && Enabled(Exec(s, acts), GoReturns(g, err))
    ensures var t := Exec(s, acts);
      var t' := Next(t, GoReturns(g, err));
      && g in t'.said && t'.said[g] == Said(err, t.cancelled || t.parentDone)
      && (t'.gos[g].pc.Collecting? <==> err.Some? && ((!t.cancelled && !t.parentDone) || !err.value.isContext))
      && (t'.gos[g].pc.Collecting? ==> t'.gos[g].pc.err == err.value)
      && (!t'.gos[g].pc.Collecting? ==> t'.gos[g].pc.Checking?)
  {}

  /**
    In every run a goroutine's verdict is a failure with some error exactly if its function returned
    that error, and did so before either context had ended or the error is no context error.
   */
  lemma VerdictsAreExact(s: State, acts: seq<Action>, g: nat, err: Err)
    requires Init(s) && IsRun(s, acts) && g < |Exec(s, acts).gos| && Exec(s, acts).gos[g].pc.HasVerdict()
    ensures var t := Exec(s, acts);
      && g in t.said
      && (t.gos[g].pc.verdict == Failed(err) <==> t.said[g].err == Some(err) && (!t.said[g].late || !err.isContext))
  {
    ReachableHasAccount(s, acts);
    assert SaidInv(Exec(s, acts), g);
  }

  /** So, if all goroutines are back at the final read, Run returns exactly those errors. */
  lemma ReturnedErrorsAreInTheResult(s: State, acts: seq<Action>, g: nat, err: Err)
    requires Init(s) && IsRun(s, acts) && Exec(s, acts).run.Waiting? && Exec(s, acts).wg == 0
    ensures var t := Exec(s, acts);
      GoError(g, err) in Next(t, FinishRun).local.result <==>
        (g in t.said && t.said[g].err == Some(err) && (!t.said[g].late || !err.isContext))
  {
    ResultIsExactWhenDrained(s, acts);
    AcceptedGoroutinesAreAwaited(s, acts);
    ReachableHasAccount(s, acts);
    SaidWhenDone(Exec(s, acts), g, err);
  }

  lemma SaidWhenDone(t: State, g: nat, err: Err)
    requires AccountInv(t) && forall h :: 0 <= h < |t.gos| ==> t.gos[h].pc.Rejected? || t.gos[h].pc.Done?
    ensures At(t, g, Done(Failed(err))) <==>
      (g in t.said && t.said[g].err == Some(err) && (!t.said[g].late || !err.isContext))
  {
    if g < |t.gos| { assert SaidInv(t, g); }
  }

  /** What a goroutine returned is noted once and for all. */
  lemma {:induction false} SaidStays(s: State, acts: seq<Action>, g: nat)
    requires Inv(s) && AccountInv(s) && IsRun(s, acts) && g in s.said
    ensures g in Exec(s, acts).said && Exec(s, acts).said[g] == s.said[g]
    decreases |acts|
  {
    if acts != [] {
      assert SaidInv(s, g);
      if Mover(acts[0]) != Some(g) { OthersLeave(s, acts[0], g); }
      StepKeepsAccount(s, acts[0]);
      StepKeepsInv(s, acts[0]);
      SaidStays(Next(s, acts[0]), acts[1..], g);
    }
  }

  // ---------------------------------------------------------------- triggers and causes

  /** A clean return is an unexpected exit exactly while the group's context is live. */
  lemma ExitIsJudgedByTheContext(s: State, acts: seq<Action>, g: nat)
    requires Init(s) && IsRun(s, acts) && Enabled(Exec(s, acts), CheckExit(g))
    ensures var t := Exec(s, acts);
      var pc := Next(t, CheckExit(g)).gos[g].pc;
      && (pc == Triggering(EarlyExit) <==> !t.cancelled) && (pc == Ended(Clean) <==> t.cancelled)
  {}

  /** The first trigger enters shutdown with its own reason; any later one changes nothing. */
  lemma FirstTriggerWins(s: State, acts: seq<Action>, a: Action)
    requires Init(s) && IsRun(s, acts) && Enabled(Exec(s, acts), a) && (a.ShutdownBy? || a.GoShutdown?)
    ensures var t, t' := Exec(s, acts), Next(Exec(s, acts), a);
      if !t.once.Idle? then t' == t
      else if a.ShutdownBy? then t'.once == Entered(a.c)
      else if t.gos[a.g].pc.verdict.Failed? then t'.once == Entered(GoFailed(a.g, t.gos[a.g].pc.verdict.err))
      else t'.once == Entered(UnexpectedExit(a.g))
  {}

  /** A recorded cause is one that happened: a failure that was, an early exit that was, a parent that ended. */
  lemma CauseIsGenuine(s: State, acts: seq<Action>)
    requires Init(s) && IsRun(s, acts) && Exec(s, acts).cause.Some?
    ensures var t := Exec(s, acts);
      match t.cause.value
      case GoFailed(g, err) => g in t.said && t.said[g].err == Some(err) && (!t.said[g].late || !err.isContext)
      case UnexpectedExit(g) => g < |t.gos| && t.gos[g].pc.HasVerdict() && t.gos[g].pc.verdict == EarlyExit
      case ParentEnded => t.parentDone
      case _ => true
  {
    ReachableHasAccount(s, acts);
    var t := Exec(s, acts);
    if t.cause.value.GoFailed? { assert SaidInv(t, t.cause.value.g); }
  }

  /** No goroutine is over before the group is shutting down: one that fails or exits early brings that about. */
  lemma EndingMeansShutdown(s: State, acts: seq<Action>, g: nat)
    requires Init(s) && IsRun(s, acts) && g < |Exec(s, acts).gos|
    requires Exec(s, acts).gos[g].pc.Ended? || Exec(s, acts).gos[g].pc.Done?
    ensures Exec(s, acts).cancelled && Exec(s, acts).cause.Some?
  {
    ReachableHasAccount(s, acts);
    assert OverInv(Exec(s, acts), g);
  }

  // ---------------------------------------------------------------- registration

  /** Registration is open exactly until a cause is recorded; then a goroutine starts at once or is queued for Run. */
  lemma RegistrationIsOpenUntilShutdown(s: State, acts: seq<Action>, a: Action)
    requires Init(s) && IsRun(s, acts) && Enabled(Exec(s, acts), a) && (a.Require? || a.ServeSecond?)
    ensures var t, t' := Exec(s, acts), Next(Exec(s, acts), a);
      && |t'.gos| == |t.gos| + 1
      && (t'.gos[|t.gos|].pc == Rejected <==> t.cause.Some?)
      && (t'.gos[|t.gos|].pc == Added <==> t.cause.None? && !t.run.NotRun?)
      && (t'.gos[|t.gos|].pc == Queued <==> t.cause.None? && t.run.NotRun?)
      && t'.gos[|t.gos|].server == if a.Require? then None else Some(a.v)
  {
    ReachableHasInv(s, acts);
  }

  /** The callbacks of the Defer calls made while registration was open, in order. */
  ghost function Deferred(s: State, acts: seq<Action>): seq<nat>
    requires IsRun(s, acts)
    decreases |acts|
  {
    if acts == [] then []
    else (if acts[0].Defer? && s.cause.None? then [acts[0].callback] else []) + Deferred(Next(s, acts[0]), acts[1..])
  }

  /** The servers of the Serve calls whose first section ran while registration was open, in order. */
  ghost function Served(s: State, acts: seq<Action>): seq<nat>
    requires IsRun(s, acts)
    decreases |acts|
  {
    if acts == [] then []
    else (if acts[0].ServeFirst? && s.cause.None? then [|s.servers|] else []) + Served(Next(s, acts[0]), acts[1..])
  }

  lemma ListStep(s: State, a: Action)
    requires PhasesInv(s) && Enabled(s, a)
    ensures Next(s, a).callbacks == s.callbacks + (if a.Defer? && s.cause.None? then [a.callback] else [])
    ensures Next(s, a).serverTeardowns == s.serverTeardowns + (if a.ServeFirst? && s.cause.None? then [|s.servers|] else [])
  {
    if Mover(a).Some? {
      GoStepKeepsBooks(s, a);
    } else if IsRunStep(a) {
      RunStepKeepsBooks(s, a);
    } else if IsShutdownStep(a) {
      ShutdownStepKeepsBooks(s, a);
    }
  }

  lemma {:induction false} ListsGrow(s: State, acts: seq<Action>)
    requires PhasesInv(s) && IsRun(s, acts)
    ensures Exec(s, acts).callbacks == s.callbacks + Deferred(s, acts)
    ensures Exec(s, acts).serverTeardowns == s.serverTeardowns + Served(s, acts)
    decreases |acts|
  {
    if acts != [] {
      ListStep(s, acts[0]);
      StepKeepsPhases(s, acts[0]);
      ListsGrow(Next(s, acts[0]), acts[1..]);
    }
  }

  /** What run tears down is, in order, exactly what Defer and Serve were given while registration was open. */
  lemma SnapshotsAreWhatWasRegistered(s: State, acts: seq<Action>)
    requires Init(s) && IsRun(s, acts) && Exec(s, acts).run.Stopping()
    ensures Exec(s, acts).local.callbacks == Deferred(s, acts)
    ensures Exec(s, acts).local.servers == Served(s, acts)
  {
    ReachableHasInv(s, acts);
    ListsGrow(s, acts);
  }

  /** Once ready is closed, everything accepted has been counted. */
  lemma ReadyMeansSpawned(s: State, acts: seq<Action>, g: nat)
    requires Init(s) && IsRun(s, acts) && g < |Exec(s, acts).gos|
    requires !Exec(s, acts).run.NotRun? && !Exec(s, acts).run.Spawning?
    ensures var pc := Exec(s, acts).gos[g].pc; pc.Rejected? || pc.Counted() || pc.Done?
  {
    ReachableHasInv(s, acts);
    assert QueuedInv(Exec(s, acts), g);
  }
}
