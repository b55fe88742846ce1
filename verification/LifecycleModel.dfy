/**
  The shutdown protocol of lifecycle.Group as a transition system: registration racing shutdown and
  Run. One step is one section under the group's mutex, or one step of a goroutine, of shutdown or of
  run between such sections. Goroutines and servers are numbered in the order they ask to register.
 */
module LifecycleModel {
  import opened Basics

  /** A goroutine's returned error; only whether it wraps a context error matters here. */
  datatype Err = Err(id: nat, isContext: bool)

  /** How a goroutine's body ended: collected, an exit while the group was live, or a clean stop. */
  datatype Verdict = Failed(err: Err) | EarlyExit | Clean

  datatype GoPc =
    | Rejected                    // registration was closed
    | Queued                      // in pending, waiting for Run
    | Taken                       // in the list run took over
    | Added                       // counted by the wait group, not started yet
    | Running
    | Collecting(err: Err)        // returned err, about to record it
    | Checking                    // returned cleanly, about to look at the group's context
    | Triggering(verdict: Verdict)
    | Ended(verdict: Verdict)
    | Done(verdict: Verdict)      // no longer counted
  {
    predicate Counted() {
      Added? || Running? || Collecting? || Checking? || Triggering? || Ended?
    }
    predicate HasVerdict() { Triggering? || Ended? || Done? }

    function Phase(): nat {
      match this
      case Rejected => 0
      case Queued => 0
      case Taken => 1
      case Added => 2
      case Running => 3
      case Collecting(_) => 4
      case Checking => 4
      case Triggering(_) => 5
      case Ended(_) => 6
      case Done(_) => 7
    }
  }

  datatype Goroutine = Goroutine(server: Option<nat>, pc: GoPc)

  /** A Serve call: whether its first section registered the shutdown, and whether its second has run. */
  datatype Server = Server(added: bool, registered: bool)

  datatype Cause =
    | Requested
    | Signalled
    | ParentEnded
    | GoFailed(g: nat, err: Err)
    | UnexpectedExit(g: nat)

  /** Progress of shutdownOnce: its one execution writes the cause, then cancels the context. */
  datatype Once = Idle | Entered(c: Cause) | Recorded(c: Cause) | Complete(c: Cause)

  datatype Entry = DrainError(server: nat) | GoError(g: nat, err: Err)

  datatype RunPc = NotRun | Spawning(rest: seq<nat>) | Blocked | Draining | CallingBack | Waiting | Finished
  {
    predicate Stopping() { Draining? || CallingBack? || Waiting? || Finished? }
  }

  /** run's local variables from its second section on. */
  datatype Teardown = Teardown(servers: seq<nat>, callbacks: seq<nat>, failed: seq<nat>, result: seq<Entry>)

  /** What a goroutine's function returned, and whether the group's or the parent's context had ended by then. */
  datatype Said = Said(err: Option<Err>, late: bool)

  datatype State = State(
    started: bool,
    stopped: bool,
    pending: seq<nat>,
    serverTeardowns: seq<nat>,
    callbacks: seq<nat>,
    servers: seq<Server>,
    gos: seq<Goroutine>,
    said: map<nat, Said>,
    wg: int,
    errs: seq<Entry>,
    once: Once,
    cause: Option<Cause>,
    cancelled: bool,
    parentDone: bool,
    run: RunPc,
    local: Teardown)

  datatype Action =
    | Require
    | ServeFirst
    | ServeSecond(v: nat)
    | Defer(callback: nat)
    | StartGo(g: nat)
    | RunStart
    | SpawnNext
    | BecomeReady
    | StopRegistration
    | CollectDrains(bad: set<nat>)
    | FinishCallbacks
    | FinishRun
    | EndParent
    | ShutdownBy(c: Cause)
    | RecordCause
    | CancelContext
    | GoReturns(g: nat, err: Option<Err>)
    | Collect(g: nat)
    | CheckExit(g: nat)
    | GoShutdown(g: nat)
    | GoPastShutdown(g: nat)
    | GoDone(g: nat)

  const NoTeardown := Teardown([], [], [], [])

  ghost predicate Init(s: State) {
    s == State(false, false, [], [], [], [], [], map[], 0, [], Idle, None, false, false, NotRun, NoTeardown)
  }

  predicate At(s: State, g: nat, pc: GoPc) {
    g < |s.gos| && s.gos[g].pc == pc
  }

  ghost predicate Enabled(s: State, a: Action) {
    match a
    case Require => true
    case ServeFirst => true
    case ServeSecond(v) => v < |s.servers| && !s.servers[v].registered
    case Defer(_) => true
    case StartGo(g) => At(s, g, Added)
    case RunStart => s.run.NotRun?
    case SpawnNext => s.run.Spawning? && s.run.rest != [] && s.run.rest[0] < |s.gos|
    case BecomeReady => s.run == Spawning([])
    case StopRegistration => s.run.Blocked? && s.cancelled
    case CollectDrains(_) => s.run.Draining?
    case FinishCallbacks => s.run.CallingBack?
    case FinishRun => s.run.Waiting?   // the goroutines are done, or the budget is spent
    case EndParent => true
    case ShutdownBy(c) =>
      && (c == Requested || s.run == Spawning([]) || s.run.Blocked? || s.run.Stopping())
      && (c == Requested || c == Signalled || (c == ParentEnded && s.parentDone))
    case RecordCause => s.once.Entered?
    case CancelContext => s.once.Recorded?
    case GoReturns(g, _) => At(s, g, Running)
    case Collect(g) => g < |s.gos| && s.gos[g].pc.Collecting?
    case CheckExit(g) => At(s, g, Checking)
    case GoShutdown(g) => g < |s.gos| && s.gos[g].pc.Triggering? && s.once.Idle?
    case GoPastShutdown(g) => g < |s.gos| && s.gos[g].pc.Triggering? && s.once.Complete?
    case GoDone(g) => g < |s.gos| && s.gos[g].pc.Ended?
  }

  function Move(gos: seq<Goroutine>, g: nat, pc: GoPc): seq<Goroutine>
    requires g < |gos|
  {
    gos[g := gos[g].(pc := pc)]
  }

  /** register: refuse, start at once, or queue for Run. */
  function Register(s: State, server: Option<nat>): State {
    if s.stopped then s.(gos := s.gos + [Goroutine(server, Rejected)])
    else if s.started then s.(gos := s.gos + [Goroutine(server, Added)], wg := s.wg + 1)
    else s.(gos := s.gos + [Goroutine(server, Queued)], pending := s.pending + [|s.gos|])
  }

  function EnterShutdown(s: State, c: Cause): State {
    if s.once.Idle? then s.(once := Entered(c)) else s
  }

  /** A non-nil error is collected unless it is a context error and shutdown has begun. */
  predicate IsFailure(s: State, err: Option<Err>) {
    err.Some? && (!(s.cancelled || s.parentDone) || !err.value.isContext)
  }

  /** The servers whose drain failed, in registration order. */
  function FailedDrains(servers: seq<nat>, bad: set<nat>): seq<nat> {
    if servers == [] then []
    else (if servers[0] in bad then [servers[0]] else []) + FailedDrains(servers[1..], bad)
  }

  function DrainErrors(servers: seq<nat>): seq<Entry> {
    seq(|servers|, i requires 0 <= i < |servers| => DrainError(servers[i]))
  }

  function CauseOf(g: nat, v: Verdict): Cause {
    if v.Failed? then GoFailed(g, v.err) else UnexpectedExit(g)
  }

  function TakeAll(gos: seq<Goroutine>, pending: seq<nat>): seq<Goroutine> {
    seq(|gos|, g requires 0 <= g < |gos| => if g in pending then gos[g].(pc := Taken) else gos[g])
  }

  ghost function Next(s: State, a: Action): State
    requires Enabled(s, a)
  {
    match a
    case Require => Register(s, None)
    case ServeFirst =>
      s.(servers := s.servers + [Server(!s.stopped, false)],
         serverTeardowns := if s.stopped then s.serverTeardowns else s.serverTeardowns + [|s.servers|])
    case ServeSecond(v) => Register(s.(servers := s.servers[v := s.servers[v].(registered := true)]), Some(v))
    case Defer(cb) => if s.stopped then s else s.(callbacks := s.callbacks + [cb])
    case StartGo(g) => s.(gos := Move(s.gos, g, Running))
    case RunStart => s.(started := true, pending := [], run := Spawning(s.pending), gos := TakeAll(s.gos, s.pending))
    case SpawnNext =>
      s.(run := Spawning(s.run.rest[1..]), gos := Move(s.gos, s.run.rest[0], Running), wg := s.wg + 1)
    case BecomeReady => s.(run := Blocked)
    case StopRegistration =>
      s.(stopped := true, run := Draining, local := Teardown(s.serverTeardowns, s.callbacks, [], []))
    case CollectDrains(bad) =>
      var failed := FailedDrains(s.local.servers, bad);
      s.(run := CallingBack, local := s.local.(failed := failed), errs := s.errs + DrainErrors(failed))
    case FinishCallbacks => s.(run := Waiting)
    case FinishRun => s.(run := Finished, local := s.local.(result := s.errs))
    case EndParent => s.(parentDone := true)
    case ShutdownBy(c) => EnterShutdown(s, c)
    case RecordCause => s.(once := Recorded(s.once.c), cause := Some(s.once.c), stopped := true)
    case CancelContext => s.(once := Complete(s.once.c), cancelled := true)
    case GoReturns(g, err) =>
      s.(gos := Move(s.gos, g, if IsFailure(s, err) then Collecting(err.value) else Checking),
         said := s.said[g := Said(err, s.cancelled || s.parentDone)])
    case Collect(g) =>
      var err := s.gos[g].pc.err;
      s.(errs := s.errs + [GoError(g, err)], gos := Move(s.gos, g, Triggering(Failed(err))))
    case CheckExit(g) => s.(gos := Move(s.gos, g, if s.cancelled then Ended(Clean) else Triggering(EarlyExit)))
    case GoShutdown(g) => EnterShutdown(s, CauseOf(g, s.gos[g].pc.verdict))
    case GoPastShutdown(g) => s.(gos := Move(s.gos, g, Ended(s.gos[g].pc.verdict)))
    case GoDone(g) => s.(gos := Move(s.gos, g, Done(s.gos[g].pc.verdict)), wg := s.wg - 1)
  }

  ghost predicate IsRun(s: State, acts: seq<Action>)
    decreases |acts|
  {
    acts == [] || (Enabled(s, acts[0]) && IsRun(Next(s, acts[0]), acts[1..]))
  }

  ghost function Exec(s: State, acts: seq<Action>): State
    requires IsRun(s, acts)
    decreases |acts|
  {
    if acts == [] then s else Exec(Next(s, acts[0]), acts[1..])
  }

  // ---------------------------------------------------------------- the invariant

  /** Run starts registration's second regime; only shutdown or run closes registration. */
  ghost predicate PhasesInv(s: State) {
    && (s.started <==> !s.run.NotRun?)
    && (s.started ==> s.pending == [])
    && (s.run.Stopping() ==> s.stopped && s.cancelled)
    && (match s.once
        case Idle => s.cause == None && !s.cancelled && !s.stopped
        case Entered(_) => s.cause == None && !s.cancelled && !s.stopped
        case Recorded(c) => s.cause == Some(c) && !s.cancelled && s.stopped
        case Complete(c) => s.cause == Some(c) && s.cancelled && s.stopped)
  }

  /** The goroutines waiting for Run are in pending, then in the list run took, each once. */
  ghost predicate QueuesInv(s: State) {
    && NoDuplicates(s.pending)
    && (forall g :: g in s.pending ==> At(s, g, Queued))
    && (s.run.Spawning? ==> NoDuplicates(s.run.rest) && forall g :: g in s.run.rest ==> At(s, g, Taken))
  }

  ghost predicate QueuedInv(s: State, g: nat)
    requires g < |s.gos|
  {
    && (s.gos[g].pc.Queued? ==> g in s.pending)
    && (s.gos[g].pc.Taken? ==> s.run.Spawning? && g in s.run.rest)
  }

  /** Counted goroutines, as summands. */
  ghost function Counts(gos: seq<Goroutine>): seq<int> {
    seq(|gos|, g requires 0 <= g < |gos| => Count(gos[g].pc.Counted()))
  }

  ghost predicate CountInv(s: State) {
    s.wg == Sum(Counts(s.gos))
  }

  /** In registration order. */
  ghost predicate Increasing(servers: seq<nat>) {
    forall i, j :: 0 <= i < j < |servers| ==> servers[i] < servers[j]
  }

  /** A server's goroutine is accepted only after its shutdown was. */
  ghost predicate ServersInv(s: State) {
    && Increasing(s.serverTeardowns) && (forall v :: v in s.serverTeardowns ==> v < |s.servers|)
    && (forall v :: 0 <= v < |s.servers| ==>
      (s.servers[v].added <==> v in s.serverTeardowns) && (s.stopped || s.servers[v].added))
    && (forall g :: 0 <= g < |s.gos| && s.gos[g].server.Some? ==>
      s.gos[g].server.value < |s.servers|
      && (s.gos[g].pc.Rejected? || s.servers[s.gos[g].server.value].added))
  }

  /** Once registration is closed by run, its snapshots are all there ever will be. */
  ghost predicate SnapshotInv(s: State) {
    s.run.Stopping() ==> s.local.servers == s.serverTeardowns && s.local.callbacks == s.callbacks
  }

  /** The servers of the drain errors in errs, in order. */
  function DrainsOf(errs: seq<Entry>): seq<nat> {
    if errs == [] then []
    else
      var last := errs[|errs| - 1];
      DrainsOf(errs[..|errs| - 1]) + (if last.DrainError? then [last.server] else [])
  }

  /** Each goroutine error recorded is by a goroutine that failed with it. */
  ghost predicate GoErrorsSound(gos: seq<Goroutine>, errs: seq<Entry>) {
    forall g: nat, err: Err :: GoError(g, err) in errs ==> g < |gos| && FailedWith(gos[g].pc, err)
  }

  /** Each goroutine that failed has its error recorded. */
  ghost predicate GoErrorsComplete(gos: seq<Goroutine>, errs: seq<Entry>) {
    forall g: nat :: g < |gos| && gos[g].pc.HasVerdict() && gos[g].pc.verdict.Failed? ==>
      GoError(g, gos[g].pc.verdict.err) in errs
  }

  /** The drain errors are run's failed drains, in order, once it has recorded them. */
  ghost predicate DrainErrorsInv(s: State) {
    && DrainsOf(s.errs) == s.local.failed && Increasing(s.local.failed)
    && (s.run.CallingBack? || s.run.Waiting? || s.run.Finished? || s.local.failed == [])
  }

  ghost predicate ErrsInv(s: State) {
    NoDuplicates(s.errs) && GoErrorsSound(s.gos, s.errs) && GoErrorsComplete(s.gos, s.errs) && DrainErrorsInv(s)
  }

  predicate FailedWith(pc: GoPc, err: Err) {
    pc.HasVerdict() && pc.verdict == Failed(err)
  }

  /** A goroutine's error is recorded before it can become the cause. */
  ghost predicate CauseInv(s: State) {
    !s.once.Idle? && s.once.c.GoFailed? ==> GoError(s.once.c.g, s.once.c.err) in s.errs
  }

  ghost predicate ResultInv(s: State) {
    s.run.Finished? ==>
      && s.local.result <= s.errs && DrainsOf(s.local.result) == s.local.failed
      && (s.once.Complete? && s.once.c.GoFailed? ==> GoError(s.once.c.g, s.once.c.err) in s.local.result)
  }

  ghost predicate Inv(s: State) {
    && PhasesInv(s) && QueuesInv(s) && (forall g :: 0 <= g < |s.gos| ==> QueuedInv(s, g))
    && CountInv(s) && ServersInv(s) && SnapshotInv(s) && ErrsInv(s) && CauseInv(s) && ResultInv(s)
  }

  /** run's own steps. */
  predicate IsRunStep(a: Action) {
    a.RunStart? || a.SpawnNext? || a.BecomeReady? || a.StopRegistration? || a.CollectDrains? || a.FinishCallbacks? || a.FinishRun?
  }

  /** The steps of shutdown, whoever takes them. */
  predicate IsShutdownStep(a: Action) {
    a.ShutdownBy? || a.GoShutdown? || a.RecordCause? || a.CancelContext?
  }

  lemma RunStepKeepsPhases(s: State, a: Action)
    requires PhasesInv(s) && Enabled(s, a) && IsRunStep(a)
    ensures PhasesInv(Next(s, a))
  {}

  lemma ShutdownStepKeepsPhases(s: State, a: Action)
    requires PhasesInv(s) && Enabled(s, a) && IsShutdownStep(a)
    ensures PhasesInv(Next(s, a))
  {}

  /** No other step touches the phases, except that registration may queue a goroutine before Run. */
  lemma PhasesStay(s: State, a: Action)
    requires Enabled(s, a) && !IsRunStep(a) && !IsShutdownStep(a)
    ensures var s' := Next(s, a);
      && s'.started == s.started && s'.run == s.run && (s.started ==> s'.pending == s.pending)
      && s'.stopped == s.stopped && s'.once == s.once && s'.cause == s.cause && s'.cancelled == s.cancelled
  {}

  lemma StepKeepsPhases(s: State, a: Action)
    requires PhasesInv(s) && Enabled(s, a)
    ensures PhasesInv(Next(s, a))
  {
    if IsRunStep(a) {
      RunStepKeepsPhases(s, a);
    } else if IsShutdownStep(a) {
      ShutdownStepKeepsPhases(s, a);
    } else {
      PhasesStay(s, a);
    }
  }

  lemma RunStartKeepsQueues(s: State)
    requires QueuesInv(s) && Enabled(s, RunStart)
    ensures QueuesInv(Next(s, RunStart))
  {
    forall g | g in s.pending ensures At(Next(s, RunStart), g, Taken) {
      assert At(s, g, Queued);
    }
  }

  lemma SpawnNextKeepsQueues(s: State)
    requires QueuesInv(s) && Enabled(s, SpawnNext)
    ensures QueuesInv(Next(s, SpawnNext))
  {
    var s' := Next(s, SpawnNext);
    forall g | g in s'.run.rest ensures At(s', g, Taken) {
      assert g in s.run.rest && g != s.run.rest[0];
    }
    forall g | g in s'.pending ensures At(s', g, Queued) {
      assert At(s, g, Queued) && At(s, s.run.rest[0], Taken);
    }
  }

  lemma RegisterKeepsQueues(s: State, server: Option<nat>)
    requires QueuesInv(s)
    ensures QueuesInv(Register(s, server))
  {
    forall i | 0 <= i < |s.pending| ensures s.pending[i] < |s.gos| { assert s.pending[i] in s.pending; }
  }

  /** A step of a goroutine that is neither queued nor taken, to such a place. */
  lemma MoveKeepsQueues(s: State, s': State, g: nat, pc: GoPc)
    requires QueuesInv(s) && g < |s.gos| && !s.gos[g].pc.Queued? && !s.gos[g].pc.Taken?
    requires s'.gos == Move(s.gos, g, pc) && s'.pending == s.pending && s'.run == s.run
    ensures QueuesInv(s')
  {
    assert forall j :: j in s.pending ==> At(s, j, Queued) && At(s', j, Queued);
  }

  /** The goroutine whose own step an action is. */
  function Mover(a: Action): Option<nat> {
    match a
    case StartGo(g) => Some(g)
    case GoReturns(g, _) => Some(g)
    case Collect(g) => Some(g)
    case CheckExit(g) => Some(g)
    case GoPastShutdown(g) => Some(g)
    case GoDone(g) => Some(g)
    case _ => None
  }

  /** What a goroutine's own step does. */
  lemma MoverMoves(s: State, a: Action)
    requires Enabled(s, a) && Mover(a).Some?
    ensures var g, s' := Mover(a).value, Next(s, a);
      && g < |s.gos| && s'.pending == s.pending && s'.run == s.run && |s'.gos| == |s.gos|
      && s'.gos == Move(s.gos, g, s'.gos[g].pc)
      && s.gos[g].pc.Counted() && (s'.gos[g].pc.Counted() <==> !a.GoDone?)
      && !s'.gos[g].pc.Queued? && !s'.gos[g].pc.Taken? && s'.gos[g].server == s.gos[g].server
      && s'.wg == s.wg - Count(a.GoDone?)
  {}

  predicate ChangesQueues(a: Action) {
    a.Require? || a.ServeSecond? || a.RunStart? || a.SpawnNext?
  }

  lemma RunStepLeavesQueues(s: State, a: Action)
    requires Enabled(s, a) && IsRunStep(a) && !ChangesQueues(a)
    ensures var s' := Next(s, a);
      && s'.gos == s.gos && s'.pending == s.pending && (s'.run.Spawning? ==> s'.run == s.run) && s'.wg == s.wg
  {}

  lemma OthersStay(s: State, a: Action)
    requires Enabled(s, a) && Mover(a) == None && !ChangesQueues(a)
    ensures var s' := Next(s, a);
      && s'.gos == s.gos && s'.pending == s.pending && (s'.run.Spawning? ==> s'.run == s.run) && s'.wg == s.wg
  {
    if IsRunStep(a) {
      RunStepLeavesQueues(s, a);
    } else {
      assert a.ServeFirst? || a.Defer? || a.EndParent? || IsShutdownStep(a);
    }
  }

  lemma StepKeepsQueues(s: State, a: Action)
    requires PhasesInv(s) && QueuesInv(s) && Enabled(s, a)
    ensures QueuesInv(Next(s, a))
  {
    if a.Require? {
      RegisterKeepsQueues(s, None);
    } else if a.ServeSecond? {
      RegisterKeepsQueues(s.(servers := s.servers[a.v := s.servers[a.v].(registered := true)]), Some(a.v));
    } else if a.RunStart? {
      RunStartKeepsQueues(s);
    } else if a.SpawnNext? {
      SpawnNextKeepsQueues(s);
    } else if Mover(a).Some? {
      MoverMoves(s, a);
      MoveKeepsQueues(s, Next(s, a), Mover(a).value, Next(s, a).gos[Mover(a).value].pc);
    } else {
      OthersStay(s, a);
    }
  }

  lemma StepKeepsQueued(s: State, a: Action, g: nat)
    requires PhasesInv(s) && QueuesInv(s) && Enabled(s, a) && g < |Next(s, a).gos|
    requires g < |s.gos| ==> QueuedInv(s, g)
    ensures QueuedInv(Next(s, a), g)
  {
    if Mover(a).Some? {
      MoverMoves(s, a);
    } else if a.Require? {
      RegisterKeepsQueued(s, None, g);
    } else if a.ServeSecond? {
      RegisterKeepsQueued(s.(servers := s.servers[a.v := s.servers[a.v].(registered := true)]), Some(a.v), g);
    } else if a.RunStart? {
      RunStartKeepsQueued(s, g);
    } else if a.SpawnNext? {
      SpawnNextKeepsQueued(s, g);
    } else {
      OthersStay(s, a);
      SpawningStays(s, a);
    }
  }

  lemma RegisterKeepsQueued(s: State, server: Option<nat>, g: nat)
    requires g < |Register(s, server).gos| && (g < |s.gos| ==> QueuedInv(s, g))
    ensures QueuedInv(Register(s, server), g)
  {}

  lemma RunStartKeepsQueued(s: State, g: nat)
    requires PhasesInv(s) && Enabled(s, RunStart) && g < |s.gos| && QueuedInv(s, g)
    ensures QueuedInv(Next(s, RunStart), g)
  {}

  lemma SpawnNextKeepsQueued(s: State, g: nat)
    requires Enabled(s, SpawnNext) && g < |s.gos| && QueuedInv(s, g)
    ensures QueuedInv(Next(s, SpawnNext), g)
  {}

  /** run leaves its spawn loop only when the list is empty. */
  lemma SpawningStays(s: State, a: Action)
    requires Enabled(s, a) && Mover(a) == None && !ChangesQueues(a)
    ensures s.run.Spawning? ==> Next(s, a).run == s.run || s.run.rest == []
  {}

  lemma ServeFirstKeepsServers(s: State)
    requires ServersInv(s)
    ensures ServersInv(Next(s, ServeFirst))
  {
    var s' := Next(s, ServeFirst);
    assert |s.servers| !in s.serverTeardowns;
    forall j | 0 <= j < |s.serverTeardowns| ensures s.serverTeardowns[j] < |s.servers| {
      assert s.serverTeardowns[j] in s.serverTeardowns;
    }
    forall v ensures v in s'.serverTeardowns <==> v in s.serverTeardowns || (!s.stopped && v == |s.servers|) {}
  }

  lemma ServeSecondKeepsServers(s: State, v: nat)
    requires ServersInv(s) && Enabled(s, ServeSecond(v))
    ensures ServersInv(Next(s, ServeSecond(v)))
  {}

  /** A goroutine keeps its server, and a refused one stays refused. */
  lemma RejectedStays(s: State, a: Action, g: nat)
    requires QueuesInv(s) && Enabled(s, a) && g < |s.gos|
    ensures g < |Next(s, a).gos| && Next(s, a).gos[g].server == s.gos[g].server
    ensures s.gos[g].pc.Rejected? ==> Next(s, a).gos[g].pc.Rejected?
  {
    if a.RunStart? && g in s.pending { assert At(s, g, Queued); }
    if a.SpawnNext? { assert At(s, s.run.rest[0], Taken); }
  }

  ghost predicate SameServers(s: State, s': State) {
    s'.servers == s.servers && s'.serverTeardowns == s.serverTeardowns && (s.stopped ==> s'.stopped)
  }

  lemma RunStepKeepsSameServers(s: State, a: Action)
    requires Enabled(s, a) && (IsRunStep(a) || IsShutdownStep(a))
    ensures SameServers(s, Next(s, a))
  {}

  lemma GoStepKeepsSameServers(s: State, a: Action)
    requires Enabled(s, a) && Mover(a).Some?
    ensures SameServers(s, Next(s, a))
  {}

  lemma ServersStay(s: State, a: Action)
    requires Enabled(s, a) && !a.ServeFirst? && !a.ServeSecond?
    ensures SameServers(s, Next(s, a))
  {
    if IsRunStep(a) || IsShutdownStep(a) {
      RunStepKeepsSameServers(s, a);
    } else if Mover(a).Some? {
      GoStepKeepsSameServers(s, a);
    } else {
      assert a.Require? || a.Defer? || a.EndParent?;
    }
  }

  /** Only Require and Serve bring goroutines, and Require's has no server. */
  lemma NewcomersHaveNoServer(s: State, a: Action, g: nat)
    requires Enabled(s, a) && !a.ServeSecond? && |s.gos| <= g < |Next(s, a).gos|
    ensures Next(s, a).gos[g].server == None
  {
    if Mover(a).Some? {
      MoverMoves(s, a);
    } else if !ChangesQueues(a) {
      OthersStay(s, a);
    }
  }

  lemma OtherStepKeepsServers(s: State, a: Action)
    requires PhasesInv(s) && QueuesInv(s) && ServersInv(s) && Enabled(s, a) && !a.ServeFirst? && !a.ServeSecond?
    ensures ServersInv(Next(s, a))
  {
    var s' := Next(s, a);
    ServersStay(s, a);
    forall g | 0 <= g < |s'.gos| && s'.gos[g].server.Some?
      ensures s'.gos[g].server.value < |s.servers|
      ensures s'.gos[g].pc.Rejected? || s.servers[s'.gos[g].server.value].added
    {
      if g < |s.gos| { RejectedStays(s, a, g); } else { NewcomersHaveNoServer(s, a, g); }
    }
  }

  lemma StepKeepsServers(s: State, a: Action)
    requires PhasesInv(s) && QueuesInv(s) && ServersInv(s) && Enabled(s, a)
    ensures ServersInv(Next(s, a))
  {
    match a
    case ServeFirst => ServeFirstKeepsServers(s);
    case ServeSecond(v) => ServeSecondKeepsServers(s, v);
    case _ => OtherStepKeepsServers(s, a);
  }

  lemma StepKeepsSnapshot(s: State, a: Action)
    requires PhasesInv(s) && SnapshotInv(s) && Enabled(s, a)
    ensures SnapshotInv(Next(s, a))
  {}

  lemma CountsAppend(gos: seq<Goroutine>, x: Goroutine)
    ensures Sum(Counts(gos + [x])) == Sum(Counts(gos)) + Count(x.pc.Counted())
  {
    assert Counts(gos + [x]) == Counts(gos) + [Count(x.pc.Counted())];
    SumAppend(Counts(gos), [Count(x.pc.Counted())]);
  }

  lemma CountsMove(gos: seq<Goroutine>, g: nat, pc: GoPc)
    requires g < |gos|
    ensures Sum(Counts(Move(gos, g, pc))) == Sum(Counts(gos)) - Count(gos[g].pc.Counted()) + Count(pc.Counted())
  {
    assert Counts(Move(gos, g, pc)) == Counts(gos)[g := Count(pc.Counted())];
    SumUpdate(Counts(gos), g, Count(pc.Counted()));
  }

  lemma TakingKeepsCounts(gos: seq<Goroutine>, pending: seq<nat>)
    requires forall g :: g in pending ==> g < |gos| && gos[g].pc.Queued?
    ensures Counts(TakeAll(gos, pending)) == Counts(gos)
  {}

  lemma StepKeepsCount(s: State, a: Action)
    requires QueuesInv(s) && CountInv(s) && Enabled(s, a)
    ensures CountInv(Next(s, a))
  {
    var s' := Next(s, a);
    if a.Require? || a.ServeSecond? {
      CountsAppend(s.gos, s'.gos[|s.gos|]);
    } else if a.RunStart? {
      TakingKeepsCounts(s.gos, s.pending);
    } else if a.SpawnNext? {
      assert At(s, s.run.rest[0], Taken);
      CountsMove(s.gos, s.run.rest[0], Running);
    } else if Mover(a).Some? {
      MoverMoves(s, a);
      CountsMove(s.gos, Mover(a).value, s'.gos[Mover(a).value].pc);
    } else {
      OthersStay(s, a);
    }
  }

  // The recorded errors.

  lemma {:induction false} DrainsOfAppend(errs: seq<Entry>, more: seq<Entry>)
    ensures DrainsOf(errs + more) == DrainsOf(errs) + DrainsOf(more)
    decreases |more|
  {
    if more == [] {
      assert errs + more == errs;
    } else {
      var init := more[..|more| - 1];
      assert (errs + more)[..|errs + more| - 1] == errs + init;
      DrainsOfAppend(errs, init);
    }
  }

  lemma {:induction false} DrainsOfDrainErrors(servers: seq<nat>)
    ensures DrainsOf(DrainErrors(servers)) == servers
    decreases |servers|
  {
    if servers != [] {
      var init := servers[..|servers| - 1];
      assert DrainErrors(servers)[..|servers| - 1] == DrainErrors(init);
      DrainsOfDrainErrors(init);
    }
  }

  lemma {:induction false} DrainMember(errs: seq<Entry>, v: nat)
    ensures DrainError(v) in errs <==> v in DrainsOf(errs)
    decreases |errs|
  {
    if errs != [] {
      DrainMember(errs[..|errs| - 1], v);
      assert errs == errs[..|errs| - 1] + [errs[|errs| - 1]];
    }
  }

  lemma IncreasingCons(v: nat, rest: seq<nat>)
    requires Increasing(rest) && forall w :: w in rest ==> v < w
    ensures Increasing([v] + rest)
  {
    forall j | 0 <= j < |rest| ensures v < rest[j] { assert rest[j] in rest; }
  }

  lemma {:induction false} FailedDrainsProperties(servers: seq<nat>, bad: set<nat>)
    requires Increasing(servers)
    ensures Increasing(FailedDrains(servers, bad))
    ensures forall v :: v in FailedDrains(servers, bad) <==> v in servers && v in bad
    decreases |servers|
  {
    if servers != [] {
      var tail := servers[1..];
      FailedDrainsProperties(tail, bad);
      forall w | w in FailedDrains(tail, bad) ensures servers[0] < w {
        var j :| 0 <= j < |tail| && tail[j] == w;
        assert servers[j + 1] == w;
      }
      assert servers == [servers[0]] + tail;
      IncreasingCons(servers[0], FailedDrains(tail, bad));
      assert [] + FailedDrains(tail, bad) == FailedDrains(tail, bad);
    }
  }

  lemma CollectDrainsKeepsErrs(s: State, bad: set<nat>)
    requires ErrsInv(s) && ServersInv(s) && SnapshotInv(s) && Enabled(s, CollectDrains(bad))
    ensures ErrsInv(Next(s, CollectDrains(bad)))
  {
    var failed := FailedDrains(s.local.servers, bad);
    FailedDrainsProperties(s.local.servers, bad);
    DrainsOfAppend(s.errs, DrainErrors(failed));
    DrainsOfDrainErrors(failed);
    forall e | e in DrainErrors(failed) ensures e.DrainError? && e !in s.errs {
      DrainMember(s.errs, e.server);
    }
    NoDuplicatesAppend(s.errs, DrainErrors(failed));
    SameGoErrors(s.gos, s.gos, s.errs, s.errs + DrainErrors(failed));
  }

  /** Goroutine errors keep matching while no verdict changes and no goroutine error is added. */
  lemma SameGoErrors(gos: seq<Goroutine>, gos': seq<Goroutine>, errs: seq<Entry>, errs': seq<Entry>)
    requires GoErrorsSound(gos, errs) && GoErrorsComplete(gos, errs)
    requires forall e: Entry :: e.GoError? ==> (e in errs' <==> e in errs)
    requires forall g: nat :: g < |gos'| ==> SameVerdict(gos, gos', g)
    requires |gos| <= |gos'|
    ensures GoErrorsSound(gos', errs') && GoErrorsComplete(gos', errs')
  {
    forall g: nat, err: Err | GoError(g, err) in errs' ensures g < |gos'| && FailedWith(gos'[g].pc, err) {
      assert GoError(g, err) in errs && SameVerdict(gos, gos', g);
    }
    forall g: nat | g < |gos'| && gos'[g].pc.HasVerdict() && gos'[g].pc.verdict.Failed?
      ensures GoError(g, gos'[g].pc.verdict.err) in errs'
    {
      assert SameVerdict(gos, gos', g);
    }
  }

  /** Goroutine g is new without a failure, or has the failure, or lack of one, it had. */
  ghost predicate SameVerdict(gos: seq<Goroutine>, gos': seq<Goroutine>, g: nat)
    requires g < |gos'|
  {
    Failure(gos'[g].pc) == if g < |gos| then Failure(gos[g].pc) else None
  }

  function Failure(pc: GoPc): Option<Err> {
    if pc.HasVerdict() && pc.verdict.Failed? then Some(pc.verdict.err) else None
  }

  lemma CollectKeepsErrs(s: State, g: nat)
    requires ErrsInv(s) && Enabled(s, Collect(g))
    ensures ErrsInv(Next(s, Collect(g)))
  {
    var s' := Next(s, Collect(g));
    var e := GoError(g, s.gos[g].pc.err);
    DrainsOfAppend(s.errs, [e]);
    assert DrainsOf([e]) == DrainsOf([]) + [];
    assert e !in s.errs;
    NoDuplicatesAppend(s.errs, [e]);
    forall h: nat, err: Err | GoError(h, err) in s'.errs ensures h < |s'.gos| && FailedWith(s'.gos[h].pc, err) {
      assert GoError(h, err) in s.errs || GoError(h, err) == e;
    }
    assert e in s'.errs;
  }

  lemma StepKeepsVerdicts(s: State, a: Action, g: nat)
    requires QueuesInv(s) && Enabled(s, a) && !a.Collect? && g < |Next(s, a).gos|
    ensures |s.gos| <= |Next(s, a).gos| && SameVerdict(s.gos, Next(s, a).gos, g)
  {
    if a.RunStart? && g in s.pending { assert At(s, g, Queued); }
    if a.SpawnNext? { assert At(s, s.run.rest[0], Taken); }
  }

  lemma VerdictsSame(s: State, a: Action)
    requires QueuesInv(s) && Enabled(s, a) && !a.Collect?
    ensures |s.gos| <= |Next(s, a).gos|
    ensures forall g: nat :: g < |Next(s, a).gos| ==> SameVerdict(s.gos, Next(s, a).gos, g)
  {
    forall g: nat | g < |Next(s, a).gos| ensures SameVerdict(s.gos, Next(s, a).gos, g) {
      StepKeepsVerdicts(s, a, g);
    }
    GosStay(s, a);
  }

  lemma GosStay(s: State, a: Action)
    requires Enabled(s, a)
    ensures |s.gos| <= |Next(s, a).gos|
  {
    if Mover(a).Some? {
      MoverMoves(s, a);
    } else if !ChangesQueues(a) {
      OthersStay(s, a);
    }
  }

  lemma OtherStepKeepsErrs(s: State, a: Action)
    requires QueuesInv(s) && ErrsInv(s) && Enabled(s, a) && !a.CollectDrains? && !a.Collect?
    ensures ErrsInv(Next(s, a))
  {
    OtherStepKeepsDrains(s, a);
    VerdictsSame(s, a);
    SameGoErrors(s.gos, Next(s, a).gos, s.errs, s.errs);
  }

  lemma OtherStepKeepsDrains(s: State, a: Action)
    requires DrainErrorsInv(s) && Enabled(s, a) && !a.CollectDrains? && !a.Collect?
    ensures DrainErrorsInv(Next(s, a)) && Next(s, a).errs == s.errs
  {}

  lemma StepKeepsErrs(s: State, a: Action)
    requires PhasesInv(s) && QueuesInv(s) && ServersInv(s) && SnapshotInv(s) && ErrsInv(s) && Enabled(s, a)
    ensures ErrsInv(Next(s, a))
  {
    if a.CollectDrains? {
      CollectDrainsKeepsErrs(s, a.bad);
    } else if a.Collect? {
      CollectKeepsErrs(s, a.g);
    } else {
      OtherStepKeepsErrs(s, a);
    }
  }

  lemma StepKeepsCause(s: State, a: Action)
    requires ErrsInv(s) && CauseInv(s) && Enabled(s, a)
    ensures CauseInv(Next(s, a))
  {}

  lemma RunStepKeepsResult(s: State, a: Action)
    requires PhasesInv(s) && DrainErrorsInv(s) && CauseInv(s) && ResultInv(s) && Enabled(s, a) && IsRunStep(a)
    ensures ResultInv(Next(s, a))
  {}

  lemma ShutdownStepKeepsResult(s: State, a: Action)
    requires PhasesInv(s) && ResultInv(s) && Enabled(s, a) && IsShutdownStep(a)
    ensures ResultInv(Next(s, a))
  {}

  lemma StepKeepsResult(s: State, a: Action)
    requires PhasesInv(s) && DrainErrorsInv(s) && CauseInv(s) && ResultInv(s) && Enabled(s, a)
    ensures ResultInv(Next(s, a))
  {
    if IsRunStep(a) {
      RunStepKeepsResult(s, a);
    } else if IsShutdownStep(a) {
      ShutdownStepKeepsResult(s, a);
    } else {
      PhasesStay(s, a);
      assert Next(s, a).local == s.local && s.errs <= Next(s, a).errs;
    }
  }

  lemma StepKeepsInv(s: State, a: Action)
    requires Inv(s) && Enabled(s, a)
    ensures Inv(Next(s, a))
  {
    StepKeepsPhases(s, a);
    StepKeepsQueues(s, a);
    forall g | 0 <= g < |Next(s, a).gos| ensures QueuedInv(Next(s, a), g) { StepKeepsQueued(s, a, g); }
    StepKeepsCount(s, a);
    StepKeepsServers(s, a);
    StepKeepsSnapshot(s, a);
    StepKeepsErrs(s, a);
    StepKeepsCause(s, a);
    StepKeepsResult(s, a);
  }

  lemma {:induction false} RunKeepsInv(s: State, acts: seq<Action>)
    requires Inv(s) && IsRun(s, acts)
    ensures Inv(Exec(s, acts))
    decreases |acts|
  {
    if acts != [] {
      StepKeepsInv(s, acts[0]);
      RunKeepsInv(Next(s, acts[0]), acts[1..]);
    }
  }

  // ---------------------------------------------------------------- what holds after every run

  lemma ReachableHasInv(s: State, acts: seq<Action>)
    requires Init(s) && IsRun(s, acts)
    ensures Inv(Exec(s, acts))
  {
    RunKeepsInv(s, acts);
  }

  /**
    Nothing accepted is lost: once run waits for the goroutines, each one is refused or has been
    counted, and the wait group is at zero exactly when every accepted one is done.
   */
  lemma AcceptedGoroutinesAreAwaited(s: State, acts: seq<Action>)
    requires Init(s) && IsRun(s, acts)
    requires Exec(s, acts).run.Waiting? || Exec(s, acts).run.Finished?
    ensures var t := Exec(s, acts);
      && (forall g :: 0 <= g < |t.gos| ==> t.gos[g].pc.Rejected? || t.gos[g].pc.Counted() || t.gos[g].pc.Done?)
      && t.wg >= 0
      && (t.wg == 0 <==> forall g :: 0 <= g < |t.gos| ==> t.gos[g].pc.Rejected? || t.gos[g].pc.Done?)
  {
    ReachableHasInv(s, acts);
    var t := Exec(s, acts);
    forall g | 0 <= g < |t.gos| ensures t.gos[g].pc.Rejected? || t.gos[g].pc.Counted() || t.gos[g].pc.Done? {
      assert QueuedInv(t, g);
    }
    ZeroIffNoneCounted(t.gos);
  }

  lemma {:induction false} ZeroIffNoneCounted(gos: seq<Goroutine>)
    ensures Sum(Counts(gos)) >= 0
    ensures Sum(Counts(gos)) == 0 <==> forall g :: 0 <= g < |gos| ==> !gos[g].pc.Counted()
    decreases |gos|
  {
    if gos != [] {
      var init := gos[..|gos| - 1];
      assert gos == init + [gos[|gos| - 1]];
      CountsAppend(init, gos[|gos| - 1]);
      ZeroIffNoneCounted(init);
    }
  }

  /** No goroutine is added to the wait group once it is being waited on. */
  lemma NoAddAfterWait(s: State, acts: seq<Action>, a: Action)
    requires Init(s) && IsRun(s, acts) && Enabled(Exec(s, acts), a)
    requires Exec(s, acts).run.Waiting? || Exec(s, acts).run.Finished?
    ensures Next(Exec(s, acts), a).wg <= Exec(s, acts).wg
  {
    ReachableHasInv(s, acts);
  }

  lemma StepAdvancesPhase(s: State, a: Action, g: nat)
    requires QueuesInv(s) && Enabled(s, a) && g < |s.gos|
    ensures g < |Next(s, a).gos|
    ensures s.gos[g].pc == Next(s, a).gos[g].pc || s.gos[g].pc.Phase() < Next(s, a).gos[g].pc.Phase()
  {
    if a.RunStart? && g in s.pending { assert At(s, g, Queued); }
    if a.SpawnNext? { assert At(s, s.run.rest[0], Taken); }
  }

  /** A goroutine only moves forward, so it is started at most once and never after it is done. */
  lemma {:induction false} PhasesOnlyAdvance(s: State, acts: seq<Action>, g: nat)
    requires Inv(s) && IsRun(s, acts) && g < |s.gos|
    ensures g < |Exec(s, acts).gos|
    ensures s.gos[g].pc == Exec(s, acts).gos[g].pc || s.gos[g].pc.Phase() < Exec(s, acts).gos[g].pc.Phase()
    decreases |acts|
  {
    if acts != [] {
      StepAdvancesPhase(s, acts[0], g);
      StepKeepsInv(s, acts[0]);
      PhasesOnlyAdvance(Next(s, acts[0]), acts[1..], g);
    }
  }

  /**
    The lists run tears down are complete: every callback and server shutdown ever accepted, and so
    the shutdown of every server whose goroutine was, although Serve registers the two separately.
   */
  lemma SnapshotsAreComplete(s: State, acts: seq<Action>)
    requires Init(s) && IsRun(s, acts) && Exec(s, acts).run.Stopping()
    ensures var t := Exec(s, acts);
      && t.local.callbacks == t.callbacks
      && t.local.servers == t.serverTeardowns
      && (forall v :: 0 <= v < |t.servers| && t.servers[v].added ==> v in t.local.servers)
      && (forall g :: 0 <= g < |t.gos| && t.gos[g].server.Some? && !t.gos[g].pc.Rejected? ==>
        t.gos[g].server.value in t.local.servers)
  {
    ReachableHasInv(s, acts);
  }

  lemma {:induction false} OnceStays(s: State, acts: seq<Action>)
    requires Inv(s) && IsRun(s, acts) && !s.once.Idle?
    ensures var t := Exec(s, acts);
      && !t.once.Idle? && t.once.c == s.once.c
      && (s.cause.Some? ==> t.cause == s.cause) && (s.cancelled ==> t.cancelled)
    decreases |acts|
  {
    if acts != [] {
      var next := Next(s, acts[0]);
      assert !next.once.Idle? && next.once.c == s.once.c && (s.cancelled ==> next.cancelled);
      StepKeepsInv(s, acts[0]);
      OnceStays(next, acts[1..]);
    }
  }

  /**
    The first cause wins and is final: it is written before the context is cancelled, so whoever
    sees the cancellation sees a cause that no later step changes.
   */
  lemma CauseIsFinal(s: State, acts: seq<Action>, more: seq<Action>)
    requires Init(s) && IsRun(s, acts) && IsRun(Exec(s, acts), more)
    ensures Exec(s, acts).cancelled ==> Exec(s, acts).cause.Some?
    ensures Exec(s, acts).cause.Some? ==> Exec(Exec(s, acts), more).cause == Exec(s, acts).cause
  {
    ReachableHasInv(s, acts);
    if !Exec(s, acts).once.Idle? { OnceStays(Exec(s, acts), more); }
  }

  /** If a goroutine's error is the cause, Run returns it, even if the budget ran out first. */
  lemma CauseIsInResult(s: State, acts: seq<Action>, g: nat, err: Err)
    requires Init(s) && IsRun(s, acts) && Exec(s, acts).run.Finished?
    requires Exec(s, acts).cause == Some(GoFailed(g, err))
    ensures GoError(g, err) in Exec(s, acts).local.result
  {
    ReachableHasInv(s, acts);
  }

  /** Whatever happens, Run returns every failed drain in order, and otherwise only errors goroutines failed with. */
  lemma ResultIsGenuine(s: State, acts: seq<Action>)
    requires Init(s) && IsRun(s, acts) && Exec(s, acts).run.Finished?
    ensures var t := Exec(s, acts);
      && NoDuplicates(t.local.result)
      && DrainsOf(t.local.result) == t.local.failed
      && (forall v: nat :: DrainError(v) in t.local.result <==> v in t.local.failed)
      && (forall g: nat, err: Err :: GoError(g, err) in t.local.result ==>
        g < |t.gos| && FailedWith(t.gos[g].pc, err))
  {
    ReachableHasInv(s, acts);
    var t := Exec(s, acts);
    forall v: nat ensures DrainError(v) in t.local.result <==> v in t.local.failed {
      DrainMember(t.local.result, v);
    }
    forall g: nat, err: Err | GoError(g, err) in t.local.result
      ensures g < |t.gos| && FailedWith(t.gos[g].pc, err)
    {
      assert GoError(g, err) in t.errs;
    }
  }

  /** If every goroutine was done before the final read, Run's errors are also all there are, one for each failure. */
  lemma ResultIsExactWhenDrained(s: State, acts: seq<Action>)
    requires Init(s) && IsRun(s, acts) && Exec(s, acts).run.Waiting? && Exec(s, acts).wg == 0
    ensures var t := Next(Exec(s, acts), FinishRun);
      && NoDuplicates(t.local.result)
      && DrainsOf(t.local.result) == t.local.failed
      && (forall g: nat, err: Err :: GoError(g, err) in t.local.result <==> At(t, g, Done(Failed(err))))
  {
    ReachableHasInv(s, acts);
    AcceptedGoroutinesAreAwaited(s, acts);
    var before := Exec(s, acts);
    var t := Next(before, FinishRun);
    assert t.local.result == before.errs && t.gos == before.gos;
    forall g: nat, err: Err ensures GoError(g, err) in t.local.result <==> At(t, g, Done(Failed(err))) {
      if GoError(g, err) in before.errs { assert FailedWith(before.gos[g].pc, err); }
    }
  }

  /** Before Run starts, every goroutine is refused or queued. */
  ghost predicate BeforeRun(s: State) {
    s.run.NotRun? ==> forall g :: 0 <= g < |s.gos| ==> s.gos[g].pc.Rejected? || s.gos[g].pc.Queued?
  }

  lemma StepKeepsBeforeRun(s: State, a: Action)
    requires PhasesInv(s) && BeforeRun(s) && Enabled(s, a)
    ensures BeforeRun(Next(s, a))
  {}

  lemma {:induction false} RunKeepsBeforeRun(s: State, acts: seq<Action>)
    requires Inv(s) && BeforeRun(s) && IsRun(s, acts)
    ensures BeforeRun(Exec(s, acts))
    decreases |acts|
  {
    if acts != [] {
      StepKeepsInv(s, acts[0]);
      StepKeepsBeforeRun(s, acts[0]);
      RunKeepsBeforeRun(Next(s, acts[0]), acts[1..]);
    }
  }

  /** Nothing has been started before Run. */
  lemma NothingStartsBeforeRun(s: State, acts: seq<Action>)
    requires Init(s) && IsRun(s, acts)
    ensures Inv(Exec(s, acts)) && BeforeRun(Exec(s, acts))
  {
    ReachableHasInv(s, acts);
    RunKeepsBeforeRun(s, acts);
  }
}
