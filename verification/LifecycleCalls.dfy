/**
  What whole calls of a lifecycle.Group come to when nothing else happens meanwhile: shutdown, the start
  of Run, a goroutine's end during shutdown, and a whole Run.
 */
module LifecycleCalls {
  import opened Basics
  import opened LifecycleModel

  /** How a goroutine's function ends once the group is shutting down: when, if ever, and with what error. */
  datatype Ending = Ending(at: Option<int>, err: Option<Err>)
  {
    predicate By(t: int) { at.Some? && at.value <= t }
  }

  /** When the last of some goroutines is back, if all ever are. */
  function AllBack(taken: seq<nat>, endings: nat -> Ending, t0: int): Option<int> {
    if taken == [] then Some(t0)
    else
      var last, before := endings(taken[|taken| - 1]).at, AllBack(taken[..|taken| - 1], endings, t0);
      if last.None? || before.None? then None else Some(Max(last.value, before.value))
  }

  lemma {:induction false} AllBackMeans(taken: seq<nat>, endings: nat -> Ending, t0: int, t: int)
    requires t0 <= t
    ensures AllBack(taken, endings, t0).Some? && AllBack(taken, endings, t0).value <= t <==>
      forall g :: g in taken ==> endings(g).By(t)
    decreases |taken|
  {
    if taken != [] {
      var init, last := taken[..|taken| - 1], taken[|taken| - 1];
      AllBackMeans(init, endings, t0, t);
      assert taken == init + [last];
    }
  }

  /** How a goroutine that returns err during shutdown ends: a context error is a clean stop. */
  function VerdictOf(err: Option<Err>): Verdict {
    if err.Some? && !err.value.isContext then Failed(err.value) else Clean
  }

  function ShutDown(s: State, c: Cause): State {
    if s.once.Complete? then s
    else s.(once := Complete(c), cause := Some(c), stopped := true, cancelled := true)
  }

  lemma ShutDownKeepsInv(s: State, c: Cause)
    requires Inv(s) && (s.once.Idle? || s.once.Complete?) && Enabled(s, ShutdownBy(c))
    ensures Inv(ShutDown(s, c))
  {
    if s.once.Idle? {
      StepKeepsInv(s, ShutdownBy(c));
      var s1 := Next(s, ShutdownBy(c));
      StepKeepsInv(s1, RecordCause);
      StepKeepsInv(Next(s1, RecordCause), CancelContext);
    }
  }

  /** gos with those listed running. */
  function AllRunning(gos: seq<Goroutine>, list: seq<nat>): (r: seq<Goroutine>)
    ensures |r| == |gos|
  {
    seq(|gos|, g requires 0 <= g < |gos| => if g in list then gos[g].(pc := Running) else gos[g])
  }

  predicate InRange(s: State, taken: seq<nat>) {
    forall g :: g in taken ==> g < |s.gos|
  }

  /** A group that has spawned the first n of the goroutines taken. */
  function Spawned(s: State, taken: seq<nat>, n: nat): State
    requires n <= |taken|
  {
    s.(run := Spawning(taken[n..]), gos := AllRunning(s.gos, taken[..n]), wg := s.wg + n)
  }

  lemma SpawnedNext(s: State, taken: seq<nat>, n: nat)
    requires n < |taken| && taken[n] < |s.gos|
    ensures Enabled(Spawned(s, taken, n), SpawnNext)
    ensures Next(Spawned(s, taken, n), SpawnNext) == Spawned(s, taken, n + 1)
  {
    assert taken[..n + 1] == taken[..n] + [taken[n]];
    assert taken[n..][1..] == taken[n + 1..];
    assert Move(AllRunning(s.gos, taken[..n]), taken[n], Running) == AllRunning(s.gos, taken[..n + 1]);
  }

  lemma SpawnedNone(s: State, taken: seq<nat>)
    requires s.run == Spawning(taken)
    ensures Spawned(s, taken, 0) == s
  {
    assert taken[0..] == taken && AllRunning(s.gos, taken[..0]) == s.gos;
  }

  /** A group whose Run waits for its context. */
  function Begun(s: State): State {
    s.(started := true, pending := [], run := Blocked,
       gos := AllRunning(s.gos, s.pending), wg := s.wg + |s.pending|)
  }

  predicate CanEnd(s: State, g: nat) {
    s.once.Complete? && s.cancelled && At(s, g, Running)
  }

  /** The steps of a wrapper whose function has returned an error to collect, during shutdown. */
  lemma FailureEndsInSteps(s: State, g: nat, err: Option<Err>)
    requires CanEnd(s, g) && VerdictOf(err).Failed?
    ensures var s1 := Next(s, GoReturns(g, err));
      && At(s1, g, Collecting(err.value))
      && var s2 := Next(s1, Collect(g));
      && Enabled(s2, GoPastShutdown(g))
      && var s3 := Next(s2, GoPastShutdown(g));
      && Enabled(s3, GoDone(g)) && Next(s3, GoDone(g)) == GoEnded(s, g, err)
  {}

  /** The steps of one that has stopped cleanly. */
  lemma CleanStopEndsInSteps(s: State, g: nat, err: Option<Err>)
    requires CanEnd(s, g) && VerdictOf(err).Clean?
    ensures var s1 := Next(s, GoReturns(g, err));
      && At(s1, g, Checking)
      && var s3 := Next(s1, CheckExit(g));
      && Enabled(s3, GoDone(g)) && Next(s3, GoDone(g)) == GoEnded(s, g, err)
  {}

  lemma GoEndedKeepsInv(s: State, g: nat, err: Option<Err>)
    requires Inv(s) && CanEnd(s, g)
    ensures Inv(GoEnded(s, g, err))
  {
    if VerdictOf(err).Failed? { FailureEndsInSteps(s, g, err); } else { CleanStopEndsInSteps(s, g, err); }
    StepKeepsInv(s, GoReturns(g, err));
    var s1 := Next(s, GoReturns(g, err));
    var next := if VerdictOf(err).Failed? then Collect(g) else CheckExit(g);
    StepKeepsInv(s1, next);
    var s2 := Next(s1, next);
    if VerdictOf(err).Failed? {
      StepKeepsInv(s2, GoPastShutdown(g));
      StepKeepsInv(Next(s2, GoPastShutdown(g)), GoDone(g));
    } else {
      StepKeepsInv(s2, GoDone(g));
    }
  }

  /** A group whose goroutine g has returned err, during shutdown, and is done. */
  function GoEnded(s: State, g: nat, err: Option<Err>): State
    requires g < |s.gos|
  {
    var v := VerdictOf(err);
    s.(gos := Move(s.gos, g, Done(v)), said := s.said[g := Said(err, s.cancelled || s.parentDone)], wg := s.wg - 1,
       errs := if v.Failed? then s.errs + [GoError(g, v.err)] else s.errs)
  }

  // ---------------------------------------------------------------- a whole Run

  lemma {:induction false} SpawnedKeepsInv(s: State, taken: seq<nat>, n: nat)
    requires Inv(s) && s.run == Spawning(taken) && n <= |taken|
    ensures Inv(Spawned(s, taken, n)) && forall g :: g in taken ==> g < |s.gos|
    decreases n
  {
    forall g | g in taken ensures g < |s.gos| { assert At(s, g, Taken); }
    if n == 0 {
      SpawnedNone(s, taken);
    } else {
      SpawnedKeepsInv(s, taken, n - 1);
      assert taken[n - 1] in taken;
      SpawnedNext(s, taken, n - 1);
      StepKeepsInv(Spawned(s, taken, n - 1), SpawnNext);
    }
  }

  lemma BegunIsSpawned(s: State)
    requires s.run.NotRun?
    ensures var s1 := Spawned(Next(s, RunStart), s.pending, |s.pending|);
      Enabled(s1, BecomeReady) && Next(s1, BecomeReady) == Begun(s)
  {
    var s1 := Next(s, RunStart);
    assert AllRunning(s1.gos, s.pending) == AllRunning(s.gos, s.pending);
    assert s.pending[..|s.pending|] == s.pending && s.pending[|s.pending|..] == [];
  }

  lemma BegunKeepsInv(s: State)
    requires Inv(s) && s.run.NotRun?
    ensures Inv(Begun(s)) && InRange(s, s.pending)
  {
    var s1 := Next(s, RunStart);
    StepKeepsInv(s, RunStart);
    SpawnedKeepsInv(s1, s.pending, |s.pending|);
    BegunIsSpawned(s);
    StepKeepsInv(Spawned(s1, s.pending, |s.pending|), BecomeReady);
  }

  /** Registration closed, the lists to tear down taken. */
  function Stopped(s: State): State {
    s.(stopped := true, run := Draining, local := Teardown(s.serverTeardowns, s.callbacks, [], []))
  }

  /** Drains recorded, callbacks over. */
  function Drained(s: State, bad: set<nat>): State {
    var failed := FailedDrains(s.local.servers, bad);
    s.(run := Waiting, local := s.local.(failed := failed), errs := s.errs + DrainErrors(failed))
  }

  /** Of the first n goroutines taken, those that return by t have ended. */
  function EndedBy(s: State, taken: seq<nat>, endings: nat -> Ending, t: int, n: nat): (r: State)
    requires n <= |taken| && InRange(s, taken)
    ensures |r.gos| == |s.gos|
  {
    if n == 0 then s
    else
      var before := EndedBy(s, taken, endings, t, n - 1);
      var g := taken[n - 1];
      assert g in taken;
      if endings(g).By(t) then GoEnded(before, g, endings(g).err) else before
  }

  /** Where goroutine g is after EndedBy. */
  function EndedPc(pc: GoPc, g: nat, taken: seq<nat>, endings: nat -> Ending, t: int): GoPc {
    if g in taken && endings(g).By(t) then Done(VerdictOf(endings(g).err)) else pc
  }

  lemma {:induction false} EndedByMeans(s: State, taken: seq<nat>, endings: nat -> Ending, t: int, n: nat)
    requires InRange(s, taken) && NoDuplicates(taken) && n <= |taken|
    ensures var r := EndedBy(s, taken, endings, t, n);
      && r == s.(gos := r.gos, said := r.said, errs := r.errs, wg := r.wg)
      && forall g :: 0 <= g < |s.gos| ==>
        r.gos[g].pc == EndedPc(s.gos[g].pc, g, taken[..n], endings, t) && r.gos[g].server == s.gos[g].server
    decreases n
  {
    if n > 0 {
      EndedByMeans(s, taken, endings, t, n - 1);
      assert taken[..n] == taken[..n - 1] + [taken[n - 1]] && taken[n - 1] in taken;
    }
  }

  lemma {:induction false} EndedByKeepsInv(s: State, taken: seq<nat>, endings: nat -> Ending, t: int, n: nat)
    requires Inv(s) && s.once.Complete? && s.cancelled && NoDuplicates(taken) && n <= |taken|
    requires InRange(s, taken) && forall g :: g in taken ==> At(s, g, Running)
    ensures Inv(EndedBy(s, taken, endings, t, n))
    decreases n
  {
    if n > 0 {
      EndedByKeepsInv(s, taken, endings, t, n - 1);
      EndedByMeans(s, taken, endings, t, n - 1);
      var g := taken[n - 1];
      assert g in taken && At(s, g, Running) && g !in taken[..n - 1];
      if endings(g).By(t) { GoEndedKeepsInv(EndedBy(s, taken, endings, t, n - 1), g, endings(g).err); }
    }
  }

  /** Run has not been called, shutdown is not under way, and c may be its cause. */
  ghost predicate CanRun(s: State, c: Cause) {
    && s.run.NotRun? && (s.once.Idle? || s.once.Complete?)
    && (c == Requested || c == Signalled || (c == ParentEnded && s.parentDone))
    && InRange(s, s.pending) && NoDuplicates(s.pending) && (s.once.Complete? ==> s.cancelled)
  }

  /** A reachable group for which Run is about to be called. */
  ghost predicate QuietBefore(s: State, c: Cause) {
    Inv(s) && BeforeRun(s) && CanRun(s, c)
  }

  /** Shutdown has come, and the goroutines taken run. */
  ghost predicate TakenRun(s: State, taken: seq<nat>) {
    && s.once.Complete? && s.cancelled && InRange(s, taken) && NoDuplicates(taken)
    && forall g :: g in taken ==> At(s, g, Running)
  }

  lemma TakenRunAtWait(s: State, c: Cause, bad: set<nat>)
    requires CanRun(s, c)
    ensures TakenRun(AtWait(s, c, bad), s.pending)
  {}

  /** Run waits for goroutines: those that were pending are running, the others were refused. */
  ghost predicate AllUnderWay(w: State, pending: seq<nat>) {
    && Inv(w) && w.run.Waiting? && w.once.Complete? && w.cancelled
    && NoDuplicates(pending) && (forall g :: g in pending ==> At(w, g, Running))
    && (forall g :: 0 <= g < |w.gos| && g !in pending ==> w.gos[g].pc.Rejected?)
  }

  lemma DrainedKeepsInv(s: State, bad: set<nat>)
    requires Inv(s) && s.run.Blocked? && s.cancelled
    ensures Inv(Drained(Stopped(s), bad))
  {
    StepKeepsInv(s, StopRegistration);
    var s1 := Next(s, StopRegistration);
    StepKeepsInv(s1, CollectDrains(bad));
    StepKeepsInv(Next(s1, CollectDrains(bad)), FinishCallbacks);
  }

  /** The goroutines before Run: pending, each once, or refused. */
  lemma WhoIsPending(s: State)
    requires Inv(s) && BeforeRun(s) && s.run.NotRun?
    ensures InRange(s, s.pending) && NoDuplicates(s.pending)
    ensures forall g :: 0 <= g < |s.gos| && g !in s.pending ==> s.gos[g].pc.Rejected?
  {
    forall g | g in s.pending ensures g < |s.gos| { assert At(s, g, Queued); }
    forall g | 0 <= g < |s.gos| && g !in s.pending ensures s.gos[g].pc.Rejected? { assert QueuedInv(s, g); }
  }

  /** What a whole Run has come to when it waits for the goroutines. */
  function AtWait(s: State, c: Cause, bad: set<nat>): State {
    Drained(Stopped(ShutDown(Begun(s), c)), bad)
  }

  lemma QuietUntilWait(s: State, c: Cause, bad: set<nat>)
    requires QuietBefore(s, c)
    ensures AllUnderWay(AtWait(s, c, bad), s.pending)
  {
    WhoIsPending(s);
    BegunKeepsInv(s);
    ShutDownKeepsInv(Begun(s), c);
    DrainedKeepsInv(ShutDown(Begun(s), c), bad);
  }

  /** Once the goroutines have ended, the recorded errors are the failed drains and the goroutines' own. */
  lemma ErrsAfterWait(w: State, pending: seq<nat>, endings: nat -> Ending, t: int)
    requires AllUnderWay(w, pending)
    ensures InRange(w, pending)
    ensures var e := EndedBy(w, pending, endings, t, |pending|);
      && NoDuplicates(e.errs) && DrainsOf(e.errs) == w.local.failed
      && forall g: nat, err: Err :: GoError(g, err) in e.errs <==>
        (g in pending && endings(g).By(t) && VerdictOf(endings(g).err) == Failed(err))
  {
    forall g | g in pending ensures g < |w.gos| { assert At(w, g, Running); }
    var e := EndedBy(w, pending, endings, t, |pending|);
    EndedByKeepsInv(w, pending, endings, t, |pending|);
    EndedByMeans(w, pending, endings, t, |pending|);
    assert pending[..|pending|] == pending;
    FailedExactly(e.gos, e.errs);
    forall g: nat, err: Err
      ensures (g < |e.gos| && FailedWith(e.gos[g].pc, err)) <==>
        (g in pending && endings(g).By(t) && VerdictOf(endings(g).err) == Failed(err))
    {
      if g in pending { assert At(w, g, Running); }
    }
  }

  lemma FailedExactly(gos: seq<Goroutine>, errs: seq<Entry>)
    requires GoErrorsSound(gos, errs) && GoErrorsComplete(gos, errs)
    ensures forall g: nat, err: Err :: GoError(g, err) in errs <==> g < |gos| && FailedWith(gos[g].pc, err)
  {}

  lemma CountAfterWait(w: State, pending: seq<nat>, endings: nat -> Ending, t: int)
    requires AllUnderWay(w, pending) && InRange(w, pending)
    ensures EndedBy(w, pending, endings, t, |pending|).wg == 0 <==> forall g :: g in pending ==> endings(g).By(t)
  {
    var e := EndedBy(w, pending, endings, t, |pending|);
    EndedByKeepsInv(w, pending, endings, t, |pending|);
    EndedByMeans(w, pending, endings, t, |pending|);
    assert pending[..|pending|] == pending;
    ZeroIffNoneCounted(e.gos);
    forall g | 0 <= g < |e.gos| ensures e.gos[g].pc.Counted() <==> g in pending && !endings(g).By(t) {
      if g in pending { assert At(w, g, Running); }
    }
    forall g | g in pending ensures g < |e.gos| && (e.gos[g].pc.Counted() <==> !endings(g).By(t)) {}
  }

  /** The group as a Run leaves it that nothing else interferes with. */
  function AfterRun(s: State, c: Cause, bad: set<nat>, endings: nat -> Ending, t: int): State
    requires InRange(s, s.pending)
  {
    var e := EndedBy(AtWait(s, c, bad), s.pending, endings, t, |s.pending|);
    e.(run := Finished, local := e.local.(result := e.errs))
  }

  /**
    What a Run returns: the failed drains of every server ever accepted, in order, and the error of
    every goroutine ever accepted that failed and was back by the time it returned; nothing else, and
    nothing twice. The wait group is at zero exactly if all goroutines were back by then.
   */
  ghost predicate IsResult(
      servers: seq<nat>, bad: set<nat>, pending: seq<nat>, endings: nat -> Ending, t: int, result: seq<Entry>)
  {
    && NoDuplicates(result)
    && Increasing(DrainsOf(result)) && (forall v: nat :: DrainError(v) in result <==> v in servers && v in bad)
    && forall g: nat, err: Err :: GoError(g, err) in result <==>
      (g in pending && endings(g).By(t) && endings(g).err == Some(err) && !err.isContext)
  }

  ghost predicate AllIn(pending: seq<nat>, endings: nat -> Ending, t: int) {
    forall g :: g in pending ==> endings(g).By(t)
  }

  lemma DrainsAreListed(result: seq<Entry>, servers: seq<nat>, bad: set<nat>)
    requires Increasing(servers) && DrainsOf(result) == FailedDrains(servers, bad)
    ensures Increasing(DrainsOf(result)) && forall v: nat :: DrainError(v) in result <==> v in servers && v in bad
  {
    FailedDrainsProperties(servers, bad);
    forall v: nat ensures DrainError(v) in result <==> v in servers && v in bad {
      DrainMember(result, v);
    }
  }

  lemma AfterRunMeans(s: State, c: Cause, bad: set<nat>, endings: nat -> Ending, t: int)
    requires QuietBefore(s, c)
    ensures var r := AfterRun(s, c, bad, endings, t);
      && IsResult(s.serverTeardowns, bad, s.pending, endings, t, r.local.result)
      && r.cause == (if s.once.Complete? then s.cause else Some(c))
      && (r.wg == 0 <==> AllIn(s.pending, endings, t))
      && r.run.Finished? && r.stopped && r.cancelled
  {
    QuietUntilWait(s, c, bad);
    var w := AtWait(s, c, bad);
    ErrsAfterWait(w, s.pending, endings, t);
    CountAfterWait(w, s.pending, endings, t);
    EndedByMeans(w, s.pending, endings, t, |s.pending|);
    DrainsAreListed(AfterRun(s, c, bad, endings, t).local.result, s.serverTeardowns, bad);
  }
}
