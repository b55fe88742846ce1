/**
  Throttle as an object: the semaphore's fill and the cadence, changed in place one step of Do at a
  time. Any interleaving of callers is a sequence of these methods, each one step of the transition
  system.
 */
module Throttle {
  import opened Basics
  import opened Cadence
  import opened ThrottleModel

  /** What Do does after a step that looks at its context. */
  datatype Verdict = GoOn | ReturnCtxErr

  class Throttle {
    const cap: Option<nat>   // None is Unbounded: no semaphore
    var used: nat            // how full the semaphore is
    var nextAllowed: int
    ghost var model: State

    ghost predicate Agrees()
      reads this
    {
      model.used == used && model.nextAllowed == nextAllowed
    }

    constructor (cap: Option<nat>, clock: int)
      ensures Agrees() && this.cap == cap && model == Start(clock)
    {
      this.cap := cap;
      used, nextAllowed := 0, 0;
      model := Start(clock);
    }

    /** The select on the semaphore, its first case. ok is false while it is full. */
    method TryAcquire(c: Caller) returns (ok: bool)
      requires Agrees() && c in model.pcs && model.pcs[c].Queued?
      modifies this
      ensures Agrees() && ok == Enabled(cap, old(model), Acquire(c))
      ensures model == if ok then Next(cap, old(model), Acquire(c)) else old(model)
      ensures ok <==> cap.None? || old(used) < cap.value
      ensures used == if ok && cap.Some? then old(used) + 1 else old(used)
      ensures nextAllowed == old(nextAllowed)
    {
      ok := cap.None? || used < cap.value;
      if ok {
        if cap.Some? { used := used + 1; }
        model := Next(cap, model, Acquire(c));
      }
    }

    /** The look at the context once a slot is held. */
    method CheckContext(c: Caller, ended: bool) returns (v: Verdict)
      requires Agrees() && Enabled(cap, model, Check(c)) && ended == (c in model.done)
      modifies this
      ensures Agrees() && model == Next(cap, old(model), Check(c))
      ensures model.pcs[c] == if v == GoOn then Cleared else Leaving(Refused)
      ensures v == ReturnCtxErr <==> ended
      ensures used == old(used) && nextAllowed == old(nextAllowed)
    {
      v := if ended then ReturnCtxErr else GoOn;
      model := Next(cap, model, Check(c));
    }

    /** nextSlot: take the next turn and say how long to wait for it. */
    method NextSlot(c: Caller, delay: int, now: int) returns (wait: int)
      requires Agrees() && c in model.pcs && model.pcs[c] == Drawn(delay) && now == model.clock
      requires model.nextAllowed == NextAllowed(model.turns)
      modifies this
      ensures Agrees() && model == Next(cap, old(model), Action.NextSlot(c))
      ensures wait >= 0 && now + wait == DueAt(model.turns, |old(model.turns)|)
      ensures wait == if old(nextAllowed) > now then old(nextAllowed) - now else 0
      ensures nextAllowed == now + wait + delay && used == old(used)
    {
      DueOfAppended(model.turns, Turn(now, delay));
      if nextAllowed < now {
        nextAllowed := now;
      }
      wait := nextAllowed - now;
      nextAllowed := nextAllowed + delay;
      model := Next(cap, model, Action.NextSlot(c));
    }

    /** The end of the paced wait: a wait of zero looks at the context, a timer runs out or is overtaken by the context. */
    method EndWait(c: Caller, wait: int, ended: bool, timerFirst: bool) returns (v: Verdict)
      requires Agrees() && c in model.pcs && model.pcs[c].Paced? && model.pcs[c].turn < |model.turns|
      requires wait == DueAt(model.turns, model.pcs[c].turn) - model.turns[model.pcs[c].turn].now
      requires ended == (c in model.done)
      requires wait > 0 && timerFirst ==> DueAt(model.turns, model.pcs[c].turn) <= model.clock
      requires wait > 0 && !timerFirst ==> ended
      requires model.turns[model.pcs[c].turn].now <= model.clock
      modifies this
      ensures Agrees()
      ensures var a := if v == GoOn then Wake(c) else GiveUp(c);
        Enabled(cap, old(model), a) && model == Next(cap, old(model), a)
      ensures v == GoOn <==> if wait <= 0 then !ended else timerFirst
      ensures used == old(used) && nextAllowed == old(nextAllowed)
    {
      if wait <= 0 {
        v := if ended then ReturnCtxErr else GoOn;
      } else {
        v := if timerFirst then GoOn else ReturnCtxErr;
      }
      model := Next(cap, model, if v == GoOn then Wake(c) else GiveUp(c));
    }

    /** The deferred receive that gives the slot back, on every path out of Do. */
    method Release(c: Caller)
      requires Agrees() && Enabled(cap, model, Action.Release(c))
      modifies this
      ensures Agrees() && model == Next(cap, old(model), Action.Release(c))
      ensures used == if cap.Some? then old(used) - 1 else old(used)
      ensures nextAllowed == old(nextAllowed)
    {
      if cap.Some? { used := used - 1; }
      model := Next(cap, model, Action.Release(c));
    }

    /** Everything else that happens: arrivals, time, contexts ending, the schedule, fn. None of it touches the fields. */
    ghost method Elsewhere(a: Action)
      requires Agrees() && Enabled(cap, model, a) && !a.Acquire? && !a.NextSlot? && !a.Release?
      modifies this`model
      ensures Agrees() && model == Next(cap, old(model), a)
    {
      model := Next(cap, model, a);
    }

    /** The schedule's answer and nextSlot, with nobody else about. */
    method TakeTurn(c: Caller, delay: int, now: int) returns (wait: int)
      requires Agrees() && c in model.pcs && model.pcs[c].Cleared? && now == model.clock
      requires model.nextAllowed == NextAllowed(model.turns)
      modifies this
      ensures Agrees() && used == old(used) && model.clock == now && model.done == old(model.done)
      ensures nextAllowed == Max(old(nextAllowed), now) + delay
      ensures model.turns == old(model.turns) + [Turn(now, delay)]
      ensures c in model.pcs && model.pcs[c] == Paced(|old(model.turns)|)
      ensures wait == DueAt(model.turns, |old(model.turns)|) - now == Max(old(nextAllowed), now) - now
    {
      DueOfAppended(model.turns, Turn(now, delay));
      Elsewhere(Draw(c, delay));
      wait := NextSlot(c, delay, now);
    }

    /** The paced part of Do for a caller whose context was live, with nobody else about. */
    method Pace(c: Caller, delay: int, now: int, cancelled: bool) returns (v: Verdict)
      requires Agrees() && c in model.pcs && model.pcs[c].Cleared? && c !in model.done && now == model.clock
      requires model.nextAllowed == NextAllowed(model.turns)
      modifies this
      ensures Agrees() && used == old(used) && c in model.pcs
      ensures nextAllowed == Max(old(nextAllowed), now) + delay
      ensures model.turns == old(model.turns) + [Turn(now, delay)]
      ensures v == if cancelled then ReturnCtxErr else GoOn
      ensures model.pcs[c] == if cancelled then Leaving(Abandoned(|old(model.turns)|)) else Running(|old(model.turns)|)
      ensures model.clock == if cancelled then now else Max(old(nextAllowed), now)
    {
      var wait := TakeTurn(c, delay, now);
      if cancelled {
        Elsewhere(EndCtx(c));
        v := EndWait(c, wait, true, false);
      } else {
        Elsewhere(Tick(wait));
        v := EndWait(c, wait, false, true);
      }
    }

    /**
      Do with a slot free and nobody else about. fn runs unless the context has ended or ends during
      the wait; it starts when due. A caller that has taken its turn advances the cadence, cancelled
      or not; one refused before leaves it alone; and the slot is given back on every path.
     */
    method Do(c: Caller, ended: bool, delay: int, now: int, cancelled: bool) returns (ran: bool, ghost start: int)
      requires Agrees() && Enabled(cap, model, Acquire(c)) && ended == (c in model.done) && now == model.clock
      requires model.nextAllowed == NextAllowed(model.turns)
      modifies this
      ensures Agrees() && used == old(used) && c in model.pcs && model.pcs[c].Gone?
      ensures ran == (!ended && !cancelled)
      ensures ran ==> start == Max(old(nextAllowed), now)
      ensures nextAllowed == if ended then old(nextAllowed) else Max(old(nextAllowed), now) + delay
    {
      ran, start := false, now;
      var ok := TryAcquire(c);
      var v := CheckContext(c, ended);
      if v == GoOn {
        v := Pace(c, delay, now, cancelled);
        if v == GoOn {
          ran := true;
          start := model.clock;
          Elsewhere(FnEnds(c));
        }
      }
      Release(c);
    }
  }
}
