/**
  flightGroup as an object: the table and the call objects, changed in place one section at a time.
  Any interleaving of callers of Do is a sequence of these methods, and each is exactly one step of
  the transition system.
 */
module FlightGroup {
  import opened Basics
  import opened FlightModel

  class CallObject {
    var closed: bool   // the done channel
    var val: Option<Val>
    var err: Option<Err>
    var abandoned: bool

    constructor ()
      ensures !closed && val == None && err == None && !abandoned
    {
      closed, val, err, abandoned := false, None, None, false;
    }
  }

  /** What a woken waiter does next. */
  datatype Resolution = Return(val: Option<Val>, err: Option<Err>) | ReturnCause | Retry

  class FlightGroup {
    var table: map<Key, CallObject>
    ghost var model: State<CallObject>

    ghost predicate Agrees()
      reads this, model.calls.Keys
    {
      && model.table == table
      && (forall k :: k in table ==> table[k] in model.calls)
      && (forall c :: c in model.calls ==>
        c.closed == model.calls[c].closed && Published(c.val, c.err, c.abandoned) == model.calls[c].result)
    }

    /** A group about to see one call of Do per given key. */
    constructor (keys: seq<Key>)
      ensures Agrees() && Init(model) && table == map[] && |model.callers| == |keys|
      ensures forall i :: 0 <= i < |keys| ==> model.callers[i].key == keys[i]
    {
      table := map[];
      model := State(map[], map[],
                     seq(|keys|, i requires 0 <= i < |keys| => Caller(keys[i], Start, {})), {});
    }

    /** The head of the loop: join the call in flight for the key, or put a new one in the table and lead it. */
    method Enter(i: nat, k: Key) returns (c: CallObject, leader: bool)
      requires Agrees() && i < |model.callers| && model.callers[i].pc.Start? && model.callers[i].key == k
      modifies this
      ensures Agrees() && leader == (k !in old(table)) && (leader ==> fresh(c))
      ensures Enabled(old(model), Action.Enter(i, c)) && model == Next(old(model), Action.Enter(i, c))
    {
      ghost var before := model;
      leader := k !in table;
      if leader {
        c := new CallObject();
        table := table[k := c];
      } else {
        c := table[k];
      }
      model := Next(before, Action.Enter(i, c));
    }

    /** What lead writes into the call. */
    method Publish(c: CallObject, outcome: Outcome, ctxEnded: bool)
      requires Published(c.val, c.err, c.abandoned) == Unpublished
      modifies c`val, c`err, c`abandoned
      ensures Published(c.val, c.err, c.abandoned) == FlightModel.Publish(outcome, ctxEnded)
      ensures c.abandoned <==> ctxEnded && outcome.Returns? && outcome.err.Some?
      ensures FlightModel.Agrees(c.val, c.err, outcome)
      ensures c.err == None <==> outcome.Returns? && outcome.err == None
      ensures outcome.Returns? ==> c.val == Some(outcome.val)
    {
      match outcome {
        case Returns(v, e) =>
          c.val := Some(v);
          c.err := if e.Some? then Some(FromLoader(e.value)) else None;
          c.abandoned := c.err.Some? && ctxEnded;
        case Panics =>
          c.err := Some(PanicErr);
        case Exits =>
          c.err := Some(GoexitErr);
      }
    }

    /** The end of the load: its result, or the error for a panic or Goexit, goes into the call. */
    method EndLoad(i: nat, c: CallObject, outcome: Outcome, ctxEnded: bool)
      requires Agrees() && Enabled(model, LoadEnds(i, outcome)) && model.callers[i].pc.call == c
      requires ctxEnded == (i in model.ended) && model.calls[c].result == Unpublished
      modifies c, this`model
      ensures Agrees() && model == Next(old(model), LoadEnds(i, outcome))
      ensures c.abandoned <==> ctxEnded && outcome.Returns? && outcome.err.Some?
      ensures FlightModel.Agrees(c.val, c.err, outcome)
      ensures c.err == None <==> outcome.Returns? && outcome.err == None
      ensures outcome.Returns? ==> c.val == Some(outcome.val)
    {
      ghost var before := model;
      Publish(c, outcome, ctxEnded);
      model := Next(before, LoadEnds(i, outcome));
    }

    /** The leader's second section: delete the key's entry. */
    method Unlink(i: nat, k: Key)
      requires Agrees() && Enabled(model, Action.Unlink(i)) && model.callers[i].key == k
      modifies this
      ensures Agrees() && model == Next(old(model), Action.Unlink(i))
    {
      table := table - {k};
      model := Next(old(model), Action.Unlink(i));
    }

    /** The leader releases the waiters. */
    method Close(i: nat, c: CallObject)
      requires Agrees() && Enabled(model, Action.Close(i)) && model.callers[i].pc.call == c
      modifies c`closed, this`model
      ensures Agrees() && model == Next(old(model), Action.Close(i))
    {
      ghost var before := model;
      c.closed := true;
      model := Next(before, Action.Close(i));
    }

    /** The select's first case. */
    ghost method Wake(i: nat)
      requires Agrees() && Enabled(model, Action.Wake(i))
      modifies this`model
      ensures Agrees() && model == Next(old(model), Action.Wake(i))
    {
      model := Next(model, Action.Wake(i));
    }

    /** The select's second case: the waiter's own context ended. */
    ghost method Leave(i: nat)
      requires Agrees() && Enabled(model, Action.Leave(i))
      modifies this`model
      ensures Agrees() && model == Next(old(model), Action.Leave(i))
    {
      model := Next(model, Action.Leave(i));
    }

    ghost method EndContext(i: nat)
      requires Agrees() && Enabled(model, EndCtx(i))
      modifies this`model
      ensures Agrees() && model == Next(old(model), EndCtx(i))
    {
      model := Next(model, EndCtx(i));
    }

    /** After the select: take the call's result, or go round again if it was abandoned. */
    method Resolve(i: nat, c: CallObject, ctxEnded: bool) returns (r: Resolution)
      requires Agrees() && Enabled(model, Action.Resolve(i)) && model.callers[i].pc.call == c
      requires ctxEnded == (i in model.ended)
      modifies this`model
      ensures Agrees() && model == Next(old(model), Action.Resolve(i))
      ensures model.callers[i].pc ==
        (match r
         case Return(val, err) => Finished(Joined(c, val, err))
         case ReturnCause => Finished(LeftEarly)
         case Retry => Start)
      ensures r == if !c.abandoned then Return(c.val, c.err) else if ctxEnded then ReturnCause else Retry
    {
      ghost var before := model;
      if c.abandoned {
        r := if ctxEnded then ReturnCause else Retry;
      } else {
        r := Return(c.val, c.err);
      }
      model := Next(before, Action.Resolve(i));
    }

    /** lead with nobody else about, however the load ends: publish, delete the entry, release the waiters. */
    method Lead(i: nat, k: Key, c: CallObject, outcome: Outcome, ctxEnded: bool)
      requires Agrees() && Leading(model, i, k, c) && ctxEnded == (i in model.ended)
      modifies c, this
      ensures Agrees() && table == old(table) - {k}
      ensures c.closed && FlightModel.Agrees(c.val, c.err, outcome)
      ensures c.err == None <==> outcome.Returns? && outcome.err == None
      ensures c.abandoned <==> ctxEnded && outcome.Returns? && outcome.err.Some?
      ensures i < |model.callers| && model.callers[i].pc == Finished(Led(c))
    {
      ghost var before := model;
      EndLoad(i, c, outcome, ctxEnded);
      AlonePublishes(before, i, k, c, outcome);
      ghost var published := model;
      Unlink(i, k);
      Close(i, c);
      AloneCloses(published, i, k, c);
    }

    /** Do with no call for the key in flight: the load runs, its end is published, and no entry is left. */
    method Do(i: nat, k: Key, outcome: Outcome, ctxEnded: bool) returns (c: CallObject)
      requires Agrees() && i < |model.callers| && model.callers[i].pc.Start? && model.callers[i].key == k
      requires k !in table && ctxEnded == (i in model.ended)
      modifies this
      ensures Agrees() && table == old(table) && fresh(c)
      ensures c.closed && FlightModel.Agrees(c.val, c.err, outcome)
      ensures c.err == None <==> outcome.Returns? && outcome.err == None
      ensures c.abandoned <==> ctxEnded && outcome.Returns? && outcome.err.Some?
      ensures i < |model.callers| && model.callers[i].pc == Finished(Led(c))
    {
      var leader;
      c, leader := Enter(i, k);
      assert table - {k} == old(table);
      Lead(i, k, c, outcome, ctxEnded);
    }
  }

  // One call on its own, section by section.

  ghost predicate Leading<C>(s: State<C>, i: nat, k: Key, c: C) {
    && i < |s.callers| && s.callers[i].pc == Loading(c) && s.callers[i].key == k
    && c in s.calls && s.calls[c].result == Unpublished
  }

  lemma AlonePublishes<C>(s: State<C>, i: nat, k: Key, c: C, outcome: Outcome)
    requires Leading(s, i, k, c)
    ensures var t := Next(s, LoadEnds(i, outcome));
      && t.table == s.table && |t.callers| == |s.callers| && t.callers[i] == s.callers[i].(pc := Publishing(c))
      && c in t.calls && t.calls[c].result == FlightModel.Publish(outcome, i in s.ended)
  {}

  lemma AloneCloses<C>(s: State<C>, i: nat, k: Key, c: C)
    requires i < |s.callers| && s.callers[i].pc == Publishing(c) && s.callers[i].key == k && c in s.calls
    ensures Enabled(s, Action.Unlink(i)) && Enabled(Next(s, Action.Unlink(i)), Action.Close(i))
    ensures var t := Next(Next(s, Action.Unlink(i)), Action.Close(i));
      && t.table == s.table - {k} && |t.callers| == |s.callers| && t.callers[i].pc == Finished(Led(c))
      && c in t.calls && t.calls[c] == s.calls[c].(closed := true)
  {}
}
