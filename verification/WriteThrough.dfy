/**
  WriteThrough as an object: the lock table, the keyLock objects, the front and the store, changed
  in place one section at a time. Each method is one atomic section of lock, unlock, release,
  SetContext or DeleteContext, so any interleaving of callers is a sequence of these calls. Each is
  exactly one step of the transition system, so what holds after every run holds of the object.
 */
module WriteThrough {
  import opened Basics
  import opened WriteThroughModel

  class KeyLock {
    var full: bool   // the one-slot channel holds a token
    var refs: int    // holders and waiters

    constructor ()
      ensures !full && refs == 0
    {
      full, refs := false, 0;
    }
  }

  class WriteThrough {
    const hasDeleter: bool
    var locks: map<Key, KeyLock>
    var front: map<Key, Val>
    var store: map<Key, Val>
    ghost var model: State<KeyLock>

    ghost predicate LocksAgree()
      reads this, model.cells.Keys
    {
      && model.locks == locks
      && (forall k :: k in locks ==> locks[k] in model.cells)
      && (forall l :: l in model.cells ==> l.refs == model.cells[l].refs && l.full == model.cells[l].full)
    }

    ghost predicate DataAgrees()
      reads this
    {
      && model.hasDeleter == hasDeleter
      && (forall k :: Lookup(store, k) == At(model.data, k).store)
      && (forall k :: Lookup(front, k) == At(model.data, k).front)
    }

    constructor (hasDeleter: bool, front: map<Key, Val>, store: map<Key, Val>)
      ensures LocksAgree() && DataAgrees() && Init(model)
      ensures locks == map[] && this.front == front && this.store == store && this.hasDeleter == hasDeleter
    {
      this.hasDeleter := hasDeleter;
      this.locks, this.front, this.store := map[], front, store;
      model := State(hasDeleter, map[], map[], map[], {},
                     map k | k in store.Keys + front.Keys :: Untouched.(
                       store := Lookup(store, k), front := Lookup(front, k), given := Lookup(front, k)));
    }

    /** The context of caller c ends. */
    ghost method EndContext(c: Caller)
      requires LocksAgree() && DataAgrees()
      modifies this`model
      ensures LocksAgree() && DataAgrees() && model == Next(old(model), EndCtx(c))
    {
      model := Next(model, EndCtx(c));
    }

    /** First section of lock: find or make the key's lock and count the caller in. */
    method Enter(c: Caller, k: Key, ghost op: Op) returns (l: KeyLock)
      requires LocksAgree() && DataAgrees() && c !in model.pcs
      modifies this`locks, this`model, model.cells.Keys
      ensures LocksAgree() && DataAgrees()
      ensures Enabled(old(model), Action.Enter(c, k, op, l))
      ensures model == Next(old(model), Action.Enter(c, k, op, l))
      ensures l in old(model.cells) || fresh(l)
    {
      ghost var before := model;
      l := FindLock(k);
      assert l in before.cells ==> l.refs == before.cells[l].refs;
      assert before.data == Next(before, Action.Enter(c, k, op, l)).data;
      l.refs := l.refs + 1;
      model := Next(before, Action.Enter(c, k, op, l));
      forall x | x in model.cells ensures x.refs == model.cells[x].refs && x.full == model.cells[x].full {
        if x != l { assert x in before.cells; }
      }
    }

    /** The key's lock, made and listed if there is none. */
    method FindLock(k: Key) returns (l: KeyLock)
      modifies this`locks
      ensures k in locks && l == locks[k] && locks == old(locks)[k := l]
      ensures if k in old(locks) then l == old(locks)[k] else fresh(l) && l.refs == 0 && !l.full
    {
      if k in locks {
        l := locks[k];
        assert locks[k := l] == locks;
      } else {
        l := new KeyLock();
        locks := locks[k := l];
      }
    }

    /** The first select of lock: a send that does not wait. */
    method TrySend(c: Caller, l: KeyLock) returns (sent: bool)
      requires LocksAgree() && DataAgrees()
      requires Enabled(model, Action.TrySend(c)) && model.pcs[c].lock == l
      modifies l`full, this`model
      ensures LocksAgree() && DataAgrees() && model == Next(old(model), Action.TrySend(c)) && sent == !old(l.full)
    {
      ghost var before := model;
      sent := !l.full;
      if sent { l.full := true; }
      model := Next(before, Action.TrySend(c));
    }

    /** The send case of the second select, possible once the channel is empty. */
    method WaitSend(c: Caller, l: KeyLock)
      requires LocksAgree() && DataAgrees()
      requires Enabled(model, Action.WaitSend(c)) && model.pcs[c].lock == l
      modifies l`full, this`model
      ensures LocksAgree() && DataAgrees() && model == Next(old(model), Action.WaitSend(c))
    {
      ghost var before := model;
      l.full := true;
      model := Next(before, Action.WaitSend(c));
    }

    /** The context case of the second select. */
    ghost method GiveUp(c: Caller)
      requires LocksAgree() && DataAgrees() && Enabled(model, Action.GiveUp(c))
      modifies this`model
      ensures LocksAgree() && DataAgrees() && model == Next(old(model), Action.GiveUp(c))
    {
      model := Next(model, Action.GiveUp(c));
    }

    /** The writer or deleter call of a holder; ok is what it reports. Without a deleter a delete calls nothing. */
    method CallStore(c: Caller, k: Key, op: Op, ok: bool, ghost panics: bool)
      requires LocksAgree() && DataAgrees() && Enabled(model, StoreSucceeds(c))
      requires model.pcs[c].key == k && model.pcs[c].op == op
      requires !ok ==> op.SetOp? || hasDeleter
      modifies this`store, this`model
      ensures ok && op.SetOp? ==> store == old(store)[k := op.val]
      ensures ok && op.DeleteOp? && hasDeleter ==> store == old(store) - {k}
      ensures !ok || (op.DeleteOp? && !hasDeleter) ==> store == old(store)
      ensures LocksAgree() && DataAgrees() && model == Next(old(model), if ok then StoreSucceeds(c) else StoreFails(c, panics))
      ensures c in model.pcs && model.pcs[c].Holding?
      ensures model.pcs[c].stage == if ok then Stored else Unwinding(if panics then Panicked else StoreFailed)
    {
      ghost var before := model;
      if ok && op.SetOp? {
        store := store[k := op.val];
      } else if ok && hasDeleter {
        store := store - {k};
      }
      ghost var a := if ok then StoreSucceeds(c) else StoreFails(c, panics);
      model := Next(before, a);
      forall j ensures Lookup(store, j) == At(model.data, j).store {
        assert Lookup(old(store), j) == At(before.data, j).store;
        assert j != k ==> At(model.data, j) == At(before.data, j);
      }
    }

    /** The front update that follows a successful store call. */
    method CallFront(c: Caller, k: Key, op: Op)
      requires LocksAgree() && DataAgrees() && Enabled(model, UpdateFront(c))
      requires model.pcs[c].key == k && model.pcs[c].op == op
      modifies this`front, this`model
      ensures op.SetOp? ==> front == old(front)[k := op.val]
      ensures op.DeleteOp? ==> front == old(front) - {k}
      ensures LocksAgree() && DataAgrees() && model == Next(old(model), UpdateFront(c))
    {
      ghost var before := model;
      front := if op.SetOp? then front[k := op.val] else front - {k};
      model := Next(before, UpdateFront(c));
    }

    /** First half of unlock: take the token back out of the channel. */
    method Drain(c: Caller, l: KeyLock)
      requires LocksAgree() && DataAgrees()
      requires Enabled(model, Action.Drain(c)) && model.pcs[c].lock == l
      modifies l`full, this`model
      ensures LocksAgree() && DataAgrees() && model == Next(old(model), Action.Drain(c))
    {
      ghost var before := model;
      l.full := false;
      model := Next(before, Action.Drain(c));
    }

    /** release: drop one reference, and the table entry with the last one. */
    method Release(c: Caller, k: Key, l: KeyLock)
      requires LocksAgree() && DataAgrees() && Enabled(model, Action.Release(c))
      requires model.pcs[c].key == k && model.pcs[c].lock == l
      modifies l`refs, this`locks, this`model
      ensures LocksAgree() && DataAgrees() && model == Next(old(model), Action.Release(c))
      ensures l.refs == old(l.refs) - 1 && locks == if old(l.refs) == 1 then old(locks) - {k} else old(locks)
    {
      ghost var before := model;
      l.refs := l.refs - 1;
      if l.refs == 0 { locks := locks - {k}; }
      model := Next(before, Action.Release(c));
    }

    /** The front drops a key by itself. */
    method EvictKey(k: Key)
      requires LocksAgree() && DataAgrees()
      modifies this`front, this`model
      ensures LocksAgree() && DataAgrees() && model == Next(old(model), Expire(k))
    {
      ghost var before := model;
      front := front - {k};
      model := Next(before, Expire(k));
    }

    /** lock with nobody else about: the first select succeeds. */
    method Lock(c: Caller, k: Key, ghost op: Op) returns (l: KeyLock)
      requires LocksAgree() && DataAgrees() && c !in model.pcs && k !in locks
      modifies this`locks, this`model, model.cells.Keys
      ensures LocksAgree() && DataAgrees() && fresh(l) && l in model.cells
      ensures locks == old(locks)[k := l] && l.refs == 1 && l.full
      ensures c in model.pcs && model.pcs[c] == Holding(k, l, op, Locked) && model.data == old(model.data)
    {
      l := Enter(c, k, op);
      AloneEnters(old(model), c, k, op, l);
      ghost var entered := model;
      var sent := TrySend(c, l);
      AloneHolds(entered, c, k, op, l);
    }

    /** unlock, for a caller whose lock nobody else refers to. */
    method Unlock(c: Caller, k: Key, l: KeyLock, ghost op: Op, ghost r: Result)
      requires LocksAgree() && DataAgrees() && l in model.cells && l.refs == 1 && l.full
      requires c in model.pcs && model.pcs[c] == Holding(k, l, op, Unwinding(r))
      modifies l, this`locks, this`model
      ensures LocksAgree() && DataAgrees() && locks == old(locks) - {k}
      ensures c in model.pcs && model.pcs[c] == Returned(k, op, r) && model.data == old(model.data)
    {
      ghost var before := model;
      Drain(c, l);
      Release(c, k, l);
      AloneLeaves(before, model, c, k, op, l, r);
    }

    /** What a holder does between lock and unlock: the store, then, if that succeeded, the front. */
    method Apply(c: Caller, k: Key, op: Op, ok: bool, ghost l: KeyLock) returns (r: Result)
      requires LocksAgree() && DataAgrees() && (!ok ==> op.SetOp? || hasDeleter)
      requires c in model.pcs && model.pcs[c] == Holding(k, l, op, Locked)
      modifies this`front, this`store, this`model
      ensures LocksAgree() && DataAgrees() && model.cells == old(model.cells)
      ensures c in model.pcs && model.pcs[c] == Holding(k, l, op, Unwinding(r))
      ensures r == if ok then Ok else StoreFailed
      ensures ok && op.SetOp? ==> front == old(front)[k := op.val]
      ensures ok && op.DeleteOp? ==> front == old(front) - {k}
      ensures !ok ==> front == old(front)
      ensures ok && op.SetOp? ==> store == old(store)[k := op.val]
      ensures ok && op.DeleteOp? && hasDeleter ==> store == old(store) - {k}
      ensures !ok || (op.DeleteOp? && !hasDeleter) ==> store == old(store)
    {
      ghost var held := model;
      CallStore(c, k, op, ok, false);
      r := StoreFailed;
      if ok {
        CallFront(c, k, op);
        r := Ok;
      }
      AloneUpdates(held, model, c, k, op, l, ok);
    }

    /**
      SetContext or DeleteContext with nobody else about: the sections in the source's order. A store
      that fails leaves everything as it was; otherwise store, if it is reached, and front both have
      the update. No lock is left behind either way.
     */
    method Mutate(c: Caller, k: Key, op: Op, ok: bool) returns (r: Result)
      requires LocksAgree() && DataAgrees() && c !in model.pcs && k !in locks
      requires !ok ==> op.SetOp? || hasDeleter
      modifies this`locks, this`front, this`store, this`model, model.cells.Keys
      ensures LocksAgree() && DataAgrees() && locks == old(locks)
      ensures r == if ok then Ok else StoreFailed
      ensures ok && op.SetOp? ==> front == old(front)[k := op.val]
      ensures ok && op.DeleteOp? ==> front == old(front) - {k}
      ensures !ok ==> front == old(front)
      ensures ok && op.SetOp? ==> store == old(store)[k := op.val]
      ensures ok && op.DeleteOp? && hasDeleter ==> store == old(store) - {k}
      ensures !ok || (op.DeleteOp? && !hasDeleter) ==> store == old(store)
    {
      var l := Lock(c, k, op);
      assert locks - {k} == old(locks);
      r := Apply(c, k, op, ok, l);
      Unlock(c, k, l, op, r);
    }
  }

  // One call on its own, section by section.

  lemma AloneEnters<L>(s: State<L>, c: Caller, k: Key, op: Op, l: L)
    requires k !in s.locks && Enabled(s, Action.Enter(c, k, op, l))
    ensures var t := Next(s, Action.Enter(c, k, op, l));
      && t.hasDeleter == s.hasDeleter && t.data == s.data && t.locks == s.locks[k := l]
      && l in t.cells && t.cells[l] == Cell(1, false) && c in t.pcs && t.pcs[c] == Trying(k, l, op)
  {}

  lemma AloneHolds<L>(s: State<L>, c: Caller, k: Key, op: Op, l: L)
    requires c in s.pcs && s.pcs[c] == Trying(k, l, op) && l in s.cells && s.cells[l] == Cell(1, false)
    ensures var t := Next(s, Action.TrySend(c));
      && t.hasDeleter == s.hasDeleter && t.data == s.data && t.locks == s.locks
      && l in t.cells && t.cells[l] == Cell(1, true) && c in t.pcs && t.pcs[c] == Holding(k, l, op, Locked)
  {}

  lemma AloneUpdates<L>(s: State<L>, t: State<L>, c: Caller, k: Key, op: Op, l: L, ok: bool)
    requires c in s.pcs && s.pcs[c] == Holding(k, l, op, Locked) && (!ok ==> Durable(s.hasDeleter, op))
    requires Enabled(s, StoreSucceeds(c)) && Enabled(Next(s, StoreSucceeds(c)), UpdateFront(c))
    requires t == if ok then Next(Next(s, StoreSucceeds(c)), UpdateFront(c)) else Next(s, StoreFails(c, false))
    ensures t.locks == s.locks && t.cells == s.cells && c in t.pcs
    ensures t.pcs[c] == Holding(k, l, op, Unwinding(if ok then Ok else StoreFailed))
  {}

  lemma AloneLeaves<L>(s: State<L>, t: State<L>, c: Caller, k: Key, op: Op, l: L, r: Result)
    requires c in s.pcs && s.pcs[c] == Holding(k, l, op, Unwinding(r)) && l in s.cells && s.cells[l] == Cell(1, true)
    requires Enabled(Next(s, Action.Drain(c)), Action.Release(c))
    requires t == Next(Next(s, Action.Drain(c)), Action.Release(c))
    ensures t.locks == s.locks - {k} && t.data == s.data && c in t.pcs && t.pcs[c] == Returned(k, op, r)
  {}
}
