/**
  Read-through tiers under concurrent reads, as a transition system. Each look into a front, load,
  store into a front and return is its own step, so reads entering at any tiers interleave with each
  other and with fronts dropping keys. Single-flight is covered: a read that missed may take a load
  another one has finished for the same tier and key.
 */
module TierModel {
  import opened Basics
  import opened ReadThrough

  /** Where a read is, and in which tier; each tier above it waits for the one below. */
  datatype Pc =
    | Looking(tier: nat)                    // about to look into the front
    | Missed(tier: nat)                     // about to load
    | Got(tier: nat, loaded: Loaded)        // its loader has returned, the front not yet updated
    | Stored(tier: nat, loaded: Loaded)     // the front updated if there was a value
    | Returned(answer: Answer)

  datatype Read = Read(key: Key, entry: nat, pc: Pc)

  /** A load that some read has finished, store included. */
  datatype Load = Load(tier: nat, key: Key, loaded: Loaded)

  datatype State = State(stack: seq<Tier>, readers: seq<Read>, finished: set<Load>)

  datatype Action =
    | Begin(entry: nat, k: Key)
    | Look(r: nat)
    | GoDown(r: nat)                        // start the load: the tier below looks, or the origin answers
    | Share(r: nat, loaded: Loaded)
    | Store(r: nat)
    | Return(r: nat)
    | Drop(tier: nat, k: Key)

  ghost predicate Enabled(s: State, a: Action) {
    match a
    case Begin(entry, _) => entry < |s.stack|
    case Drop(tier, _) => tier < |s.stack|
    case Look(r) => r < |s.readers| && s.readers[r].pc.Looking? && s.readers[r].pc.tier < |s.stack|
    case GoDown(r) => r < |s.readers| && s.readers[r].pc.Missed? && s.readers[r].pc.tier < |s.stack|
    case Share(r, loaded) =>
      r < |s.readers| && s.readers[r].pc.Missed? && Load(s.readers[r].pc.tier, s.readers[r].key, loaded) in s.finished
    case Store(r) => r < |s.readers| && s.readers[r].pc.Got? && s.readers[r].pc.tier < |s.stack|
    case Return(r) => r < |s.readers| && s.readers[r].pc.Stored? && s.readers[r].pc.tier < |s.stack|
  }

  /** A tier's answer goes to the caller, or as a load to the tier above. */
  function Deliver(entry: nat, tier: nat, a: Answer): Pc {
    if tier <= entry then Returned(a) else Got(tier - 1, LoaderFromCache(a))
  }

  /** Where the read that moves goes. */
  function Goes(stack: seq<Tier>, origin: Origin, read: Read, a: Action): Pc
    requires !read.pc.Returned? && read.pc.tier < |stack|
    requires (a.Look? && read.pc.Looking?) || (a.GoDown? && read.pc.Missed?) ||
      (a.Share? && read.pc.Missed?) || (a.Store? && read.pc.Got?) || (a.Return? && read.pc.Stored?)
  {
    var i, k := read.pc.tier, read.key;
    match a
    case Look(_) => if k in stack[i].front then Deliver(read.entry, i, Hit(stack[i].front[k])) else Missed(i)
    case GoDown(_) => if i + 1 < |stack| then Looking(i + 1) else Got(i, origin(k))
    case Share(_, loaded) => Stored(i, loaded)
    case Store(_) => Stored(i, read.pc.loaded)
    case Return(_) => Deliver(read.entry, i, AnswerOf(stack[i].missErrs, read.pc.loaded))
  }

  function SetFront(stack: seq<Tier>, i: nat, front: map<Key, Val>): seq<Tier>
    requires i < |stack|
  {
    stack[i := stack[i].(front := front)]
  }

  ghost function Next(s: State, origin: Origin, a: Action): State
    requires Enabled(s, a) && TiersInRange(s)
  {
    match a
    case Begin(entry, k) => s.(readers := s.readers + [Read(k, entry, Looking(entry))])
    case Drop(i, k) => s.(stack := SetFront(s.stack, i, s.stack[i].front - {k}))
    case Store(r) =>
      var read := s.readers[r];
      var i, loaded := read.pc.tier, read.pc.loaded;
      s.(stack := if loaded.Value? then SetFront(s.stack, i, s.stack[i].front[read.key := loaded.val]) else s.stack,
         finished := s.finished + {Load(i, read.key, loaded)},
         readers := s.readers[r := read.(pc := Goes(s.stack, origin, read, a))])
    case _ => s.(readers := s.readers[a.r := s.readers[a.r].(pc := Goes(s.stack, origin, s.readers[a.r], a))])
  }

  ghost predicate TiersInRange(s: State) {
    forall r :: 0 <= r < |s.readers| && !s.readers[r].pc.Returned? ==> s.readers[r].entry <= s.readers[r].pc.tier < |s.stack|
  }

  // ---------------------------------------------------------------- the invariant

  /** The answer key k has at tier i: the origin's, through the miss errors of the tiers from there down. */
  function AnswerAt(stack: seq<Tier>, origin: Origin, i: nat, k: Key): Answer
    requires i <= |stack|
  {
    AnswerOf(AllMissErrs(stack[i..]), origin(k))
  }

  /** A load that tier i turns into the right answer. */
  predicate Right(stack: seq<Tier>, origin: Origin, i: nat, k: Key, loaded: Loaded)
    requires i < |stack|
  {
    AnswerOf(stack[i].missErrs, loaded) == AnswerAt(stack, origin, i, k)
  }

  ghost predicate ReadInv(stack: seq<Tier>, origin: Origin, read: Read)
  {
    && read.entry < |stack|
    && (!read.pc.Returned? ==> read.entry <= read.pc.tier < |stack|)
    && (read.pc.Got? || read.pc.Stored? ==> Right(stack, origin, read.pc.tier, read.key, read.pc.loaded))
    && (read.pc.Returned? ==> read.pc.answer == AnswerAt(stack, origin, read.entry, read.key))
  }

  ghost predicate LoadInv(stack: seq<Tier>, origin: Origin, l: Load) {
    l.tier < |stack| && Right(stack, origin, l.tier, l.key, l.loaded)
  }

  ghost predicate Inv(s: State, origin: Origin) {
    && Contained(s.stack, origin)
    && (forall r :: 0 <= r < |s.readers| ==> ReadInv(s.stack, origin, s.readers[r]))
    && (forall l :: l in s.finished ==> LoadInv(s.stack, origin, l))
  }

  /** A value loaded right is the origin's. */
  lemma RightValueIsOrigins(stack: seq<Tier>, origin: Origin, i: nat, k: Key, v: Val)
    requires i < |stack| && Right(stack, origin, i, k, Value(v))
    ensures origin(k) == Value(v)
  {}

  /** The right answer of a tier is a right load for the tier above. */
  lemma RightGoesUp(stack: seq<Tier>, origin: Origin, i: nat, k: Key)
    requires 0 < i < |stack|
    ensures Right(stack, origin, i - 1, k, LoaderFromCache(AnswerAt(stack, origin, i, k)))
  {
    assert stack[i - 1..][1..] == stack[i..];
    if origin(k).Failed? { UnionMiss(stack[i - 1].missErrs, AllMissErrs(stack[i..]), origin(k).err); }
  }

  lemma OriginIsRight(stack: seq<Tier>, origin: Origin, k: Key)
    requires stack != []
    ensures Right(stack, origin, |stack| - 1, k, origin(k))
  {
    var i := |stack| - 1;
    assert stack[i..] == [stack[i]] && [stack[i]][1..] == [];
    assert AllMissErrs([stack[i]]) == stack[i].missErrs + [];
  }

  /** A hit in a contained front is the right answer. */
  lemma HitIsRight(stack: seq<Tier>, origin: Origin, i: nat, k: Key)
    requires Contained(stack, origin) && i < |stack| && k in stack[i].front
    ensures Hit(stack[i].front[k]) == AnswerAt(stack, origin, i, k)
  {}

  lemma DeliverKeepsRead(stack: seq<Tier>, origin: Origin, read: Read, i: nat)
    requires read.entry <= i < |stack|
    ensures ReadInv(stack, origin, read.(pc := Deliver(read.entry, i, AnswerAt(stack, origin, i, read.key))))
  {
    if i > read.entry { RightGoesUp(stack, origin, i, read.key); }
  }

  /** A read's own step, fronts aside. */
  lemma StepKeepsMover(s: State, origin: Origin, a: Action)
    requires Inv(s, origin) && TiersInRange(s) && Enabled(s, a) && !a.Begin? && !a.Drop?
    ensures var read := s.readers[a.r]; ReadInv(s.stack, origin, read.(pc := Goes(s.stack, origin, read, a)))
  {
    var read := s.readers[a.r];
    assert ReadInv(s.stack, origin, read);
    var i, k := read.pc.tier, read.key;
    match a
    case Look(_) =>
      if k in s.stack[i].front {
        HitIsRight(s.stack, origin, i, k);
        DeliverKeepsRead(s.stack, origin, read, i);
      }
    case GoDown(_) => OriginIsRight(s.stack, origin, k);
    case Share(_, loaded) => assert LoadInv(s.stack, origin, Load(i, k, loaded));
    case Store(_) =>
    case Return(_) => DeliverKeepsRead(s.stack, origin, read, i);
  }

  /** Answers depend on the tiers' miss errors alone, which no step changes. */
  lemma SameErrsSameAnswers(stack: seq<Tier>, stack': seq<Tier>, origin: Origin)
    requires |stack'| == |stack| && forall j :: 0 <= j < |stack| ==> stack'[j].missErrs == stack[j].missErrs
    ensures forall i: nat, k :: i <= |stack| ==> AnswerAt(stack', origin, i, k) == AnswerAt(stack, origin, i, k)
  {
    forall i: nat, k | i <= |stack| ensures AnswerAt(stack', origin, i, k) == AnswerAt(stack, origin, i, k) {
      SameMissErrs(stack[i..], stack'[i..]);
    }
  }

  lemma StackStep(s: State, origin: Origin, a: Action)
    requires Inv(s, origin) && TiersInRange(s) && Enabled(s, a)
    ensures var stack' := Next(s, origin, a).stack;
      && |stack'| == |s.stack| && (forall j :: 0 <= j < |s.stack| ==> stack'[j].missErrs == s.stack[j].missErrs)
      && Contained(stack', origin)
  {
    if a.Store? {
      var read := s.readers[a.r];
      assert ReadInv(s.stack, origin, read);
      if read.pc.loaded.Value? {
        RightValueIsOrigins(s.stack, origin, read.pc.tier, read.key, read.pc.loaded.val);
      }
    }
  }

  lemma StepKeepsInv(s: State, origin: Origin, a: Action)
    requires Inv(s, origin) && TiersInRange(s) && Enabled(s, a)
    ensures Inv(Next(s, origin, a), origin) && TiersInRange(Next(s, origin, a))
  {
    var s' := Next(s, origin, a);
    StackStep(s, origin, a);
    SameErrsSameAnswers(s.stack, s'.stack, origin);
    if !a.Begin? && !a.Drop? { StepKeepsMover(s, origin, a); }
    forall r | 0 <= r < |s'.readers| ensures ReadInv(s'.stack, origin, s'.readers[r]) {
      if r < |s.readers| { assert ReadInv(s.stack, origin, s.readers[r]); }
    }
    forall l | l in s'.finished ensures LoadInv(s'.stack, origin, l) {
      if l in s.finished {
        assert LoadInv(s.stack, origin, l);
      } else {
        assert ReadInv(s.stack, origin, s.readers[a.r]);
      }
    }
  }

  // ---------------------------------------------------------------- every run

  ghost predicate IsRun(s: State, origin: Origin, acts: seq<Action>)
    decreases |acts|
  {
    acts == [] || (TiersInRange(s) && Enabled(s, acts[0]) && IsRun(Next(s, origin, acts[0]), origin, acts[1..]))
  }

  ghost function Exec(s: State, origin: Origin, acts: seq<Action>): State
    requires IsRun(s, origin, acts)
    decreases |acts|
  {
    if acts == [] then s else Exec(Next(s, origin, acts[0]), origin, acts[1..])
  }

  lemma {:induction false} RunKeepsInv(s: State, origin: Origin, acts: seq<Action>)
    requires Inv(s, origin) && TiersInRange(s) && IsRun(s, origin, acts)
    ensures var t := Exec(s, origin, acts);
      && Inv(t, origin) && |t.stack| == |s.stack|
      && forall j :: 0 <= j < |s.stack| ==> t.stack[j].missErrs == s.stack[j].missErrs
    decreases |acts|
  {
    if acts != [] {
      StackStep(s, origin, acts[0]);
      StepKeepsInv(s, origin, acts[0]);
      RunKeepsInv(Next(s, origin, acts[0]), origin, acts[1..]);
    }
  }

  /**
    However reads, shared loads, stores and drops interleave, fronts stay inside the origin, and every
    read that has returned answered as the origin through the tiers from its entry down, as a read
    with nothing else going on would.
   */
  lemma ConcurrentReadsAreTransparent(stack: seq<Tier>, origin: Origin, acts: seq<Action>, r: nat)
    requires Contained(stack, origin) && IsRun(State(stack, [], {}), origin, acts)
    ensures Contained(Exec(State(stack, [], {}), origin, acts).stack, origin)
    ensures var t := Exec(State(stack, [], {}), origin, acts);
      r < |t.readers| && t.readers[r].pc.Returned? ==>
        && t.readers[r].entry < |stack|
        && t.readers[r].pc.answer == AnswerOf(AllMissErrs(stack[t.readers[r].entry..]), origin(t.readers[r].key))
        && t.readers[r].pc.answer == Get(stack[t.readers[r].entry..], origin, t.readers[r].key).0
        && FromOrigin(stack[t.readers[r].entry..], origin(t.readers[r].key), t.readers[r].pc.answer)
  {
    RunKeepsInv(State(stack, [], {}), origin, acts);
    var t := Exec(State(stack, [], {}), origin, acts);
    SameErrsSameAnswers(stack, t.stack, origin);
    if r < |t.readers| && t.readers[r].pc.Returned? {
      assert ReadInv(t.stack, origin, t.readers[r]);
      var below := stack[t.readers[r].entry..];
      assert Contained(below, origin);
      ContainedIsTransparent(below, origin, t.readers[r].key);
      if origin(t.readers[r].key).Failed? { UnionMeansSomeTier(below, origin(t.readers[r].key).err); }
    }
  }

  /** A look finds what the front has, and loads nothing: the value goes straight up. */
  lemma FrontsAnswer(s: State, origin: Origin, r: nat)
    requires TiersInRange(s) && Enabled(s, Look(r)) && s.readers[r].key in s.stack[s.readers[r].pc.tier].front
    ensures var read, i := s.readers[r], s.readers[r].pc.tier;
      var v := s.stack[i].front[read.key];
      Next(s, origin, Look(r)).readers[r].pc == if i == read.entry then Returned(Hit(v)) else Got(i - 1, Value(v))
  {}

  /** A miss goes down one tier, to its front, or from the last tier to the origin. */
  lemma MissesGoDownOneTier(s: State, origin: Origin, r: nat)
    requires TiersInRange(s) && Enabled(s, Look(r))
    requires s.readers[r].key !in s.stack[s.readers[r].pc.tier].front
    ensures var i := s.readers[r].pc.tier;
      var t := Next(s, origin, Look(r));
      && Enabled(t, GoDown(r))
      && Next(t, origin, GoDown(r)).readers[r].pc ==
        if i + 1 < |s.stack| then Looking(i + 1) else Got(i, origin(s.readers[r].key))
  {}

  /** Fronts change by a store of a loaded value, under its key, and by dropping a key; nothing else touches them. */
  lemma FrontsAreFilledExactly(s: State, origin: Origin, a: Action, i: nat)
    requires TiersInRange(s) && Enabled(s, a) && i < |s.stack|
    ensures var front, front' := s.stack[i].front, Next(s, origin, a).stack[i].front;
      if a.Store? && i == s.readers[a.r].pc.tier && s.readers[a.r].pc.loaded.Value?
      then front' == front[s.readers[a.r].key := s.readers[a.r].pc.loaded.val]
      else if a.Drop? && i == a.tier then front' == front - {a.k}
      else front' == front
  {}

  /** Every read that has not returned can take a step, so it is never stuck behind another. */
  lemma NoWedge(stack: seq<Tier>, origin: Origin, acts: seq<Action>, r: nat) returns (a: Action)
    requires Contained(stack, origin) && IsRun(State(stack, [], {}), origin, acts)
    requires var t := Exec(State(stack, [], {}), origin, acts); r < |t.readers| && !t.readers[r].pc.Returned?
    ensures (a.Look? || a.GoDown? || a.Store? || a.Return?) && a.r == r
    ensures Enabled(Exec(State(stack, [], {}), origin, acts), a)
  {
    RunKeepsInv(State(stack, [], {}), origin, acts);
    var t := Exec(State(stack, [], {}), origin, acts);
    assert ReadInv(t.stack, origin, t.readers[r]);
    match t.readers[r].pc
    case Looking(_) => a := Look(r);
    case Missed(_) => a := GoDown(r);
    case Got(_, _) => a := Store(r);
    case Stored(_, _) => a := Return(r);
  }
}
