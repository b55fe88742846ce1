/**
  Read-through tiers: a cache that loads what it misses from the tier below, down to a fixed origin.
  The first half specifies a stack of tiers on values; the second is the object whose GetContext
  updates the fronts in place.
 */
module ReadThrough {
  import opened Basics

  type Key(==, !new)
  type Val(==, !new)

  datatype ErrorId = CacheMiss | Named(n: nat)

  /** An error, as the set of errors it matches: itself and everything it wraps. */
  datatype Error = Error(matches: set<ErrorId>)

  datatype Loaded = Value(val: Val) | Failed(err: Error)

  datatype Answer = Hit(val: Val) | Miss | Failure(err: Error)

  datatype Tier = Tier(front: map<Key, Val>, missErrs: seq<ErrorId>)

  type Origin = Key -> Loaded

  predicate IsMiss(missErrs: seq<ErrorId>, err: Error) {
    CacheMiss in err.matches || exists e :: e in missErrs && e in err.matches
  }

  /** A cache as a loader: a miss becomes the error that the tier above reads as a miss. */
  function LoaderFromCache(a: Answer): Loaded {
    match a
    case Hit(v) => Value(v)
    case Miss => Failed(Error({CacheMiss}))
    case Failure(e) => Failed(e)
  }

  /** What a tier makes of a load's result. */
  function AnswerOf(missErrs: seq<ErrorId>, loaded: Loaded): Answer {
    match loaded
    case Value(v) => Hit(v)
    case Failed(e) => if IsMiss(missErrs, e) then Miss else Failure(e)
  }

  /** Get on the top of a stack: the answer, and the stack with the fronts it filled. */
  function Get(stack: seq<Tier>, origin: Origin, k: Key): (r: (Answer, seq<Tier>))
    requires stack != []
    ensures |r.1| == |stack|
    decreases |stack|
  {
    var top := stack[0];
    if k in top.front then (Hit(top.front[k]), stack)
    else
      var (loaded, rest) :=
        if |stack| == 1 then (origin(k), [])
        else var (a, below) := Get(stack[1..], origin, k); (LoaderFromCache(a), below);
      var top' := if loaded.Value? then top.(front := top.front[k := loaded.val]) else top;
      (AnswerOf(top.missErrs, loaded), [top'] + rest)
  }

  function AllMissErrs(stack: seq<Tier>): seq<ErrorId> {
    if stack == [] then [] else stack[0].missErrs + AllMissErrs(stack[1..])
  }

  /** Every front holds only what the origin has. */
  ghost predicate Contained(stack: seq<Tier>, origin: Origin) {
    forall i, k :: 0 <= i < |stack| && k in stack[i].front ==> origin(k) == Value(stack[i].front[k])
  }

  /** The value k has in the highest tier that holds it. */
  function FirstHit(stack: seq<Tier>, k: Key): Option<Val> {
    if stack == [] then None
    else if k in stack[0].front then Some(stack[0].front[k])
    else FirstHit(stack[1..], k)
  }

  /**
    What Get on a stack of any depth means: the highest front that has the key answers; if none has
    it the origin does, read through the union of all tiers' miss errors. Values pass up unchanged,
    errors some tier calls a miss surface as a miss, and every other error passes through unchanged.
   */
  lemma {:induction false} GetMeans(stack: seq<Tier>, origin: Origin, k: Key)
    requires stack != []
    ensures Get(stack, origin, k).0 ==
      (match FirstHit(stack, k) case Some(v) => Hit(v) case None => AnswerOf(AllMissErrs(stack), origin(k)))
    decreases |stack|
  {
    var top := stack[0];
    if k !in top.front {
      if |stack| == 1 {
        assert AllMissErrs(stack) == top.missErrs + [];
      } else {
        GetMeans(stack[1..], origin, k);
        if origin(k).Failed? { UnionMiss(top.missErrs, AllMissErrs(stack[1..]), origin(k).err); }
      }
    }
  }

  /** A stack is transparent for a key exactly when its highest front that has the key agrees with the origin. */
  lemma StackAnswersAsOrigin(stack: seq<Tier>, origin: Origin, k: Key)
    requires stack != []
    ensures Get(stack, origin, k).0 == AnswerOf(AllMissErrs(stack), origin(k)) <==>
      (FirstHit(stack, k).Some? ==> origin(k) == Value(FirstHit(stack, k).value))
  {
    GetMeans(stack, origin, k);
  }

  lemma {:induction false} ContainedHitsAgree(stack: seq<Tier>, origin: Origin, k: Key)
    requires Contained(stack, origin) && FirstHit(stack, k).Some?
    ensures origin(k) == Value(FirstHit(stack, k).value)
    decreases |stack|
  {
    if k !in stack[0].front {
      assert Contained(stack[1..], origin);
      ContainedHitsAgree(stack[1..], origin, k);
    }
  }

  /** e is registered as a miss with some tier, or is the built-in miss. */
  ghost predicate SomeTierMisses(stack: seq<Tier>, err: Error) {
    CacheMiss in err.matches || exists i, e :: 0 <= i < |stack| && e in stack[i].missErrs && e in err.matches
  }

  lemma {:induction false} UnionMeansSomeTier(stack: seq<Tier>, err: Error)
    requires stack != []
    ensures IsMiss(AllMissErrs(stack), err) <==> SomeTierMisses(stack, err)
    decreases |stack|
  {
    var rest := stack[1..];
    UnionMiss(stack[0].missErrs, AllMissErrs(rest), err);
    if rest == [] {
      assert AllMissErrs(rest) == [];
    } else {
      UnionMeansSomeTier(rest, err);
      if i, e :| 0 <= i < |rest| && e in rest[i].missErrs && e in err.matches { assert rest[i] == stack[i + 1]; }
      if i, e :| 0 <= i < |stack| && e in stack[i].missErrs && e in err.matches {
        assert i > 0 ==> stack[i] == rest[i - 1];
      }
    }
  }

  /** The answer to a Get when no front has the key: the origin's value, a miss some tier knows, or the error as it is. */
  ghost predicate FromOrigin(stack: seq<Tier>, loaded: Loaded, a: Answer) {
    match loaded
    case Value(v) => a == Hit(v)
    case Failed(e) => if SomeTierMisses(stack, e) then a == Miss else a == Failure(e)
  }

  ghost predicate FirstAt(stack: seq<Tier>, k: Key, i: int) {
    0 <= i < |stack| && k in stack[i].front && forall j :: 0 <= j < i ==> k !in stack[j].front
  }

  /** FirstHit is the value of the first front from the top that has the key. */
  lemma {:induction false} FirstHitMeans(stack: seq<Tier>, k: Key)
    ensures match FirstHit(stack, k)
      case None => forall i :: 0 <= i < |stack| ==> k !in stack[i].front
      case Some(v) => exists i :: FirstAt(stack, k, i) && stack[i].front[k] == v
    decreases |stack|
  {
    if stack != [] && k in stack[0].front {
      assert FirstAt(stack, k, 0);
    } else if stack != [] {
      var rest := stack[1..];
      FirstHitMeans(rest, k);
      if FirstHit(rest, k).Some? {
        var i :| FirstAt(rest, k, i) && rest[i].front[k] == FirstHit(rest, k).value;
        assert stack[i + 1] == rest[i] && forall j :: 0 < j < i + 1 ==> stack[j] == rest[j - 1];
        assert FirstAt(stack, k, i + 1);
      } else {
        assert forall i :: 0 < i < |stack| ==> stack[i] == rest[i - 1];
      }
    }
  }

  /** The answer is the first front's that has the key or, if none has it, comes from the origin. */
  ghost predicate AnswersPlainly(stack: seq<Tier>, origin: Origin, k: Key, a: Answer) {
    && ((forall i :: 0 <= i < |stack| ==> k !in stack[i].front) ==> FromOrigin(stack, origin(k), a))
    && (forall i :: FirstAt(stack, k, i) ==> a == Hit(stack[i].front[k]))
  }

  /**
    A Get in plain terms. The first front from the top that has the key answers. If none has it, a value
    of the origin's is a hit; an error is a miss if and only if it matches the built-in miss or an error
    some tier registered; and any other error comes up unchanged.
   */
  lemma GetAnswers(stack: seq<Tier>, origin: Origin, k: Key)
    requires stack != []
    ensures AnswersPlainly(stack, origin, k, Get(stack, origin, k).0)
  {
    GetMeans(stack, origin, k);
    FirstHitMeans(stack, k);
    if origin(k).Failed? { UnionMeansSomeTier(stack, origin(k).err); }
    forall i | FirstAt(stack, k, i) ensures Get(stack, origin, k).0 == Hit(stack[i].front[k]) {
      var i' :| FirstAt(stack, k, i') && stack[i'].front[k] == FirstHit(stack, k).value;
      assert i' == i;
    }
  }

  lemma UnionMiss(a: seq<ErrorId>, b: seq<ErrorId>, err: Error)
    ensures IsMiss(a + b, err) <==> IsMiss(a, err) || IsMiss(b, err)
  {}

  lemma {:induction false} ContainedIsTransparent(stack: seq<Tier>, origin: Origin, k: Key)
    requires stack != [] && Contained(stack, origin)
    ensures Get(stack, origin, k).0 == AnswerOf(AllMissErrs(stack), origin(k))
  {
    StackAnswersAsOrigin(stack, origin, k);
    if FirstHit(stack, k).Some? { ContainedHitsAgree(stack, origin, k); }
  }

  /** In particular, any stack is indistinguishable from a single tier with the union of the miss errors. */
  lemma {:induction false} StackIsOneTier(stack: seq<Tier>, single: map<Key, Val>, origin: Origin, k: Key)
    requires stack != [] && Contained(stack, origin)
    requires Contained([Tier(single, AllMissErrs(stack))], origin)
    ensures Get(stack, origin, k).0 == Get([Tier(single, AllMissErrs(stack))], origin, k).0
  {
    var one := [Tier(single, AllMissErrs(stack))];
    ContainedIsTransparent(stack, origin, k);
    ContainedIsTransparent(one, origin, k);
    assert AllMissErrs(one) == AllMissErrs(stack) + [];
  }

  /**
    What a Get does to the fronts. A hit fills the key in from the top down to the first tier that
    had it, or in every tier when it came from the origin; tiers below that, and every tier on a
    miss or an error, stay as they were.
   */
  lemma {:induction false} GetFillsFromTheTop(stack: seq<Tier>, origin: Origin, k: Key)
    requires stack != []
    ensures var (a, stack') := Get(stack, origin, k);
      forall i :: 0 <= i < |stack| ==>
        if a.Hit? && (forall j :: 0 <= j < i ==> k !in stack[j].front)
        then stack'[i] == stack[i].(front := stack[i].front[k := a.val])
        else stack'[i] == stack[i]
    decreases |stack|
  {
    var (a, stack') := Get(stack, origin, k);
    var top := stack[0];
    if k in top.front {
      assert top.front[k := a.val] == top.front;
    } else if |stack| > 1 {
      GetFillsFromTheTop(stack[1..], origin, k);
      var (b, below) := Get(stack[1..], origin, k);
      assert stack'[1..] == below && a.Hit? == b.Hit? && (a.Hit? ==> a == b);
      forall i | 1 <= i < |stack|
        ensures if a.Hit? && (forall j :: 0 <= j < i ==> k !in stack[j].front)
          then stack'[i] == stack[i].(front := stack[i].front[k := a.val])
          else stack'[i] == stack[i]
      {
        assert stack[1..][i - 1] == stack[i] && below[i - 1] == stack'[i];
        if forall j :: 0 <= j < i ==> k !in stack[j].front {
          assert forall j :: 0 <= j < i - 1 ==> k !in stack[1..][j].front;
        } else {
          var j :| 0 <= j < i && k in stack[j].front;
          assert stack[1..][j - 1] == stack[j];
        }
      }
    }
  }

  lemma {:induction false} GetKeepsContained(stack: seq<Tier>, origin: Origin, k: Key)
    requires stack != [] && Contained(stack, origin)
    ensures Contained(Get(stack, origin, k).1, origin)
    ensures AllMissErrs(Get(stack, origin, k).1) == AllMissErrs(stack)
  {
    var (a, stack') := Get(stack, origin, k);
    ContainedIsTransparent(stack, origin, k);
    GetFillsFromTheTop(stack, origin, k);
    SameMissErrs(stack, stack');
  }

  lemma {:induction false} SameMissErrs(stack: seq<Tier>, stack': seq<Tier>)
    requires |stack'| == |stack|
    requires forall i :: 0 <= i < |stack| ==> stack'[i].missErrs == stack[i].missErrs
    ensures AllMissErrs(stack') == AllMissErrs(stack)
    decreases |stack|
  {
    if stack != [] { SameMissErrs(stack[1..], stack'[1..]); }
  }

  /** A use of a stack: a read that enters at some tier, or a front dropping a key by itself. */
  datatype Use = GetAt(tier: nat, k: Key) | Evict(tier: nat, k: Key)

  ghost predicate InStack(stack: seq<Tier>, uses: seq<Use>) {
    forall i :: 0 <= i < |uses| ==> uses[i].tier < |stack|
  }

  ghost function After(stack: seq<Tier>, origin: Origin, u: Use): (r: seq<Tier>)
    requires u.tier < |stack|
    ensures |r| == |stack|
  {
    match u
    case GetAt(i, k) => stack[..i] + Get(stack[i..], origin, k).1
    case Evict(i, k) => stack[i := stack[i].(front := stack[i].front - {k})]
  }

  ghost function AfterAll(stack: seq<Tier>, origin: Origin, uses: seq<Use>): (r: seq<Tier>)
    requires InStack(stack, uses)
    ensures |r| == |stack|
    decreases |uses|
  {
    if uses == [] then stack else AfterAll(After(stack, origin, uses[0]), origin, uses[1..])
  }

  lemma ReplaceLowerTiers(stack: seq<Tier>, i: nat, lower: seq<Tier>, origin: Origin)
    requires i <= |stack| && |lower| == |stack| - i
    requires Contained(stack, origin) && Contained(lower, origin)
    requires forall j :: 0 <= j < |lower| ==> lower[j].missErrs == stack[i..][j].missErrs
    ensures Contained(stack[..i] + lower, origin)
    ensures forall j :: 0 <= j < |stack| ==> (stack[..i] + lower)[j].missErrs == stack[j].missErrs
  {
    forall j | i <= j < |stack|
      ensures (stack[..i] + lower)[j].missErrs == stack[j].missErrs
    {
      assert stack[i..][j - i] == stack[j];
    }
  }

  lemma UseKeepsContained(stack: seq<Tier>, origin: Origin, u: Use)
    requires u.tier < |stack| && Contained(stack, origin)
    ensures Contained(After(stack, origin, u), origin)
    ensures forall j :: 0 <= j < |stack| ==> After(stack, origin, u)[j].missErrs == stack[j].missErrs
  {
    if u.GetAt? {
      var lower := stack[u.tier..];
      assert Contained(lower, origin);
      GetKeepsContained(lower, origin, u.k);
      GetFillsFromTheTop(lower, origin, u.k);
      ReplaceLowerTiers(stack, u.tier, Get(lower, origin, u.k).1, origin);
    }
  }

  /**
    Through any run of reads entering at any tier and of evictions, every front stays inside the
    origin, so every later read at any tier answers as the origin through the tiers at and below it.
   */
  lemma {:induction false} TransparentAfterAnyRun(stack: seq<Tier>, origin: Origin, uses: seq<Use>, i: nat, k: Key)
    requires Contained(stack, origin) && InStack(stack, uses) && i < |stack|
    ensures var stack' := AfterAll(stack, origin, uses);
      && Contained(stack', origin)
      && Get(stack'[i..], origin, k).0 == AnswerOf(AllMissErrs(stack[i..]), origin(k))
    decreases |uses|
  {
    if uses == [] {
      assert Contained(stack[i..], origin);
      ContainedIsTransparent(stack[i..], origin, k);
    } else {
      UseKeepsContained(stack, origin, uses[0]);
      var next := After(stack, origin, uses[0]);
      TransparentAfterAnyRun(next, origin, uses[1..], i, k);
      SameMissErrs(stack[i..], next[i..]);
    }
  }

  /** A read-through cache over the origin or, through LoaderFromCache, over another one. */
  class ReadThrough {
    var front: map<Key, Val>
    const missErrs: seq<ErrorId>
    const below: ReadThrough?
    const origin: Origin
    ghost const repr: set<ReadThrough>

    /** The tiers from here down, all distinct objects over one origin. */
    ghost predicate Valid()
      decreases repr
    {
      && this in repr
      && (if below == null then repr == {this}
          else this !in below.repr && repr == {this} + below.repr && below.origin == origin && below.Valid())
    }

    ghost function Stack(): (s: seq<Tier>)
      requires Valid()
      reads repr
      ensures s != []
      decreases repr
    {
      [Tier(front, missErrs)] + (if below == null then [] else below.Stack())
    }

    constructor (front: map<Key, Val>, missErrs: seq<ErrorId>, origin: Origin)
      ensures Valid() && fresh(repr) && Stack() == [Tier(front, missErrs)] && this.origin == origin
    {
      this.front, this.missErrs, this.origin, this.below := front, missErrs, origin, null;
      this.repr := {this};
    }

    constructor Over(front: map<Key, Val>, missErrs: seq<ErrorId>, below: ReadThrough)
      requires below.Valid()
      ensures Valid() && fresh(repr - below.repr) && origin == below.origin
      ensures Stack() == [Tier(front, missErrs)] + below.Stack()
    {
      this.front, this.missErrs, this.below, this.origin := front, missErrs, below, below.origin;
      this.repr := {this} + below.repr;
    }

    /** isMiss: the built-in miss first, then the registered errors in turn. */
    method IsMissError(err: Error) returns (miss: bool)
      ensures miss == IsMiss(missErrs, err)
      ensures miss <==> CacheMiss in err.matches || exists e :: e in missErrs && e in err.matches
    {
      if CacheMiss in err.matches { return true; }
      for i := 0 to |missErrs|
        invariant forall e :: e in missErrs[..i] ==> e !in err.matches
      {
        if missErrs[i] in err.matches { return true; }
      }
      assert missErrs[..|missErrs|] == missErrs;
      miss := false;
    }

    /** The loader given to this tier: the origin, or the tier below. */
    method Load(k: Key) returns (loaded: Loaded)
      requires Valid()
      modifies if below == null then {} else below.repr
      ensures below == null ==> loaded == origin(k)
      ensures below != null ==> var (a, s) := Get(old(below.Stack()), origin, k);
        loaded == LoaderFromCache(a) && below.Stack() == s
      decreases repr, 0
    {
      if below == null {
        loaded := origin(k);
      } else {
        var a := below.GetContext(k);
        loaded := LoaderFromCache(a);
      }
    }

    /** GetContext over an infallible front, without single-flight: the front, else the loader and a fill. */
    method Fetch(k: Key) returns (a: Answer)
      requires Valid()
      modifies repr
      ensures (a, Stack()) == Get(old(Stack()), origin, k)
      decreases repr, 1
    {
      if k in front { return Hit(front[k]); }
      var loaded := Load(k);
      match loaded
      case Value(v) =>
        front := front[k := v];
        a := Hit(v);
      case Failed(e) =>
        var miss := IsMissError(e);
        a := if miss then Miss else Failure(e);
    }

    /** The same, with what the answer means. */
    method GetContext(k: Key) returns (a: Answer)
      requires Valid()
      modifies repr
      ensures (a, Stack()) == Get(old(Stack()), origin, k)
      ensures AnswersPlainly(old(Stack()), origin, k, a)
      decreases repr, 2
    {
      GetAnswers(Stack(), origin, k);
      a := Fetch(k);
    }
  }
}
