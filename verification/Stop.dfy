/**
  Stop conditions as a tree, and the attempt count it stands for: the least over Any, the greatest
  over All, and n for MaxAttempts(n).
 */
module Stop {
  import opened Basics

  type Error(==, !new)

  datatype StopFunc =
    | MaxAttempts(n: int)
    | MaxElapsed(d: int)
    | OnError(pred: Error -> bool)
    | Any(stops: seq<StopFunc>)
    | All(stops: seq<StopFunc>)
  {
    /** What the constructors let through. */
    predicate Valid() {
      match this
      case MaxAttempts(n) => n > 0
      case MaxElapsed(d) => d > 0
      case OnError(_) => true
      case Any(stops) => |stops| > 0 && forall i :: 0 <= i < |stops| ==> stops[i].Valid()
      case All(stops) => |stops| > 0 && forall i :: 0 <= i < |stops| ==> stops[i].Valid()
    }

    /** The StopFunc itself, called after a failed attempt. */
    predicate Halts(attempt: int, elapsed: int, err: Error) {
      match this
      case MaxAttempts(n) => attempt >= n
      case MaxElapsed(d) => elapsed >= d
      case OnError(pred) => pred(err)
      case Any(stops) => exists i :: 0 <= i < |stops| && stops[i].Halts(attempt, elapsed, err)
      case All(stops) => forall i :: 0 <= i < |stops| ==> stops[i].Halts(attempt, elapsed, err)
    }

    /** The attempt from which the tree halts, when every leaf that does not count attempts halts from other on. */
    function Value(other: Limit): Limit {
      match this
      case MaxAttempts(n) => From(n)
      case MaxElapsed(_) => other
      case OnError(_) => other
      case Any(stops) => Least(seq(|stops|, i requires 0 <= i < |stops| => stops[i].Value(other)))
      case All(stops) => Greatest(seq(|stops|, i requires 0 <= i < |stops| => stops[i].Value(other)))
    }

    /** No leaf but MaxAttempts halts on this elapsed time and error. */
    predicate OthersSilent(elapsed: int, err: Error) {
      match this
      case MaxAttempts(_) => true
      case MaxElapsed(d) => elapsed < d
      case OnError(pred) => !pred(err)
      case Any(stops) => forall i :: 0 <= i < |stops| ==> stops[i].OthersSilent(elapsed, err)
      case All(stops) => forall i :: 0 <= i < |stops| ==> stops[i].OthersSilent(elapsed, err)
    }

    predicate OnlyCountsAttempts() {
      match this
      case MaxAttempts(_) => true
      case MaxElapsed(_) => false
      case OnError(_) => false
      case Any(stops) => forall i :: 0 <= i < |stops| ==> stops[i].OnlyCountsAttempts()
      case All(stops) => forall i :: 0 <= i < |stops| ==> stops[i].OnlyCountsAttempts()
    }
  }

  /** A call of the StopFunc: Any and All range over theirs and return at the first that decides. */
  method Consult(stop: StopFunc, attempt: int, elapsed: int, err: Error) returns (halt: bool)
    ensures halt == stop.Halts(attempt, elapsed, err)
    decreases stop
  {
    match stop
    case MaxAttempts(n) => halt := attempt >= n;
    case MaxElapsed(d) => halt := elapsed >= d;
    case OnError(pred) => halt := pred(err);
    case Any(stops) =>
      for i := 0 to |stops|
        invariant forall j :: 0 <= j < i ==> !stops[j].Halts(attempt, elapsed, err)
      {
        var one := Consult(stops[i], attempt, elapsed, err);
        if one { return true; }
      }
      halt := false;
    case All(stops) =>
      for i := 0 to |stops|
        invariant forall j :: 0 <= j < i ==> stops[j].Halts(attempt, elapsed, err)
      {
        var one := Consult(stops[i], attempt, elapsed, err);
        if !one { return false; }
      }
      halt := true;
  }

  /** From some attempt on, or never. */
  datatype Limit = From(n: int) | Never
  {
    predicate Reached(attempt: int) { From? && attempt >= n }
  }

  /** The smaller and the larger of two limits, Never being the largest. */
  function Sooner(a: Limit, b: Limit): Limit {
    if a.Never? || (b.From? && b.n < a.n) then b else a
  }

  function Later(a: Limit, b: Limit): Limit {
    if a.From? && (b.Never? || a.n < b.n) then b else a
  }

  function Least(limits: seq<Limit>): Limit {
    if limits == [] then Never else Sooner(limits[0], Least(limits[1..]))
  }

  function Greatest(limits: seq<Limit>): Limit {
    if |limits| == 0 then From(0)
    else if |limits| == 1 then limits[0]
    else Later(limits[0], Greatest(limits[1..]))
  }

  /** The least limit is reached when some limit is, the greatest when all are. */
  lemma {:induction false} LeastReached(limits: seq<Limit>, attempt: int)
    ensures Least(limits).Reached(attempt) <==> exists i :: 0 <= i < |limits| && limits[i].Reached(attempt)
    decreases |limits|
  {
    if limits != [] {
      LeastReached(limits[1..], attempt);
      assert forall i :: 0 <= i < |limits[1..]| ==> limits[1..][i] == limits[i + 1];
      if i :| 0 <= i < |limits[1..]| && limits[1..][i].Reached(attempt) { assert limits[i + 1].Reached(attempt); }
      if i :| 0 <= i < |limits| && limits[i].Reached(attempt) { assert i > 0 ==> limits[1..][i - 1].Reached(attempt); }
    }
  }

  lemma {:induction false} GreatestReached(limits: seq<Limit>, attempt: int)
    requires limits != []
    ensures Greatest(limits).Reached(attempt) <==> forall i :: 0 <= i < |limits| ==> limits[i].Reached(attempt)
    decreases |limits|
  {
    if |limits| > 1 {
      GreatestReached(limits[1..], attempt);
      forall i | 0 <= i < |limits| ensures i > 0 ==> limits[i] == limits[1..][i - 1] {}
      assert forall i :: 0 <= i < |limits[1..]| ==> limits[1..][i] == limits[i + 1];
    }
  }

  /** The values of a node's children under one reading of the other leaves. */
  function Values(stops: seq<StopFunc>, other: Limit): (r: seq<Limit>)
    ensures |r| == |stops| && forall i :: 0 <= i < |r| ==> r[i] == stops[i].Value(other)
  {
    seq(|stops|, i requires 0 <= i < |stops| => stops[i].Value(other))
  }

  lemma ValueOfNode(stop: StopFunc, other: Limit, attempt: int)
    requires stop.Valid() && (stop.Any? || stop.All?)
    ensures stop.Any? ==> (stop.Value(other).Reached(attempt) <==>
      exists i :: 0 <= i < |stop.stops| && stop.stops[i].Value(other).Reached(attempt))
    ensures stop.All? ==> (stop.Value(other).Reached(attempt) <==>
      forall i :: 0 <= i < |stop.stops| ==> stop.stops[i].Value(other).Reached(attempt))
  {
    var vs := Values(stop.stops, other);
    if stop.Any? {
      assert stop.Value(other) == Least(vs);
      LeastReached(vs, attempt);
    } else {
      assert stop.Value(other) == Greatest(vs);
      GreatestReached(vs, attempt);
    }
  }

  /** The value in plain terms: n for MaxAttempts(n), and over counting trees a least and a greatest. */
  lemma ValueIsLeastAndGreatest(stop: StopFunc)
    requires stop.Valid() && stop.OnlyCountsAttempts()
    ensures stop.Value(Never).From?
    ensures stop.MaxAttempts? ==> stop.Value(Never).n == stop.n
    ensures stop.Any? ==> forall i :: 0 <= i < |stop.stops| ==>
      stop.stops[i].Value(Never).From? && stop.Value(Never).n <= stop.stops[i].Value(Never).n
    ensures stop.All? ==> forall i :: 0 <= i < |stop.stops| ==>
      stop.stops[i].Value(Never).From? && stop.Value(Never).n >= stop.stops[i].Value(Never).n
    ensures stop.Any? || stop.All? ==> exists i :: 0 <= i < |stop.stops| && stop.stops[i].Value(Never) == stop.Value(Never)
  {
    CountingTreeHasValue(stop);
    if stop.Any? || stop.All? {
      forall i | 0 <= i < |stop.stops|
        ensures stop.stops[i].Value(Never).From?
        ensures stop.Any? ==> stop.Value(Never).n <= stop.stops[i].Value(Never).n
        ensures stop.All? ==> stop.Value(Never).n >= stop.stops[i].Value(Never).n
      {
        CountingTreeHasValue(stop.stops[i]);
        ValueOfNode(stop, Never, if stop.Any? then stop.stops[i].Value(Never).n else stop.Value(Never).n);
      }
      var vs := Values(stop.stops, Never);
      SomeOf(vs);
      var v := stop.Value(Never);
      assert v == if stop.Any? then Least(vs) else Greatest(vs);
      var i :| 0 <= i < |vs| && vs[i] == v;
    }
  }

  /**
    Where the other leaves decide: a time limit halts exactly from its time on and a predicate exactly
    on its errors; Any of several halts as soon as one of them does, All only when each does.
   */
  lemma LeavesHalt(stop: StopFunc, attempt: int, elapsed: int, err: Error)
    ensures stop.MaxAttempts? ==> (stop.Halts(attempt, elapsed, err) <==> stop.n <= attempt)
    ensures stop.MaxElapsed? ==> (stop.Halts(attempt, elapsed, err) <==> stop.d <= elapsed)
    ensures stop.OnError? ==> (stop.Halts(attempt, elapsed, err) <==> stop.pred(err))
    ensures stop.Any? ==> forall i :: 0 <= i < |stop.stops| && stop.stops[i].Halts(attempt, elapsed, err) ==>
      stop.Halts(attempt, elapsed, err)
    ensures stop.All? ==> forall i :: 0 <= i < |stop.stops| && stop.Halts(attempt, elapsed, err) ==>
      stop.stops[i].Halts(attempt, elapsed, err)
  {}

  /** While the other leaves are silent the tree halts exactly from its value on. */
  lemma {:induction false} HaltsExactlyFromValue(stop: StopFunc, attempt: int, elapsed: int, err: Error)
    requires stop.Valid() && stop.OthersSilent(elapsed, err)
    ensures stop.Halts(attempt, elapsed, err) <==> stop.Value(Never).Reached(attempt)
    decreases stop
  {
    if stop.Any? || stop.All? {
      forall i | 0 <= i < |stop.stops|
        ensures stop.stops[i].Halts(attempt, elapsed, err) <==> stop.stops[i].Value(Never).Reached(attempt)
      {
        HaltsExactlyFromValue(stop.stops[i], attempt, elapsed, err);
      }
      ValueOfNode(stop, Never, attempt);
    }
  }

  /** Whatever the other leaves do, it halts from its value on, and not before the value that counts them as immediate. */
  lemma {:induction false} HaltsWithinValues(stop: StopFunc, attempt: int, elapsed: int, err: Error)
    requires stop.Valid() && attempt > 0
    ensures stop.Value(Never).Reached(attempt) ==> stop.Halts(attempt, elapsed, err)
    ensures stop.Halts(attempt, elapsed, err) ==> stop.Value(From(1)).Reached(attempt)
    decreases stop
  {
    if stop.Any? || stop.All? {
      forall i | 0 <= i < |stop.stops|
        ensures stop.stops[i].Value(Never).Reached(attempt) ==> stop.stops[i].Halts(attempt, elapsed, err)
        ensures stop.stops[i].Halts(attempt, elapsed, err) ==> stop.stops[i].Value(From(1)).Reached(attempt)
      {
        HaltsWithinValues(stop.stops[i], attempt, elapsed, err);
      }
      ValueOfNode(stop, Never, attempt);
      ValueOfNode(stop, From(1), attempt);
    }
  }

  lemma {:induction false} ValueIsPositive(stop: StopFunc, other: Limit)
    requires stop.Valid() && (other.From? ==> other.n > 0)
    ensures stop.Value(other).From? ==> stop.Value(other).n > 0
    decreases stop
  {
    if stop.Any? || stop.All? {
      forall i | 0 <= i < |stop.stops| ensures stop.stops[i].Value(other).From? ==> stop.stops[i].Value(other).n > 0 {
        ValueIsPositive(stop.stops[i], other);
      }
      SomeOf(Values(stop.stops, other));
    }
  }

  /** A tree of MaxAttempts alone always has a value, and no other leaf to speak. */
  lemma {:induction false} CountingTreeHasValue(stop: StopFunc)
    requires stop.Valid() && stop.OnlyCountsAttempts()
    ensures stop.Value(Never).From?
    ensures forall elapsed, err :: stop.OthersSilent(elapsed, err)
    decreases stop
  {
    if stop.Any? || stop.All? {
      forall i | 0 <= i < |stop.stops|
        ensures stop.stops[i].Value(Never).From?
        ensures forall elapsed, err :: stop.stops[i].OthersSilent(elapsed, err)
      {
        CountingTreeHasValue(stop.stops[i]);
      }
      SomeOf(Values(stop.stops, Never));
    }
  }

  /** The least and the greatest of some limits are among them. */
  lemma {:induction false} SomeOf(limits: seq<Limit>)
    requires limits != []
    ensures Least(limits) in limits && Greatest(limits) in limits
    decreases |limits|
  {
    if |limits| > 1 {
      SomeOf(limits[1..]);
    } else {
      assert limits[1..] == [];
    }
  }
}
