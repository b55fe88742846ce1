/**
  The cadence of a Throttle: the recurrence nextSlot computes, its closed form, and what follows from
  it about spacing, drift, idle time and rate. Times and delays are integers; a delay may be negative.
 */
module Cadence {
  import opened Basics

  /** One call of nextSlot: the time it reads and the delay it is given. */
  datatype Turn = Turn(now: int, delay: int)

  /** The throttle's field after the given turns. Zero is before every time read. */
  function NextAllowed(turns: seq<Turn>): int {
    if turns == [] then 0
    else Max(NextAllowed(turns[..|turns| - 1]), turns[|turns| - 1].now) + turns[|turns| - 1].delay
  }

  /** When turn i is due: at once, or when the turns before it allow. */
  function DueAt(turns: seq<Turn>, i: nat): int
    requires i < |turns|
  {
    Max(NextAllowed(turns[..i]), turns[i].now)
  }

  predicate ReadAfterZero(turns: seq<Turn>) {
    forall i :: 0 <= i < |turns| ==> turns[i].now > 0
  }

  /** The delays of turns i to j - 1. */
  function Delays(turns: seq<Turn>, i: nat, j: nat): int
    requires i <= j <= |turns|
    decreases j - i
  {
    if i == j then 0 else Delays(turns, i, j - 1) + turns[j - 1].delay
  }

  /** The due time of one turn from that of the turn before. */
  lemma DueAfter(turns: seq<Turn>, i: nat)
    requires i + 1 < |turns|
    ensures DueAt(turns, i + 1) == Max(DueAt(turns, i) + turns[i].delay, turns[i + 1].now)
  {
    assert turns[..i + 1][..i] == turns[..i];
  }

  lemma DueOfAppended(turns: seq<Turn>, t: Turn)
    ensures NextAllowed(turns + [t]) == Max(NextAllowed(turns), t.now) + t.delay
    ensures DueAt(turns + [t], |turns|) == Max(NextAllowed(turns), t.now)
    ensures forall i :: 0 <= i < |turns| ==> DueAt(turns + [t], i) == DueAt(turns, i)
  {
    var all := turns + [t];
    assert all[..|turns|] == turns;
    forall i | 0 <= i < |turns| ensures DueAt(all, i) == DueAt(turns, i) {
      assert all[..i] == turns[..i];
    }
  }

  /** Due times are at least as far apart as the delays between them. */
  lemma {:induction false} DuesAreSpaced(turns: seq<Turn>, i: nat, j: nat)
    requires i <= j < |turns|
    ensures DueAt(turns, j) - DueAt(turns, i) >= Delays(turns, i, j)
    decreases j - i
  {
    if i < j {
      DuesAreSpaced(turns, i, j - 1);
      DueAfter(turns, j - 1);
    }
  }

  /** The binding turn: the one whose time, plus the delays since, is when turn i is due. */
  lemma {:induction false} SomeTurnBinds(turns: seq<Turn>, i: nat) returns (k: nat)
    requires ReadAfterZero(turns) && i < |turns|
    ensures k <= i && DueAt(turns, i) == turns[k].now + Delays(turns, k, i)
  {
    if i == 0 {
      k := 0;
      assert turns[..0] == [];
    } else {
      DueAfter(turns, i - 1);
      if DueAt(turns, i) == turns[i].now {
        k := i;
      } else {
        k := SomeTurnBinds(turns, i - 1);
      }
    }
  }

  /** Closed form: turn i is due at the largest of now_k plus the delays of turns k to i - 1. */
  lemma DueIsTheMaximum(turns: seq<Turn>, i: nat, due: int)
    requires ReadAfterZero(turns) && i < |turns|
    ensures due == DueAt(turns, i) <==>
      && (forall k :: 0 <= k <= i ==> turns[k].now + Delays(turns, k, i) <= due)
      && (exists k :: 0 <= k <= i && turns[k].now + Delays(turns, k, i) == due)
  {
    forall k | 0 <= k <= i ensures turns[k].now + Delays(turns, k, i) <= DueAt(turns, i) {
      DuesAreSpaced(turns, k, i);
    }
    var k := SomeTurnBinds(turns, i);
  }

  /** Turn k was taken before the delays since turn i had passed. */
  predicate InTime(turns: seq<Turn>, i: nat, k: nat)
    requires i <= k < |turns|
  {
    turns[k].now <= DueAt(turns, i) + Delays(turns, i, k)
  }

  /** While the throttle is backlogged there is no drift: late readings of the clock do not matter. */
  lemma {:induction false} NoDriftExactlyWhileBacklogged(turns: seq<Turn>, i: nat, j: nat)
    requires i <= j < |turns|
    ensures DueAt(turns, j) - DueAt(turns, i) == Delays(turns, i, j) <==> forall k :: i < k <= j ==> InTime(turns, i, k)
    decreases j - i
  {
    if i < j {
      NoDriftExactlyWhileBacklogged(turns, i, j - 1);
      DuesAreSpaced(turns, i, j - 1);
      DueAfter(turns, j - 1);
      var before, all := DueAt(turns, j - 1) - DueAt(turns, i), DueAt(turns, j) - DueAt(turns, i);
      assert Delays(turns, i, j) == Delays(turns, i, j - 1) + turns[j - 1].delay;
      assert all == Delays(turns, i, j) <==> before == Delays(turns, i, j - 1) && InTime(turns, i, j);
    }
  }

  /** Idle time earns no credit: after an idle gap, dues are those of a throttle just made. */
  lemma {:induction false} IdleTimeIsForgotten(turns: seq<Turn>, i: nat, j: nat)
    requires ReadAfterZero(turns) && i <= j < |turns| && NextAllowed(turns[..i]) <= turns[i].now
    ensures DueAt(turns, j) == DueAt(turns[i..], j - i)
    decreases j - i
  {
    if i == j {
      assert turns[i..][..0] == [];
    } else {
      IdleTimeIsForgotten(turns, i, j - 1);
      DueAfter(turns, j - 1);
      DueAfter(turns[i..], j - 1 - i);
    }
  }

  // ---------------------------------------------------------------- rate

  /** n delays of d, as a sum. */
  function Times(n: nat, d: int): int {
    if n == 0 then 0 else Times(n - 1, d) + d
  }

  lemma {:induction false} TimesIsProduct(n: nat, d: int)
    ensures Times(n, d) == n * d
  {
    if n > 0 {
      TimesIsProduct(n - 1, d);
      assert n * d == (n - 1) * d + d;
    }
  }

  lemma {:induction false} TimesGrows(n: nat, m: nat, d: nat)
    requires n <= m
    ensures 0 <= Times(n, d) <= Times(m, d)
    decreases m
  {
    if n < m {
      TimesGrows(n, m - 1, d);
    } else if n > 0 {
      TimesGrows(n - 1, n - 1, d);
    }
  }

  lemma {:induction false} DelaysAtLeast(turns: seq<Turn>, d: int, i: nat, j: nat)
    requires i <= j <= |turns| && forall k :: i <= k < j ==> turns[k].delay >= d
    ensures Delays(turns, i, j) >= Times(j - i, d)
    decreases j - i
  {
    if i < j {
      DelaysAtLeast(turns, d, i, j - 1);
    }
  }

  /** A set of turn numbers, any two of which are at most span apart, has at most span + 1 members. */
  lemma {:induction false} CloseTogether(s: set<nat>, span: nat, n: nat)
    requires forall i :: i in s ==> i < n
    requires forall i, j :: i in s && j in s ==> j - i <= span
    ensures |s| <= span + 1
    decreases n
  {
    if s != {} {
      if n - 1 in s {
        IntervalSize(s, n - 1 - span, n - 1);
      } else {
        CloseTogether(s, span, n - 1);
      }
    }
  }

  lemma CloseDues(turns: seq<Turn>, d: nat, i: nat, j: nat, w: nat, q: nat)
    requires i < j < |turns| && DueAt(turns, j) - DueAt(turns, i) <= w < Times(q + 1, d)
    requires forall k :: 0 <= k < |turns| ==> turns[k].delay >= d
    ensures j - i <= q
  {
    DuesAreSpaced(turns, i, j);
    DelaysAtLeast(turns, d, i, j);
    FitsIn(j - i, q, d, w);
  }

  /** With every delay at least d, at most floor(w / d) + 1 turns are due in any window of length w. */
  lemma RateIsBounded(turns: seq<Turn>, d: int, from: int, w: nat)
    requires d > 0 && forall k :: 0 <= k < |turns| ==> turns[k].delay >= d
    ensures |set i | 0 <= i < |turns| && from <= DueAt(turns, i) <= from + w| <= w / d + 1
  {
    var s := set i | 0 <= i < |turns| && from <= DueAt(turns, i) <= from + w;
    OneMoreIsTooMany(d, w);
    forall i, j | i in s && j in s ensures j - i <= w / d {
      if i < j { CloseDues(turns, d, i, j, w, w / d); }
    }
    CloseTogether(s, w / d, |turns|);
  }

  lemma OneMoreIsTooMany(d: int, w: nat)
    requires d > 0
    ensures w < Times(w / d + 1, d)
  {
    TimesIsProduct(w / d, d);
    assert w == (w / d) * d + w % d;
  }

  lemma FitsIn(x: nat, q: nat, d: nat, w: nat)
    requires Times(x, d) <= w < Times(q + 1, d)
    ensures x <= q
  {
    TimesGrows(if q < x then q + 1 else x, x, d);
  }

  // ---------------------------------------------------------------- how far ahead

  /** The turns still ahead at time t. */
  ghost function Ahead(turns: seq<Turn>, t: int): set<nat> {
    set i | 0 <= i < |turns| && DueAt(turns, i) > t
  }

  lemma AheadOfAppended(turns: seq<Turn>, last: Turn, t: int)
    ensures |Ahead(turns + [last], t)| ==
      |Ahead(turns, t)| + Count(Max(NextAllowed(turns), last.now) > t)
  {
    DueOfAppended(turns, last);
    var more := Ahead(turns + [last], t);
    assert more - {|turns|} == Ahead(turns, t);
    assert |turns| in more <==> Max(NextAllowed(turns), last.now) > t;
    SizeWithout(more, |turns|);
  }

  /** The cadence is reserved at most one delay beyond the turns still ahead. */
  lemma {:induction false} ReservedAtMost(turns: seq<Turn>, t: int, d: nat)
    requires t >= 0 && forall i :: 0 <= i < |turns| ==> turns[i].now <= t && turns[i].delay <= d
    ensures NextAllowed(turns) <= t + Times(|Ahead(turns, t)| + 1, d)
    decreases |turns|
  {
    TimesGrows(1, |Ahead(turns, t)| + 1, d);
    assert Times(1, d) == Times(0, d) + d;
    if turns != [] {
      var init, last := turns[..|turns| - 1], turns[|turns| - 1];
      assert turns == init + [last];
      ReservedAtMost(init, t, d);
      AheadOfAppended(init, last, t);
      DueOfAppended(init, last);
    }
  }

  /** And beyond every one of them, each at least a delay after the one before. */
  lemma {:induction false} ReservedMoreThan(turns: seq<Turn>, t: int, d: nat)
    requires |Ahead(turns, t)| > 0
    requires forall i :: 0 <= i < |turns| ==> turns[i].now <= t && turns[i].delay >= d
    ensures NextAllowed(turns) > t + Times(|Ahead(turns, t)|, d)
    decreases |turns|
  {
    var init, last := turns[..|turns| - 1], turns[|turns| - 1];
    assert turns == init + [last];
    AheadOfAppended(init, last, t);
    DueOfAppended(init, last);
    if |Ahead(init, t)| > 0 {
      ReservedMoreThan(init, t, d);
      TimesGrows(0, |Ahead(init, t)|, d);
    }
  }

  /** With a constant delay, being reserved at most n + 1 delays ahead is having at most n turns ahead. */
  lemma ReservedExactly(turns: seq<Turn>, t: int, d: nat, n: nat)
    requires t >= 0 && d > 0
    requires forall i :: 0 <= i < |turns| ==> turns[i].now <= t && turns[i].delay == d
    ensures NextAllowed(turns) <= t + (n + 1) * d <==> |Ahead(turns, t)| <= n
  {
    var u := |Ahead(turns, t)|;
    TimesIsProduct(n + 1, d);
    if u <= n {
      ReservedAtMost(turns, t, d);
      TimesGrows(u + 1, n + 1, d);
    } else {
      ReservedMoreThan(turns, t, d);
      TimesGrows(n + 1, u, d);
    }
  }
}
