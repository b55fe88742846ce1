/** Small definitions shared by every component: options, bounds on sets, and sums over sequences. */
module Basics {

  datatype Option<+T> = None | Some(value: T)

  function Max(a: int, b: int): int {
    if a < b then b else a
  }

  function Min(a: int, b: int): int {
    if a < b then a else b
  }

  /** The value stored under k, if any. */
  function Lookup<K, V>(m: map<K, V>, k: K): Option<V> {
    if k in m then Some(m[k]) else None
  }

  ghost predicate NoDuplicates<T>(s: seq<T>) {
    forall i, j :: 0 <= i < j < |s| ==> s[i] != s[j]
  }

  lemma NoDuplicatesAppend<T>(s: seq<T>, t: seq<T>)
    requires NoDuplicates(s) && NoDuplicates(t) && forall x :: x in t ==> x !in s
    ensures NoDuplicates(s + t)
  {
    forall i, j | 0 <= i < j < |s + t| ensures (s + t)[i] != (s + t)[j] {
      if i < |s| <= j {
        assert t[j - |s|] in t && s[i] in s;
      }
    }
  }

  function Sum(s: seq<int>): int {
    if s == [] then 0 else s[0] + Sum(s[1..])
  }

  lemma {:induction false} SumUpdate(s: seq<int>, i: nat, x: int)
    requires i < |s|
    ensures Sum(s[i := x]) == Sum(s) - s[i] + x
  {
    if i == 0 {
      assert s[i := x][1..] == s[1..];
    } else {
      assert s[i := x][1..] == s[1..][i - 1 := x];
      SumUpdate(s[1..], i - 1, x);
    }
  }

  lemma {:induction false} SumAppend(s: seq<int>, t: seq<int>)
    ensures Sum(s + t) == Sum(s) + Sum(t)
  {
    if s == [] {
      assert s + t == t;
    } else {
      assert (s + t)[1..] == s[1..] + t;
      SumAppend(s[1..], t);
    }
  }

  lemma {:induction false} SumBound(s: seq<int>, b: int)
    requires forall i :: 0 <= i < |s| ==> s[i] <= b
    ensures Sum(s) <= |s| * b
  {
    if s != [] {
      SumBound(s[1..], b);
      assert |s| * b == b + (|s| - 1) * b;
    }
  }

  lemma {:induction false} SumNotNegative(s: seq<int>)
    requires forall i :: 0 <= i < |s| ==> 0 <= s[i]
    ensures 0 <= Sum(s)
  {
    if s != [] {
      SumNotNegative(s[1..]);
    }
  }

  function Count(b: bool): int {
    if b then 1 else 0
  }

  lemma SizeWithout<T>(s: set<T>, x: T)
    ensures |s - {x}| == |s| - Count(x in s)
  {
    if x !in s {
      assert s - {x} == s;
    }
  }

  /** The keys whose value satisfies p. */
  ghost function KeysWhere<K, V>(m: map<K, V>, p: V -> bool): set<K> {
    set k | k in m && p(m[k])
  }

  lemma SizeAfterUpdate<K, V>(m: map<K, V>, k: K, v: V, p: V -> bool)
    ensures |KeysWhere(m[k := v], p)| == |KeysWhere(m, p)| - Count(k in m && p(m[k])) + Count(p(v))
  {
    var m' := m[k := v];
    var before, after := KeysWhere(m, p), KeysWhere(m', p);
    forall j ensures j in before - {k} <==> j in after - {k} {
      if j != k { assert j in m <==> j in m'; }
    }
    assert before - {k} == after - {k};
    assert k in before <==> k in m && p(m[k]);
    assert k in after <==> p(v);
    SizeWithout(before, k);
    SizeWithout(after, k);
  }

  lemma {:induction false} SubsetSize<T>(a: set<T>, b: set<T>)
    requires a <= b
    ensures |a| <= |b|
  {
    if a != {} {
      var x :| x in a;
      SubsetSize(a - {x}, b - {x});
    }
  }

  /** A set of integers inside [lo, hi] has at most hi - lo + 1 members. */
  lemma {:induction false} IntervalSize(s: set<int>, lo: int, hi: int)
    requires forall x :: x in s ==> lo <= x <= hi
    requires lo <= hi + 1
    ensures |s| <= hi - lo + 1
    decreases hi + 1 - lo
  {
    if lo == hi + 1 {
      assert forall x :: x !in s;
    } else {
      IntervalSize(s - {hi}, lo, hi - 1);
      if hi in s {
        assert |s - {hi}| == |s| - 1;
      } else {
        assert s - {hi} == s;
      }
    }
  }

  /** An injective map has at most as many keys as its values can range over. */
  lemma {:induction false} InjectiveSize<A, B>(m: map<A, B>, bs: set<B>)
    requires forall a :: a in m ==> m[a] in bs
    requires forall a, a' :: a in m && a' in m && m[a] == m[a'] ==> a == a'
    ensures |m| <= |bs|
    decreases |m|
  {
    if m != map[] {
      var a :| a in m;
      var rest := m - {a};
      assert m.Keys == rest.Keys + {a};
      InjectiveSize(rest, bs - {m[a]});
    }
  }

  /** The first n naturals, as a set. */
  function Below(n: nat): (s: set<nat>)
    ensures forall i :: i in s <==> 0 <= i < n
    ensures |s| == n
  {
    if n == 0 then {} else Below(n - 1) + {n - 1}
  }
}
