/** Options, sums over finite maps and ordered listings of finite sets. */
module Collections {
  import opened Words

  datatype Option<+T> = None | Some(value: T)

  datatype Result<+T, +E> = Ok(value: T) | Err(error: E)

  // ---------------------------------------------------------------- sums over maps

  ghost function Total<K>(m: map<K, nat>): nat
    decreases |m|
  {
    if m == map[] then 0
    else
      var k :| k in m;
      m[k] + Total(m - {k})
  }

  lemma {:induction false} TotalRemove<K>(m: map<K, nat>, k: K)
    requires k in m
    ensures Total(m) == m[k] + Total(m - {k})
    decreases |m|
  {
    var first :| first in m && Total(m) == m[first] + Total(m - {first});
    if first != k {
      TotalRemove(m - {first}, k);
      TotalRemove(m - {k}, first);
      assert m - {first} - {k} == m - {k} - {first};
    }
  }

  lemma TotalUpdate<K>(m: map<K, nat>, k: K, n: nat)
    ensures Total(m[k := n]) == Total(m - {k}) + n
    ensures Total(m) == Total(m - {k}) + if k in m then m[k] else 0
  {
    TotalRemove(m[k := n], k);
    assert m[k := n] - {k} == m - {k};
    if k in m {
      TotalRemove(m, k);
    } else {
      assert m - {k} == m;
    }
  }

  /** A bound on every value bounds the total. */
  lemma {:induction false} TotalBound<K>(m: map<K, nat>, bound: nat)
    requires forall k :: k in m ==> m[k] <= bound
    ensures Total(m) <= |m| * bound
    decreases |m|
  {
    if m != map[] {
      var k :| k in m;
      TotalRemove(m, k);
      TotalBound(m - {k}, bound);
      assert |m - {k}| == |m| - 1;
      MulStep(|m| - 1, bound);
    }
  }

  lemma MulStep(n: nat, bound: nat)
    ensures (n + 1) * bound == n * bound + bound
  {}

  lemma {:induction false} TotalZero<K>(m: map<K, nat>)
    requires forall k :: k in m ==> m[k] == 0
    ensures Total(m) == 0
    decreases |m|
  {
    if m != map[] {
      var k :| k in m;
      TotalRemove(m, k);
      TotalZero(m - {k});
    }
  }

  lemma {:induction false} TotalPointwise<K>(a: map<K, nat>, b: map<K, nat>, sum: map<K, nat>)
    requires a.Keys == b.Keys == sum.Keys
    requires forall k :: k in sum ==> sum[k] == a[k] + b[k]
    ensures Total(sum) == Total(a) + Total(b)
    decreases |sum|
  {
    if sum != map[] {
      var k :| k in sum;
      TotalRemove(sum, k);
      TotalRemove(a, k);
      TotalRemove(b, k);
      TotalPointwise(a - {k}, b - {k}, sum - {k});
    }
  }

  lemma {:induction false} TotalIgnoresZeros<K>(m: map<K, nat>, part: map<K, nat>)
    requires part.Keys <= m.Keys
    requires forall k :: k in m ==> m[k] == if k in part then part[k] else 0
    ensures Total(m) == Total(part)
    decreases |m|
  {
    if m == map[] {
      assert part == map[];
    } else {
      var k :| k in m;
      TotalRemove(m, k);
      TotalUpdate(part, k, 0);
      TotalIgnoresZeros(m - {k}, part - {k});
    }
  }

  lemma {:induction false} SubsetCardinality<T>(a: set<T>, b: set<T>)
    requires a <= b
    ensures |a| <= |b|
  {
    if a != {} {
      var x :| x in a;
      SubsetCardinality(a - {x}, b - {x});
    }
  }

  lemma SubmapSmaller<K, V>(a: map<K, V>, b: map<K, V>)
    requires a.Keys <= b.Keys
    ensures |a| <= |b|
  {
    SubsetCardinality(a.Keys, b.Keys);
    assert |a| == |a.Keys| && |b| == |b.Keys|;
  }

  // ---------------------------------------------------------------- ordered listings

  lemma {:induction false} FindLeast(s: set<u64>) returns (least: u64)
    requires s != {}
    ensures least in s && forall x: u64 :: x in s ==> least <= x
    decreases |s|
  {
    var y :| y in s;
    least := y;
    if s - {y} != {} {
      var other := FindLeast(s - {y});
      least := if y < other then y else other;
      assert forall x: u64 :: x in s ==> x == y || x in s - {y};
    } else {
      assert s == {y};
    }
  }

  lemma LeastExists(s: set<u64>)
    requires s != {}
    ensures exists least: u64 :: least in s && forall x: u64 :: x in s ==> least <= x
  {
    var least := FindLeast(s);
  }

  function Least(s: set<u64>): (least: u64)
    requires s != {}
    ensures least in s && forall x: u64 :: x in s ==> least <= x
  {
    LeastExists(s);
    var least: u64 :| least in s && forall x: u64 :: x in s ==> least <= x;
    least
  }

  predicate StrictlyAscending(s: seq<u64>) {
    forall i, j :: 0 <= i < j < |s| ==> s[i] < s[j]
  }

  /** The members of `s`, least first: the order in which an ordered set or map is walked. */
  function Ascending(s: set<u64>): (r: seq<u64>)
    ensures StrictlyAscending(r)
    ensures forall x: u64 :: x in r <==> x in s
    ensures |r| == |s|
    decreases |s|
  {
    if s == {} then []
    else
      var least := Least(s);
      var rest := Ascending(s - {least});
      assert forall i :: 0 <= i < |rest| ==> rest[i] in rest;
      [least] + rest
  }

  lemma HasMember<T>(s: seq<T>)
    requires s != []
    ensures exists x :: x in s
  {
    assert s[0] in s;
  }

  /** A set has only one strictly ascending listing. */
  lemma {:induction false} AscendingUnique(a: seq<u64>, b: seq<u64>)
    requires StrictlyAscending(a) && StrictlyAscending(b)
    requires forall x: u64 :: x in a <==> x in b
    ensures a == b
    decreases |a|
  {
    if a == [] {
      if b != [] {
        HasMember(b);
      }
    } else {
      assert a[0] in a;
      assert a[0] in b;
      assert b[0] in a;
      assert a[0] == b[0];
      forall x: u64 ensures x in a[1..] <==> x in b[1..] {
        assert x in a[1..] <==> x in a && x != a[0];
        assert x in b[1..] <==> x in b && x != b[0];
      }
      AscendingUnique(a[1..], b[1..]);
    }
  }
}
