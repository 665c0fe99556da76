/** Ordered iteration over sets and totals over maps. */
module Collections {

  datatype Option<+T> = None | Some(value: T)

  function Get<K>(m: map<K, nat>, k: K): nat { if k in m then m[k] else 0 }

  function Elements<T>(s: seq<T>): set<T> { set x | x in s }

  lemma PrefixSet(s: seq<nat>, i: nat)
    requires i < |s|
    ensures Elements(s[..i + 1]) == Elements(s[..i]) + {s[i]}
  {
    assert s[..i + 1] == s[..i] + [s[i]];
  }

  predicate IsLeast(m: nat, s: set<nat>) { m in s && forall y :: y in s ==> m <= y }

  lemma {:induction false} LeastExists(s: set<nat>)
    requires s != {}
    ensures exists m :: IsLeast(m, s)
    decreases |s|
  {
    var x :| x in s;
    var rest := s - {x};
    assert forall y :: y in s ==> y == x || y in rest;
    if rest == {} {
      assert IsLeast(x, s);
    } else {
      LeastExists(rest);
      var m :| IsLeast(m, rest);
      assert IsLeast(if x <= m then x else m, s);
    }
  }

  function Least(s: set<nat>): (m: nat)
    requires s != {}
    ensures IsLeast(m, s)
  {
    LeastExists(s);
    var m :| IsLeast(m, s);
    m
  }

  predicate StrictlyAscending(r: seq<nat>) {
    forall i, j :: 0 <= i < j < |r| ==> r[i] < r[j]
  }

  /** The elements of `s` in the order a `BTreeSet` or the keys of a `BTreeMap` are visited. */
  function Ascending(s: set<nat>): seq<nat> {
    if s == {} then [] else [Least(s)] + Ascending(s - {Least(s)})
  }

  lemma {:induction false} AscendingMembers(s: set<nat>)
    ensures |Ascending(s)| == |s|
    ensures forall x :: x in Ascending(s) <==> x in s
  {
    if s != {} {
      AscendingMembers(s - {Least(s)});
    }
  }

  lemma {:induction false} AscendingSorted(s: set<nat>)
    ensures StrictlyAscending(Ascending(s))
  {
    if s != {} {
      var rest := s - {Least(s)};
      AscendingSorted(rest);
      AscendingMembers(rest);
      var tail: seq<nat> := Ascending(rest);
      forall j | 0 <= j < |tail|
        ensures Least(s) < tail[j]
      {
        assert tail[j] in tail;
      }
      hide Least, IsLeast;
      PrependSmaller(Least(s), tail);
    }
  }

  lemma PrependSmaller(x: nat, tail: seq<nat>)
    requires StrictlyAscending(tail) && forall j :: 0 <= j < |tail| ==> x < tail[j]
    ensures StrictlyAscending([x] + tail)
  {
  }

  /** Sum of all values of a map. */
  ghost function MapSum<K>(m: map<K, nat>): nat
    decreases |m|
  {
    if m == map[] then 0
    else
      var k :| k in m;
      m[k] + MapSum(m - {k})
  }

  lemma {:induction false} MapSumRemove<K>(m: map<K, nat>, k: K)
    requires k in m
    ensures MapSum(m) == m[k] + MapSum(m - {k})
    decreases |m|
  {
    var j :| j in m && MapSum(m) == m[j] + MapSum(m - {j});
    if j != k {
      MapSumRemove(m - {j}, k);
      MapSumRemove(m - {k}, j);
      assert m - {j} - {k} == m - {k} - {j};
    }
  }

  lemma MapSumUpdate<K>(m: map<K, nat>, k: K, v: nat)
    ensures MapSum(m[k := v]) == MapSum(m) - Get(m, k) + v
    ensures Get(m, k) <= MapSum(m)
  {
    MapSumRemove(m[k := v], k);
    assert m[k := v] - {k} == m - {k};
    if k in m {
      MapSumRemove(m, k);
    } else {
      assert m - {k} == m;
    }
  }

  /** Removing a key, present or not. */
  lemma MapSumDrop<K>(m: map<K, nat>, k: K)
    ensures MapSum(m - {k}) == MapSum(m) - Get(m, k)
  {
    if k in m {
      MapSumRemove(m, k);
    } else {
      assert m - {k} == m;
    }
  }

  lemma {:induction false} MapSumMonotone<K>(a: map<K, nat>, b: map<K, nat>)
    requires a.Keys <= b.Keys
    requires forall k :: k in a ==> a[k] <= b[k]
    ensures MapSum(a) <= MapSum(b)
    decreases |a|
  {
    if a != map[] {
      var k :| k in a;
      MapSumRemove(a, k);
      MapSumRemove(b, k);
      MapSumMonotone(a - {k}, b - {k});
    }
  }
}
