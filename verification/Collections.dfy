/** Facts about sets and maps that several of the models need. */
module Collections {

  datatype Option<+T> = None | Some(value: T)

  lemma Pick<T>(xs: set<T>) returns (x: T)
    requires xs != {}
    ensures x in xs
  {
    x :| x in xs;
  }

  /** What `range` over a map does first: take some key. */
  method Take<T(==)>(xs: set<T>) returns (x: T, rest: set<T>)
    requires xs != {}
    ensures x in xs && rest == xs - {x} && |rest| == |xs| - 1
  {
    x :| x in xs;
    rest := xs - {x};
  }

  function Image<K, V>(m: map<K, V>, keys: set<K>): set<V> {
    set k | k in keys && k in m :: m[k]
  }

  lemma ImageAdds<K, V>(m: map<K, V>, keys: set<K>, k: K)
    requires k in m
    ensures Image(m, keys + {k}) == Image(m, keys) + {m[k]}
  {
  }

  lemma ImageOfAll<K, V>(m: map<K, V>)
    ensures Image(m, m.Keys) == m.Values
  {
  }

  lemma PickKey<K, V>(m: map<K, V>) returns (k: K)
    requires m != map[]
    ensures k in m
  {
    k :| k in m;
  }

  lemma KeyOf<K, V>(m: map<K, V>, v: V) returns (k: K)
    requires v in m.Values
    ensures k in m && m[k] == v
  {
    k :| k in m && m[k] == v;
  }

  lemma RemoveShrinks<K, V>(m: map<K, V>, k: K)
    requires k in m
    ensures |m - {k}| < |m|
  {
    assert (m - {k}).Keys == m.Keys - {k};
  }

  lemma {:induction false} MaxKey<V>(m: map<int, V>) returns (k: int)
    requires m != map[]
    ensures k in m && forall j | j in m :: j <= k
    decreases |m|
  {
    var first := PickKey(m);
    k := first;
    if m - {first} != map[] {
      RemoveShrinks(m, first);
      var last := MaxKey(m - {first});
      k := if first < last then last else first;
    }
    forall j | j in m ensures j <= k {
      assert j != first ==> j in m - {first};
    }
  }

  lemma {:induction false} Above(xs: set<int>) returns (n: int)
    ensures 0 < n && forall x | x in xs :: x < n
    decreases |xs|
  {
    n := 1;
    if xs != {} {
      var x := Pick(xs);
      var m := Above(xs - {x});
      n := if x < m then m else x + 1;
      forall y | y in xs ensures y < n {
        assert y != x ==> y in xs - {x};
      }
    }
  }

  lemma {:induction false} IntervalSize(xs: set<int>, lo: int, hi: int)
    requires lo <= hi && forall x | x in xs :: lo <= x < hi
    ensures |xs| <= hi - lo
    decreases hi - lo
  {
    if lo == hi {
      if xs != {} {
        var x := Pick(xs);
        assert false;
      }
    } else {
      IntervalSize(xs - {lo}, lo + 1, hi);
      assert xs <= (xs - {lo}) + {lo};
      assert |xs| <= |xs - {lo}| + 1;
    }
  }

  predicate NoDup<T(==)>(s: seq<T>) {
    forall i, j | 0 <= i < j < |s| :: s[i] != s[j]
  }

  ghost function ToSet<T>(s: seq<T>): set<T> {
    set x | x in s
  }

  lemma {:induction false} NoDupSize<T>(s: seq<T>)
    requires NoDup(s)
    ensures |ToSet(s)| == |s|
  {
    if s != [] {
      var init, x := s[..|s| - 1], s[|s| - 1];
      NoDupSize(init);
      assert s == init + [x];
      assert ToSet(s) == ToSet(init) + {x};
      assert x !in init;
    }
  }

  lemma SomeElement<T>(s: seq<T>)
    ensures s == [] || exists x :: x in s
  {
    if s != [] {
      assert s[0] in s;
    }
  }

  lemma MultisetSnoc<T>(s: seq<T>, last: T, x: T)
    ensures multiset(s + [last])[x] == multiset(s)[x] + (if last == x then 1 else 0)
  {
    assert multiset(s + [last]) == multiset(s) + multiset([last]);
  }

  /** The sum of the multisets a map holds. */
  ghost function SumBags<K, T>(m: map<K, multiset<T>>): multiset<T>
    decreases |m|
  {
    if m == map[] then multiset{}
    else
      var k :| k in m;
      RemoveShrinks(m, k);
      m[k] + SumBags(m - {k})
  }

  /** The order in which a map is summed does not matter. */
  lemma {:induction false} SumBagsRemove<K, T>(m: map<K, multiset<T>>, k: K)
    requires k in m
    ensures SumBags(m) == m[k] + SumBags(m - {k})
    decreases |m|
  {
    var j :| j in m && SumBags(m) == (RemoveShrinks(m, j); m[j] + SumBags(m - {j}));
    if j != k {
      RemoveShrinks(m, j);
      SumBagsRemove(m - {j}, k);
      assert m - {j} - {k} == m - {k} - {j};
      SumBagsRemove(m - {k}, j) by { RemoveShrinks(m, k); }
    }
  }

  lemma SumBagsPut<K, T>(m: map<K, multiset<T>>, k: K, v: multiset<T>)
    ensures SumBags(m[k := v]) == SumBags(m - {k}) + v
  {
    SumBagsRemove(m[k := v], k);
    assert m[k := v] - {k} == m - {k};
  }

  /** A queue from which `d` and then `e` were taken in front, while others were put behind. */
  lemma AdvanceTwice<T>(a: seq<T>, b: seq<T>, c: seq<T>, d: nat, e: nat)
    requires d + e <= |a| && a[d..] <= b
    requires e <= |b| ==> b[e..] <= c
    ensures a[d + e..] <= c
  {
    assert a[d..][e..] == a[d + e..];
    assert a[d..][e..] <= b[e..];
  }
}
