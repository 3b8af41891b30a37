/** `sort.Strings` on the keys of a map: the one increasing listing of a set of strings. */
module Sorting {
  import opened Collections

  predicate Less(a: string, b: string) {
    if b == "" then false
    else if a == "" then true
    else if a[0] != b[0] then a[0] < b[0]
    else Less(a[1..], b[1..])
  }

  predicate Increasing(s: seq<string>) {
    forall i, j | 0 <= i < j < |s| :: Less(s[i], s[j])
  }

  function Elements(s: seq<string>): set<string> {
    set x | x in s
  }

  lemma {:induction false} LessTransitive(a: string, b: string, c: string)
    requires Less(a, b) && Less(b, c)
    ensures Less(a, c)
  {
    if a != "" && a[0] == b[0] == c[0] {
      LessTransitive(a[1..], b[1..], c[1..]);
    }
  }

  lemma {:induction false} LessTotal(a: string, b: string)
    ensures (Less(a, b) && a != b && !Less(b, a)) || a == b || (Less(b, a) && a != b && !Less(a, b))
    ensures !Less(a, a)
  {
    if a != "" {
      LessIrreflexive(a);
      if b != "" && a[0] == b[0] {
        LessTotal(a[1..], b[1..]);
        assert a == [a[0]] + a[1..] && b == [b[0]] + b[1..];
      }
    }
  }

  lemma {:induction false} LessIrreflexive(a: string)
    ensures !Less(a, a)
  {
    if a != "" {
      LessIrreflexive(a[1..]);
    }
  }

  /** Where an insertion sort puts `x`. */
  function Insert(x: string, s: seq<string>): (r: seq<string>)
    requires Increasing(s) && x !in s
    ensures Increasing(r) && Elements(r) == Elements(s) + {x}
  {
    if s == [] then [x]
    else if Less(x, s[0]) then
      assert Increasing([x] + s) by {
        forall j | 0 < j < |s| ensures Less(x, s[j]) { LessTransitive(x, s[0], s[j]); }
      }
      [x] + s
    else
      var rest := Insert(x, s[1..]);
      assert Increasing([s[0]] + rest) by {
        LessTotal(x, s[0]);
        forall y | y in rest ensures Less(s[0], y) {
          assert y in Elements(rest);
        }
      }
      assert Elements([s[0]] + rest) == Elements(s) + {x} by {
        assert s == [s[0]] + s[1..];
        assert Elements(s) == {s[0]} + Elements(s[1..]);
        assert Elements([s[0]] + rest) == {s[0]} + Elements(rest);
      }
      [s[0]] + rest
  }

  lemma NoElements(s: seq<string>)
    ensures Elements(s) == {} <==> s == []
  {
    if s != [] {
      assert s[0] in Elements(s);
    }
  }

  lemma {:induction false} IncreasingIsUnique(a: seq<string>, b: seq<string>)
    requires Increasing(a) && Increasing(b) && Elements(a) == Elements(b)
    ensures a == b
  {
    NoElements(a);
    NoElements(b);
    if a != [] {
      SameHead(a, b);
      TailElements(a);
      TailElements(b);
      IncreasingIsUnique(a[1..], b[1..]);
    }
  }

  lemma SameHead(a: seq<string>, b: seq<string>)
    requires Increasing(a) && Increasing(b) && Elements(a) == Elements(b) && a != [] && b != []
    ensures a[0] == b[0]
  {
    assert a[0] in Elements(b) && b[0] in Elements(a);
    var i :| 0 <= i < |b| && b[i] == a[0];
    var j :| 0 <= j < |a| && a[j] == b[0];
    LessTotal(a[0], b[0]);
  }

  lemma TailElements(a: seq<string>)
    requires Increasing(a) && a != []
    ensures Elements(a[1..]) == Elements(a) - {a[0]} && Increasing(a[1..])
  {
    LessIrreflexive(a[0]);
    assert a == [a[0]] + a[1..];
    forall x | x in a[1..] ensures x != a[0] {
      var i :| 0 <= i < |a[1..]| && a[1..][i] == x;
      assert Less(a[0], a[i + 1]);
    }
  }

  ghost function SortKeys(keys: set<string>): (r: seq<string>)
    ensures Increasing(r) && Elements(r) == keys
  {
    if keys == {} then []
    else
      var k :| k in keys;
      assert k !in SortKeys(keys - {k}) by { assert k !in Elements(SortKeys(keys - {k})); }
      Insert(k, SortKeys(keys - {k}))
  }

  lemma MayInsert(r: seq<string>, keys: set<string>, left: set<string>, k: string)
    requires Elements(r) == keys - left && k in left && left <= keys
    ensures k !in r && keys - (left - {k}) == Elements(r) + {k}
  {
    assert k !in Elements(r);
  }

  method SortStrings(keys: set<string>) returns (r: seq<string>)
    ensures r == SortKeys(keys)
  {
    r := [];
    var left := keys;
    while left != {}
      invariant left <= keys && Increasing(r) && Elements(r) == keys - left
      decreases |left|
    {
      var k, rest := Take(left);
      MayInsert(r, keys, left, k);
      r := Insert(k, r);
      left := rest;
    }
    IncreasingIsUnique(r, SortKeys(keys));
  }
}
