/** File names in the byte order of `os.ReadDir`. */
module NameOrder {
  import opened Text

  predicate Leq(a: string, b: string) {
    a == "" || (b != "" && (a[0] < b[0] || (a[0] == b[0] && Leq(a[1..], b[1..]))))
  }

  lemma {:induction false} LeqTotal(a: string, b: string)
    ensures Leq(a, b) || Leq(b, a)
    ensures Leq(a, b) && Leq(b, a) ==> a == b
  {
    if a != "" && b != "" && a[0] == b[0] {
      LeqTotal(a[1..], b[1..]);
      assert a == [a[0]] + a[1..] && b == [b[0]] + b[1..];
    }
  }

  lemma {:induction false} LeqTransitive(a: string, b: string, c: string)
    requires Leq(a, b) && Leq(b, c)
    ensures Leq(a, c)
  {
    if a != "" && a[0] == b[0] == c[0] {
      LeqTransitive(a[1..], b[1..], c[1..]);
    }
  }

  predicate IsLeast(m: string, names: set<string>) {
    m in names && forall x :: x in names ==> Leq(m, x)
  }

  lemma {:induction false} LeastExists(names: set<string>)
    requires names != {}
    ensures exists m :: IsLeast(m, names)
  {
    var x :| x in names;
    LeqTotal(x, x);
    if names == {x} {
      assert IsLeast(x, names);
    } else {
      LeastExists(names - {x});
      var m :| IsLeast(m, names - {x});
      LeqTotal(m, x);
      if Leq(m, x) {
        assert IsLeast(m, names);
      } else {
        forall y | y in names
          ensures Leq(x, y)
        {
          if y != x {
            LeqTransitive(x, m, y);
          }
        }
        assert IsLeast(x, names);
      }
    }
  }

  lemma LeastUnique(m: string, n: string, names: set<string>)
    requires IsLeast(m, names) && IsLeast(n, names)
    ensures m == n
  {
    LeqTotal(m, n);
  }

  function Least(names: set<string>): (m: string)
    requires names != {}
    ensures IsLeast(m, names)
  {
    LeastExists(names);
    assert forall m, n :: IsLeast(m, names) && IsLeast(n, names) ==> m == n by {
      forall m, n | IsLeast(m, names) && IsLeast(n, names)
        ensures m == n
      {
        LeastUnique(m, n, names);
      }
    }
    var m :| m in names && IsLeast(m, names);
    m
  }

  /** The names in ascending order. */
  function Sorted(names: set<string>): (order: seq<string>)
    ensures |order| == |names|
  {
    if names == {} then [] else [Least(names)] + Sorted(names - {Least(names)})
  }

  ghost predicate NoDuplicates<T>(s: seq<T>) {
    forall i, j :: 0 <= i < j < |s| ==> s[i] != s[j]
  }

  /** Each element of the set, once. */
  ghost predicate Enumerates<T(!new)>(order: seq<T>, s: set<T>) {
    && NoDuplicates(order)
    && (forall x :: x in order <==> x in s)
  }

  lemma {:induction false} SortedElements(names: set<string>)
    ensures forall x :: x in Sorted(names) <==> x in names
    ensures forall i :: 0 <= i < |Sorted(names)| ==> Sorted(names)[i] in names
    ensures NoDuplicates(Sorted(names))
  {
    if names != {} {
      SortedElements(names - {Least(names)});
    }
  }

  /** The elements of the sequence that belong to the set, in place. */
  function Filter(keep: set<string>, s: seq<string>): seq<string> {
    if s == [] then [] else Filter(keep, Init(s)) + if Last(s) in keep then [Last(s)] else []
  }

  lemma {:induction false} FilterFront(keep: set<string>, x: string, s: seq<string>)
    ensures Filter(keep, [x] + s) == (if x in keep then [x] else []) + Filter(keep, s)
  {
    if s == [] {
      assert Init([x]) == [];
      assert [x] + s == [x];
    } else {
      FilterFront(keep, x, Init(s));
      assert Init([x] + s) == [x] + Init(s);
    }
  }

  lemma {:induction false} FilterNone(keep: set<string>, names: set<string>)
    requires keep * names == {}
    ensures Filter(keep, Sorted(names)) == []
  {
    if names != {} {
      FilterFront(keep, Least(names), Sorted(names - {Least(names)}));
      FilterNone(keep, names - {Least(names)});
    }
  }

  /** Sorting and then dropping names is dropping and then sorting. */
  lemma {:induction false} FilterSorted(keep: set<string>, names: set<string>)
    requires keep <= names
    ensures Filter(keep, Sorted(names)) == Sorted(keep)
    decreases |names|
  {
    if names != {} {
      var m := Least(names);
      FilterFront(keep, m, Sorted(names - {m}));
      if m in keep {
        LeastUnique(m, Least(keep), keep);
        FilterSorted(keep - {m}, names - {m});
        SortedElements(names - {m});
        FilterSame(keep, keep - {m}, Sorted(names - {m}));
      } else {
        FilterSorted(keep, names - {m});
      }
    }
  }

  lemma {:induction false} FilterSame(k: set<string>, l: set<string>, s: seq<string>)
    requires forall x :: x in s ==> (x in k <==> x in l)
    ensures Filter(k, s) == Filter(l, s)
  {
    if s != [] {
      FilterSame(k, l, Init(s));
    }
  }

  /** The order is that of the first differing byte; a name comes before its extensions. */
  lemma {:induction false} LeqIff(a: string, b: string)
    ensures Leq(a, b) <==> exists k :: 0 <= k <= |a| && FirstDifference(a, b, k)
  {
    assert forall k :: 0 < k <= |a| && k <= |b| && a[..k] == b[..k] ==> a[..k][0] == b[..k][0];
    if a == "" {
      assert FirstDifference(a, b, 0);
    } else if b != "" && a[0] == b[0] {
      LeqIff(a[1..], b[1..]);
      if k :| 0 <= k <= |a[1..]| && FirstDifference(a[1..], b[1..], k) {
        assert a[..k + 1] == [a[0]] + a[1..][..k] && b[..k + 1] == [b[0]] + b[1..][..k];
        assert FirstDifference(a, b, k + 1);
      }
      if k :| 0 <= k <= |a| && FirstDifference(a, b, k) {
        assert k > 0;
        assert a[1..][..k - 1] == a[..k][1..] && b[1..][..k - 1] == b[..k][1..];
        assert FirstDifference(a[1..], b[1..], k - 1);
      }
    } else if b != "" && a[0] < b[0] {
      assert a[..0] == b[..0];
      assert FirstDifference(a, b, 0);
    }
  }

  predicate FirstDifference(a: string, b: string, k: nat)
    requires k <= |a|
  {
    k <= |b| && a[..k] == b[..k] && (k == |a| || (k < |b| && a[k] < b[k]))
  }

  lemma {:induction false} SortedAscends(names: set<string>, i: nat, j: nat)
    requires i < j < |Sorted(names)|
    ensures Leq(Sorted(names)[i], Sorted(names)[j])
    decreases j
  {
    var m := Least(names);
    var rest := names - {m};
    SortedElements(rest);
    if i > 0 {
      SortedAscends(rest, i - 1, j - 1);
    } else {
      assert Sorted(rest)[j - 1] in rest;
    }
  }
}
