// sortedKeys: the members of a set in ascending order.
module Sorting {

  predicate Leq(a: string, b: string) {
    if a == "" then true
    else if b == "" then false
    else a[0] < b[0] || (a[0] == b[0] && Leq(a[1..], b[1..]))
  }

  lemma {:induction false} LeqTotal(a: string, b: string)
    ensures Leq(a, b) || Leq(b, a)
  {
    if a != "" && b != "" {
      LeqTotal(a[1..], b[1..]);
    }
  }

  lemma {:induction false} LeqAntisymmetric(a: string, b: string)
    requires Leq(a, b) && Leq(b, a)
    ensures a == b
  {
    if a != "" && b != "" {
      LeqAntisymmetric(a[1..], b[1..]);
      assert a == [a[0]] + a[1..] && b == [b[0]] + b[1..];
    }
  }

  lemma {:induction false} LeqTransitive(a: string, b: string, c: string)
    requires Leq(a, b) && Leq(b, c)
    ensures Leq(a, c)
  {
    if a != "" && b != "" && c != "" && a[0] == b[0] == c[0] {
      LeqTransitive(a[1..], b[1..], c[1..]);
    }
  }

  // Nothing but a shared beginning comes before the first place where they
  // differ, and there the smaller character is the smaller string's.
  lemma {:induction false} LeqExactly(a: string, b: string)
    ensures Leq(a, b) <==>
            || (|a| <= |b| && a == b[..|a|])
            || (exists i :: 0 <= i < |a| && i < |b| && a[..i] == b[..i] && a[i] < b[i])
  {
    if a != "" && b != "" {
      if a[0] == b[0] {
        LeqExactly(a[1..], b[1..]);
        OnePlace(a, b);
      } else {
        assert a[..0] == b[..0];
        assert forall i :: 0 < i < |a| && i < |b| ==> a[..i][0] != b[..i][0];
        assert |a| <= |b| ==> b[..|a|][0] == b[0];
      }
    }
  }

  lemma OnePlace(a: string, b: string)
    requires a != "" && b != "" && a[0] == b[0]
    ensures |a| <= |b| ==> (a == b[..|a|] <==> a[1..] == b[1..][..|a| - 1])
    ensures (exists i :: 0 <= i < |a| && i < |b| && a[..i] == b[..i] && a[i] < b[i]) <==>
            exists i :: 0 <= i < |a[1..]| && i < |b[1..]| && a[1..][..i] == b[1..][..i] && a[1..][i] < b[1..][i]
  {
    forall i | 0 <= i < |a| - 1 && i < |b| - 1
      ensures a[1..][..i] == b[1..][..i] <==> a[..i + 1] == b[..i + 1]
    {
      assert a[..i + 1] == [a[0]] + a[1..][..i] && b[..i + 1] == [b[0]] + b[1..][..i];
      assert a[..i + 1][1..] == a[1..][..i] && b[..i + 1][1..] == b[1..][..i];
    }
    if |a| <= |b| {
      assert a == [a[0]] + a[1..] && b[..|a|] == [b[0]] + b[1..][..|a| - 1];
    }
    if i :| 0 <= i < |a| && i < |b| && a[..i] == b[..i] && a[i] < b[i] {
      assert i > 0;
      assert a[..i - 1 + 1] == b[..i - 1 + 1] && a[1..][i - 1] == a[i];
    }
    if i :| 0 <= i < |a[1..]| && i < |b[1..]| && a[1..][..i] == b[1..][..i] && a[1..][i] < b[1..][i] {
      assert a[..i + 1] == b[..i + 1] && a[i + 1] == a[1..][i];
    }
  }

  predicate Least(n: string, names: set<string>) {
    n in names && forall m :: m in names ==> Leq(n, m)
  }

  lemma {:induction false} SomeLeast(names: set<string>)
    requires names != {}
    ensures exists n :: Least(n, names)
  {
    var n :| n in names;
    LeqTotal(n, n);
    if names == {n} {
      assert Least(n, names);
    } else {
      SomeLeast(names - {n});
      var m :| Least(m, names - {n});
      LeqTotal(m, n);
      if Leq(m, n) {
        assert Least(m, names);
      } else {
        forall x | x in names ensures Leq(n, x) {
          if x != n {
            LeqTransitive(n, m, x);
          }
        }
        assert Least(n, names);
      }
    }
  }

  predicate Ascending(names: seq<string>) {
    forall i, j :: 0 <= i < j < |names| ==> Leq(names[i], names[j]) && names[i] != names[j]
  }

  // A set has one ascending listing, so nothing built from it depends on the
  // order a map is ranged over in.
  lemma {:induction false} OneListing(a: seq<string>, b: seq<string>)
    requires Ascending(a) && Ascending(b)
    requires forall n :: n in a <==> n in b
    ensures a == b
  {
    HasFirst(a);
    HasFirst(b);
    if a != [] && b != [] {
      SameFirst(a, b);
      hide Leq;
      assert a == [a[0]] + a[1..] && b == [b[0]] + b[1..];
      assert a[0] !in a[1..] && b[0] !in b[1..];
      forall n ensures n in a[1..] <==> n in b[1..] {
        assert n in a[1..] <==> n in a && n != a[0];
        assert n in b[1..] <==> n in b && n != b[0];
      }
      OneListing(a[1..], b[1..]);
    }
  }

  lemma HasFirst(a: seq<string>)
    ensures a == [] || exists n :: n in a
  {
    assert a != [] ==> a[0] in a;
  }

  lemma SameFirst(a: seq<string>, b: seq<string>)
    requires Ascending(a) && Ascending(b) && a != [] && b != []
    requires forall n :: n in a <==> n in b
    ensures a[0] == b[0]
  {
    assert a[0] in b && b[0] in a;
    var i :| 0 <= i < |b| && b[i] == a[0];
    var j :| 0 <= j < |a| && a[j] == b[0];
    hide Leq;
    if i != 0 && j != 0 {
      LeqAntisymmetric(a[0], b[0]);
    }
  }

  // The ascending listing of a set.
  ghost function Sorted(names: set<string>): (l: seq<string>)
    ensures Ascending(l) && forall n :: n in l <==> n in names
  {
    if names == {} then []
    else
      SomeLeast(names);
      var n :| Least(n, names);
      [n] + Sorted(names - {n})
  }

  lemma SortedOnly(l: seq<string>, names: set<string>)
    requires Ascending(l) && forall n :: n in l <==> n in names
    ensures l == Sorted(names)
  {
    OneListing(l, Sorted(names));
  }

  // sort.Strings, on names that are all different.
  method SortStrings(names: seq<string>) returns (sorted: seq<string>)
    ensures Ascending(sorted) && forall n :: n in sorted <==> n in names
  {
    sorted := [];
    var left := set n | n in names;
    while left != {}
      invariant forall n :: n in left ==> n in names
      invariant Ascending(sorted)
      invariant forall n :: n in sorted <==> n in names && n !in left
      invariant forall n, m :: n in sorted && m in left ==> Leq(n, m)
      decreases left
    {
      SomeLeast(left);
      var n :| n in left && Least(n, left);
      sorted := sorted + [n];
      left := left - {n};
    }
  }

  // controller.go:1192-1199. The keys come in whatever order the map is ranged
  // over in; the result is the same.
  method SortedKeys(keys: set<string>) returns (sorted: seq<string>)
    ensures sorted == Sorted(keys)
    ensures Ascending(sorted)
    ensures forall n :: n in sorted <==> n in keys
  {
    var names: seq<string> := [];
    var left := keys;
    while left != {}
      invariant left <= keys
      invariant forall n :: n in names <==> n in keys && n !in left
      decreases left
    {
      var n :| n in left;
      names := names + [n];
      left := left - {n};
    }
    sorted := SortStrings(names);
    SortedOnly(sorted, keys);
  }
}
