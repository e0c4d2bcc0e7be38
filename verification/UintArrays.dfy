/** Set operations on id slices (util/common/array.go).

A Go map is iterated in an unspecified order, so the union is specified up to order:
it is some duplicate-free listing of the union. */
module UintArrays {

  ghost predicate NoDuplicates<T>(s: seq<T>) {
    forall i, j :: 0 <= i < j < |s| ==> s[i] != s[j]
  }

  function ToSet<T>(s: seq<T>): set<T> {
    set x | x in s
  }

  /** The elements of `s` that are not in `drop`, in order. */
  function Without<T(==)>(s: seq<T>, drop: set<T>): seq<T> {
    if s == [] then [] else
      (if s[0] in drop then [] else [s[0]]) + Without(s[1..], drop)
  }

  lemma {:induction false} WithoutAppend<T>(s: seq<T>, x: T, drop: set<T>)
    ensures Without(s + [x], drop) == Without(s, drop) + (if x in drop then [] else [x])
  {
    if s == [] {
    } else {
      assert (s + [x])[1..] == s[1..] + [x];
      WithoutAppend(s[1..], x, drop);
    }
  }

  lemma {:induction false} WithoutElements<T>(s: seq<T>, drop: set<T>)
    ensures forall x :: x in Without(s, drop) <==> x in s && x !in drop
  {
    if s != [] {
      WithoutElements(s[1..], drop);
      forall x ensures x in Without(s, drop) <==> x in s && x !in drop {
        assert x in s <==> x == s[0] || x in s[1..];
      }
    }
  }

  /** Collects both slices in a set, then lists the set in any order. */
  method UnionUintArray(a: seq<nat>, b: seq<nat>) returns (res: seq<nat>)
    ensures NoDuplicates(res)
    ensures ToSet(res) == ToSet(a) + ToSet(b)
  {
    var m: set<nat> := {};
    for i := 0 to |a|
      invariant m == ToSet(a[..i])
    {
      assert a[..i + 1] == a[..i] + [a[i]];
      m := m + {a[i]};
    }
    assert a[..|a|] == a;
    for i := 0 to |b|
      invariant m == ToSet(a) + ToSet(b[..i])
    {
      assert b[..i + 1] == b[..i] + [b[i]];
      m := m + {b[i]};
    }
    assert b[..|b|] == b;
    res := [];
    var rest := m;
    while rest != {}
      invariant rest <= m
      invariant NoDuplicates(res)
      invariant ToSet(res) == m - rest
      decreases rest
    {
      var k :| k in rest;
      assert k !in ToSet(res);
      assert ToSet(res + [k]) == ToSet(res) + {k};
      res := res + [k];
      rest := rest - {k};
    }
  }

  /** The elements of `b` missing from `a`, then those of `a` missing from `b`; repeats stay. */
  method DiffUintArray(a: seq<nat>, b: seq<nat>) returns (different: seq<nat>)
    ensures different == Without(b, ToSet(a)) + Without(a, ToSet(b))
    ensures ToSet(different) == (ToSet(a) - ToSet(b)) + (ToSet(b) - ToSet(a))
  {
    different := [];
    var seen: set<nat> := {};
    for i := 0 to |a|
      invariant seen == ToSet(a[..i])
    {
      assert a[..i + 1] == a[..i] + [a[i]];
      seen := seen + {a[i]};
    }
    assert a[..|a|] == a;
    for i := 0 to |b|
      invariant different == Without(b[..i], ToSet(a))
    {
      assert b[..i + 1] == b[..i] + [b[i]];
      WithoutAppend(b[..i], b[i], ToSet(a));
      if b[i] !in seen {
        different := different + [b[i]];
      }
    }
    assert b[..|b|] == b;
    seen := {};
    for i := 0 to |b|
      invariant seen == ToSet(b[..i])
    {
      assert b[..i + 1] == b[..i] + [b[i]];
      seen := seen + {b[i]};
    }
    for i := 0 to |a|
      invariant different == Without(b, ToSet(a)) + Without(a[..i], ToSet(b))
    {
      assert a[..i + 1] == a[..i] + [a[i]];
      WithoutAppend(a[..i], a[i], ToSet(b));
      if a[i] !in seen {
        different := different + [a[i]];
      }
    }
    WithoutElements(b, ToSet(a));
    WithoutElements(a, ToSet(b));
  }
}
