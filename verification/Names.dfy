/** Names in lexicographic order: the sorted listing of a set and its sublists. */
module Names {
  /** `a <= b` for Python strings. */
  predicate Before(a: string, b: string) {
    a == [] || (b != [] && (a[0] < b[0] || (a[0] == b[0] && Before(a[1..], b[1..]))))
  }

  lemma {:induction false} BeforeIsTotal(a: string, b: string)
    ensures Before(a, b) || Before(b, a)
  {
    if a != [] && b != [] && a[0] == b[0] { BeforeIsTotal(a[1..], b[1..]); }
  }

  lemma {:induction false} BeforeIsAntisymmetric(a: string, b: string)
    requires Before(a, b) && Before(b, a)
    ensures a == b
  {
    if a != [] {
      BeforeIsAntisymmetric(a[1..], b[1..]);
      assert a == [a[0]] + a[1..] && b == [b[0]] + b[1..];
    }
  }

  lemma {:induction false} BeforeIsTransitive(a: string, b: string, c: string)
    requires Before(a, b) && Before(b, c)
    ensures Before(a, c)
  {
    if a != [] && a[0] == b[0] && b[0] == c[0] { BeforeIsTransitive(a[1..], b[1..], c[1..]); }
  }

  predicate IsLeast(m: string, names: set<string>) {
    m in names && forall n | n in names :: Before(m, n)
  }

  lemma {:induction false} LeastExists(names: set<string>) returns (m: string)
    requires names != {}
    ensures IsLeast(m, names)
    decreases names
  {
    var x :| x in names;
    BeforeIsTotal(x, x);
    var others := names - {x};
    if others == {} {
      assert names == {x};
      m := x;
    } else {
      var y := LeastExists(others);
      BeforeIsTotal(x, y);
      m := if Before(x, y) then x else y;
      forall n | n in names ensures Before(m, n) {
        if n != x && m == x { BeforeIsTransitive(x, y, n); }
      }
    }
  }

  lemma LeastIsUnique(names: set<string>)
    ensures forall a, b :: IsLeast(a, names) && IsLeast(b, names) ==> a == b
  {
    forall a, b | IsLeast(a, names) && IsLeast(b, names) ensures a == b {
      BeforeIsAntisymmetric(a, b);
    }
  }

  lemma SomeLeast(names: set<string>)
    requires names != {}
    ensures exists m :: IsLeast(m, names)
  {
    var m := LeastExists(names);
  }

  function Least(names: set<string>): (m: string)
    requires names != {}
    ensures IsLeast(m, names)
  {
    SomeLeast(names);
    LeastIsUnique(names);
    var m :| IsLeast(m, names);
    m
  }

  /** `sorted(names)`. */
  function Sorted(names: set<string>): seq<string>
    decreases |names|
  {
    if names == {} then [] else [Least(names)] + Sorted(names - {Least(names)})
  }

  lemma {:induction false} SortedListsAll(names: set<string>)
    ensures |Sorted(names)| == |names|
    ensures forall x :: x in Sorted(names) <==> x in names
    decreases |names|
  {
    if names != {} { SortedListsAll(names - {Least(names)}); }
  }

  /** Ascending and without repetition. */
  lemma {:induction false} SortedIsAscending(names: set<string>)
    ensures forall i, j :: 0 <= i < j < |Sorted(names)| ==>
              Before(Sorted(names)[i], Sorted(names)[j]) && Sorted(names)[i] != Sorted(names)[j]
    decreases |names|
  {
    if names != {} {
      var m := Least(names);
      SortedIsAscending(names - {m});
      SortedListsAll(names - {m});
      forall i, j | 0 <= i < j < |Sorted(names)|
        ensures Before(Sorted(names)[i], Sorted(names)[j]) && Sorted(names)[i] != Sorted(names)[j]
      {
        assert Sorted(names)[j] in Sorted(names - {m});
      }
    }
  }

  function Select(names: seq<string>, keep: string -> bool): seq<string> {
    if names == [] then []
    else if keep(names[0]) then [names[0]] + Select(names[1..], keep)
    else Select(names[1..], keep)
  }

  lemma LeastOfSubset(names: set<string>, some: set<string>)
    requires names != {} && some <= names && Least(names) in some
    ensures Least(some) == Least(names)
  {
    BeforeIsAntisymmetric(Least(some), Least(names));
  }

  /** Selecting from the sorted listing lists the selected names. */
  lemma {:induction false} SelectFromSorted(names: set<string>, keep: string -> bool)
    ensures Select(Sorted(names), keep) == Sorted(set x | x in names && keep(x))
    decreases |names|
  {
    var some := set x | x in names && keep(x);
    if names == {} {
      assert some == {};
    } else {
      var m := Least(names);
      var rest := names - {m};
      SelectFromSorted(rest, keep);
      var someRest := set x | x in rest && keep(x);
      assert ([m] + Sorted(rest))[1..] == Sorted(rest);
      if keep(m) {
        LeastOfSubset(names, some);
        assert some - {m} == someRest;
      } else {
        assert some == someRest;
      }
    }
  }
}
