/** Sorting of texts by code points, as Rust's `sort` and Python's `sorted` do it. */
module TextOrder {

  predicate AtMost(a: string, b: string) {
    a == [] || (b != [] && (a[0] < b[0] || (a[0] == b[0] && AtMost(a[1..], b[1..]))))
  }

  /** The first difference decides; a text comes after its own beginnings. */
  ghost predicate FirstDiffers(a: string, b: string, n: nat) {
    n <= |a| && n <= |b| && a[..n] == b[..n] && (n == |a| || (n < |b| && a[n] < b[n]))
  }

  lemma {:induction false} AtMostIff(a: string, b: string)
    ensures AtMost(a, b) <==> exists n: nat :: FirstDiffers(a, b, n)
    decreases |a|
  {
    if a == [] {
      assert FirstDiffers(a, b, 0);
    } else if b != [] {
      AtMostIff(a[1..], b[1..]);
      if a[0] < b[0] {
        assert FirstDiffers(a, b, 0);
      } else if a[0] == b[0] {
        if n: nat :| FirstDiffers(a[1..], b[1..], n) {
          assert a[..n + 1] == [a[0]] + a[1..][..n] && b[..n + 1] == [b[0]] + b[1..][..n];
          assert FirstDiffers(a, b, n + 1);
        }
        if n: nat :| FirstDiffers(a, b, n) {
          assert n > 0;
          assert a[1..][..n - 1] == a[..n][1..] && b[1..][..n - 1] == b[..n][1..];
          assert FirstDiffers(a[1..], b[1..], n - 1);
        }
      } else {
        forall n: nat
          ensures !FirstDiffers(a, b, n)
        {
          if 0 < n <= |a| && n <= |b| {
            assert a[..n][0] == a[0] && b[..n][0] == b[0];
          }
        }
      }
    }
  }

  lemma Total(a: string, b: string)
    ensures AtMost(a, b) || AtMost(b, a)
  {
  }

  lemma Antisymmetric(a: string, b: string)
    requires AtMost(a, b) && AtMost(b, a)
    ensures a == b
  {
    if a != [] {
      Antisymmetric(a[1..], b[1..]);
      assert a == [a[0]] + a[1..] && b == [b[0]] + b[1..];
    }
  }

  lemma Transitive(a: string, b: string, c: string)
    requires AtMost(a, b) && AtMost(b, c)
    ensures AtMost(a, c)
  {
  }

  predicate IsLeast(x: string, s: set<string>) {
    x in s && forall y :: y in s ==> AtMost(x, y)
  }

  lemma LeastExists(s: set<string>)
    requires s != {}
    ensures exists x :: IsLeast(x, s)
  {
    var y :| y in s;
    var rest := s - {y};
    if rest == {} {
      assert s == {y};
      Total(y, y);
      assert IsLeast(y, s);
    } else {
      LeastExists(rest);
      var x :| IsLeast(x, rest);
      Total(x, y);
      Total(y, y);
      var z := if AtMost(x, y) then x else y;
      forall w | w in s
        ensures AtMost(z, w)
      {
        if w != y && z == y {
          Transitive(y, x, w);
        }
      }
      assert IsLeast(z, s);
    }
  }

  function Least(s: set<string>): (x: string)
    requires s != {}
    ensures IsLeast(x, s)
  {
    LeastExists(s);
    LeastUnique(s);
    var x :| IsLeast(x, s);
    x
  }

  lemma LeastUnique(s: set<string>)
    ensures forall x, y :: IsLeast(x, s) && IsLeast(y, s) ==> x == y
  {
    forall x, y | IsLeast(x, s) && IsLeast(y, s)
      ensures x == y
    {
      Antisymmetric(x, y);
    }
  }

  predicate Ascending(a: seq<string>) {
    forall i, j :: 0 <= i < j < |a| ==> AtMost(a[i], a[j]) && a[i] != a[j]
  }

  /** The elements of `s`, each once, in ascending order. */
  function Sorted(s: set<string>): (r: seq<string>)
    ensures |r| == |s|
    ensures forall x :: x in r <==> x in s
  {
    if s == {} then [] else [Least(s)] + Sorted(s - {Least(s)})
  }

  lemma SortedAscending(s: set<string>)
    ensures Ascending(Sorted(s))
  {
    if s != {} {
      var x := Least(s);
      var rest := Sorted(s - {x});
      SortedAscending(s - {x});
      forall i | 0 <= i < |rest|
        ensures AtMost(x, rest[i]) && x != rest[i]
      {
        assert rest[i] in s - {x};
      }
    }
  }
}
