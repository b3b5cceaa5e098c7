/** The order of ordered maps keyed by text, and sets of texts listed in that order. */
module Text {

  /** Strictly before, character by character. */
  predicate Before(a: string, b: string) {
    b != [] && (a == [] || a[0] < b[0] || (a[0] == b[0] && Before(a[1..], b[1..])))
  }

  predicate Ascending(t: seq<string>) {
    forall i, j :: 0 <= i < j < |t| ==> Before(t[i], t[j])
  }

  predicate IsLeast(x: string, s: set<string>) {
    x in s && forall y :: y in s ==> x == y || Before(x, y)
  }

  lemma {:induction false} BeforeTotal(a: string, b: string)
    ensures a == b || Before(a, b) || Before(b, a)
    ensures !(Before(a, b) && Before(b, a))
    ensures !Before(a, a)
  {
    if a != [] {
      BeforeTotal(a[1..], a[1..]);
    }
    if a != [] && b != [] && a[0] == b[0] {
      BeforeTotal(a[1..], b[1..]);
      assert a == [a[0]] + a[1..] && b == [b[0]] + b[1..];
    }
  }

  lemma {:induction false} BeforeTransitive(a: string, b: string, c: string)
    requires Before(a, b) && Before(b, c)
    ensures Before(a, c)
  {
    if a != [] && a[0] == b[0] == c[0] {
      BeforeTransitive(a[1..], b[1..], c[1..]);
    }
  }

  lemma {:induction false} LeastExists(s: set<string>)
    requires s != {}
    ensures exists x :: IsLeast(x, s)
    decreases |s|
  {
    var first :| first in s;
    if s == {first} {
      assert IsLeast(first, s);
    } else {
      var rest := s - {first};
      LeastExists(rest);
      var other :| IsLeast(other, rest);
      BeforeTotal(first, other);
      var x := if Before(first, other) then first else other;
      forall y | y in s
        ensures x == y || Before(x, y)
      {
        if x == first && y in rest && y != other {
          BeforeTransitive(first, other, y);
        }
      }
      assert IsLeast(x, s);
    }
  }

  ghost function Least(s: set<string>): (x: string)
    requires s != {}
    ensures IsLeast(x, s)
  {
    LeastExists(s);
    var x :| IsLeast(x, s);
    x
  }

  lemma LeastUnique(x: string, s: set<string>)
    requires s != {} && IsLeast(x, s)
    ensures x == Least(s)
  {
    BeforeTotal(x, Least(s));
  }

  /** The elements, each smaller one first. */
  ghost function Sorted(s: set<string>): (t: seq<string>)
    ensures |t| == |s|
    ensures forall x :: x in t <==> x in s
    decreases |s|
  {
    if s == {} then [] else [Least(s)] + Sorted(s - {Least(s)})
  }

  lemma {:induction false} SortedAscends(s: set<string>)
    ensures Ascending(Sorted(s))
    decreases |s|
  {
    if s != {} {
      var x := Least(s);
      var rest := Sorted(s - {x});
      SortedAscends(s - {x});
      assert forall i :: 0 <= i < |rest| ==> rest[i] in s - {x};
    }
  }

  lemma Regroup(t: seq<string>, x: string, rest: seq<string>)
    ensures t + ([x] + rest) == t + [x] + rest
  {
  }

  /** Lists a set by taking its least element out again and again. */
  method Sort(s: set<string>) returns (t: seq<string>)
    ensures t == Sorted(s)
  {
    t := [];
    var left := s;
    while left != {}
      invariant Sorted(s) == t + Sorted(left)
      decreases |left|
    {
      LeastExists(left);
      var x :| IsLeast(x, left);
      SortedFrom(x, left);
      Regroup(t, x, Sorted(left - {x}));
      t := t + [x];
      left := left - {x};
    }
  }

  lemma SubsetSize(a: set<string>, b: set<string>)
    requires a <= b
    ensures |a| <= |b|
    ensures |a| == |b| <==> a == b
  {
    var rest := b - a;
    assert b == a + rest;
    assert |b| == |a| + |rest|;
  }

  lemma SortedFrom(x: string, s: set<string>)
    requires IsLeast(x, s)
    ensures Sorted(s) == [x] + Sorted(s - {x})
  {
    LeastUnique(x, s);
  }

  /** There is only one ascending listing of a set. */
  lemma {:induction false} AscendingUnique(t: seq<string>, s: set<string>)
    requires Ascending(t) && forall x :: x in t <==> x in s
    ensures t == Sorted(s)
    decreases |s|
  {
    if s == {} {
      assert t == [];
    } else {
      assert Least(s) in t;
      assert t[0] in s;
      assert IsLeast(t[0], s) by {
        forall y | y in s
          ensures t[0] == y || Before(t[0], y)
        {
          var i :| 0 <= i < |t| && t[i] == y;
        }
      }
      LeastUnique(t[0], s);
      BeforeTotal(t[0], t[0]);
      assert t == [t[0]] + t[1..];
      assert forall x :: x in t[1..] ==> x in t && x != t[0];
      AscendingUnique(t[1..], s - {t[0]});
    }
  }
}
