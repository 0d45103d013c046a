/** Sets of strings as sorted lists, as the long runs go through them. */
module Sorting {
  import opened Common

  /** Lexicographic order by character. */
  predicate Leq(a: string, b: string) {
    a == "" || (b != "" && (a[0] < b[0] || (a[0] == b[0] && Leq(a[1..], b[1..]))))
  }

  lemma {:induction false} LeqTotal(a: string, b: string)
    ensures Leq(a, b) || Leq(b, a)
    ensures Leq(a, b) && Leq(b, a) ==> a == b
  {
    if a != "" && b != "" {
      LeqTotal(a[1..], b[1..]);
      assert a == [a[0]] + a[1..] && b == [b[0]] + b[1..];
    }
  }

  lemma {:induction false} LeqTransitive(a: string, b: string, c: string)
    requires Leq(a, b) && Leq(b, c)
    ensures Leq(a, c)
  {
    if a != "" && a[0] == b[0] == c[0] {
      LeqTransitive(a[1..], b[1..], c[1..]);
    }
  }

  predicate IsLeast(m: string, macs: set<string>) {
    m in macs && forall x :: x in macs ==> Leq(m, x)
  }

  lemma {:induction false} LeastExists(macs: set<string>)
    requires macs != {}
    ensures exists m :: IsLeast(m, macs)
    decreases macs
  {
    var x :| x in macs;
    var rest := macs - {x};
    LeqTotal(x, x);
    if rest == {} {
      forall z | z in macs
        ensures z == x
      {
        assert z !in rest;
      }
      assert IsLeast(x, macs);
    } else {
      LeastExists(rest);
      var y :| IsLeast(y, rest);
      LeqTotal(x, y);
      var m := if Leq(x, y) then x else y;
      forall z | z in macs
        ensures Leq(m, z)
      {
        if z in rest && m == x {
          LeqTransitive(x, y, z);
        }
      }
      assert IsLeast(m, macs);
    }
  }

  lemma LeastUnique(macs: set<string>)
    ensures forall m, n :: IsLeast(m, macs) && IsLeast(n, macs) ==> m == n
  {
    forall m, n | IsLeast(m, macs) && IsLeast(n, macs)
      ensures m == n
    {
      LeqTotal(m, n);
    }
  }

  predicate Sorted(s: seq<string>) {
    forall i, j :: 0 <= i < j < |s| ==> Leq(s[i], s[j])
  }

  function Least(macs: set<string>): (m: string)
    requires macs != {}
    ensures IsLeast(m, macs)
  {
    LeastExists(macs);
    LeastUnique(macs);
    var m :| IsLeast(m, macs);
    m
  }

  /** `sorted` of a set. */
  function SortedList(macs: set<string>): seq<string>
    decreases macs
  {
    if macs == {} then [] else [Least(macs)] + SortedList(macs - {Least(macs)})
  }

  lemma {:induction false} SortedListHas(macs: set<string>, x: string)
    ensures x in SortedList(macs) <==> x in macs
    decreases macs
  {
    if macs != {} {
      var m := Least(macs);
      SortedListHas(macs - {m}, x);
      assert x in [m] + SortedList(macs - {m}) <==> x == m || x in SortedList(macs - {m});
    }
  }

  lemma {:induction false} SortedListOrdered(macs: set<string>)
    ensures NoDuplicates(SortedList(macs)) && Sorted(SortedList(macs))
    decreases macs
  {
    if macs != {} {
      var m := Least(macs);
      var rest := SortedList(macs - {m});
      SortedListOrdered(macs - {m});
      forall i | 0 <= i < |rest|
        ensures rest[i] != m && Leq(m, rest[i])
      {
        SortedListHas(macs - {m}, rest[i]);
      }
    }
  }

  /** It holds each element once, in order. */
  lemma SortedListExact(macs: set<string>)
    ensures NoDuplicates(SortedList(macs)) && Sorted(SortedList(macs))
    ensures forall m :: m in SortedList(macs) <==> m in macs
    ensures Elements(SortedList(macs)) == macs && |SortedList(macs)| == |macs|
  {
    SortedListOrdered(macs);
    forall m
      ensures m in SortedList(macs) <==> m in macs
    {
      SortedListHas(macs, m);
    }
    DistinctCount(SortedList(macs));
    assert Elements(SortedList(macs)) == macs;
  }
}
