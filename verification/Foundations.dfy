/** Failure-carrying results, standing for the exceptions the Python code raises. */
module Wrappers {
  datatype Option<+T> = None | Some(value: T)

  datatype Result<+T> = Success(value: T) | Failure(error: Error)

  datatype Error = Exception | ValueError | IndexError | AttributeError | TypeError | AssertionError
}

/** The order Python gives to byte strings: character by character, a proper prefix first. */
module StringOrder {

  predicate StrLeq(a: string, b: string) {
    a == "" || (b != "" && (a[0] < b[0] || (a[0] == b[0] && StrLeq(a[1..], b[1..]))))
  }

  predicate StrLess(a: string, b: string) {
    a != b && StrLeq(a, b)
  }

  lemma StrLeqReflexive(a: string)
    ensures StrLeq(a, a)
  {}

  /** a comes first if it begins b, or has the smaller character where they first differ. */
  lemma {:induction false} StrLeqExactly(a: string, b: string)
    ensures StrLeq(a, b) <==> a <= b || exists i :: 0 <= i < |a| && i < |b| && a[..i] == b[..i] && a[i] < b[i]
  {
    if a != "" && b != "" {
      if a[0] == b[0] {
        StrLeqExactly(a[1..], b[1..]);
        assert a == [a[0]] + a[1..] && b == [b[0]] + b[1..];
        if i :| 0 <= i < |a[1..]| && i < |b[1..]| && a[1..][..i] == b[1..][..i] && a[1..][i] < b[1..][i] {
          assert a[..i + 1] == [a[0]] + a[1..][..i] && b[..i + 1] == [b[0]] + b[1..][..i];
          assert a[i + 1] < b[i + 1];
        }
        if i :| 0 <= i < |a| && i < |b| && a[..i] == b[..i] && a[i] < b[i] {
          assert a[1..][..i - 1] == a[..i][1..] && b[1..][..i - 1] == b[..i][1..];
          assert a[1..][i - 1] < b[1..][i - 1];
        }
      } else {
        assert a[..0] == b[..0];
      }
    }
  }

  lemma StrLeqTotal(a: string, b: string)
    ensures StrLeq(a, b) || StrLeq(b, a)
  {}

  lemma {:induction false} StrLeqAntisymmetric(a: string, b: string)
    requires StrLeq(a, b) && StrLeq(b, a)
    ensures a == b
  {
    if a != "" {
      StrLeqAntisymmetric(a[1..], b[1..]);
      assert a == [a[0]] + a[1..] && b == [b[0]] + b[1..];
    }
  }

  lemma {:induction false} StrLeqTransitive(a: string, b: string, c: string)
    requires StrLeq(a, b) && StrLeq(b, c)
    ensures StrLeq(a, c)
  {
    if a != "" && a[0] == b[0] && b[0] == c[0] {
      StrLeqTransitive(a[1..], b[1..], c[1..]);
    }
  }
}

/** Python's list.sort / sorted by a three-way or key comparison, given as stable insertion. */
module Sorting {

  ghost predicate TotalPreorder<T(!new)>(leq: (T, T) -> bool) {
    && (forall x, y :: leq(x, y) || leq(y, x))
    && (forall x, y, z :: leq(x, y) && leq(y, z) ==> leq(x, z))
  }

  ghost predicate SortedBy<T>(s: seq<T>, leq: (T, T) -> bool) {
    forall i, j :: 0 <= i < j < |s| ==> leq(s[i], s[j])
  }

  // Insert x behind every element that does not exceed it.
  function Insert<T>(s: seq<T>, x: T, leq: (T, T) -> bool): seq<T> {
    if s == [] || leq(s[|s| - 1], x) then s + [x]
    else Insert(s[..|s| - 1], x, leq) + [s[|s| - 1]]
  }

  function SortBy<T>(s: seq<T>, leq: (T, T) -> bool): seq<T> {
    if s == [] then [] else Insert(SortBy(s[..|s| - 1], leq), s[|s| - 1], leq)
  }

  lemma {:induction false} InsertedFrom<T>(s: seq<T>, x: T, leq: (T, T) -> bool, i: nat)
    requires i < |Insert(s, x, leq)|
    ensures Insert(s, x, leq)[i] == x || exists j :: 0 <= j < |s| && s[j] == Insert(s, x, leq)[i]
  {
    if s != [] && !leq(s[|s| - 1], x) && i < |Insert(s[..|s| - 1], x, leq)| {
      InsertedFrom(s[..|s| - 1], x, leq, i);
    }
  }

  lemma {:induction false} InsertSorted<T(!new)>(s: seq<T>, x: T, leq: (T, T) -> bool)
    requires TotalPreorder(leq) && SortedBy(s, leq)
    ensures SortedBy(Insert(s, x, leq), leq)
    ensures multiset(Insert(s, x, leq)) == multiset(s) + multiset{x}
  {
    hide SortedBy, TotalPreorder;
    if s != [] && !leq(s[|s| - 1], x) {
      var init, last := s[..|s| - 1], s[|s| - 1];
      SortedInit(s, leq);
      InsertSorted(init, x, leq);
      assert s == init + [last];
      var r := Insert(init, x, leq);
      forall i | 0 <= i < |r|
        ensures leq(r[i], last)
      {
        InsertedFrom(init, x, leq, i);
        Total(leq, x, last);
      }
      SortedSnoc(r, last, leq);
    } else {
      if s != [] { BelowLast(s, x, leq); }
      SortedSnoc(s, x, leq);
    }
  }

  lemma Total<T(!new)>(leq: (T, T) -> bool, x: T, y: T)
    requires TotalPreorder(leq)
    ensures leq(x, y) || leq(y, x)
  {}

  lemma SortedInit<T>(s: seq<T>, leq: (T, T) -> bool)
    requires SortedBy(s, leq) && s != []
    ensures SortedBy(s[..|s| - 1], leq)
    ensures forall i :: 0 <= i < |s| - 1 ==> leq(s[i], s[|s| - 1])
  {}

  lemma SortedSnoc<T>(s: seq<T>, x: T, leq: (T, T) -> bool)
    requires SortedBy(s, leq) && forall i :: 0 <= i < |s| ==> leq(s[i], x)
    ensures SortedBy(s + [x], leq)
  {}

  lemma BelowLast<T(!new)>(s: seq<T>, x: T, leq: (T, T) -> bool)
    requires TotalPreorder(leq) && SortedBy(s, leq) && s != [] && leq(s[|s| - 1], x)
    ensures forall i :: 0 <= i < |s| ==> leq(s[i], x)
  {
    SortedInit(s, leq);
  }

  lemma SortedEmpty<T>(leq: (T, T) -> bool)
    ensures SortedBy([], leq)
  {}

  lemma {:induction false} SortBySorts<T(!new)>(s: seq<T>, leq: (T, T) -> bool)
    requires TotalPreorder(leq)
    ensures SortedBy(SortBy(s, leq), leq)
    ensures multiset(SortBy(s, leq)) == multiset(s)
  {
    hide Insert, SortedBy, TotalPreorder;
    if s != [] {
      var init, last := s[..|s| - 1], s[|s| - 1];
      SortBySorts(init, leq);
      InsertSorted(SortBy(init, leq), last, leq);
      assert SortBy(s, leq) == Insert(SortBy(init, leq), last, leq);
      hide SortBy;
      assert s == init + [last];
      assert multiset(s) == multiset(init) + multiset{last};
    } else {
      SortedEmpty(leq);
    }
  }
}

/** Taking the elements of a finite stream one by one. */
module Streams {

  lemma MoveOne<T>(done: seq<T>, todo: seq<T>, all: seq<T>)
    requires done + todo == all && todo != []
    ensures (done + [todo[0]]) + todo[1..] == all
  {
    assert todo == [todo[0]] + todo[1..];
  }

  // How many elements a sequence of slices asks for.
  function Sum(slices: seq<nat>): nat {
    if slices == [] then 0 else Sum(slices[..|slices| - 1]) + slices[|slices| - 1]
  }

  lemma SumNext(slices: seq<nat>, s: nat)
    requires s < |slices|
    ensures Sum(slices[..s + 1]) == Sum(slices[..s]) + slices[s]
  {
    assert slices[..s + 1][..s] == slices[..s];
  }
}
