/**
 Ranking of namespace strings (server/mapreduce/namespace_range.py). The strings of length at most
 maxLength over a sorted alphabet are numbered from 0 in lexicographic order. Alphabet and maximum
 length stay symbolic.
 */
module NamespaceOrdinals {
  import opened StringOrder

  // NAMESPACE_CHARACTERS and MAX_NAMESPACE_LENGTH.
  datatype Config = Config(chars: string, maxLength: nat) {
    ghost predicate Valid() {
      |chars| > 0 && maxLength > 0 && forall i, j :: 0 <= i < j < |chars| ==> chars[i] < chars[j]
    }
  }

  predicate IsNamespace(c: Config, ns: string, length: nat) {
    |ns| <= length && forall i :: 0 <= i < |ns| ==> ns[i] in c.chars
  }

  /** How many strings of length at most k there are over an alphabet of the given size. */
  function LexDistance(alphabet: nat, k: nat): (d: nat)
    ensures d > 0
  {
    if k == 0 then 1 else LexDistance(alphabet, k - 1) * alphabet + 1
  }

  /** The table _LEX_DISTANCE built at import time. */
  method SetupConstants(c: Config) returns (maxNamespace: string, lexDistance: seq<nat>)
    requires c.Valid()
    ensures IsNamespace(c, maxNamespace, c.maxLength)
    ensures forall ns :: IsNamespace(c, ns, c.maxLength) ==> StrLeq(ns, maxNamespace)
    ensures |lexDistance| == c.maxLength
    ensures forall k :: 0 <= k < c.maxLength ==> lexDistance[k] == LexDistance(|c.chars|, k)
  {
    maxNamespace := MaxNamespace(c);
    forall ns | IsNamespace(c, ns, c.maxLength)
      ensures StrLeq(ns, maxNamespace)
    {
      MaxNamespaceIsLast(c, ns, c.maxLength);
    }
    lexDistance := [1];
    for i := 1 to c.maxLength
      invariant |lexDistance| == i
      invariant forall k :: 0 <= k < i ==> lexDistance[k] == LexDistance(|c.chars|, k)
    {
      lexDistance := lexDistance + [lexDistance[i - 1] * |c.chars| + 1];
    }
  }

  function MaxNamespace(c: Config): (ns: string)
    requires c.Valid()
    ensures IsNamespace(c, ns, c.maxLength)
  {
    seq(c.maxLength, _ => c.chars[|c.chars| - 1])
  }

  lemma {:induction false} MaxNamespaceIsLast(c: Config, ns: string, length: nat)
    requires c.Valid() && IsNamespace(c, ns, length)
    ensures StrLeq(ns, seq(length, _ => c.chars[|c.chars| - 1]))
  {
    if ns != "" {
      MaxNamespaceIsLast(c, ns[1..], length - 1);
      var top := c.chars[|c.chars| - 1];
      assert seq(length, _ => top)[1..] == seq(length - 1, _ => top);
      assert ns[0] in c.chars;
    }
  }

  function Index(chars: string, ch: char): (i: nat)
    requires ch in chars
    ensures i < |chars| && chars[i] == ch
  {
    if chars[0] == ch then 0 else 1 + Index(chars[1..], ch)
  }

  lemma CharsAscend(c: Config, i: nat, j: nat)
    requires c.Valid() && i < |c.chars| && j < |c.chars|
    ensures i < j ==> c.chars[i] < c.chars[j]
  {}

  lemma IndexOfAt(c: Config, i: nat)
    requires c.Valid() && i < |c.chars|
    ensures Index(c.chars, c.chars[i]) == i
  {
    var j := Index(c.chars, c.chars[i]);
    CharsAscend(c, i, j);
    CharsAscend(c, j, i);
  }

  /** _ord_to_namespace, with the remaining maximum length as second argument. */
  function OrdToNamespace(c: Config, n: nat, length: nat): (ns: string)
    requires c.Valid() && n < LexDistance(|c.chars|, length)
    ensures IsNamespace(c, ns, length)
    decreases length
  {
    if n == 0 then "" else
      var d := LexDistance(|c.chars|, length - 1);
      SplitOrdinal(n - 1, d, |c.chars|);
      [c.chars[(n - 1) / d]] + OrdToNamespace(c, (n - 1) % d, length - 1)
  }

  lemma SplitOrdinal(m: nat, d: nat, a: nat)
    requires d > 0 && m < d * a
    ensures 0 <= m / d < a && 0 <= m % d < d && m == d * (m / d) + m % d
  {
    if m / d >= a {
      MulMonotone(d, a, m / d);
    }
  }

  // A leading digit i (of d * a possible continuations) and a remainder below d.
  lemma PlaceValue(d: nat, i: nat, a: nat, rest: nat)
    requires i < a && rest < d
    ensures 0 < d * i + 1 + rest < d * a + 1
  {
    MulMonotone(d, i + 1, a);
  }

  lemma MulMonotone(d: nat, x: int, y: int)
    requires x <= y
    ensures d * x <= d * y
  {}

  /** The ordinal as a sum over characters, most significant first. */
  function Ord(c: Config, ns: string, length: nat): (n: nat)
    requires c.Valid() && IsNamespace(c, ns, length)
    ensures n < LexDistance(|c.chars|, length)
    ensures n == 0 <==> ns == ""
  {
    if ns == "" then 0 else
      var d, i := LexDistance(|c.chars|, length - 1), Index(c.chars, ns[0]);
      var rest := Ord(c, ns[1..], length - 1);
      PlaceValue(d, i, |c.chars|, rest);
      d * i + 1 + rest
  }

  /** _namespace_to_ord: the loop over the characters, reading the table built by SetupConstants. */
  method NamespaceToOrd(c: Config, lexDistance: seq<nat>, ns: string) returns (n: nat)
    requires c.Valid() && IsNamespace(c, ns, c.maxLength)
    requires |lexDistance| == c.maxLength
    requires forall k :: 0 <= k < c.maxLength ==> lexDistance[k] == LexDistance(|c.chars|, k)
    ensures n == Ord(c, ns, c.maxLength)
  {
    assert ns[0..] == ns && |ns| <= c.maxLength;
    hide *;
    n := 0;
    for i := 0 to |ns|
      invariant IsNamespace(c, ns[i..], c.maxLength - i)
      invariant n + Ord(c, ns[i..], c.maxLength - i) == Ord(c, ns, c.maxLength)
    {
      OrdStep(c, ns, i);
      n := n + (lexDistance[c.maxLength - i - 1] * Index(c.chars, ns[i]) + 1);
    }
    OrdOfEmpty(c, ns[|ns|..], c.maxLength - |ns|);
  }

  lemma OrdOfEmpty(c: Config, ns: string, length: nat)
    requires c.Valid() && ns == ""
    ensures IsNamespace(c, ns, length) && Ord(c, ns, length) == 0
  {}

  lemma OrdStep(c: Config, ns: string, i: nat)
    requires c.Valid() && IsNamespace(c, ns, c.maxLength) && i < |ns|
    ensures IsNamespace(c, ns[i..], c.maxLength - i) && IsNamespace(c, ns[i + 1..], c.maxLength - (i + 1))
    ensures ns[i] in c.chars
    ensures Ord(c, ns[i..], c.maxLength - i) ==
            LexDistance(|c.chars|, c.maxLength - i - 1) * Index(c.chars, ns[i]) + 1 + Ord(c, ns[i + 1..], c.maxLength - (i + 1))
  {
    assert ns[i..][1..] == ns[i + 1..];
  }

  /** Ranking then unranking gives the string back. */
  lemma {:induction false} NamespaceRoundTrip(c: Config, ns: string, length: nat)
    requires c.Valid() && IsNamespace(c, ns, length)
    ensures OrdToNamespace(c, Ord(c, ns, length), length) == ns
  {
    if ns != "" {
      var d, i, rest := LexDistance(|c.chars|, length - 1), Index(c.chars, ns[0]), Ord(c, ns[1..], length - 1);
      QuotientRemainder(d, i, rest);
      NamespaceRoundTrip(c, ns[1..], length - 1);
    }
  }

  lemma QuotientRemainder(d: nat, q: nat, r: nat)
    requires r < d
    ensures (d * q + r) / d == q && (d * q + r) % d == r
  {
    var q', r' := (d * q + r) / d, (d * q + r) % d;
    assert d * q' + r' == d * q + r;
    if q' < q { MulMonotone(d, q' + 1, q); } else if q < q' { MulMonotone(d, q + 1, q'); }
  }

  /** Unranking then ranking gives the number back. */
  lemma {:induction false} OrdinalRoundTrip(c: Config, n: nat, length: nat)
    requires c.Valid() && n < LexDistance(|c.chars|, length)
    ensures Ord(c, OrdToNamespace(c, n, length), length) == n
    decreases length
  {
    if n != 0 {
      var d := LexDistance(|c.chars|, length - 1);
      SplitOrdinal(n - 1, d, |c.chars|);
      var ns := OrdToNamespace(c, n, length);
      IndexOfAt(c, (n - 1) / d);
      assert ns[1..] == OrdToNamespace(c, (n - 1) % d, length - 1);
      OrdinalRoundTrip(c, (n - 1) % d, length - 1);
    }
  }

  /** The numbering follows the lexicographic order, in both directions. */
  lemma OrdinalOrder(c: Config, a: string, b: string, length: nat)
    requires c.Valid() && IsNamespace(c, a, length) && IsNamespace(c, b, length)
    ensures StrLeq(a, b) <==> Ord(c, a, length) <= Ord(c, b, length)
  {
    StrLeqTotal(a, b);
    if a == b {
      StrLeqReflexive(a);
    } else if StrLeq(a, b) {
      OrdStrictlyMonotone(c, a, b, length);
    } else {
      OrdStrictlyMonotone(c, b, a, length);
    }
  }

  lemma {:induction false} OrdStrictlyMonotone(c: Config, a: string, b: string, length: nat)
    requires c.Valid() && IsNamespace(c, a, length) && IsNamespace(c, b, length)
    requires StrLess(a, b)
    ensures Ord(c, a, length) < Ord(c, b, length)
  {
    if a != "" {
      var d, i, j := LexDistance(|c.chars|, length - 1), Index(c.chars, a[0]), Index(c.chars, b[0]);
      if a[0] == b[0] {
        assert a == [a[0]] + a[1..] && b == [b[0]] + b[1..];
        OrdStrictlyMonotone(c, a[1..], b[1..], length - 1);
      } else {
        CharsAscend(c, j, i);
        PlaceValue(d, i, j, Ord(c, a[1..], length - 1));
      }
    }
  }

  /** LexDistance counts: the numbering is a bijection from [0, LexDistance) onto the namespaces. */
  lemma OrdinalsAreABijection(c: Config, length: nat)
    requires c.Valid()
    ensures forall n :: 0 <= n < LexDistance(|c.chars|, length) ==>
              IsNamespace(c, OrdToNamespace(c, n, length), length) && Ord(c, OrdToNamespace(c, n, length), length) == n
    ensures forall ns :: IsNamespace(c, ns, length) ==> OrdToNamespace(c, Ord(c, ns, length), length) == ns
  {
    forall n | 0 <= n < LexDistance(|c.chars|, length)
      ensures Ord(c, OrdToNamespace(c, n, length), length) == n
    {
      OrdinalRoundTrip(c, n, length);
    }
    forall ns | IsNamespace(c, ns, length)
      ensures OrdToNamespace(c, Ord(c, ns, length), length) == ns
    {
      NamespaceRoundTrip(c, ns, length);
    }
  }
}
