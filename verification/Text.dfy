/** Byte-wise string order, as Go's `<` on strings, and the exchange sort the scheduler uses on job
    ids. The order is a strict total one, so a set of strings has exactly one ascending listing;
    that is why results which the code sorts do not depend on the order in which it walks its
    maps. The sort works in place on an array, and a second method wraps it for a sequence, which
    is how the scheduler's lists are kept here. */
module Text {
  import opened Collections

  predicate Less(a: string, b: string) {
    b != [] && (a == [] || a[0] < b[0] || (a[0] == b[0] && Less(a[1..], b[1..])))
  }

  /** The texts agree up to place k, where b goes on and a has ended or has a lesser character. */
  predicate LessAt(a: string, b: string, k: int) {
    && 0 <= k <= |a| && k < |b| && (forall i :: 0 <= i < k ==> a[i] == b[i])
    && (k == |a| || a[k] < b[k])
  }

  lemma {:induction false} LessMeans(a: string, b: string)
    ensures Less(a, b) <==> exists k :: LessAt(a, b, k)
  {
    if a != [] && b != [] && a[0] == b[0] {
      LessMeans(a[1..], b[1..]);
      if k :| LessAt(a[1..], b[1..], k) {
        assert LessAt(a, b, k + 1);
      }
      if k :| LessAt(a, b, k) {
        assert LessAt(a[1..], b[1..], k - 1);
      }
    } else if Less(a, b) {
      assert LessAt(a, b, 0);
    } else if b != [] {
      assert forall k :: LessAt(a, b, k) ==> k == 0;
    }
  }

  lemma {:induction false} LessTransitive(a: string, b: string, c: string)
    requires Less(a, b) && Less(b, c)
    ensures Less(a, c)
  {
    if a != [] && a[0] == b[0] == c[0] {
      LessTransitive(a[1..], b[1..], c[1..]);
    }
  }

  /** Exactly one of a < b, a == b, b < a. */
  lemma {:induction false} LessTrichotomy(a: string, b: string)
    ensures Less(a, b) || a == b || Less(b, a)
    ensures !(Less(a, b) && (a == b || Less(b, a)))
  {
    if a != [] && b != [] {
      LessTrichotomy(a[1..], b[1..]);
      assert a == [a[0]] + a[1..] && b == [b[0]] + b[1..];
    } else if a == b {
    }
  }

  /** "Not after" is transitive. */
  lemma NotAfterTransitive(a: string, b: string, c: string)
    requires !Less(b, a) && !Less(c, b)
    ensures !Less(c, a)
  {
    LessTrichotomy(a, b);
    LessTrichotomy(b, c);
    LessTrichotomy(a, c);
    if Less(a, b) && Less(b, c) {
      LessTransitive(a, b, c);
    }
  }

  ghost predicate Sorted(s: seq<string>) {
    forall i, j :: 0 <= i < j < |s| ==> !Less(s[j], s[i])
  }

  lemma HeadIsLeast(a: seq<string>, x: string)
    requires Sorted(a) && x in multiset(a)
    ensures a != [] && !Less(x, a[0])
  {
    LessTrichotomy(x, x);
    assert x in a;
  }

  /** A multiset of strings has one sorted listing. */
  lemma {:induction false} SortedUnique(a: seq<string>, b: seq<string>)
    requires Sorted(a) && Sorted(b) && multiset(a) == multiset(b)
    ensures a == b
  {
    assert |multiset(a)| == |a| && |multiset(b)| == |b|;
    if a != [] {
      HeadIsLeast(a, b[0]);
      HeadIsLeast(b, a[0]);
      LessTrichotomy(a[0], b[0]);
      TailMembers(a);
      TailMembers(b);
      SortedUnique(a[1..], b[1..]);
    }
  }

  ghost predicate IsMin(m: string, s: set<string>) {
    m in s && forall x :: x in s ==> !Less(x, m)
  }

  lemma {:induction false} MinExists(s: set<string>)
    requires s != {}
    ensures exists m :: IsMin(m, s)
  {
    var m :| m in s;
    LessTrichotomy(m, m);
    var rest := s - {m};
    if rest == {} {
      assert s == {m};
      assert IsMin(m, s);
    } else {
      MinExists(rest);
      var n :| IsMin(n, rest);
      LessTrichotomy(m, n);
      if Less(n, m) {
        assert IsMin(n, s);
      } else {
        forall x | x in s
          ensures !Less(x, m)
        {
          if x != m {
            NotAfterTransitive(m, n, x);
          }
        }
        assert IsMin(m, s);
      }
    }
  }

  lemma PrependMin(m: string, rest: seq<string>, s: set<string>)
    requires IsMin(m, s) && Sorted(rest) && multiset(rest) == multiset(s - {m})
    ensures Sorted([m] + rest) && multiset([m] + rest) == multiset(s)
  {
    forall i | 0 <= i < |rest|
      ensures !Less(rest[i], m)
    {
      assert rest[i] in multiset(rest);
    }
    assert multiset(s) == multiset{m} + multiset(s - {m});
  }

  /** The elements of a set in ascending order. */
  ghost function Ascending(s: set<string>): (r: seq<string>)
    ensures Sorted(r) && multiset(r) == multiset(s)
  {
    if s == {} then []
    else
      MinExists(s);
      var m :| IsMin(m, s);
      var rest := Ascending(s - {m});
      PrependMin(m, rest, s);
      [m] + rest
  }

  lemma SortedIsAscending(r: seq<string>, s: set<string>)
    requires Sorted(r) && multiset(r) == multiset(s)
    ensures r == Ascending(s)
  {
    SortedUnique(r, Ascending(s));
  }

  /** The first i places of s hold their final values. */
  ghost predicate Placed(s: seq<string>, i: nat) {
    forall p, q :: 0 <= p < i && p < q < |s| ==> !Less(s[q], s[p])
  }

  /** Place i is not beaten by any place before j. */
  ghost predicate LeastUpTo(s: seq<string>, i: nat, j: nat)
    requires i < |s|
  {
    forall q :: i < q < j && q < |s| ==> !Less(s[q], s[i])
  }

  lemma ExchangeKeepsPlaces(s: seq<string>, i: nat, j: nat)
    requires i < j < |s| && Placed(s, i) && LeastUpTo(s, i, j) && Less(s[j], s[i])
    ensures var t := s[i := s[j]][j := s[i]];
      multiset(t) == multiset(s) && Placed(t, i) && LeastUpTo(t, i, j + 1)
  {
    LessTrichotomy(s[i], s[j]);
    forall q | i < q < j
      ensures !Less(s[q], s[j])
    {
      NotAfterTransitive(s[j], s[i], s[q]);
    }
  }

  method Exchange(a: array<string>, i: nat, j: nat)
    requires i < j < a.Length
    modifies a
    ensures a[..] == old(a[..])[i := old(a[j])][j := old(a[i])]
  {
    a[i], a[j] := a[j], a[i];
  }

  /** The exchange sort, in place. */
  method SortStrings(a: array<string>)
    modifies a
    ensures Sorted(a[..]) && multiset(a[..]) == multiset(old(a[..]))
  {
    var i := 0;
    while i < a.Length
      invariant 0 <= i <= a.Length
      invariant multiset(a[..]) == multiset(old(a[..]))
      invariant Placed(a[..], i)
    {
      var j := i + 1;
      while j < a.Length
        invariant i < j <= a.Length
        invariant multiset(a[..]) == multiset(old(a[..]))
        invariant Placed(a[..], i) && LeastUpTo(a[..], i, j)
      {
        if Less(a[j], a[i]) {
          ExchangeKeepsPlaces(a[..], i, j);
          Exchange(a, i, j);
        }
        j := j + 1;
      }
      i := i + 1;
    }
  }

  /** Sorting a slice that is not shared. */
  method SortSlice(s: seq<string>) returns (r: seq<string>)
    ensures Sorted(r) && multiset(r) == multiset(s)
  {
    var a := new string[|s|](i requires 0 <= i < |s| => s[i]);
    assert a[..] == s;
    SortStrings(a);
    r := a[..];
  }
}
