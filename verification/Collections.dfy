/** Facts about sequences and sets that the other modules share and that say nothing about the
    system: how the pieces of a text may be grouped when they are joined, what the first member
    and the rest of a sequence make together, how the sizes of a set and its subset compare, and
    how a listing of a set grows. They are kept apart so that each proof about a parser, a scanner
    or a schedule names the step it needs, and so that the solver meets that step with nothing
    else in sight. */
module Collections {

  datatype Option<T> = None | Some(value: T)

  // Sequences.

  lemma Associate<T>(a: seq<T>, b: seq<T>, c: seq<T>)
    ensures a + (b + c) == a + b + c
  {
  }

  lemma HeadAndTail<T>(z: seq<T>)
    ensures z != [] ==> z == [z[0]] + z[1..]
  {
  }

  lemma NothingAdded<T>(t: seq<T>)
    ensures t + [] == t
  {
  }

  lemma Regroup<T>(a: seq<T>, b: seq<T>)
    requires b != []
    ensures a + [b[0]] + b[1..] == a + b
  {
  }

  lemma JoinSplits<T>(a: seq<T>, b: seq<T>)
    ensures (a + b)[..|a|] == a && (a + b)[|a|..] == b
  {
  }

  lemma CutAt<T>(s: seq<T>, k: nat)
    requires k <= |s|
    ensures s[..k] + s[k..] == s
  {
  }

  lemma NothingBefore<T>(t: seq<T>)
    ensures [] + t == t
  {
  }

  lemma TailOfJoin<T>(q: seq<T>, r: seq<T>)
    requires q != []
    ensures (q + r)[0] == q[0] && (q + r)[1..] == q[1..] + r
  {
  }

  lemma TailMembers<T>(a: seq<T>)
    requires a != []
    ensures a == [a[0]] + a[1..] && multiset(a[1..]) == multiset(a) - multiset{a[0]}
  {
    assert a == [a[0]] + a[1..];
  }

  // Sets.

  lemma SomeMember<T>(s: set<T>) returns (x: T)
    requires s != {}
    ensures x in s
  {
    x :| x in s;
  }

  lemma {:induction false} SubsetSize<T>(a: set<T>, b: set<T>)
    requires a <= b
    ensures |a| <= |b|
  {
    if a != {} {
      var x :| x in a;
      SubsetSize(a - {x}, b - {x});
    }
  }

  lemma Smaller<T>(a: set<T>, b: set<T>)
    requires a <= b
    ensures |a| <= |b| && (|a| == |b| ==> a == b)
  {
    assert b == a + (b - a);
  }

  lemma OneMore<T>(all: set<T>, todo: set<T>, x: T)
    requires todo <= all && x in todo
    ensures (all - todo) + {x} == all - (todo - {x})
  {
  }

  lemma ListGrows<T>(list: seq<T>, s: set<T>, x: T)
    requires multiset(list) == multiset(s) && x !in s
    ensures multiset(list + [x]) == multiset(s + {x})
  {
    assert multiset(s + {x}) == multiset(s) + multiset{x};
  }
}
