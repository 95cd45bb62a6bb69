/** Which order the counting loop gives: jobs come in the order of their turns, and jobs of the same
    turn by name. */
module BreadthFirst {
  import opened Collections
  import opened Text
  import opened Graphs
  import opened Ordering

  /** Every need of x is among the first p jobs of the list, and p is the first such place. */
  ghost predicate AtTurn(g: Graph, list: seq<string>, p: nat, x: string)
    requires p <= |list|
  {
    && (forall d :: d in Deps(g, x) ==> d in list[..p])
    && (p > 0 ==> exists d :: d in Deps(g, x) && d !in list[..p - 1])
  }

  /** x had its turn before y, or at the same turn and is not greater. */
  ghost predicate Before(g: Graph, done: seq<string>, x: string, y: string) {
    forall p, q :: 0 <= p <= |done| && 0 <= q <= |done| && AtTurn(g, done, p, x) && AtTurn(g, done, q, y) ==>
      p < q || (p == q && !Less(y, x))
  }

  ghost predicate ByTurns(g: Graph, list: seq<string>, done: seq<string>) {
    forall i, j :: 0 <= i < j < |list| ==> Before(g, done, list[i], list[j])
  }

  /** A turn does not depend on what is done after it. */
  lemma SameTurn(g: Graph, done: seq<string>, n: string, p: nat, x: string)
    requires p <= |done|
    ensures AtTurn(g, done + [n], p, x) <==> AtTurn(g, done, p, x)
  {
    assert (done + [n])[..p] == done[..p];
    assert p > 0 ==> (done + [n])[..p - 1] == done[..p - 1];
  }

  /** What was unlocked before n is done has had its turn; what n unlocks has it now. */
  lemma TurnsOf(g: Graph, done: seq<string>, n: string, q: nat, x: string)
    requires q <= |done| + 1 && AtTurn(g, done + [n], q, x)
    ensures x in Unlocked(g, done) ==> q <= |done|
    ensures x in NewlyUnlocked(g, done, n) ==> q == |done| + 1
  {
    var d := done + [n];
    assert d[..|done|] == done && d[..|d|] == d;
    if q <= |done| {
      assert d[..q] == done[..q];
    }
  }

  lemma AscendingIsSorted(s: set<string>)
    ensures Sorted(Ascending(s)) && forall x :: x in Ascending(s) <==> x in s
  {
    assert forall x :: x in Ascending(s) <==> x in multiset(Ascending(s));
  }

  lemma FrontierMembers(g: Graph, queue: seq<string>, done: seq<string>)
    requires Frontier(g, queue, done)
    ensures forall x :: x in done + queue ==> x in Unlocked(g, done)
  {
    forall x | x in done + queue
      ensures x in Unlocked(g, done)
    {
      assert x in multiset(done + queue);
    }
  }

  /** Doing the head of the queue and appending what it unlocks keeps the order. */
  lemma TurnsAdvance(g: Graph, queue: seq<string>, done: seq<string>)
    requires Frontier(g, queue, done) && queue != [] && ByTurns(g, done + queue, done)
    ensures var n := queue[0];
      ByTurns(g, (done + [n]) + (queue[1..] + Ascending(NewlyUnlocked(g, done, n))), done + [n])
  {
    var n := queue[0];
    var more := Ascending(NewlyUnlocked(g, done, n));
    FrontierMembers(g, queue, done);
    AscendingIsSorted(NewlyUnlocked(g, done, n));
    TurnsGrow(g, done + queue, more, done, n);
    Shifted(done, queue, more);
  }

  lemma Shifted(done: seq<string>, queue: seq<string>, more: seq<string>)
    requires queue != []
    ensures (done + [queue[0]]) + (queue[1..] + more) == done + queue + more
  {
  }

  lemma TurnsGrow(g: Graph, old_: seq<string>, more: seq<string>, done: seq<string>, n: string)
    requires ByTurns(g, old_, done) && Sorted(more)
    requires forall x :: x in old_ ==> x in Unlocked(g, done)
    requires forall x :: x in more ==> x in NewlyUnlocked(g, done, n)
    ensures ByTurns(g, old_ + more, done + [n])
  {
    forall i, j | 0 <= i < j < |old_ + more|
      ensures Before(g, done + [n], (old_ + more)[i], (old_ + more)[j])
    {
      TurnPair(g, old_, more, done, n, i, j);
    }
  }

  lemma TurnPair(g: Graph, old_: seq<string>, more: seq<string>, done: seq<string>, n: string, i: nat, j: nat)
    requires ByTurns(g, old_, done) && Sorted(more)
    requires forall x :: x in old_ ==> x in Unlocked(g, done)
    requires forall x :: x in more ==> x in NewlyUnlocked(g, done, n)
    requires i < j < |old_ + more|
    ensures Before(g, done + [n], (old_ + more)[i], (old_ + more)[j])
  {
    var x, y := (old_ + more)[i], (old_ + more)[j];
    if j < |old_| {
      assert x == old_[i] && y == old_[j];
      OldPair(g, done, n, x, y);
    } else {
      assert y == more[j - |old_|];
      if i < |old_| {
        assert x == old_[i];
      } else {
        assert x == more[i - |old_|];
      }
      NewPair(g, done, n, x, y);
    }
  }

  lemma OldPair(g: Graph, done: seq<string>, n: string, x: string, y: string)
    requires Before(g, done, x, y) && x in Unlocked(g, done) && y in Unlocked(g, done)
    ensures Before(g, done + [n], x, y)
  {
    forall p, q | 0 <= p <= |done| + 1 && 0 <= q <= |done| + 1
      && AtTurn(g, done + [n], p, x) && AtTurn(g, done + [n], q, y)
      ensures p < q || (p == q && !Less(y, x))
    {
      TurnsOf(g, done, n, p, x);
      TurnsOf(g, done, n, q, y);
      SameTurn(g, done, n, p, x);
      SameTurn(g, done, n, q, y);
    }
  }

  lemma NewPair(g: Graph, done: seq<string>, n: string, x: string, y: string)
    requires y in NewlyUnlocked(g, done, n)
    requires x in Unlocked(g, done) || (x in NewlyUnlocked(g, done, n) && !Less(y, x))
    ensures Before(g, done + [n], x, y)
  {
    forall p, q | 0 <= p <= |done| + 1 && 0 <= q <= |done| + 1
      && AtTurn(g, done + [n], p, x) && AtTurn(g, done + [n], q, y)
      ensures p < q || (p == q && !Less(y, x))
    {
      TurnsOf(g, done, n, p, x);
      TurnsOf(g, done, n, q, y);
    }
  }

  lemma {:induction false} KahnGoesByTurns(g: Graph, queue: seq<string>, done: seq<string>)
    requires Frontier(g, queue, done) && ByTurns(g, done + queue, done)
    ensures var r := KahnFrom(g, queue, done); ByTurns(g, r, r)
    decreases |Nodes(g)| - |done|
  {
    FrontierIsBounded(g, queue, done);
    if queue == [] {
      NothingAdded(done);
    } else {
      FrontierAdvances(g, queue, done);
      TurnsAdvance(g, queue, done);
      KahnGoesByTurns(g, queue[1..] + Ascending(NewlyUnlocked(g, done, queue[0])), done + [queue[0]]);
    }
  }

  /** First come, first served: the order lists the jobs by the place at which the last of their needs
      is listed, those without needs first, and by name where that is the same. */
  lemma OrderGoesByTurns(g: Graph)
    ensures var r := KahnOrder(g); ByTurns(g, r, r)
  {
    var first := Ascending(Unlocked(g, []));
    NothingBefore(first);
    AscendingIsSorted(Unlocked(g, []));
    KahnGoesByTurns(g, first, []);
  }

  /** Every listed job has a turn, before its own place. */
  lemma {:induction false} TurnExists(g: Graph, list: seq<string>, x: string, p: nat) returns (q: nat)
    requires p <= |list| && forall d :: d in Deps(g, x) ==> d in list[..p]
    ensures q <= p && AtTurn(g, list, q, x)
  {
    if p > 0 && forall d :: d in Deps(g, x) ==> d in list[..p - 1] {
      q := TurnExists(g, list, x, p - 1);
    } else {
      q := p;
    }
  }

  /** So the two properties fix the order: of two listed jobs the one with the earlier turn, or at the
      same turn the lesser one, comes first. */
  lemma TurnsDecide(g: Graph, i: nat, j: nat) returns (p: nat, q: nat)
    requires i < |KahnOrder(g)| && j < |KahnOrder(g)| && KahnOrder(g)[i] != KahnOrder(g)[j]
    ensures var r := KahnOrder(g);
      && p <= i && q <= j && AtTurn(g, r, p, r[i]) && AtTurn(g, r, q, r[j])
      && (i < j <==> p < q || (p == q && Less(r[i], r[j])))
  {
    var r := KahnOrder(g);
    KahnOrderRanks(g);
    OrderGoesByTurns(g);
    p := TurnExists(g, r, r[i], i);
    q := TurnExists(g, r, r[j], j);
    PairDecides(g, r, i, j, p, q);
  }

  lemma PairDecides(g: Graph, r: seq<string>, i: nat, j: nat, p: nat, q: nat)
    requires ByTurns(g, r, r) && i < |r| && j < |r| && r[i] != r[j] && p <= |r| && q <= |r|
    requires AtTurn(g, r, p, r[i]) && AtTurn(g, r, q, r[j])
    ensures i < j <==> p < q || (p == q && Less(r[i], r[j]))
  {
    LessTrichotomy(r[i], r[j]);
    if i < j {
      assert Before(g, r, r[i], r[j]);
    } else {
      assert Before(g, r, r[j], r[i]);
    }
  }
}
