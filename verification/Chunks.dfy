/** Summary passes: the greedy cut of a transcript into pieces that fit a token budget. */
module Chunks {
  import opened Collections
  import opened Conversations

  /** How far the current piece, n messages long, still grows. */
  function Grow(ms: seq<Message>, available: int, n: nat): (k: nat)
    requires 1 <= n <= |ms|
    ensures n <= k <= |ms|
    decreases |ms| - n
  {
    if n < |ms| && Total(ms[..n + 1]) <= available then Grow(ms, available, n + 1) else n
  }

  function Take(ms: seq<Message>, available: int): (k: nat)
    requires ms != []
    ensures 1 <= k <= |ms|
  {
    Grow(ms, available, 1)
  }

  /** A piece a summary pass accepts: within the budget, or a single message. */
  ghost predicate Piece(p: seq<Message>, available: int) {
    |p| == 1 || (p != [] && Total(p) <= available)
  }

  /** Repeated taking until nothing is left. */
  function Pieces(ms: seq<Message>, available: int): seq<seq<Message>>
    decreases |ms|
  {
    if ms == [] then [] else [ms[..Take(ms, available)]] + Pieces(ms[Take(ms, available)..], available)
  }

  function Flatten(ps: seq<seq<Message>>): seq<Message> {
    if ps == [] then [] else ps[0] + Flatten(ps[1..])
  }

  lemma PrefixWeighsLess(ms: seq<Message>, i: nat, j: nat)
    requires i <= j <= |ms|
    ensures Total(ms[..i]) <= Total(ms[..j])
  {
    assert ms[..j] == ms[..i] + ms[i..j];
    TotalOf(ms[..i], ms[i..j]);
  }

  lemma {:induction false} GrowIsMaximal(ms: seq<Message>, available: int, n: nat)
    requires 1 <= n <= |ms| && Piece(ms[..n], available)
    ensures var k := Grow(ms, available, n);
      Piece(ms[..k], available) && (k < |ms| ==> Total(ms[..k + 1]) > available)
    decreases |ms| - n
  {
    if n < |ms| && Total(ms[..n + 1]) <= available {
      GrowIsMaximal(ms, available, n + 1);
    }
  }

  /** No acceptable prefix is longer than the one taken. */
  lemma TakeIsLongest(ms: seq<Message>, available: int, n: nat)
    requires 1 <= n <= |ms| && Piece(ms[..n], available)
    ensures Piece(ms[..Take(ms, available)], available) && n <= Take(ms, available)
  {
    var k := Take(ms, available);
    GrowIsMaximal(ms, available, 1);
    if k < |ms| {
      PrefixWeighsLess(ms, k + 1, if k + 1 <= n then n else k + 1);
    }
  }

  lemma {:induction false} PiecesJoin(ms: seq<Message>, available: int)
    ensures Flatten(Pieces(ms, available)) == ms
    decreases |ms|
  {
    if ms != [] {
      var n := Take(ms, available);
      PiecesJoin(ms[n..], available);
      assert ([ms[..n]] + Pieces(ms[n..], available))[1..] == Pieces(ms[n..], available);
      assert ms == ms[..n] + ms[n..];
    }
  }

  lemma {:induction false} PiecesFit(ms: seq<Message>, available: int, i: nat)
    requires i < |Pieces(ms, available)|
    ensures Piece(Pieces(ms, available)[i], available)
    decreases |ms|
  {
    TakeIsLongest(ms, available, 1);
    if i > 0 {
      PiecesFit(ms[Take(ms, available)..], available, i - 1);
    }
  }

  /** The pieces are the transcript, cut; each is acceptable. */
  lemma PiecesCutTheTranscript(ms: seq<Message>, available: int)
    ensures Flatten(Pieces(ms, available)) == ms
    ensures forall i :: 0 <= i < |Pieces(ms, available)| ==> Piece(Pieces(ms, available)[i], available)
  {
    PiecesJoin(ms, available);
    forall i | 0 <= i < |Pieces(ms, available)|
      ensures Piece(Pieces(ms, available)[i], available)
    {
      PiecesFit(ms, available, i);
    }
  }

  /** A later start never needs more pieces. */
  lemma {:induction false} SuffixNeedsNoMore(ms: seq<Message>, available: int, k: nat)
    requires k <= |ms|
    ensures |Pieces(ms[k..], available)| <= |Pieces(ms, available)|
    decreases |ms|
  {
    if ms == [] || k == 0 {
      assert ms[k..] == ms;
    } else if k < |ms| {
      var n := Take(ms, available);
      TakeIsLongest(ms, available, 1);
      if k >= n {
        assert ms[k..] == ms[n..][k - n..];
        SuffixNeedsNoMore(ms[n..], available, k - n);
      } else {
        var m := Take(ms[k..], available);
        LaterStartReachesAsFar(ms, available, k);
        assert ms[k..][m..] == ms[n..][k + m - n..];
        SuffixNeedsNoMore(ms[n..], available, k + m - n);
      }
    }
  }

  lemma LaterStartReachesAsFar(ms: seq<Message>, available: int, k: nat)
    requires ms != [] && k < Take(ms, available)
    ensures k + Take(ms[k..], available) >= Take(ms, available)
  {
    var n := Take(ms, available);
    TakeIsLongest(ms, available, 1);
    var t := ms[k..];
    assert ms[..n] == ms[..k] + t[..n - k];
    TotalOf(ms[..k], t[..n - k]);
    TakeIsLongest(t, available, n - k);
  }

  /** Greedy cutting is optimal: no other cut into acceptable pieces has fewer of them. */
  lemma {:induction false} NoCutUsesFewer(ms: seq<Message>, available: int, cut: seq<seq<Message>>)
    requires Flatten(cut) == ms && forall p :: p in cut ==> Piece(p, available)
    ensures |Pieces(ms, available)| <= |cut|
    decreases |cut|
  {
    if cut != [] {
      var p, rest := cut[0], cut[1..];
      assert p in cut;
      assert ms[..|p|] == p && ms[|p|..] == Flatten(rest);
      TakeIsLongest(ms, available, |p|);
      var n := Take(ms, available);
      assert ms[n..] == ms[|p|..][n - |p|..];
      SuffixNeedsNoMore(ms[|p|..], available, n - |p|);
      NoCutUsesFewer(ms[|p|..], available, rest);
    }
  }

  method TakeCompactionChunk(msgs: seq<Message>, available: int) returns (chunk: seq<Message>, rest: seq<Message>)
    ensures msgs == [] ==> chunk == [] && rest == []
    ensures msgs != [] ==> chunk == msgs[..Take(msgs, available)] && rest == msgs[Take(msgs, available)..]
  {
    var current: seq<Message> := [];
    var currentTokens := 0;
    var i := 0;
    while i < |msgs|
      invariant 0 <= i <= |msgs| && current == msgs[..i] && currentTokens == Total(current)
      invariant i > 0 ==> Grow(msgs, available, i) == Take(msgs, available)
    {
      var mt := msgs[i].tokens;
      assert msgs[..i + 1] == msgs[..i] + [msgs[i]];
      TotalOf(msgs[..i], [msgs[i]]);
      assert [msgs[i]][1..] == [];
      if currentTokens + mt > available && |current| > 0 {
        return current, msgs[i..];
      }
      current := current + [msgs[i]];
      currentTokens := currentTokens + mt;
      i := i + 1;
    }
    return current, [];
  }

  lemma {:induction false} FlattenAppend(ps: seq<seq<Message>>, p: seq<Message>)
    ensures Flatten(ps + [p]) == Flatten(ps) + p
  {
    if ps == [] {
      assert Flatten([p]) == p + Flatten([]);
    } else {
      assert (ps + [p])[1..] == ps[1..] + [p];
      FlattenAppend(ps[1..], p);
    }
  }

  /** Each pass is acceptable under its own budget. */
  ghost predicate WithinBudgets(passes: seq<seq<Message>>, budget: nat -> int) {
    forall i :: 0 <= i < |passes| ==> Piece(passes[i], budget(i))
  }

  lemma OnePass(passes: seq<seq<Message>>, remaining: seq<Message>, budget: nat -> int)
    requires remaining != [] && WithinBudgets(passes, budget)
    ensures var k := Take(remaining, budget(|passes|));
      && 0 < k <= |remaining|
      && Flatten(passes + [remaining[..k]]) + remaining[k..] == Flatten(passes) + remaining
      && WithinBudgets(passes + [remaining[..k]], budget)
  {
    var k := Take(remaining, budget(|passes|));
    TakeIsLongest(remaining, budget(|passes|), 1);
    MovePiece(passes, remaining, k);
    OneMoreWithin(passes, remaining[..k], budget);
  }

  lemma MovePiece(passes: seq<seq<Message>>, remaining: seq<Message>, k: nat)
    requires k <= |remaining|
    ensures Flatten(passes + [remaining[..k]]) + remaining[k..] == Flatten(passes) + remaining
  {
    FlattenAppend(passes, remaining[..k]);
    CutAt(remaining, k);
    Associate(Flatten(passes), remaining[..k], remaining[k..]);
  }

  lemma OneMoreWithin(passes: seq<seq<Message>>, p: seq<Message>, budget: nat -> int)
    requires WithinBudgets(passes, budget) && Piece(p, budget(|passes|))
    ensures WithinBudgets(passes + [p], budget)
  {
  }

  /** The summary passes. Each pass may have its own budget, since the running summary takes its
      share; whatever the budgets, the loop ends and the passes cover the transcript in order,
      none beyond its budget unless it is a single message. */
  method SummaryPasses(msgs: seq<Message>, budget: nat -> int) returns (passes: seq<seq<Message>>)
    ensures Flatten(passes) == msgs && WithinBudgets(passes, budget)
  {
    passes := [];
    var remaining := msgs;
    while |remaining| > 0
      invariant Flatten(passes) + remaining == msgs && WithinBudgets(passes, budget)
      decreases |remaining|
    {
      var available := budget(|passes|);
      OnePass(passes, remaining, budget);
      var chunk, rest := TakeCompactionChunk(remaining, available);
      passes := passes + [chunk];
      remaining := rest;
    }
  }
}
