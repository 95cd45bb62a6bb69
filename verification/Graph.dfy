/** Needs graphs: cycle detection by depth-first search and Kahn's ordering. */
module Graphs {

  /** job -> the jobs it needs; a job without an entry needs nothing. */
  type Graph = map<string, seq<string>>

  function Deps(g: Graph, n: string): seq<string> {
    if n in g then g[n] else []
  }

  ghost function Nodes(g: Graph): set<string> {
    g.Keys + (set n, d | n in g && d in g[n] :: d)
  }

  lemma DepsAreNodes(g: Graph, n: string, d: string)
    requires d in Deps(g, n)
    ensures n in g && d in Nodes(g)
  {
  }

  /** Each step of p goes from a job to one of its needs. */
  ghost predicate IsPath(g: Graph, p: seq<string>) {
    forall i {:trigger Deps(g, p[i])} :: 0 <= i < |p| - 1 ==> p[i + 1] in Deps(g, p[i])
  }

  ghost predicate IsCycle(g: Graph, p: seq<string>) {
    |p| >= 2 && IsPath(g, p) && p[0] == p[|p| - 1]
  }

  ghost predicate Cyclic(g: Graph) {
    exists p :: IsCycle(g, p)
  }

  /** Every job in r comes after all its needs. */
  ghost predicate Ranked(g: Graph, r: seq<string>) {
    forall i, d :: 0 <= i < |r| && d in Deps(g, r[i]) ==> d in r[..i]
  }

  lemma {:induction false} PathDescends(g: Graph, r: seq<string>, p: seq<string>, k: nat)
    requires Ranked(g, r) && IsPath(g, p) && p != []
    requires k <= |r| && p[0] in r[..k]
    ensures |p| <= k && p[|p| - 1] in r[..k - |p| + 1]
  {
    if |p| > 1 {
      var i :| 0 <= i < k && r[i] == p[0];
      assert p[1] in r[..i];
      assert r[..i] <= r[..k - 1];
      var q := p[1..];
      forall j | 0 <= j < |q| - 1
        ensures q[j + 1] in Deps(g, q[j])
      {
        assert p[j + 2] in Deps(g, p[j + 1]);
      }
      PathDescends(g, r, q, k - 1);
    }
  }

  lemma {:induction false} NoCycleThrough(g: Graph, r: seq<string>, p: seq<string>, k: nat)
    requires Ranked(g, r) && IsCycle(g, p)
    requires k <= |r|
    ensures p[0] !in r[..k]
  {
    if p[0] in r[..k] {
      PathDescends(g, r, p, k);
      NoCycleThrough(g, r, p, k - |p| + 1);
    }
  }

  /** A ranking of all jobs with needs rules out every cycle. */
  lemma RankedIsAcyclic(g: Graph, r: seq<string>)
    requires Ranked(g, r) && forall n :: n in g ==> n in r
    ensures !Cyclic(g)
  {
    assert r[..|r|] == r;
    forall p | IsCycle(g, p)
      ensures false
    {
      assert p[1] in Deps(g, p[0]);
      NoCycleThrough(g, r, p, |r|);
    }
  }

  // ---- cycle detection ----

  /** p joined by arrows. */
  function Arrows(p: seq<string>): string
    requires p != []
  {
    if |p| == 1 then p[0] else Arrows(p[..|p| - 1]) + " -> " + p[|p| - 1]
  }

  /** text is a real cycle of g, spelt out. */
  ghost predicate SpellsCycle(g: Graph, text: string) {
    exists p :: IsCycle(g, p) && text == Arrows(p)
  }

  datatype Color = White | Grey | Black

  function Lookup(color: map<string, Color>, n: string): Color {
    if n in color then color[n] else White
  }

  /** Grey jobs are those on the path, black ones those finished, and the latter are ranked. */
  ghost predicate Consistent(g: Graph, color: map<string, Color>, path: seq<string>, finished: seq<string>) {
    && (forall n :: Lookup(color, n).Grey? <==> n in path)
    && (forall n :: Lookup(color, n).Black? <==> n in finished)
    && (forall n :: n in color ==> n in Nodes(g) && !color[n].White?)
    && (forall i, j :: 0 <= i < j < |path| ==> path[i] != path[j])
    && IsPath(g, path)
    && Ranked(g, finished)
  }

  lemma EnterKeepsConsistent(g: Graph, color: map<string, Color>, path: seq<string>, finished: seq<string>, n: string)
    requires Consistent(g, color, path, finished) && Lookup(color, n).White? && n in Nodes(g)
    requires path != [] ==> n in Deps(g, path[|path| - 1])
    ensures Consistent(g, color[n := Grey], path + [n], finished)
  {
    forall m
      ensures Lookup(color[n := Grey], m).Grey? <==> m in path + [n]
      ensures Lookup(color[n := Grey], m).Black? <==> m in finished
    {
      assert Lookup(color, m).Grey? <==> m in path;
    }
  }

  lemma LeaveKeepsConsistent(g: Graph, color: map<string, Color>, path: seq<string>, finished: seq<string>, n: string)
    requires Consistent(g, color, path + [n], finished)
    requires forall d :: d in Deps(g, n) ==> d in finished
    ensures n in color && Consistent(g, color[n := Black], path, finished + [n])
  {
    var whole := path + [n];
    assert n in whole;
    assert Lookup(color, n).Grey?;
    assert forall i :: 0 <= i < |path| ==> path[i] == whole[i];
    forall m
      ensures Lookup(color[n := Black], m).Grey? <==> m in path
      ensures Lookup(color[n := Black], m).Black? <==> m in finished + [n]
    {
      assert Lookup(color, m).Grey? <==> m in whole;
    }
    assert forall i :: 0 <= i <= |finished| ==> (finished + [n])[..i] == finished[..i];
  }

  /** The state the nested visit closure shares with findCycle. */
  class CycleFinder {
    const needs: Graph
    var color: map<string, Color>
    var path: seq<string>
    var cycle: string
    /** The black jobs in the order they were finished. */
    ghost var finished: seq<string>

    constructor (needs: Graph)
      ensures this.needs == needs && Valid() && path == [] && cycle == "" && color == map[]
    {
      this.needs := needs;
      color, path, cycle, finished := map[], [], "", [];
    }

    function ColorOf(n: string): Color
      reads this
    {
      Lookup(color, n)
    }

    ghost predicate Valid()
      reads this
    {
      Consistent(needs, color, path, finished)
    }

    /** The cycle text for a need that is already on the path. */
    method Report(dep: string)
      requires Valid() && dep in path && dep in Deps(needs, path[|path| - 1])
      modifies this`cycle
      ensures SpellsCycle(needs, cycle)
    {
      var start := 0;
      var i := 0;
      while i < |path|
        invariant 0 <= i <= |path| && start == 0
        invariant dep !in path[..i]
      {
        if path[i] == dep {
          start := i;
          break;
        }
        i := i + 1;
      }
      assert path[start] == dep;
      var parts := path[start..] + [dep];
      assert IsCycle(needs, parts);
      cycle := Spell(parts);
    }

    /** The first two statements of visit. */
    method Enter(n: string)
      requires Valid() && ColorOf(n).White? && n in Nodes(needs)
      requires path != [] ==> n in Deps(needs, path[|path| - 1])
      modifies this`color, this`path
      ensures Valid() && path == old(path) + [n] && color.Keys == old(color.Keys) + {n}
    {
      EnterKeepsConsistent(needs, color, path, finished, n);
      color := color[n := Grey];
      path := path + [n];
    }

    /** The last two statements of an unsuccessful visit. */
    method Leave(n: string, ghost before: seq<string>)
      requires Valid() && path == before + [n]
      requires forall d :: d in Deps(needs, n) ==> d in finished
      modifies this`color, this`path, this`finished
      ensures Valid() && path == before && color.Keys == old(color.Keys)
      ensures finished == old(finished) + [n]
    {
      LeaveKeepsConsistent(needs, color, before, finished, n);
      path := path[..|path| - 1];
      color := color[n := Black];
      finished := finished + [n];
    }

    method Visit(n: string) returns (found: bool)
      requires Valid() && ColorOf(n).White? && n in Nodes(needs)
      requires path != [] ==> n in Deps(needs, path[|path| - 1])
      modifies this
      ensures found ==> SpellsCycle(needs, cycle)
      ensures !found ==> Valid() && path == old(path) && cycle == old(cycle)
      ensures !found ==> ColorOf(n).Black? && old(color.Keys) <= color.Keys
      ensures !found ==> forall x :: x in old(finished) ==> x in finished
      decreases Nodes(needs) - color.Keys, 0
    {
      ghost var before := path;
      Enter(n);
      found := VisitNeeds(n);
      if !found {
        Leave(n, before);
      }
    }

    /** The needs of the job at the end of the path, in order. */
    method VisitNeeds(n: string) returns (found: bool)
      requires Valid() && path != [] && path[|path| - 1] == n
      modifies this
      ensures found ==> SpellsCycle(needs, cycle)
      ensures !found ==> Valid() && path == old(path) && cycle == old(cycle)
      ensures !found ==> old(color.Keys) <= color.Keys
      ensures !found ==> forall x :: x in old(finished) || x in Deps(needs, n) ==> x in finished
      decreases Nodes(needs) - color.Keys, 2
    {
      var deps := Deps(needs, n);
      var k := 0;
      found := false;
      while k < |deps|
        invariant 0 <= k <= |deps|
        invariant Valid() && path == old(path) && cycle == old(cycle)
        invariant old(color.Keys) <= color.Keys
        invariant forall x :: x in old(finished) || x in deps[..k] ==> x in finished
      {
        assert deps[..k + 1] == deps[..k] + [deps[k]];
        found := VisitNeed(n, deps[k]);
        if found {
          return;
        }
        k := k + 1;
      }
      assert deps[..|deps|] == deps;
    }

    /** One need of the job at the end of the path, by its colour. */
    method VisitNeed(n: string, dep: string) returns (found: bool)
      requires Valid() && path != [] && path[|path| - 1] == n && dep in Deps(needs, n)
      modifies this
      ensures found ==> SpellsCycle(needs, cycle)
      ensures !found ==> Valid() && path == old(path) && cycle == old(cycle) && dep in finished
      ensures !found ==> old(color.Keys) <= color.Keys
      ensures !found ==> forall x :: x in old(finished) ==> x in finished
      decreases Nodes(needs) - color.Keys, 1
    {
      found := false;
      match ColorOf(dep) {
        case Grey =>
          Report(dep);
          found := true;
        case White =>
          DepsAreNodes(needs, n, dep);
          found := Visit(dep);
        case Black =>
      }
    }
  }

  method Spell(parts: seq<string>) returns (text: string)
    requires parts != []
    ensures text == Arrows(parts)
  {
    text := parts[0];
    var k := 1;
    assert parts[..1] == [parts[0]];
    while k < |parts|
      invariant 1 <= k <= |parts|
      invariant text == Arrows(parts[..k])
    {
      assert parts[..k + 1][..k] == parts[..k];
      text := text + " -> " + parts[k];
      k := k + 1;
    }
    assert parts[..|parts|] == parts;
  }

  /** The cycle text is non-empty exactly when the graph is cyclic, and then it spells a real
      cycle; otherwise `order` ranks every job. */
  method FindCycle(needs: Graph) returns (cycle: string, ghost order: seq<string>)
    ensures cycle != "" <==> Cyclic(needs)
    ensures cycle != "" ==> SpellsCycle(needs, cycle)
    ensures cycle == "" ==> Ranked(needs, order) && forall n :: n in needs ==> n in order
  {
    var finder := new CycleFinder(needs);
    var todo := needs.Keys;
    while todo != {}
      invariant finder.needs == needs && finder.Valid() && finder.path == []
      invariant todo <= needs.Keys
      invariant forall n :: n in needs && n !in todo ==> n in finder.finished
      decreases todo
    {
      var n :| n in todo;
      todo := todo - {n};
      if finder.ColorOf(n).White? {
        var found := finder.Visit(n);
        if found {
          ghost var p :| IsCycle(needs, p) && finder.cycle == Arrows(p);
          return finder.cycle, [];
        }
      }
    }
    RankedIsAcyclic(needs, finder.finished);
    return "", finder.finished;
  }
}
