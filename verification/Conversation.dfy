/** Transcript compaction: what is kept, what is archived, and that nothing is lost or
    duplicated over any run. A message carries its token estimate as `tokens`. */
module Conversations {
  import opened Collections

  datatype Message = Message(content: string, tokens: nat)

  const SUMMARY_PREFIX := "[COMPACTION CHECKPOINT]"

  predicate IsSummary(m: Message) { SUMMARY_PREFIX <= m.content }

  /** A summary begins with the checkpoint mark, and need not go on. */
  lemma SummariesBeginWithTheMark(m: Message)
    ensures IsSummary(m) <==> exists rest :: m.content == "[COMPACTION CHECKPOINT]" + rest
  {
    if IsSummary(m) {
      assert m.content == SUMMARY_PREFIX + m.content[|SUMMARY_PREFIX|..];
    }
  }

  function Total(ms: seq<Message>): nat {
    if ms == [] then 0 else ms[0].tokens + Total(ms[1..])
  }

  // ---- the split ----

  /** The walk from the newest message: i messages are still ahead, `remaining` tokens are left. */
  function SplitFrom(ms: seq<Message>, budget: int, remaining: int, i: nat): (k: nat)
    requires i <= |ms|
    ensures k <= i
  {
    if i == 0 then 0
    else if ms[i - 1].tokens > remaining then if remaining == budget then i - 1 else i
    else SplitFrom(ms, budget, remaining - ms[i - 1].tokens, i - 1)
  }

  function SplitIndex(ms: seq<Message>, budget: int): (k: nat)
    ensures k <= |ms|
  {
    SplitFrom(ms, budget, budget, |ms|)
  }

  /** i is where the longest suffix within the budget starts. */
  ghost predicate LongestFit(ms: seq<Message>, budget: int, i: nat)
    requires i <= |ms|
  {
    Total(ms[i..]) <= budget && (i > 0 ==> Total(ms[i - 1..]) > budget)
  }

  /** The message at i alone breaks the budget and only empty messages follow it; below zero
      every message breaks the budget, and it is the last one. */
  ghost predicate OversizedTail(ms: seq<Message>, budget: int, i: nat) {
    i < |ms| && ms[i].tokens > budget && Total(ms[i + 1..]) == 0 && (budget < 0 ==> i == |ms| - 1)
  }

  /** The keep suffix starts at i. */
  ghost predicate SplitsAt(ms: seq<Message>, budget: int, i: nat)
    requires i <= |ms|
  {
    OversizedTail(ms, budget, i) || (LongestFit(ms, budget, i) && (i == 0 || Total(ms[i..]) > 0))
  }

  lemma {:induction false} TotalOf(a: seq<Message>, b: seq<Message>)
    ensures Total(a + b) == Total(a) + Total(b)
  {
    if a == [] {
      NothingBefore(b);
    } else {
      TailOfJoin(a, b);
      TotalOf(a[1..], b);
    }
  }

  lemma TotalStep(ms: seq<Message>, i: nat)
    requires 0 < i <= |ms|
    ensures Total(ms[i - 1..]) == ms[i - 1].tokens + Total(ms[i..])
  {
    assert ms[i - 1..][1..] == ms[i..];
  }

  lemma {:induction false} SplitFromIsRight(ms: seq<Message>, budget: int, i: nat)
    requires ms != [] && i <= |ms| && (i == |ms| || Total(ms[i..]) <= budget)
    ensures SplitsAt(ms, budget, SplitFrom(ms, budget, budget - Total(ms[i..]), i))
  {
    if i == 0 {
      assert LongestFit(ms, budget, 0);
    } else {
      var after := Total(ms[i..]);
      TotalStep(ms, i);
      if ms[i - 1].tokens <= budget - after {
        SplitFromIsRight(ms, budget, i - 1);
      } else if after == 0 {
        assert OversizedTail(ms, budget, i - 1);
      } else {
        assert LongestFit(ms, budget, i);
      }
    }
  }

  /** What is kept: the longest suffix within the budget; when nothing of weight fits, the newest
      message of weight, however large, with whatever follows it. */
  lemma SplitKeepsLongestSuffix(ms: seq<Message>, budget: int)
    requires ms != []
    ensures SplitsAt(ms, budget, SplitIndex(ms, budget))
  {
    assert Total(ms[|ms|..]) == 0;
    SplitFromIsRight(ms, budget, |ms|);
  }

  lemma {:induction false} LongerIsHeavier(ms: seq<Message>, i: nat, j: nat)
    requires i <= j <= |ms|
    ensures Total(ms[i..]) >= Total(ms[j..])
  {
    assert ms[i..] == ms[i..j] + ms[j..];
    TotalOf(ms[i..j], ms[j..]);
  }

  /** These conditions leave one place to split: the contract determines the index. */
  lemma SplitIsDetermined(ms: seq<Message>, budget: int, i: nat, j: nat)
    requires i <= |ms| && j <= |ms| && SplitsAt(ms, budget, i) && SplitsAt(ms, budget, j)
    ensures i == j
  {
    if i < j {
      NoSplitBefore(ms, budget, i, j);
    } else if j < i {
      NoSplitBefore(ms, budget, j, i);
    }
  }

  lemma NoSplitBefore(ms: seq<Message>, budget: int, i: nat, j: nat)
    requires i < j <= |ms| && SplitsAt(ms, budget, j)
    ensures !SplitsAt(ms, budget, i)
  {
    LongerIsHeavier(ms, i, j - 1);
    LongerIsHeavier(ms, i + 1, j);
    if OversizedTail(ms, budget, j) {
      TotalStep(ms, j + 1);
      LongerIsHeavier(ms, i, j);
    }
  }

  // ---- retention, archive and conservation ----

  function Real(ms: seq<Message>): seq<Message> {
    if ms == [] then [] else if IsSummary(ms[0]) then Real(ms[1..]) else [ms[0]] + Real(ms[1..])
  }

  function Summaries(ms: seq<Message>): seq<Message> {
    if ms == [] then [] else if IsSummary(ms[0]) then [ms[0]] + Summaries(ms[1..]) else Summaries(ms[1..])
  }

  lemma {:induction false} RealOf(a: seq<Message>, b: seq<Message>)
    ensures Real(a + b) == Real(a) + Real(b) && Summaries(a + b) == Summaries(a) + Summaries(b)
  {
    if a == [] {
      NothingBefore(b);
    } else {
      TailOfJoin(a, b);
      RealOf(a[1..], b);
      Associate([a[0]], Real(a[1..]), Real(b));
      Associate([a[0]], Summaries(a[1..]), Summaries(b));
    }
  }

  lemma RealOfOne(m: Message)
    ensures Real([m]) == (if IsSummary(m) then [] else [m]) && Summaries([m]) == if IsSummary(m) then [m] else []
  {
    assert [m][1..] == [];
  }

  lemma {:induction false} RealOfParts(ms: seq<Message>)
    ensures Real(Real(ms)) == Real(ms) && Real(Summaries(ms)) == []
    ensures Summaries(Real(ms)) == []
  {
    if ms != [] {
      RealOfParts(ms[1..]);
      var r, z := Real(ms[1..]), Summaries(ms[1..]);
      assert [] + r == r && [] + z == z;
      RealOfOne(ms[0]);
      RealOf([ms[0]], r);
      RealOf([ms[0]], z);
    }
  }

  function Retained(ms: seq<Message>, budget: int): seq<Message> {
    Real(ms[SplitIndex(ms, budget)..])
  }

  function Archived(ms: seq<Message>, budget: int): seq<Message> {
    var k := SplitIndex(ms, budget);
    ms[..k] + Summaries(ms[k..])
  }

  datatype Op = Add(m: Message) | ArchiveAndCompact(handover: Message, budget: int)

  /** The live transcript, all archived chunks one after the other, and all messages added. */
  datatype Log = Log(live: seq<Message>, archive: seq<Message>, added: seq<Message>)

  function Apply(s: Log, op: Op): Log {
    match op
    case Add(m) => s.(live := s.live + [m], added := s.added + [m])
    case ArchiveAndCompact(h, budget) =>
      s.(live := [h] + Retained(s.live, budget), archive := s.archive + Archived(s.live, budget))
  }

  function Run(s: Log, ops: seq<Op>): Log
    decreases |ops|
  {
    if ops == [] then s else Run(Apply(s, ops[0]), ops[1..])
  }

  /** How many handovers of the run do not carry the checkpoint prefix. */
  function Unmarked(ops: seq<Op>): nat {
    if ops == [] then 0
    else (if ops[0].ArchiveAndCompact? && !IsSummary(ops[0].handover) then 1 else 0) + Unmarked(ops[1..])
  }

  lemma SplitReal(a: seq<Message>, b: seq<Message>)
    ensures Real(a + Summaries(b)) + Real(Real(b)) == Real(a + b)
  {
    RealOf(a, b);
    RealOf(a, Summaries(b));
    RealOfParts(b);
  }

  lemma CompactionSplitsReal(live: seq<Message>, budget: int)
    ensures Real(Archived(live, budget)) + Real(Retained(live, budget)) == Real(live)
  {
    var k := SplitIndex(live, budget);
    SplitReal(live[..k], live[k..]);
    assert live[..k] + live[k..] == live;
  }

  lemma CompactionConservesStep(s: Log, h: Message, budget: int)
    ensures var t := Apply(s, ArchiveAndCompact(h, budget));
      && (IsSummary(h) ==> Real(t.archive) + Real(t.live) == Real(s.archive) + Real(s.live))
      && |Real(t.archive)| + |Real(t.live)| == |Real(s.archive)| + |Real(s.live)| + if IsSummary(h) then 0 else 1
  {
    CompactionSplitsReal(s.live, budget);
    RealOf(s.archive, Archived(s.live, budget));
    RealOf([h], Retained(s.live, budget));
    RealOfParts(s.live[SplitIndex(s.live, budget)..]);
    RealOfOne(h);
    Associate(Real(s.archive), Real(Archived(s.live, budget)), Retained(s.live, budget));
    assert [] + Retained(s.live, budget) == Retained(s.live, budget);
  }

  lemma AddConservesStep(s: Log, m: Message)
    ensures var t := Apply(s, Add(m));
      && Real(t.archive) + Real(t.live) == Real(s.archive) + Real(s.live) + Real([m])
      && Real(t.added) == Real(s.added) + Real([m])
  {
    RealOf(s.live, [m]);
    RealOf(s.added, [m]);
  }

  /** Nothing is lost, duplicated or reordered: over every run whose handovers carry the
      checkpoint prefix, the real messages of all archived chunks followed by those of the live
      transcript are the real messages ever added. */
  lemma {:induction false} CompactionConserves(s: Log, ops: seq<Op>)
    requires Real(s.archive) + Real(s.live) == Real(s.added) && Unmarked(ops) == 0
    ensures var t := Run(s, ops); Real(t.archive) + Real(t.live) == Real(t.added)
    decreases |ops|
  {
    if ops != [] {
      match ops[0] {
        case Add(m) => AddConservesStep(s, m);
        case ArchiveAndCompact(h, budget) => CompactionConservesStep(s, h, budget);
      }
      CompactionConserves(Apply(s, ops[0]), ops[1..]);
    }
  }

  /** An unmarked handover counts as one message more, for good. */
  lemma {:induction false} RunCounts(s: Log, ops: seq<Op>)
    ensures var t := Run(s, ops);
      |Real(t.archive)| + |Real(t.live)| + |Real(s.added)|
        == |Real(s.archive)| + |Real(s.live)| + |Real(t.added)| + Unmarked(ops)
    decreases |ops|
  {
    if ops != [] {
      match ops[0] {
        case Add(m) => AddConservesStep(s, m);
        case ArchiveAndCompact(h, budget) => CompactionConservesStep(s, h, budget);
      }
      RunCounts(Apply(s, ops[0]), ops[1..]);
    }
  }

  /** From an empty conversation, conservation holds exactly when every handover is marked. */
  lemma ConservationNeedsTheMark(ops: seq<Op>)
    ensures var t := Run(Log([], [], []), ops);
      Real(t.archive) + Real(t.live) == Real(t.added) <==> Unmarked(ops) == 0
  {
    if Unmarked(ops) == 0 {
      CompactionConserves(Log([], [], []), ops);
    }
    RunCounts(Log([], [], []), ops);
  }

  /** A transcript in which only the first message may be a summary. */
  ghost predicate HeadOnly(live: seq<Message>) {
    live == [] || Summaries(live[1..]) == []
  }

  /** Over every run in which marked handovers are the only marked messages, the live transcript
      has at most one summary and it comes first. */
  lemma {:induction false} OneSummaryAtTheHead(s: Log, ops: seq<Op>)
    requires HeadOnly(s.live) && Unmarked(ops) == 0
    requires forall i :: 0 <= i < |ops| && ops[i].Add? ==> !IsSummary(ops[i].m)
    ensures HeadOnly(Run(s, ops).live)
    decreases |ops|
  {
    if ops != [] {
      var t := Apply(s, ops[0]);
      match ops[0] {
        case Add(m) =>
          if s.live != [] {
            RealOf(s.live[1..], [m]);
            assert t.live[1..] == s.live[1..] + [m];
          }
        case ArchiveAndCompact(h, budget) =>
          RealOfParts(s.live[SplitIndex(s.live, budget)..]);
          assert t.live[1..] == Retained(s.live, budget);
      }
      OneSummaryAtTheHead(t, ops[1..]);
    }
  }

  // ---- the conversation as an object ----

  /** What the archive loop has collected after i messages. */
  function DroppedUpTo(ms: seq<Message>, split: nat, i: nat): seq<Message>
    requires i <= |ms|
  {
    if i <= split then ms[..i] else ms[..split] + Summaries(ms[split..i])
  }

  lemma DroppedStep(ms: seq<Message>, split: nat, i: nat)
    requires i < |ms|
    ensures DroppedUpTo(ms, split, i + 1)
         == DroppedUpTo(ms, split, i) + if i < split || IsSummary(ms[i]) then [ms[i]] else []
  {
    if i >= split {
      assert ms[split..i + 1] == ms[split..i] + [ms[i]];
      RealOf(ms[split..i], [ms[i]]);
      RealOfOne(ms[i]);
      Associate(ms[..split], Summaries(ms[split..i]), Summaries([ms[i]]));
    }
  }

  /** The places of the real messages from the split on, before place i. */
  function KeptPlaces(ms: seq<Message>, split: nat, i: nat): set<int>
    requires i <= |ms|
  {
    set j | split <= j < i && !IsSummary(ms[j])
  }

  lemma KeepStep(ms: seq<Message>, split: nat, i: nat)
    requires split <= i < |ms|
    ensures Real(ms[split..i + 1]) == if IsSummary(ms[i]) then Real(ms[split..i]) else Real(ms[split..i]) + [ms[i]]
    ensures KeptPlaces(ms, split, i + 1)
         == if IsSummary(ms[i]) then KeptPlaces(ms, split, i) else KeptPlaces(ms, split, i) + {i}
  {
    assert ms[split..i + 1] == ms[split..i] + [ms[i]];
    RealOf(ms[split..i], [ms[i]]);
    RealOfOne(ms[i]);
    PlacesStep(ms, split, i);
  }

  lemma PlacesStep(ms: seq<Message>, split: nat, i: nat)
    requires split <= i < |ms|
    ensures KeptPlaces(ms, split, i + 1)
         == if IsSummary(ms[i]) then KeptPlaces(ms, split, i) else KeptPlaces(ms, split, i) + {i}
  {
    forall j
      ensures j in KeptPlaces(ms, split, i + 1) <==> j in KeptPlaces(ms, split, i) || (j == i && !IsSummary(ms[i]))
    {
    }
  }

  class Conversation {
    var messages: seq<Message>
    var summary: string

    constructor ()
      ensures messages == [] && summary == ""
    {
      messages, summary := [], "";
    }

    method AddMessage(m: Message)
      modifies this`messages
      ensures messages == old(messages) + [m]
    {
      messages := messages + [m];
    }

    method CompactionSplitIndex(keepTokenBudget: int) returns (k: nat)
      ensures k == SplitIndex(messages, keepTokenBudget)
    {
      if |messages| == 0 {
        return 0;
      }
      var remaining := keepTokenBudget;
      k := 0;
      var i := |messages| - 1;
      while i >= 0
        invariant -1 <= i < |messages|
        invariant i == -1 ==> k == 0
        invariant SplitFrom(messages, keepTokenBudget, remaining, i + 1) == SplitIndex(messages, keepTokenBudget)
      {
        var tokens := messages[i].tokens;
        if tokens > remaining {
          if remaining == keepTokenBudget {
            return i;
          }
          return i + 1;
        }
        remaining := remaining - tokens;
        k := i;
        i := i - 1;
      }
    }

    /** The kept messages and their places: the real messages from the split on. */
    method CompactionRetention(keepTokenBudget: int) returns (retained: seq<Message>, places: set<int>)
      ensures retained == Retained(messages, keepTokenBudget)
      ensures places == KeptPlaces(messages, SplitIndex(messages, keepTokenBudget), |messages|)
    {
      retained, places := [], {};
      var split := CompactionSplitIndex(keepTokenBudget);
      var i := split;
      assert Real([]) == [];
      while i < |messages|
        invariant split <= i <= |messages|
        invariant retained == Real(messages[split..i]) && places == KeptPlaces(messages, split, i)
      {
        var m := messages[i];
        KeepStep(messages, split, i);
        if !IsSummary(m) {
          places := places + {i};
          retained := retained + [m];
        }
        i := i + 1;
      }
      assert messages[split..|messages|] == messages[split..];
    }

    method Compact(text: string, handover: Message, keepTokenBudget: int)
      modifies this
      ensures messages == [handover] + Retained(old(messages), keepTokenBudget)
      ensures summary == if old(summary) != "" then old(summary) + "\n\n" + text else text
    {
      if summary != "" {
        summary := summary + "\n\n" + text;
      } else {
        summary := text;
      }
      var retained, _ := CompactionRetention(keepTokenBudget);
      messages := [handover] + retained;
    }

    /** What a compaction with this budget would drop, in order. */
    method ArchiveMessages(keepTokenBudget: int) returns (archived: seq<Message>)
      ensures archived == Archived(messages, keepTokenBudget)
    {
      var _, places := CompactionRetention(keepTokenBudget);
      ghost var split := SplitIndex(messages, keepTokenBudget);
      if |places| >= |messages| {
        AllPlacesKept(messages, split, places);
        return [];
      }
      archived := [];
      var i := 0;
      while i < |messages|
        invariant 0 <= i <= |messages|
        invariant archived == DroppedUpTo(messages, split, i)
      {
        DroppedStep(messages, split, i);
        if i !in places {
          archived := archived + [messages[i]];
        }
        i := i + 1;
      }
      AllDropped(messages, split);
    }
  }

  lemma AllDropped(ms: seq<Message>, split: nat)
    requires split <= |ms|
    ensures DroppedUpTo(ms, split, |ms|) == ms[..split] + Summaries(ms[split..])
  {
    assert ms[split..|ms|] == ms[split..];
    assert ms[..split] + [] == ms[..split];
  }

  function UpTo(n: nat): set<int> {
    if n == 0 then {} else UpTo(n - 1) + {n - 1}
  }

  lemma {:induction false} UpToMembers(n: nat)
    ensures |UpTo(n)| == n && forall i :: i in UpTo(n) <==> 0 <= i < n
  {
    if n > 0 {
      UpToMembers(n - 1);
    }
  }

  lemma {:induction false} NoSummaries(ms: seq<Message>)
    requires forall i :: 0 <= i < |ms| ==> !IsSummary(ms[i])
    ensures Summaries(ms) == []
  {
    if ms != [] {
      NoSummaries(ms[1..]);
    }
  }

  lemma AllPlacesKept(ms: seq<Message>, split: nat, places: set<int>)
    requires split <= |ms| && places == KeptPlaces(ms, split, |ms|)
    requires |places| >= |ms|
    ensures ms[..split] == [] && Summaries(ms[split..]) == []
  {
    UpToMembers(|ms|);
    var all := UpTo(|ms|);
    Smaller(places, all);
    assert places == all;
    assert forall i :: i in all ==> split <= i;
    assert |ms| > 0 ==> 0 in all;
    forall i | 0 <= i < |ms|
      ensures !IsSummary(ms[i])
    {
      assert i in all;
    }
    NoSummaries(ms[split..]);
  }
}
