/** The bounded streaming transcript of a subagent run: merge, replace and trim in place.
    A char is one rune; `at` is a clock reading, 0 when unset. */
module Transcripts {
  import opened Collections

  const TRANSCRIPT_CAP: nat := 256 * 1024
  const MERGE_CAP: nat := 64 * 1024

  datatype Kind = Text | Thought | Usage | Tool | OtherKind(name: string)

  datatype Chunk = Chunk(
    kind: Kind, text: string, toolId: string, toolTitle: string, toolKind: string,
    toolStatus: string, toolInput: string, toolOutput: string, at: int)

  function Size(c: Chunk): nat {
    |c.text| + |c.toolTitle| + |c.toolInput| + |c.toolOutput|
  }

  function Total(tr: seq<Chunk>): nat {
    if tr == [] then 0 else Size(tr[0]) + Total(tr[1..])
  }

  /** Bytes of one rune, and of a text, in UTF-8. */
  function RuneBytes(c: char): nat {
    if c < '\U{80}' then 1 else if c < '\U{800}' then 2 else if c < '\U{10000}' then 3 else 4
  }

  function Bytes(t: string): nat {
    if t == "" then 0 else RuneBytes(t[0]) + Bytes(t[1..])
  }

  /** The last n runes. */
  function Tail(t: string, n: int): (r: string)
    ensures |r| == if n <= 0 then 0 else if |t| <= n then |t| else n
    ensures IsSuffix(r, t)
  {
    if n <= 0 then "" else if |t| <= n then t else t[|t| - n..]
  }

  predicate IsSuffix(a: string, b: string) { |a| <= |b| && a == b[|b| - |a|..] }

  // ---- trimming ----

  function DropFront(tr: seq<Chunk>): seq<Chunk> {
    if Total(tr) > TRANSCRIPT_CAP && |tr| > 1 then DropFront(tr[1..]) else tr
  }

  /** Cut one field so that the whole fits if the other fields leave room, else empty it. */
  function Cut(field: string, others: nat): string {
    if others >= TRANSCRIPT_CAP then "" else Tail(field, TRANSCRIPT_CAP - others)
  }

  function CutText(c: Chunk): Chunk {
    if Size(c) <= TRANSCRIPT_CAP then c else c.(text := Cut(c.text, Size(c) - |c.text|))
  }

  function CutOutput(c: Chunk): Chunk {
    if Size(c) <= TRANSCRIPT_CAP then c else c.(toolOutput := Cut(c.toolOutput, Size(c) - |c.toolOutput|))
  }

  function CutInput(c: Chunk): Chunk {
    if Size(c) <= TRANSCRIPT_CAP then c else c.(toolInput := Cut(c.toolInput, Size(c) - |c.toolInput|))
  }

  function CutTitle(c: Chunk): Chunk {
    if Size(c) <= TRANSCRIPT_CAP then c else c.(toolTitle := Tail(c.toolTitle, TRANSCRIPT_CAP))
  }

  function Shrink(c: Chunk): Chunk { CutTitle(CutInput(CutOutput(CutText(c)))) }

  function Trim(tr: seq<Chunk>): seq<Chunk> {
    var d := DropFront(tr);
    if d == [] || Total(d) <= TRANSCRIPT_CAP then d else d[0 := Shrink(d[0])]
  }

  /** Shrinking keeps what identifies the chunk and a tail of its text. The title is touched
      only when it alone is over the cap. */
  lemma ShrinkFits(c: Chunk)
    ensures Size(Shrink(c)) <= TRANSCRIPT_CAP
    ensures Shrink(c).kind == c.kind && Shrink(c).toolId == c.toolId && IsSuffix(Shrink(c).text, c.text)
    ensures Size(c) <= TRANSCRIPT_CAP ==> Shrink(c) == c
    ensures |c.toolTitle| <= TRANSCRIPT_CAP ==> Shrink(c).toolTitle == c.toolTitle
    ensures Size(c) > TRANSCRIPT_CAP ==> Size(Shrink(c)) == TRANSCRIPT_CAP
  {
    var a := CutText(c);
    var b := CutOutput(a);
    var d := CutInput(b);
    assert Size(a) > TRANSCRIPT_CAP ==> a.text == "";
    assert Size(b) > TRANSCRIPT_CAP ==> b.toolOutput == "" && b.text == "";
    assert Size(d) > TRANSCRIPT_CAP ==> Size(d) == |d.toolTitle|;
  }

  lemma {:induction false} DropFrontIsSuffix(tr: seq<Chunk>) returns (k: nat)
    ensures k <= |tr| && DropFront(tr) == tr[k..]
    ensures tr != [] ==> k < |tr|
    ensures Total(tr[k..]) <= TRANSCRIPT_CAP || k == |tr| - 1
    ensures k > 0 ==> Total(tr[k - 1..]) > TRANSCRIPT_CAP
  {
    if Total(tr) > TRANSCRIPT_CAP && |tr| > 1 {
      var j := DropFrontIsSuffix(tr[1..]);
      k := j + 1;
      assert tr[1..][j..] == tr[k..];
      assert j > 0 ==> tr[1..][j - 1..] == tr[k - 1..];
    } else {
      k := 0;
    }
  }

  /** Trimming drops whole chunks from the front, never more than needed, and shrinks the front
      chunk only when it is the last one left. */
  lemma TrimKeepsTheEnd(tr: seq<Chunk>) returns (k: nat)
    ensures k <= |tr| && |Trim(tr)| == |tr| - k && (tr != [] ==> k < |tr|)
    ensures k > 0 ==> Total(tr[k - 1..]) > TRANSCRIPT_CAP
    ensures forall i :: 0 <= i < |Trim(tr)| ==>
      Trim(tr)[i] == tr[k + i] || (|Trim(tr)| == 1 && Trim(tr)[i] == Shrink(tr[k]))
    ensures Total(Trim(tr)) <= TRANSCRIPT_CAP
    ensures Total(tr) <= TRANSCRIPT_CAP ==> Trim(tr) == tr
  {
    k := DropFrontIsSuffix(tr);
    var d := DropFront(tr);
    if d != [] && Total(d) > TRANSCRIPT_CAP {
      ShrinkOne(d);
    }
  }

  lemma ShrinkOne(d: seq<Chunk>)
    requires |d| == 1
    ensures d[0 := Shrink(d[0])] == [Shrink(d[0])] && Total([Shrink(d[0])]) <= TRANSCRIPT_CAP
  {
    ShrinkFits(d[0]);
    assert [Shrink(d[0])][1..] == [];
  }

  // ---- appending ----

  /** The last chunk that is not a usage report. */
  function LastContent(tr: seq<Chunk>): (i: int)
    ensures -1 <= i < |tr|
    ensures i >= 0 ==> !tr[i].kind.Usage?
    ensures forall j :: i < j < |tr| ==> tr[j].kind.Usage?
  {
    if tr == [] then -1
    else if tr[|tr| - 1].kind.Usage? then LastContent(tr[..|tr| - 1])
    else |tr| - 1
  }

  predicate Matches(c: Chunk, kind: Kind, toolId: string) {
    c.kind == kind && (toolId == "" || c.toolId == toolId)
  }

  function LastMatch(tr: seq<Chunk>, kind: Kind, toolId: string): (i: int)
    ensures -1 <= i < |tr|
    ensures i >= 0 ==> Matches(tr[i], kind, toolId)
    ensures forall j :: i < j < |tr| ==> !Matches(tr[j], kind, toolId)
  {
    if tr == [] then -1
    else if Matches(tr[|tr| - 1], kind, toolId) then |tr| - 1
    else LastMatch(tr[..|tr| - 1], kind, toolId)
  }

  lemma MatchStep(tr: seq<Chunk>, i: nat, kind: Kind, toolId: string)
    requires i < |tr|
    ensures LastMatch(tr[..i + 1], kind, toolId)
         == if Matches(tr[i], kind, toolId) then i else LastMatch(tr[..i], kind, toolId)
  {
    assert tr[..i + 1][..i] == tr[..i];
  }

  function Stream(c: Chunk, delta: Chunk): Chunk {
    c.(text := c.text + delta.text, at := if delta.at != 0 then delta.at else c.at)
  }

  function Either(update: string, old_: string): string { if update != "" then update else old_ }

  function MergeTool(c: Chunk, u: Chunk): Chunk {
    c.(text := Either(u.text, c.text), toolTitle := Either(u.toolTitle, c.toolTitle),
       toolKind := Either(u.toolKind, c.toolKind), toolStatus := Either(u.toolStatus, c.toolStatus),
       toolInput := Either(u.toolInput, c.toolInput), toolOutput := Either(u.toolOutput, c.toolOutput),
       at := if u.at != 0 then u.at else c.at)
  }

  function Streams(tr: seq<Chunk>, chunk: Chunk): bool {
    var i := LastContent(tr);
    i >= 0 && tr[i].kind == chunk.kind && Bytes(tr[i].text) <= MERGE_CAP
  }

  /** The transcript before trimming. */
  function Placed(tr: seq<Chunk>, chunk: Chunk): seq<Chunk> {
    match chunk.kind
    case Usage =>
      var i := LastMatch(tr, Usage, "");
      if i >= 0 then tr[i := chunk] else tr + [chunk]
    case Tool =>
      var i := LastMatch(tr, Tool, chunk.toolId);
      if chunk.toolId != "" && i >= 0 then tr[i := MergeTool(tr[i], chunk)] else tr + [chunk]
    case OtherKind(_) => tr + [chunk]
    case _ =>
      var i := LastContent(tr);
      if Streams(tr, chunk) then tr[i := Stream(tr[i], chunk)] else tr + [chunk]
  }

  function Append(tr: seq<Chunk>, chunk: Chunk): seq<Chunk> { Trim(Placed(tr, chunk)) }

  function AppendAll(tr: seq<Chunk>, chunks: seq<Chunk>): seq<Chunk>
    decreases |chunks|
  {
    if chunks == [] then tr else AppendAll(Append(tr, chunks[0]), chunks[1..])
  }

  // ---- what every run of appends keeps ----

  /** The text of all chunks of one kind, joined. */
  function TextOf(tr: seq<Chunk>, kind: Kind): string {
    if tr == [] then "" else (if tr[0].kind == kind then tr[0].text else "") + TextOf(tr[1..], kind)
  }

  lemma {:induction false} TextOfJoin(a: seq<Chunk>, b: seq<Chunk>, kind: Kind)
    ensures TextOf(a + b, kind) == TextOf(a, kind) + TextOf(b, kind)
  {
    if a == [] {
      assert a + b == b;
    } else {
      assert (a + b)[1..] == a[1..] + b;
      TextOfJoin(a[1..], b, kind);
    }
  }

  lemma TextOfOne(c: Chunk, kind: Kind)
    ensures TextOf([c], kind) == if c.kind == kind then c.text else ""
  {
    assert [c][1..] == [];
  }

  lemma TextAround(a: seq<Chunk>, c: Chunk, b: seq<Chunk>, kind: Kind)
    ensures TextOf(a + [c] + b, kind) == TextOf(a, kind) + Delta(c, kind) + TextOf(b, kind)
  {
    TextOfJoin(a + [c], b, kind);
    TextOfJoin(a, [c], kind);
    TextOfOne(c, kind);
  }

  function Delta(chunk: Chunk, kind: Kind): string { if chunk.kind == kind then chunk.text else "" }

  /** Replacing one chunk affects the joined text only through that chunk. */
  lemma TextOfReplace(tr: seq<Chunk>, i: nat, c: Chunk, kind: Kind)
    requires i < |tr|
    ensures TextOf(tr, kind) == TextOf(tr[..i], kind) + Delta(tr[i], kind) + TextOf(tr[i + 1..], kind)
    ensures TextOf(tr[i := c], kind) == TextOf(tr[..i], kind) + Delta(c, kind) + TextOf(tr[i + 1..], kind)
  {
    assert tr == tr[..i] + [tr[i]] + tr[i + 1..];
    assert tr[i := c] == tr[..i] + [c] + tr[i + 1..];
    TextAround(tr[..i], tr[i], tr[i + 1..], kind);
    TextAround(tr[..i], c, tr[i + 1..], kind);
  }

  lemma {:induction false} OnlyUsageIsSilent(tr: seq<Chunk>, kind: Kind)
    requires kind.Text? || kind.Thought?
    requires forall i :: 0 <= i < |tr| ==> tr[i].kind.Usage?
    ensures TextOf(tr, kind) == ""
  {
    if tr != [] {
      OnlyUsageIsSilent(tr[1..], kind);
    }
  }

  lemma StreamExtendsText(tr: seq<Chunk>, chunk: Chunk, kind: Kind)
    requires (kind.Text? || kind.Thought?) && (chunk.kind.Text? || chunk.kind.Thought?) && Streams(tr, chunk)
    ensures TextOf(Placed(tr, chunk), kind) == TextOf(tr, kind) + Delta(chunk, kind)
  {
    var i := LastContent(tr);
    var a, b := TextOf(tr[..i], kind), TextOf(tr[i + 1..], kind);
    TextOfReplace(tr, i, Stream(tr[i], chunk), kind);
    OnlyUsageIsSilent(tr[i + 1..], kind);
    assert a + (Delta(tr[i], kind) + Delta(chunk, kind)) + "" == a + Delta(tr[i], kind) + "" + Delta(chunk, kind);
    assert Delta(Stream(tr[i], chunk), kind) == Delta(tr[i], kind) + Delta(chunk, kind);
  }

  lemma ReplaceKeepsText(tr: seq<Chunk>, i: nat, c: Chunk, kind: Kind)
    requires i < |tr| && c.kind == tr[i].kind && kind != c.kind
    ensures TextOf(tr[i := c], kind) == TextOf(tr, kind)
  {
    TextOfReplace(tr, i, c, kind);
  }

  lemma AppendExtendsText(tr: seq<Chunk>, chunk: Chunk, kind: Kind)
    ensures TextOf(tr + [chunk], kind) == TextOf(tr, kind) + Delta(chunk, kind)
  {
    TextOfJoin(tr, [chunk], kind);
    TextOfOne(chunk, kind);
  }

  /** Before trimming, the streamed text of each kind has grown by exactly the delivered text. */
  lemma PlacedExtendsText(tr: seq<Chunk>, chunk: Chunk, kind: Kind)
    requires kind.Text? || kind.Thought?
    ensures TextOf(Placed(tr, chunk), kind) == TextOf(tr, kind) + Delta(chunk, kind)
  {
    AppendExtendsText(tr, chunk, kind);
    NothingAdded(TextOf(tr, kind));
    match chunk.kind {
      case Usage =>
        var i := LastMatch(tr, Usage, "");
        if i >= 0 {
          ReplaceKeepsText(tr, i, chunk, kind);
        }
      case Tool =>
        var i := LastMatch(tr, Tool, chunk.toolId);
        if i >= 0 {
          ReplaceKeepsText(tr, i, MergeTool(tr[i], chunk), kind);
        }
      case OtherKind(_) =>
      case _ =>
        if Streams(tr, chunk) {
          StreamExtendsText(tr, chunk, kind);
        }
    }
  }

  lemma {:induction false} DroppingLeavesSuffix(tr: seq<Chunk>, k: nat, kind: Kind)
    requires k <= |tr|
    ensures IsSuffix(TextOf(tr[k..], kind), TextOf(tr, kind))
  {
    assert tr == tr[..k] + tr[k..];
    TextOfJoin(tr[..k], tr[k..], kind);
  }

  lemma SuffixOfSuffix(a: string, b: string, c: string)
    requires IsSuffix(a, b) && IsSuffix(b, c)
    ensures IsSuffix(a, c)
  {
  }

  lemma TrimLeavesSuffix(tr: seq<Chunk>, kind: Kind)
    ensures IsSuffix(TextOf(Trim(tr), kind), TextOf(tr, kind))
  {
    var k := DropFrontIsSuffix(tr);
    var d := DropFront(tr);
    DroppingLeavesSuffix(tr, k, kind);
    if d != [] && Total(d) > TRANSCRIPT_CAP {
      ShrinkFits(d[0]);
      assert d == [d[0]] && Trim(tr) == [Shrink(d[0])];
      TextOfOne(d[0], kind);
      TextOfOne(Shrink(d[0]), kind);
      SuffixOfSuffix(TextOf(Trim(tr), kind), TextOf(d, kind), TextOf(tr, kind));
    }
  }

  ghost predicate Unique(tr: seq<Chunk>) {
    && (forall i, j :: 0 <= i < j < |tr| ==> !(tr[i].kind.Usage? && tr[j].kind.Usage?))
    && (forall i, j :: 0 <= i < j < |tr| && tr[i].kind.Tool? && tr[j].kind.Tool? && tr[i].toolId != "" ==>
          tr[i].toolId != tr[j].toolId)
  }

  lemma PlacedIsUnique(tr: seq<Chunk>, chunk: Chunk)
    requires Unique(tr)
    ensures Unique(Placed(tr, chunk))
  {
    var t := Placed(tr, chunk);
    if |t| == |tr| {
      assert forall i :: 0 <= i < |tr| ==> t[i].kind == tr[i].kind && (t[i].kind.Tool? ==> t[i].toolId == tr[i].toolId);
    } else {
      assert t == tr + [chunk];
      if chunk.kind.Tool? && chunk.toolId != "" {
        assert forall i :: 0 <= i < |tr| ==> !Matches(tr[i], Tool, chunk.toolId);
      }
      if chunk.kind.Usage? {
        assert forall i :: 0 <= i < |tr| ==> !Matches(tr[i], Usage, "");
      }
    }
  }

  lemma TrimIsUnique(tr: seq<Chunk>)
    requires Unique(tr)
    ensures Unique(Trim(tr))
  {
    var k := TrimKeepsTheEnd(tr);
    if |Trim(tr)| != 1 {
      assert forall i :: 0 <= i < |Trim(tr)| ==> Trim(tr)[i] == tr[k + i];
    }
  }

  function Delivered(chunks: seq<Chunk>, kind: Kind): string { TextOf(chunks, kind) }

  ghost predicate Sound(tr: seq<Chunk>, delivered: seq<Chunk>) {
    && Total(tr) <= TRANSCRIPT_CAP
    && Unique(tr)
    && IsSuffix(TextOf(tr, Text), Delivered(delivered, Text))
    && IsSuffix(TextOf(tr, Thought), Delivered(delivered, Thought))
  }

  lemma SuffixGrows(a: string, b: string, d: string)
    requires IsSuffix(a, b)
    ensures IsSuffix(a + d, b + d)
  {
  }

  lemma AppendKeepsSuffix(tr: seq<Chunk>, delivered: seq<Chunk>, chunk: Chunk, kind: Kind)
    requires kind.Text? || kind.Thought?
    requires IsSuffix(TextOf(tr, kind), Delivered(delivered, kind))
    ensures IsSuffix(TextOf(Append(tr, chunk), kind), Delivered(delivered + [chunk], kind))
  {
    PlacedExtendsText(tr, chunk, kind);
    TrimLeavesSuffix(Placed(tr, chunk), kind);
    TextOfJoin(delivered, [chunk], kind);
    TextOfOne(chunk, kind);
    SuffixGrows(TextOf(tr, kind), Delivered(delivered, kind), Delta(chunk, kind));
    SuffixOfSuffix(
      TextOf(Append(tr, chunk), kind), TextOf(Placed(tr, chunk), kind), Delivered(delivered + [chunk], kind));
  }

  lemma AppendIsSound(tr: seq<Chunk>, delivered: seq<Chunk>, chunk: Chunk)
    requires Sound(tr, delivered)
    ensures Sound(Append(tr, chunk), delivered + [chunk])
  {
    AppendKeepsSuffix(tr, delivered, chunk, Text);
    AppendKeepsSuffix(tr, delivered, chunk, Thought);
    PlacedIsUnique(tr, chunk);
    TrimIsUnique(Placed(tr, chunk));
    var _ := TrimKeepsTheEnd(Placed(tr, chunk));
  }

  /** After any sequence of appends the size is within the cap, there is at most one usage chunk
      and one chunk per tool id, and the text (likewise the thoughts) is a suffix of everything
      delivered of that kind. */
  lemma {:induction false} EveryRunIsSound(tr: seq<Chunk>, delivered: seq<Chunk>, chunks: seq<Chunk>)
    requires Sound(tr, delivered)
    ensures Sound(AppendAll(tr, chunks), delivered + chunks)
    decreases |chunks|
  {
    if chunks == [] {
      assert delivered + chunks == delivered;
    } else {
      AppendIsSound(tr, delivered, chunks[0]);
      EveryRunIsSound(Append(tr, chunks[0]), delivered + [chunks[0]], chunks[1..]);
      Regroup(delivered, chunks);
    }
  }

  /** Nothing of a stream is lost while the transcript fits. */
  lemma NothingIsLostBelowTheCap(tr: seq<Chunk>, chunk: Chunk, kind: Kind)
    requires kind.Text? || kind.Thought?
    requires Total(Placed(tr, chunk)) <= TRANSCRIPT_CAP
    ensures TextOf(Append(tr, chunk), kind) == TextOf(tr, kind) + Delta(chunk, kind)
  {
    PlacedExtendsText(tr, chunk, kind);
    var _ := TrimKeepsTheEnd(Placed(tr, chunk));
  }

  // ---- the run object ----

  class AcpRun {
    var transcript: seq<Chunk>

    constructor ()
      ensures transcript == [] && Sound(transcript, [])
    {
      transcript := [];
    }

    method AppendTranscript(chunk: Chunk)
      modifies this
      ensures transcript == Append(old(transcript), chunk)
    {
      match chunk.kind {
        case Text | Thought =>
          var merged := MergeStreamingChunk(chunk);
          if merged {
            return;
          }
        case Usage =>
          var replaced := ReplaceTranscriptChunk(Usage, "", chunk);
          if replaced {
            return;
          }
        case Tool =>
          if chunk.toolId != "" {
            var replaced := ReplaceTranscriptChunk(Tool, chunk.toolId, chunk);
            if replaced {
              return;
            }
          }
        case _ =>
      }
      transcript := transcript + [chunk];
      TrimTranscriptCap();
    }

    method MergeStreamingChunk(chunk: Chunk) returns (merged: bool)
      modifies this
      ensures merged == Streams(old(transcript), chunk)
      ensures var i := LastContent(old(transcript));
        transcript == if merged then Trim(old(transcript)[i := Stream(old(transcript)[i], chunk)]) else old(transcript)
    {
      var last := |transcript| - 1;
      assert transcript[..last + 1] == transcript;
      while last >= 0 && transcript[last].kind.Usage?
        invariant -1 <= last < |transcript| && transcript == old(transcript)
        invariant LastContent(transcript[..last + 1]) == LastContent(transcript)
      {
        assert transcript[..last + 1][..last] == transcript[..last];
        last := last - 1;
      }
      if last < 0 || transcript[last].kind != chunk.kind {
        return false;
      }
      if Bytes(transcript[last].text) > MERGE_CAP {
        return false;
      }
      ghost var tr := transcript;
      assert last == LastContent(tr);
      transcript := transcript[last := transcript[last].(text := transcript[last].text + chunk.text)];
      if chunk.at != 0 {
        transcript := transcript[last := transcript[last].(at := chunk.at)];
      }
      assert transcript == tr[last := Stream(tr[last], chunk)];
      TrimTranscriptCap();
      return true;
    }

    method ReplaceTranscriptChunk(kind: Kind, toolId: string, chunk: Chunk) returns (replaced: bool)
      modifies this
      ensures var tr := old(transcript); var i := LastMatch(tr, kind, toolId);
        && replaced == (i >= 0)
        && transcript == if i < 0 then tr
                         else Trim(tr[i := if kind.Tool? then MergeTool(tr[i], chunk) else chunk])
    {
      var i := |transcript| - 1;
      assert transcript[..i + 1] == transcript;
      while i >= 0
        invariant -1 <= i < |transcript|
        invariant transcript == old(transcript)
        invariant LastMatch(transcript[..i + 1], kind, toolId) == LastMatch(transcript, kind, toolId)
      {
        var existing := transcript[i];
        if existing.kind != kind || (toolId != "" && existing.toolId != toolId) {
          MatchStep(transcript, i, kind, toolId);
          i := i - 1;
          continue;
        }
        MatchStep(transcript, i, kind, toolId);
        if kind.Tool? {
          transcript := transcript[i := MergeTool(existing, chunk)];
        } else {
          transcript := transcript[i := chunk];
        }
        TrimTranscriptCap();
        return true;
      }
      return false;
    }

    method TrimTranscriptCap()
      modifies this
      ensures transcript == Trim(old(transcript))
    {
      var total := TotalOf(transcript);
      while total > TRANSCRIPT_CAP && |transcript| > 1
        invariant total == Total(transcript)
        invariant DropFront(transcript) == DropFront(old(transcript))
        decreases |transcript|
      {
        var dropped := transcript[0];
        total := total - Size(dropped);
        transcript := transcript[1..];
      }
      if total <= TRANSCRIPT_CAP || |transcript| == 0 {
        return;
      }
      assert DropFront(transcript) == transcript && Total(transcript) > TRANSCRIPT_CAP;
      var chunk := ShrinkChunk(transcript[0]);
      transcript := transcript[0 := chunk];
    }
  }

  method TotalOf(tr: seq<Chunk>) returns (total: nat)
    ensures total == Total(tr)
  {
    total := 0;
    var k := 0;
    while k < |tr|
      invariant 0 <= k <= |tr|
      invariant total + Total(tr[k..]) == Total(tr)
    {
      assert tr[k..][1..] == tr[k + 1..];
      total := total + Size(tr[k]);
      k := k + 1;
    }
  }

  /** The last chunk left is cut down to the cap. */
  method ShrinkChunk(whole: Chunk) returns (chunk: Chunk)
    ensures chunk == Shrink(whole)
  {
    chunk := whole;
    // Text first, then tool output, then tool input.
    if Size(chunk) > TRANSCRIPT_CAP {
      var others := Size(chunk) - |chunk.text|;
      chunk := chunk.(text := if others >= TRANSCRIPT_CAP then "" else Tail(chunk.text, TRANSCRIPT_CAP - others));
    }
    assert chunk == CutText(whole);
    if Size(chunk) > TRANSCRIPT_CAP {
      var others := Size(chunk) - |chunk.toolOutput|;
      chunk := chunk.(
        toolOutput := if others >= TRANSCRIPT_CAP then "" else Tail(chunk.toolOutput, TRANSCRIPT_CAP - others));
    }
    assert chunk == CutOutput(CutText(whole));
    if Size(chunk) > TRANSCRIPT_CAP {
      var others := Size(chunk) - |chunk.toolInput|;
      chunk := chunk.(
        toolInput := if others >= TRANSCRIPT_CAP then "" else Tail(chunk.toolInput, TRANSCRIPT_CAP - others));
    }
    assert chunk == CutInput(CutOutput(CutText(whole)));
    if Size(chunk) > TRANSCRIPT_CAP {
      chunk := chunk.(toolTitle := Tail(chunk.toolTitle, TRANSCRIPT_CAP));
    }
  }
}
