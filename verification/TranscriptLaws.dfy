/** What becomes of each delivered chunk: which one an append changes, and what the chunk of a tool
    and the usage report hold after a whole run. */
module TranscriptLaws {
  import opened Collections
  import opened Transcripts

  datatype Field = TextField | TitleField | KindField | StatusField | InputField | OutputField

  function Get(c: Chunk, f: Field): string {
    match f
    case TextField => c.text
    case TitleField => c.toolTitle
    case KindField => c.toolKind
    case StatusField => c.toolStatus
    case InputField => c.toolInput
    case OutputField => c.toolOutput
  }

  predicate Of(c: Chunk, id: string) { c.kind.Tool? && c.toolId == id }

  ghost predicate Unchanged(tr: seq<Chunk>, t: seq<Chunk>, i: int) {
    |t| == |tr| && forall j :: 0 <= j < |tr| && j != i ==> t[j] == tr[j]
  }

  // One append, before trimming.

  /** The newer of two values, if it says anything. */
  ghost predicate Newer(c: Chunk, before: Chunk, update: Chunk) {
    && c.kind == before.kind && c.toolId == before.toolId
    && (forall f :: Get(c, f) == if Get(update, f) != "" then Get(update, f) else Get(before, f))
    && c.at == if update.at != 0 then update.at else before.at
  }

  /** An update of a tool changes the chunk of that tool and no other, and of that chunk the fields
      it has a value for. */
  lemma ToolUpdate(tr: seq<Chunk>, update: Chunk, i: nat)
    requires Unique(tr) && i < |tr| && update.toolId != "" && Of(tr[i], update.toolId) && update.kind.Tool?
    ensures var t := Placed(tr, update); Unchanged(tr, t, i) && Newer(t[i], tr[i], update)
  {
    assert Matches(tr[i], Tool, update.toolId);
    var k := LastMatch(tr, Tool, update.toolId);
    assert k == i;
  }

  /** A usage report takes the place of the one before it. */
  lemma UsageUpdate(tr: seq<Chunk>, report: Chunk, i: nat)
    requires Unique(tr) && i < |tr| && report.kind.Usage? && tr[i].kind.Usage?
    ensures var t := Placed(tr, report); Unchanged(tr, t, i) && t[i] == report
  {
    assert Matches(tr[i], Usage, "");
    var k := LastMatch(tr, Usage, "");
    assert k == i;
  }

  /** Text and thoughts go on in the last chunk but for usage reports, if that is of the same kind
      and its text has at most 64 KiB. */
  ghost predicate GoesOn(tr: seq<Chunk>, delta: Chunk, i: int) {
    && 0 <= i < |tr| && !tr[i].kind.Usage? && (forall j :: i < j < |tr| ==> tr[j].kind.Usage?)
    && tr[i].kind == delta.kind && Bytes(tr[i].text) <= 65536
  }

  lemma StreamUpdate(tr: seq<Chunk>, delta: Chunk, i: nat)
    requires (delta.kind.Text? || delta.kind.Thought?) && GoesOn(tr, delta, i)
    ensures var t := Placed(tr, delta);
      && Unchanged(tr, t, i)
      && t[i] == tr[i].(text := tr[i].text + delta.text, at := t[i].at)
      && t[i].at == if delta.at != 0 then delta.at else tr[i].at
  {
    var k := LastContent(tr);
    assert k == i;
  }

  /** What is neither an update, nor a usage report after another, nor goes on, stands at the end as
      delivered: so does every chunk of another kind and every tool chunk without an id. */
  lemma StandsAtTheEnd(tr: seq<Chunk>, chunk: Chunk)
    requires chunk.kind.Usage? ==> forall i :: 0 <= i < |tr| ==> !tr[i].kind.Usage?
    requires chunk.kind.Tool? && chunk.toolId != "" ==> forall i :: 0 <= i < |tr| ==> !Of(tr[i], chunk.toolId)
    requires chunk.kind.Text? || chunk.kind.Thought? ==> forall i :: 0 <= i < |tr| ==> !GoesOn(tr, chunk, i)
    ensures Placed(tr, chunk) == tr + [chunk]
  {
    if Streams(tr, chunk) {
      assert GoesOn(tr, chunk, LastContent(tr));
    }
  }

  /** Which of the two it is decides the length. */
  lemma GrowsByOneOrStays(tr: seq<Chunk>, chunk: Chunk)
    ensures |Placed(tr, chunk)| == |tr| || Placed(tr, chunk) == tr + [chunk]
    ensures forall i :: 0 <= i < |tr| ==>
      Placed(tr, chunk)[i].kind == tr[i].kind && (tr[i].kind.Tool? ==> Placed(tr, chunk)[i].toolId == tr[i].toolId)
  {
  }

  // Whole runs below the cap.

  /** Every append of the run leaves the transcript within the cap without trimming. */
  ghost predicate Fits(tr: seq<Chunk>, chunks: seq<Chunk>)
    decreases |chunks|
  {
    chunks == [] || (Total(Placed(tr, chunks[0])) <= TRANSCRIPT_CAP && Fits(Append(tr, chunks[0]), chunks[1..]))
  }

  /** The last value delivered under an id among the first k chunks; empty if there was none. */
  function LastValue(d: seq<Chunk>, k: nat, id: string, f: Field): string
    requires k <= |d|
  {
    if k == 0 then ""
    else if Of(d[k - 1], id) && Get(d[k - 1], f) != "" then Get(d[k - 1], f)
    else LastValue(d, k - 1, id, f)
  }

  function LastTime(d: seq<Chunk>, k: nat, id: string): int
    requires k <= |d|
  {
    if k == 0 then 0 else if Of(d[k - 1], id) && d[k - 1].at != 0 then d[k - 1].at else LastTime(d, k - 1, id)
  }

  function LastUsage(d: seq<Chunk>, k: nat): Option<Chunk>
    requires k <= |d|
  {
    if k == 0 then None else if d[k - 1].kind.Usage? then Some(d[k - 1]) else LastUsage(d, k - 1)
  }

  predicate Named(d: seq<Chunk>, id: string) { exists i :: 0 <= i < |d| && Of(d[i], id) }

  lemma {:induction false} SameLast(d: seq<Chunk>, e: seq<Chunk>, k: nat, id: string, f: Field)
    requires k <= |d| && k <= |e| && forall i :: 0 <= i < k ==> d[i] == e[i]
    ensures LastValue(d, k, id, f) == LastValue(e, k, id, f) && LastTime(d, k, id) == LastTime(e, k, id)
    ensures LastUsage(d, k) == LastUsage(e, k)
  {
    if k > 0 {
      SameLast(d, e, k - 1, id, f);
    }
  }

  /** The chunk holds, in each field, the last value delivered under its id. */
  ghost predicate Holds(c: Chunk, d: seq<Chunk>, id: string) {
    (forall f :: Get(c, f) == LastValue(d, |d|, id, f)) && c.at == LastTime(d, |d|, id)
  }

  /** Every tool that was ever named has a chunk, and that holds its last values. */
  ghost predicate ToolsAre(tr: seq<Chunk>, d: seq<Chunk>) {
    && (forall i :: 0 <= i < |tr| && tr[i].kind.Tool? && tr[i].toolId != "" ==> Holds(tr[i], d, tr[i].toolId))
    && (forall id :: id != "" ==> (Named(tr, id) <==> Named(d, id)))
  }

  /** There is a usage report if one was ever delivered, and it is the last one. */
  ghost predicate UsageIs(tr: seq<Chunk>, d: seq<Chunk>) {
    && (forall i :: 0 <= i < |tr| && tr[i].kind.Usage? ==> LastUsage(d, |d|) == Some(tr[i]))
    && (LastUsage(d, |d|).Some? ==> exists i :: 0 <= i < |tr| && tr[i].kind.Usage?)
  }

  /** Delivering a chunk of another tool, or no tool's, changes no value of this one. */
  lemma OtherDelivered(c: Chunk, d: seq<Chunk>, x: Chunk, id: string)
    requires Holds(c, d, id) && !Of(x, id)
    ensures Holds(c, d + [x], id)
  {
    forall f
      ensures LastValue(d + [x], |d + [x]|, id, f) == LastValue(d, |d|, id, f)
      ensures LastTime(d + [x], |d + [x]|, id) == LastTime(d, |d|, id)
    {
      SameLast(d + [x], d, |d|, id, f);
    }
    SameLast(d + [x], d, |d|, id, TextField);
  }

  lemma UpdateDelivered(c: Chunk, before: Chunk, d: seq<Chunk>, x: Chunk, id: string)
    requires Holds(before, d, id) && Of(x, id) && Newer(c, before, x)
    ensures Holds(c, d + [x], id)
  {
    forall f
      ensures Get(c, f) == LastValue(d + [x], |d + [x]|, id, f)
    {
      SameLast(d + [x], d, |d|, id, f);
    }
    SameLast(d + [x], d, |d|, id, TextField);
  }

  lemma {:induction false} NothingNamed(d: seq<Chunk>, k: nat, id: string, f: Field)
    requires k <= |d| && !Named(d, id)
    ensures LastValue(d, k, id, f) == "" && LastTime(d, k, id) == 0
  {
    if k > 0 {
      NothingNamed(d, k - 1, id, f);
    }
  }

  lemma FirstDelivered(d: seq<Chunk>, x: Chunk, id: string)
    requires !Named(d, id) && Of(x, id)
    ensures Holds(x, d + [x], id)
  {
    forall f
      ensures Get(x, f) == LastValue(d + [x], |d + [x]|, id, f)
    {
      SameLast(d + [x], d, |d|, id, f);
      NothingNamed(d, |d|, id, f);
    }
    SameLast(d + [x], d, |d|, id, TextField);
    NothingNamed(d, |d|, id, TextField);
  }

  lemma NamedNext(d: seq<Chunk>, x: Chunk, id: string)
    ensures Named(d + [x], id) <==> Named(d, id) || Of(x, id)
  {
    if i :| 0 <= i < |d| && Of(d[i], id) {
      assert Of((d + [x])[i], id);
    }
    if Of(x, id) {
      assert Of((d + [x])[|d|], id);
    }
  }

  lemma ToolKept(tr: seq<Chunk>, d: seq<Chunk>, x: Chunk, i: nat)
    requires Unique(tr) && ToolsAre(tr, d) && i < |Placed(tr, x)|
    requires Placed(tr, x)[i].kind.Tool? && Placed(tr, x)[i].toolId != ""
    ensures Holds(Placed(tr, x)[i], d + [x], Placed(tr, x)[i].toolId)
  {
    var t := Placed(tr, x);
    var id := t[i].toolId;
    GrowsByOneOrStays(tr, x);
    if i == |tr| {
      TailStands(tr, x);
      FirstDelivered(d, x, id);
    } else if Of(x, id) {
      ToolUpdate(tr, x, i);
      UpdateDelivered(t[i], tr[i], d, x, id);
    } else {
      OthersStay(tr, x, i);
      OtherDelivered(t[i], d, x, id);
    }
  }

  /** A tool chunk put at the end is the first of its id. */
  lemma TailStands(tr: seq<Chunk>, x: Chunk)
    requires |Placed(tr, x)| > |tr| && x.kind.Tool? && x.toolId != ""
    ensures !Named(tr, x.toolId)
  {
    if i :| 0 <= i < |tr| && Of(tr[i], x.toolId) {
      assert Matches(tr[i], Tool, x.toolId);
    }
  }

  /** A tool chunk changes only by an update of that tool. */
  lemma OthersStay(tr: seq<Chunk>, x: Chunk, i: nat)
    requires i < |tr| && tr[i].kind.Tool? && tr[i].toolId != "" && !Of(x, tr[i].toolId)
    ensures i < |Placed(tr, x)| && Placed(tr, x)[i] == tr[i]
  {
  }

  lemma ToolsKept(tr: seq<Chunk>, d: seq<Chunk>, x: Chunk)
    requires Unique(tr) && ToolsAre(tr, d)
    ensures ToolsAre(Placed(tr, x), d + [x])
  {
    var t := Placed(tr, x);
    forall i | 0 <= i < |t| && t[i].kind.Tool? && t[i].toolId != ""
      ensures Holds(t[i], d + [x], t[i].toolId)
    {
      ToolKept(tr, d, x, i);
    }
    forall id | id != ""
      ensures Named(t, id) <==> Named(d + [x], id)
    {
      NamedNext(d, x, id);
      NamedPlaced(tr, x, id);
    }
  }

  lemma NamedPlaced(tr: seq<Chunk>, x: Chunk, id: string)
    requires id != ""
    ensures Named(Placed(tr, x), id) <==> Named(tr, id) || Of(x, id)
  {
    var t := Placed(tr, x);
    GrowsByOneOrStays(tr, x);
    if t == tr + [x] {
      NamedNext(tr, x, id);
    } else {
      assert forall i :: 0 <= i < |tr| ==> (Of(t[i], id) <==> Of(tr[i], id));
      if Of(x, id) {
        var i := LastMatch(tr, Tool, id);
        assert Of(tr[i], id);
      }
    }
  }

  lemma UsageKept(tr: seq<Chunk>, d: seq<Chunk>, x: Chunk)
    requires Unique(tr) && UsageIs(tr, d)
    ensures UsageIs(Placed(tr, x), d + [x])
  {
    SameLast(d + [x], d, |d|, "", TextField);
    var t := Placed(tr, x);
    GrowsByOneOrStays(tr, x);
    if x.kind.Usage? {
      UsagePlaced(tr, x);
    } else {
      assert forall i :: 0 <= i < |tr| && tr[i].kind.Usage? ==> t[i] == tr[i];
      if i :| 0 <= i < |tr| && tr[i].kind.Usage? {
        assert t[i].kind.Usage?;
      }
    }
  }

  lemma UsagePlaced(tr: seq<Chunk>, x: Chunk)
    requires Unique(tr) && x.kind.Usage?
    ensures var t := Placed(tr, x);
      (exists i :: 0 <= i < |t| && t[i].kind.Usage?) && forall i :: 0 <= i < |t| && t[i].kind.Usage? ==> t[i] == x
  {
    var t := Placed(tr, x);
    if i :| 0 <= i < |tr| && tr[i].kind.Usage? {
      UsageUpdate(tr, x, i);
      assert t[i].kind.Usage?;
    } else {
      StandsAtTheEnd(tr, x);
      assert t[|tr|].kind.Usage?;
    }
  }

  /** As long as the transcript fits the cap, after any run of appends every tool ever named has its
      one chunk, which holds in each field the last value delivered under its id, and the usage
      report is the last one delivered. */
  lemma {:induction false} LastValuesStand(tr: seq<Chunk>, d: seq<Chunk>, chunks: seq<Chunk>)
    requires Unique(tr) && ToolsAre(tr, d) && UsageIs(tr, d) && Fits(tr, chunks)
    ensures ToolsAre(AppendAll(tr, chunks), d + chunks) && UsageIs(AppendAll(tr, chunks), d + chunks)
    decreases |chunks|
  {
    if chunks == [] {
      NothingAdded(d);
    } else {
      var x := chunks[0];
      var _ := TrimKeepsTheEnd(Placed(tr, x));
      PlacedIsUnique(tr, x);
      ToolsKept(tr, d, x);
      UsageKept(tr, d, x);
      LastValuesStand(Append(tr, x), d + [x], chunks[1..]);
      Regroup(d, chunks);
    }
  }

  /** From the empty transcript. */
  lemma RunHoldsLastValues(chunks: seq<Chunk>)
    requires Fits([], chunks)
    ensures ToolsAre(AppendAll([], chunks), chunks) && UsageIs(AppendAll([], chunks), chunks)
  {
    LastValuesStand([], [], chunks);
    NothingBefore(chunks);
  }

  // Sizes.

  /** The size of a transcript is the number of runes in the four bulky fields of its chunks. */
  lemma {:induction false} TotalAdds(a: seq<Chunk>, b: seq<Chunk>, c: Chunk)
    ensures Total(a + b) == Total(a) + Total(b)
    ensures Total([c]) == |c.text| + |c.toolTitle| + |c.toolInput| + |c.toolOutput|
  {
    assert [c][1..] == [];
    if a == [] {
      NothingBefore(b);
    } else {
      TailOfJoin(a, b);
      TotalAdds(a[1..], b, c);
    }
  }

  /** The bytes of a text are those of its runes: one for 7 bits, two for 11, three for 16, else four. */
  lemma {:induction false} BytesAdd(a: string, b: string, c: char)
    ensures Bytes(a + b) == Bytes(a) + Bytes(b)
    ensures Bytes([c]) == if c as int < 128 then 1 else if c as int < 2048 then 2 else if c as int < 65536 then 3 else 4
  {
    assert [c][1..] == [];
    if a == [] {
      NothingBefore(b);
    } else {
      TailOfJoin(a, b);
      BytesAdd(a[1..], b, c);
    }
  }

  /** After any run of appends there are at most 256 Ki runes. */
  lemma CapIs(chunks: seq<Chunk>)
    ensures Total(AppendAll([], chunks)) <= 262_144
  {
    EveryRunIsSound([], [], chunks);
  }

  // What is cut from a chunk over the cap.

  /** Text goes first, then output, then input, and the title last; nothing else changes, and what
      is left of each is its end. */
  lemma ShrinkGoesInOrder(c: Chunk)
    ensures var s := Shrink(c);
      && s == c.(text := s.text, toolOutput := s.toolOutput, toolInput := s.toolInput, toolTitle := s.toolTitle)
      && IsSuffix(s.text, c.text) && IsSuffix(s.toolOutput, c.toolOutput)
      && IsSuffix(s.toolInput, c.toolInput) && IsSuffix(s.toolTitle, c.toolTitle)
      && (s.toolOutput != c.toolOutput ==> s.text == "")
      && (s.toolInput != c.toolInput ==> s.text == "" && s.toolOutput == "")
      && (s.toolTitle != c.toolTitle ==> s.text == "" && s.toolOutput == "" && s.toolInput == "")
  {
    var a := CutText(c);
    var b := CutOutput(a);
    var e := CutInput(b);
    assert Size(a) > TRANSCRIPT_CAP ==> a.text == "";
    assert Size(b) > TRANSCRIPT_CAP ==> b.toolOutput == "" && b.text == "";
    assert Size(e) > TRANSCRIPT_CAP ==> e.toolInput == "";
  }
}
