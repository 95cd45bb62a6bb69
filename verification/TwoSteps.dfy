/** Decisions and claims as the store sees them: each loads its challenge in one step and saves its
    copy in another. Claims exclude each other; decisions take no lock. */
module TwoSteps {
  import opened Collections
  import opened Pairing
  import opened PairingRuns

  /** A decided copy on its way back to the store. */
  datatype Copy = Copy(id: string, row: Challenge)

  /** The claim that holds the lock, with the challenge it has loaded. */
  datatype Claim = Claim(op: Op, row: Challenge)

  datatype Office = Office(desk: Desk, copies: map<nat, Copy>, claim: Option<Claim>)

  datatype Move =
    | Whole(op: Op)
    | Load(request: nat, id: string, verdict: State, device: string, now: int)
    | Save(request: nat, saved: bool)
    | Enter(op: Op)
    | Settle

  predicate Possible(s: Office, m: Move) {
    match m
    case Whole(op) =>
      op.Knock? || op.Arrive? || (op.Create? && op.id !in s.desk.challenges)
    case Load(request, _, verdict, _, _) => request !in s.copies && verdict in {Approved, Rejected}
    case Save(request, _) => request in s.copies
    case Enter(op) => s.claim.None? && op.Exchange?
    case Settle => s.claim.Some? && s.claim.value.op.Exchange?
  }

  function DoLoad(s: Office, request: nat, id: string, verdict: State, device: string, now: int): (Office, Reply) {
    if id !in s.desk.challenges then (s, Err(NotFound))
    else
      var c := s.desk.challenges[id];
      match Obstacle(c, Pending, now)
      case Some(err) => (s, Err(StateError(c.state, err)))
      case None => (s.(copies := s.copies[request := Copy(id, OnCopy(c, verdict, device, now))]), Ok(""))
  }

  function Stored(d: Desk, id: string, row: Challenge): Desk { d.(challenges := d.challenges[id := row]) }

  function DoSave(s: Office, request: nat, saved: bool): (Office, Reply)
    requires request in s.copies
  {
    var copy := s.copies[request];
    var rest := map r | r in s.copies && r != request :: s.copies[r];
    if saved then (Office(Stored(s.desk, copy.id, copy.row), rest, s.claim), Ok(""))
    else (s.(copies := rest), Err(Internal))
  }

  function DoEnter(s: Office, op: Op, hash: string -> string): (Office, Reply)
    requires op.Exchange?
  {
    match Refusal(s.desk, op, hash)
    case Some(_) => var (d, r) := DoExchange(s.desk, op, hash); (s.(desk := d), r)
    case None => (s.(claim := Some(Claim(op, s.desk.challenges[op.id]))), Ok(""))
  }

  /** The claim saves its own copy, whatever the store holds by now. */
  function DoSettle(s: Office, hash: string -> string): (Office, Reply)
    requires s.claim.Some? && s.claim.value.op.Exchange?
  {
    var op, c, open := s.claim.value.op, s.claim.value.row, s.(claim := None);
    if !op.claimed then (open, Err(Internal))
    else
      var d := Stored(s.desk, op.id, Decided(c, Used, op.now));
      if !op.generated || !op.saved then (open.(desk := d), Err(Internal))
      else (open.(desk := d.(sessions := d.sessions[op.session := NewSession(c.device, op, hash)])), Ok(op.token))
  }

  function Act(s: Office, m: Move, hash: string -> string): (Office, Reply)
    requires Possible(s, m)
  {
    match m
    case Whole(op) => var (d, r) := Do(s.desk, op, hash); (s.(desk := d), r)
    case Load(request, id, verdict, device, now) => DoLoad(s, request, id, verdict, device, now)
    case Save(request, saved) => DoSave(s, request, saved)
    case Enter(op) => DoEnter(s, op, hash)
    case Settle => DoSettle(s, hash)
  }

  // Two steps with nothing between are one.

  lemma DecisionAtOnce(s: Office, request: nat, id: string, verdict: State, device: string, now: int, saved: bool)
    requires request !in s.copies
    ensures var (t, r) := DoLoad(s, request, id, verdict, device, now);
      var (u, q) := if request in t.copies then DoSave(t, request, saved) else (t, r);
      (u.desk, q) == DoDecide(s.desk, id, verdict, device, now, saved) && u.copies == s.copies && u.claim == s.claim
  {
    var t := DoLoad(s, request, id, verdict, device, now).0;
    if request in t.copies {
      var u := DoSave(t, request, saved).0;
      assert u.copies == s.copies;
    }
  }

  lemma ClaimAtOnce(s: Office, op: Op, hash: string -> string)
    requires s.claim.None? && op.Exchange?
    ensures var (t, r) := DoEnter(s, op, hash);
      var (u, q) := if t.claim.Some? then DoSettle(t, hash) else (t, r);
      (u.desk, q) == DoExchange(s.desk, op, hash) && u.copies == s.copies && u.claim == s.claim
  {
  }

  /** Any other operation is one step on the store, and leaves copies and claim alone. */
  lemma WholeIsOneStep(s: Office, op: Op, hash: string -> string)
    requires Possible(s, Whole(op))
    ensures var (t, r) := Act(s, Whole(op), hash);
      (t.desk, r) == Do(s.desk, op, hash) && t.copies == s.copies && t.claim == s.claim
  {
  }

  // Runs.

  datatype Story = Story(moves: seq<Move>, offices: seq<Office>, replies: seq<Reply>)
  {
    ghost predicate Shaped() { |offices| == |moves| + 1 && |replies| == |moves| }
  }

  ghost predicate Moved(story: Story, k: nat, hash: string -> string)
    requires story.Shaped() && k < |story.moves|
  {
    && Possible(story.offices[k], story.moves[k])
    && (story.offices[k + 1], story.replies[k]) == Act(story.offices[k], story.moves[k], hash)
  }

  ghost predicate IsStory(story: Story, hash: string -> string) {
    && story.Shaped()
    && story.offices[0] == Office(Empty(), map[], None)
    && forall k :: 0 <= k < |story.moves| ==> Moved(story, k, hash)
  }

  predicate Claiming(s: Office, id: string) {
    s.claim.Some? && s.claim.value.op.Exchange? && s.claim.value.op.id == id
  }

  /** A copy of the challenge is saved. */
  predicate SavesOn(s: Office, m: Move, id: string) {
    m.Save? && m.saved && m.request in s.copies && s.copies[m.request].id == id
  }

  /** The save finds its challenge pending, or decided in the same way. */
  predicate Timely(s: Office, m: Move) {
    m.Save? && m.saved && m.request in s.copies ==>
      var copy := s.copies[m.request];
      copy.id in s.desk.challenges && s.desk.challenges[copy.id].state in {Pending, copy.row.state}
  }

  // What all runs keep.

  /** Copies and the claim are of stored challenges, with the stored code and expiry; a copy is
      decided and a claim was approved. */
  ghost predicate Kept(s: Office) {
    && (forall r :: r in s.copies ==> KeptCopy(s, s.copies[r]))
    && (s.claim.Some? ==> KeptClaim(s, s.claim.value))
  }

  predicate KeptCopy(s: Office, copy: Copy) {
    && copy.row.state in {Approved, Rejected}
    && copy.id in s.desk.challenges && SameCode(s.desk.challenges[copy.id], copy.row)
  }

  predicate KeptClaim(s: Office, c: Claim) {
    && c.op.Exchange? && c.row.state == Approved
    && c.op.id in s.desk.challenges && SameCode(s.desk.challenges[c.op.id], c.row)
  }

  /** A move keeps every challenge, its code and its expiry; a state changes only by a save of a copy
      or by a claim. */
  lemma OneMove(s: Office, m: Move, id: string, hash: string -> string)
    requires Kept(s) && Possible(s, m) && id in s.desk.challenges
    ensures var t := Act(s, m, hash).0;
      && id in t.desk.challenges && SameCode(s.desk.challenges[id], t.desk.challenges[id])
      && t.desk.challenges[id].state ==
           if SavesOn(s, m, id) then s.copies[m.request].row.state
           else if m.Settle? && Claiming(s, id) && s.claim.value.op.claimed then Used
           else s.desk.challenges[id].state
  {
    if m.Save? {
      assert KeptCopy(s, s.copies[m.request]);
    } else if m.Enter? {
      EnterKeeps(s, m.op, hash);
    } else if m.Whole? {
      WholeKeeps(s, m.op, id, hash);
    }
  }

  lemma EnterKeeps(s: Office, op: Op, hash: string -> string)
    requires op.Exchange?
    ensures DoEnter(s, op, hash).0.desk.challenges == s.desk.challenges
  {
  }

  lemma WholeKeeps(s: Office, op: Op, id: string, hash: string -> string)
    requires op.Knock? || op.Arrive? || (op.Create? && op.id !in s.desk.challenges)
    requires id in s.desk.challenges
    ensures var c := Do(s.desk, op, hash).0.challenges; id in c && c[id] == s.desk.challenges[id]
  {
  }

  lemma MoveKeeps(s: Office, m: Move, hash: string -> string)
    requires Kept(s) && Possible(s, m)
    ensures Kept(Act(s, m, hash).0)
  {
    var t := Act(s, m, hash).0;
    forall r | r in t.copies
      ensures KeptCopy(t, t.copies[r])
    {
      if r in s.copies {
        assert KeptCopy(s, s.copies[r]);
        OneMove(s, m, s.copies[r].id, hash);
      }
    }
    if t.claim.Some? && s.claim.Some? {
      OneMove(s, m, s.claim.value.op.id, hash);
    }
  }

  lemma {:induction false} StoryKeeps(story: Story, k: nat, hash: string -> string)
    requires IsStory(story, hash) && k <= |story.moves|
    ensures Kept(story.offices[k])
  {
    if k > 0 {
      StoryKeeps(story, k - 1, hash);
      assert Moved(story, k - 1, hash);
      MoveKeeps(story.offices[k - 1], story.moves[k - 1], hash);
    }
  }

  // The life of a challenge.

  /** Every state a challenge may be given leads on from the one it had, exactly when the save that
      gives it finds the challenge pending or decided in the same way. */
  lemma LeadsOnExactly(s: Office, m: Move, id: string, hash: string -> string)
    requires Kept(s) && Possible(s, m) && id in s.desk.challenges && SavesOn(s, m, id)
    ensures id in Act(s, m, hash).0.desk.challenges
    ensures Leads(s.desk.challenges[id].state, Act(s, m, hash).0.desk.challenges[id].state) <==> Timely(s, m)
  {
    OneMove(s, m, id, hash);
    assert KeptCopy(s, s.copies[m.request]);
  }

  /** The challenge being claimed is still approved. */
  ghost predicate ClaimOpen(s: Office) {
    forall id :: Claiming(s, id) ==> id in s.desk.challenges && s.desk.challenges[id].state == Approved
  }

  lemma TimelyMove(s: Office, m: Move, id: string, hash: string -> string)
    requires Kept(s) && ClaimOpen(s) && Possible(s, m) && Timely(s, m) && id in s.desk.challenges
    ensures id in Act(s, m, hash).0.desk.challenges
    ensures Leads(s.desk.challenges[id].state, Act(s, m, hash).0.desk.challenges[id].state)
  {
    OneMove(s, m, id, hash);
    if SavesOn(s, m, id) {
      LeadsOnExactly(s, m, id, hash);
    }
  }

  lemma ClaimStaysOpen(s: Office, m: Move, hash: string -> string)
    requires Kept(s) && ClaimOpen(s) && Possible(s, m) && Timely(s, m)
    ensures ClaimOpen(Act(s, m, hash).0)
  {
    var t := Act(s, m, hash).0;
    forall id | Claiming(t, id)
      ensures id in t.desk.challenges && t.desk.challenges[id].state == Approved
    {
      if Claiming(s, id) {
        OneMove(s, m, id, hash);
      }
    }
  }

  ghost predicate AllTimely(story: Story, k: nat)
    requires story.Shaped() && k <= |story.moves|
  {
    forall j :: 0 <= j < k ==> Timely(story.offices[j], story.moves[j])
  }

  lemma {:induction false} ClaimsAreOpen(story: Story, k: nat, hash: string -> string)
    requires IsStory(story, hash) && k <= |story.moves| && AllTimely(story, k)
    ensures ClaimOpen(story.offices[k])
  {
    if k > 0 {
      ClaimsAreOpen(story, k - 1, hash);
      StoryKeeps(story, k - 1, hash);
      assert Moved(story, k - 1, hash);
      ClaimStaysOpen(story.offices[k - 1], story.moves[k - 1], hash);
    }
  }

  /** While every save is timely, challenges live as they do when decisions are one step. */
  lemma {:induction false} TimelyLifecycle(story: Story, i: nat, k: nat, id: string, hash: string -> string)
    requires IsStory(story, hash) && i <= k <= |story.moves| && AllTimely(story, k)
    requires id in story.offices[i].desk.challenges
    ensures id in story.offices[k].desk.challenges
    ensures SameCode(story.offices[i].desk.challenges[id], story.offices[k].desk.challenges[id])
    ensures Leads(story.offices[i].desk.challenges[id].state, story.offices[k].desk.challenges[id].state)
  {
    if i < k {
      TimelyLifecycle(story, i, k - 1, id, hash);
      ClaimsAreOpen(story, k - 1, hash);
      StoryKeeps(story, k - 1, hash);
      assert Moved(story, k - 1, hash) && Timely(story.offices[k - 1], story.moves[k - 1]);
      OneMove(story.offices[k - 1], story.moves[k - 1], id, hash);
      TimelyMove(story.offices[k - 1], story.moves[k - 1], id, hash);
    }
  }

  // One session for each challenge.

  /** The challenge is used up and nobody is claiming it. */
  predicate Spent(s: Office, id: string) {
    && id in s.desk.challenges && s.desk.challenges[id].state == Used
    && !Claiming(s, id)
  }

  lemma SpentStaysExactly(s: Office, m: Move, id: string, hash: string -> string)
    requires Kept(s) && Possible(s, m) && Spent(s, id)
    ensures Spent(Act(s, m, hash).0, id) <==> !SavesOn(s, m, id)
  {
    OneMove(s, m, id, hash);
    if m.Save? {
      assert KeptCopy(s, s.copies[m.request]);
    }
  }

  ghost predicate SpentThrough(story: Story, i: nat, j: nat, id: string)
    requires story.Shaped() && j <= |story.moves|
  {
    forall k :: i <= k <= j ==> Spent(story.offices[k], id)
  }

  ghost predicate Unsaved(story: Story, i: nat, j: nat, id: string)
    requires story.Shaped() && j <= |story.moves|
  {
    forall k :: i <= k < j ==> !SavesOn(story.offices[k], story.moves[k], id)
  }

  /** A challenge that is used up stays so, and is claimed by nobody, exactly as long as no copy of it
      is saved. */
  lemma {:induction false} StaysSpentExactly(story: Story, i: nat, j: nat, id: string, hash: string -> string)
    requires IsStory(story, hash) && i <= j <= |story.moves| && Spent(story.offices[i], id)
    ensures SpentThrough(story, i, j, id) <==> Unsaved(story, i, j, id)
  {
    if i < j {
      StaysSpentExactly(story, i, j - 1, id, hash);
      if SpentThrough(story, i, j - 1, id) {
        StoryKeeps(story, j - 1, hash);
        assert Moved(story, j - 1, hash) && Spent(story.offices[j - 1], id);
        SpentStaysExactly(story.offices[j - 1], story.moves[j - 1], id, hash);
      }
    }
  }

  predicate Issues(story: Story, k: nat, id: string)
    requires story.Shaped() && k < |story.moves|
  {
    && story.moves[k].Settle? && story.replies[k].Ok?
    && Claiming(story.offices[k], id)
  }

  lemma IssuingSpends(story: Story, k: nat, id: string, hash: string -> string)
    requires IsStory(story, hash) && k < |story.moves| && Issues(story, k, id)
    ensures Spent(story.offices[k + 1], id)
  {
    assert Moved(story, k, hash);
  }

  /** A challenge yields no second session unless a copy of it is saved after its claim. */
  lemma OneSessionUnlessSaved(story: Story, i: nat, j: nat, id: string, hash: string -> string)
    requires IsStory(story, hash) && i < j < |story.moves|
    requires Issues(story, i, id) && Issues(story, j, id)
    ensures !Unsaved(story, i + 1, j, id)
  {
    IssuingSpends(story, i, id, hash);
    StaysSpentExactly(story, i + 1, j, id, hash);
    assert !Spent(story.offices[j], id);
  }

  // The story behind a session.

  /** A decision that found its challenge pending, in time. */
  predicate Decides(story: Story, a: nat, id: string, verdict: State)
    requires story.Shaped() && a < |story.moves|
  {
    var m, c := story.moves[a], story.offices[a].desk.challenges;
    && m.Load? && m.id == id && m.verdict == verdict
    && id in c && c[id].state == Pending && m.now < c[id].expiresAt
  }

  lemma {:induction false} CopyStems(story: Story, k: nat, request: nat, hash: string -> string) returns (a: nat)
    requires IsStory(story, hash) && k <= |story.moves| && request in story.offices[k].copies
    ensures var copy := story.offices[k].copies[request]; a < k && Decides(story, a, copy.id, copy.row.state)
  {
    assert Moved(story, k - 1, hash);
    if request in story.offices[k - 1].copies && story.moves[k - 1] != Save(request, true) {
      a := CopyStems(story, k - 1, request, hash);
    } else {
      a := k - 1;
    }
  }

  /** An approved challenge was approved by a decision that found it pending, in time: in every run. */
  lemma {:induction false} ApprovalStems(story: Story, k: nat, id: string, hash: string -> string) returns (a: nat)
    requires IsStory(story, hash) && k <= |story.moves| && id in story.offices[k].desk.challenges
    requires story.offices[k].desk.challenges[id].state == Approved
    ensures a < k && Decides(story, a, id, Approved)
  {
    assert Moved(story, k - 1, hash);
    StoryKeeps(story, k - 1, hash);
    var s, m := story.offices[k - 1], story.moves[k - 1];
    if id in s.desk.challenges {
      OneMove(s, m, id, hash);
      if SavesOn(s, m, id) {
        a := CopyStems(story, k - 1, m.request, hash);
      } else {
        a := ApprovalStems(story, k - 1, id, hash);
      }
    } else {
      assert false;
    }
  }

  /** The claim that holds the lock found its challenge approved, unexpired and with its code. */
  predicate Enters(story: Story, e: nat, claim: Claim, hash: string -> string)
    requires story.Shaped() && e < |story.moves|
  {
    && story.moves[e] == Enter(claim.op) && claim.op.Exchange?
    && claim.op.id in story.offices[e].desk.challenges && story.offices[e].desk.challenges[claim.op.id] == claim.row
    && claim.row.state == Approved && claim.op.now < claim.row.expiresAt && hash(claim.op.code) == claim.row.codeHash
  }

  lemma {:induction false} ClaimStems(story: Story, k: nat, hash: string -> string) returns (e: nat)
    requires IsStory(story, hash) && k <= |story.moves| && story.offices[k].claim.Some?
    ensures e < k && Enters(story, e, story.offices[k].claim.value, hash)
  {
    assert Moved(story, k - 1, hash);
    if story.offices[k - 1].claim.Some? {
      e := ClaimStems(story, k - 1, hash);
    } else {
      e := k - 1;
    }
  }

  /** In every run, whatever comes between loads and saves, a session goes back to an approval that
      found its challenge pending and unexpired, and then to a claim that found it approved,
      unexpired and with the hash of the claim's code. */
  lemma SessionStems(story: Story, k: nat, id: string, hash: string -> string) returns (a: nat, e: nat)
    requires IsStory(story, hash) && k < |story.moves| && Issues(story, k, id)
    ensures a < e < k && Decides(story, a, id, Approved) && Enters(story, e, story.offices[k].claim.value, hash)
  {
    e := ClaimStems(story, k, hash);
    a := ApprovalStems(story, e, id, hash);
  }
}
