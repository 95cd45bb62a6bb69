/** Whole runs of the pairing service: the life of a challenge, the story behind every session,
    and the bounds on creations and guesses. */
module PairingRuns {
  import opened Collections
  import opened RateLimit
  import opened Pairing

  /** Operations, the books before and after each, and the replies. */
  datatype Run = Run(ops: seq<Op>, books: seq<Desk>, replies: seq<Reply>)
  {
    ghost predicate Shaped() { |books| == |ops| + 1 && |replies| == |ops| }

    predicate Succeeds(k: nat)
      requires k < |replies|
    {
      replies[k].Ok?
    }
  }

  ghost predicate Link(run: Run, k: nat, hash: string -> string)
    requires run.Shaped() && k < |run.ops|
  {
    (run.books[k + 1], run.replies[k]) == Do(run.books[k], run.ops[k], hash)
  }

  /** Random identifiers do not collide. */
  ghost predicate Fresh(run: Run, k: nat)
    requires run.Shaped() && k < |run.ops|
  {
    && (run.ops[k].Create? ==> run.ops[k].id !in run.books[k].challenges)
    && (run.ops[k].Exchange? ==> run.ops[k].session !in run.books[k].sessions)
  }

  ghost predicate IsRun(run: Run, hash: string -> string) {
    && run.Shaped()
    && run.books[0] == Empty()
    && forall k :: 0 <= k < |run.ops| ==> Link(run, k, hash) && Fresh(run, k)
  }

  // The life of a challenge.

  /** Where a challenge can get: pending to approved to used, or pending to rejected. */
  predicate Leads(a: State, b: State) {
    a == b || (a == Pending && b in {Approved, Used, Rejected}) || (a == Approved && b == Used)
  }

  predicate SameCode(c: Challenge, d: Challenge) {
    d.codeHash == c.codeHash && d.createdAt == c.createdAt && d.expiresAt == c.expiresAt
  }

  /** What one operation may do to a challenge that exists: its code, creation and expiry stay, and
      its state moves only by a decision on that very challenge, in time, or by its exchange. */
  ghost predicate Moves(c: Challenge, d: Challenge, op: Op, id: string, ok: bool) {
    && SameCode(c, d)
    && (d.state != c.state ==> !op.Create? && !op.Knock? && !op.Arrive? && op.id == id)
    && (op.Approve? && op.id == id && ok ==> c.state == Pending && d.state == Approved && op.now < c.expiresAt)
    && (op.Reject? && op.id == id && ok ==> c.state == Pending && d.state == Rejected && op.now < c.expiresAt)
    && ((op.Approve? || op.Reject?) && !ok ==> d.state == c.state)
    && (op.Exchange? && op.id == id && ok ==>
        c.state == Approved && d.state == Used && op.now < c.expiresAt)
    && (op.Exchange? && d.state != c.state ==> c.state == Approved && d.state == Used)
  }

  lemma OneStep(d: Desk, op: Op, id: string, hash: string -> string)
    requires id in d.challenges && (op.Create? ==> op.id !in d.challenges)
    ensures var (e, r) := Do(d, op, hash);
      id in e.challenges && Moves(d.challenges[id], e.challenges[id], op, id, r.Ok?)
  {
    if op.Exchange? {
      OneExchange(d, op, id, hash);
    } else if op.Approve? || op.Reject? {
      OneDecision(d, op, id, hash);
    }
  }

  lemma OneExchange(d: Desk, op: Op, id: string, hash: string -> string)
    requires id in d.challenges && op.Exchange?
    ensures var (e, r) := DoExchange(d, op, hash);
      id in e.challenges && Moves(d.challenges[id], e.challenges[id], op, id, r.Ok?)
  {
  }

  lemma OneDecision(d: Desk, op: Op, id: string, hash: string -> string)
    requires id in d.challenges && (op.Approve? || op.Reject?)
    ensures var (e, r) := Do(d, op, hash);
      id in e.challenges && Moves(d.challenges[id], e.challenges[id], op, id, r.Ok?)
  {
  }

  lemma StepMoves(run: Run, k: nat, id: string, hash: string -> string)
    requires IsRun(run, hash) && k < |run.ops| && id in run.books[k].challenges
    ensures id in run.books[k + 1].challenges
    ensures Moves(run.books[k].challenges[id], run.books[k + 1].challenges[id], run.ops[k], id, run.Succeeds(k))
  {
    assert Link(run, k, hash) && Fresh(run, k);
    OneStep(run.books[k], run.ops[k], id, hash);
  }

  /** In every run a challenge, once made, stays; its code and expiry never change; and its state
      only moves from pending to approved to used, or from pending to rejected. */
  lemma {:induction false} Lifecycle(run: Run, i: nat, k: nat, id: string, hash: string -> string)
    requires IsRun(run, hash) && i <= k <= |run.ops| && id in run.books[i].challenges
    ensures id in run.books[k].challenges
    ensures SameCode(run.books[i].challenges[id], run.books[k].challenges[id])
    ensures Leads(run.books[i].challenges[id].state, run.books[k].challenges[id].state)
  {
    if i < k {
      Lifecycle(run, i, k - 1, id, hash);
      StepMoves(run, k - 1, id, hash);
    }
  }

  lemma FoundByExchange(d: Desk, op: Op, hash: string -> string)
    requires op.Exchange? && Do(d, op, hash).1.Ok?
    ensures op.id in d.challenges && hash(op.code) == d.challenges[op.id].codeHash
  {
  }

  lemma FoundByReject(d: Desk, op: Op, hash: string -> string)
    requires op.Reject? && Do(d, op, hash).1.Ok?
    ensures op.id in d.challenges
  {
  }

  /** A successful exchange finds its challenge approved, unexpired and with the code's hash. */
  lemma ExchangeUses(run: Run, k: nat, hash: string -> string)
    requires IsRun(run, hash) && k < |run.ops| && run.ops[k].Exchange? && run.Succeeds(k)
    ensures var id := run.ops[k].id; id in run.books[k].challenges && id in run.books[k + 1].challenges
    ensures var c := run.books[k].challenges[run.ops[k].id];
      c.state == Approved && run.ops[k].now < c.expiresAt && hash(run.ops[k].code) == c.codeHash
    ensures run.books[k + 1].challenges[run.ops[k].id].state == Used
  {
    assert Link(run, k, hash);
    FoundByExchange(run.books[k], run.ops[k], hash);
    StepMoves(run, k, run.ops[k].id, hash);
  }

  lemma RejectSettles(run: Run, k: nat, hash: string -> string)
    requires IsRun(run, hash) && k < |run.ops| && run.ops[k].Reject? && run.Succeeds(k)
    ensures var id := run.ops[k].id; id in run.books[k].challenges && id in run.books[k + 1].challenges
    ensures run.books[k].challenges[run.ops[k].id].state == Pending
    ensures run.books[k + 1].challenges[run.ops[k].id].state == Rejected
  {
    assert Link(run, k, hash);
    FoundByReject(run.books[k], run.ops[k], hash);
    StepMoves(run, k, run.ops[k].id, hash);
  }

  /** Each challenge yields at most one session. */
  lemma OneSessionPerChallenge(run: Run, i: nat, j: nat, hash: string -> string)
    requires IsRun(run, hash) && i < j < |run.ops|
    requires run.ops[i].Exchange? && run.ops[j].Exchange? && run.Succeeds(i) && run.Succeeds(j)
    ensures run.ops[i].id != run.ops[j].id
  {
    ExchangeUses(run, i, hash);
    ExchangeUses(run, j, hash);
    Lifecycle(run, i + 1, j, run.ops[i].id, hash);
  }

  lemma FirstSeen(d: Desk, op: Op, id: string, hash: string -> string)
    requires id !in d.challenges && id in Do(d, op, hash).0.challenges
    ensures op.Create? && op.id == id && Do(d, op, hash).1.Ok?
    ensures Do(d, op, hash).0.challenges[id] == NewChallenge(hash(op.code), op.now)
  {
  }

  lemma StepMakes(run: Run, k: nat, id: string, hash: string -> string)
    requires IsRun(run, hash) && k < |run.ops| && id !in run.books[k].challenges && id in run.books[k + 1].challenges
    ensures run.ops[k].Create? && run.ops[k].id == id && run.Succeeds(k)
    ensures var c := run.books[k + 1].challenges[id];
      c == NewChallenge(hash(run.ops[k].code), run.ops[k].now)
  {
    assert Link(run, k, hash);
    FirstSeen(run.books[k], run.ops[k], id, hash);
  }

  /** A challenge in the books was made by an operation of the run. */
  lemma {:induction false} MadeAt(run: Run, k: nat, id: string, hash: string -> string) returns (m: nat)
    requires IsRun(run, hash) && k <= |run.ops| && id in run.books[k].challenges
    ensures m < k && run.ops[m].Create? && run.ops[m].id == id && run.Succeeds(m)
    ensures var c := run.books[k].challenges[id];
      && c.codeHash == hash(run.ops[m].code)
      && c.createdAt == run.ops[m].now && c.expiresAt == run.ops[m].now + CHALLENGE_TTL
  {
    if id in run.books[k - 1].challenges {
      m := MadeAt(run, k - 1, id, hash);
      StepMoves(run, k - 1, id, hash);
    } else {
      m := k - 1;
      StepMakes(run, k - 1, id, hash);
    }
  }

  /** A challenge that is approved was approved by an operation of the run, in time. */
  lemma {:induction false} ApprovedAt(run: Run, k: nat, id: string, hash: string -> string) returns (a: nat)
    requires IsRun(run, hash) && k <= |run.ops| && id in run.books[k].challenges
    requires run.books[k].challenges[id].state == Approved
    ensures a < k && run.ops[a].Approve? && run.ops[a].id == id && run.Succeeds(a)
    ensures id in run.books[a].challenges && run.ops[a].now < run.books[a].challenges[id].expiresAt
  {
    if id !in run.books[k - 1].challenges {
      StepMakes(run, k - 1, id, hash);
    } else {
      StepMoves(run, k - 1, id, hash);
      if run.books[k - 1].challenges[id].state == Approved {
        a := ApprovedAt(run, k - 1, id, hash);
      } else {
        a := k - 1;
      }
    }
  }

  /** The story behind every session: the challenge was made, then approved before it expired, then
      exchanged before it expired, for a code with the same hash; and it is never rejected. */
  lemma SessionStory(run: Run, k: nat, hash: string -> string) returns (m: nat, a: nat)
    requires IsRun(run, hash) && k < |run.ops| && run.ops[k].Exchange? && run.Succeeds(k)
    ensures m < a < k
    ensures run.ops[m].Create? && run.ops[m].id == run.ops[k].id && run.Succeeds(m)
    ensures run.ops[a].Approve? && run.ops[a].id == run.ops[k].id && run.Succeeds(a)
    ensures hash(run.ops[k].code) == hash(run.ops[m].code)
    ensures run.ops[a].now < run.ops[m].now + CHALLENGE_TTL && run.ops[k].now < run.ops[m].now + CHALLENGE_TTL
    ensures forall j :: 0 <= j < |run.ops| && run.ops[j].Reject? && run.ops[j].id == run.ops[k].id ==> !run.Succeeds(j)
  {
    var id := run.ops[k].id;
    ExchangeUses(run, k, hash);
    a := ApprovedAt(run, k, id, hash);
    m := MadeAt(run, a, id, hash);
    Lifecycle(run, a, k, id, hash);
    forall j | 0 <= j < |run.ops| && run.ops[j].Reject? && run.ops[j].id == id
      ensures !run.Succeeds(j)
    {
      NeverRejected(run, k, j, hash);
    }
  }

  lemma NeverRejected(run: Run, k: nat, j: nat, hash: string -> string)
    requires IsRun(run, hash) && k < |run.ops| && run.ops[k].Exchange? && run.Succeeds(k)
    requires j < |run.ops| && run.ops[j].Reject? && run.ops[j].id == run.ops[k].id
    ensures !run.Succeeds(j)
  {
    if run.Succeeds(j) {
      ExchangeUses(run, k, hash);
      RejectSettles(run, j, hash);
      if j < k {
        Lifecycle(run, j + 1, k, run.ops[k].id, hash);
      } else {
        Lifecycle(run, k + 1, j, run.ops[k].id, hash);
      }
    }
  }

  // Sessions.

  function Issued(run: Run, k: nat): nat
    requires k <= |run.ops| && k <= |run.replies|
  {
    if k == 0 then 0 else Issued(run, k - 1) + (if run.ops[k - 1].Exchange? && run.Succeeds(k - 1) then 1 else 0)
  }

  lemma SessionStep(d: Desk, op: Op, hash: string -> string)
    requires op.Exchange? ==> op.session !in d.sessions
    ensures var (e, r) := Do(d, op, hash);
      if op.Exchange? && r.Ok? then
        op.id in d.challenges
        && e.sessions == d.sessions[op.session := NewSession(d.challenges[op.id].device, op, hash)]
        && |e.sessions| == |d.sessions| + 1
      else e.sessions == d.sessions
  {
  }

  /** The store holds one session for each successful exchange. */
  lemma {:induction false} SessionsAreTheSuccesses(run: Run, k: nat, hash: string -> string)
    requires IsRun(run, hash) && k <= |run.ops|
    ensures |run.books[k].sessions| == Issued(run, k)
  {
    if k > 0 {
      SessionsAreTheSuccesses(run, k - 1, hash);
      assert Link(run, k - 1, hash) && Fresh(run, k - 1);
      SessionStep(run.books[k - 1], run.ops[k - 1], hash);
    }
  }

  /** Every stored session is the one its exchange issued, for the life of a session. */
  lemma {:induction false} SessionOrigin(run: Run, k: nat, session: string, hash: string -> string) returns (i: nat)
    requires IsRun(run, hash) && k <= |run.ops| && session in run.books[k].sessions
    ensures i < k && run.ops[i].Exchange? && run.Succeeds(i) && run.ops[i].session == session
    ensures var s := run.books[k].sessions[session];
      && s.tokenHash == hash(run.ops[i].token)
      && s.createdAt == run.ops[i].now && s.expiresAt == run.ops[i].now + SESSION_TTL
  {
    assert Link(run, k - 1, hash) && Fresh(run, k - 1);
    SessionStep(run.books[k - 1], run.ops[k - 1], hash);
    if session in run.books[k - 1].sessions {
      i := SessionOrigin(run, k - 1, session, hash);
    } else {
      i := k - 1;
    }
  }

  // The bounds on creations and on guesses.

  /** The two limiters of the service. */
  datatype Lane = ToCreate | ToExchange

  function MaxOf(lane: Lane): nat {
    match lane case ToCreate => CREATE_MAX case ToExchange => EXCHANGE_MAX
  }

  function BucketsOf(d: Desk, lane: Lane): Buckets {
    match lane case ToCreate => d.creations case ToExchange => d.failures
  }

  /** Does the operation cost its source a slot, and with which reading? A creation does unless it is
      refused for its rate, an exchange if its refusal is one that counts. */
  function Cost(lane: Lane, op: Op, r: Reply): Option<int> {
    match lane
    case ToCreate => if op.Create? && r != Err(RateLimited) then Some(op.check) else None
    case ToExchange =>
      if op.Exchange? && r.Err? && r.code in {NotFound, CodeExpired, CodeRejected, CodeUsed} then Some(op.record)
      else None
  }

  /** The slots a source was charged for in the first k operations. */
  function Charged(run: Run, k: nat, source: Source, lane: Lane): seq<int>
    requires k <= |run.ops| && k <= |run.replies|
  {
    if k == 0 then []
    else
      var before := Charged(run, k - 1, source, lane);
      var op := run.ops[k - 1];
      match Cost(lane, op, run.replies[k - 1])
      case Some(at) => if op.source == source then before + [at] else before
      case None => before
  }

  /** What a limiter sees of an operation. */
  function Seen(lane: Lane, op: Op, r: Reply): Option<Event> {
    match lane
    case ToCreate =>
      if op.Knock? then Some(Read(op.source, op.ticket, op.clock))
      else if op.Create? then Some(Take(op.source, op.ticket, op.check, op.clock, r != Err(RateLimited)))
      else None
    case ToExchange =>
      if op.Arrive? then Some(Check(op.source, op.ticket, op.check, op.clock, r.Ok?))
      else if op.Exchange? then
        match Cost(lane, op, r)
        case Some(at) => Some(Record(op.source, op.ticket, at, op.clock))
        case None => Some(Leave(op.source, op.ticket, op.clock))
      else None
  }

  function Events(run: Run, k: nat, lane: Lane): seq<Event>
    requires k <= |run.ops| && k <= |run.replies|
  {
    if k == 0 then []
    else
      match Seen(lane, run.ops[k - 1], run.replies[k - 1])
      case Some(e) => Events(run, k - 1, lane) + [e]
      case None => Events(run, k - 1, lane)
  }

  /** What an operation makes of a limiter's buckets is what the limiter sees of it. */
  predicate Tracks(b: Buckets, seen: Option<Event>, after: Buckets, max: nat) {
    match seen
    case Some(e) =>
      && after == Next(b, e, WINDOW)
      && (Asks(e) ==> (e.ok <==> Below(b, e.source, e.at - WINDOW, max)))
    case None => after == b
  }

  lemma BucketStep(d: Desk, op: Op, lane: Lane, hash: string -> string)
    ensures var (e, r) := Do(d, op, hash);
      Tracks(BucketsOf(d, lane), Seen(lane, op, r), BucketsOf(e, lane), MaxOf(lane))
  {
    if op.Create? {
      CreateStep(d, op, lane, hash);
    } else if op.Exchange? {
      ExchangeStep(d, op, lane, hash);
    }
  }

  lemma CreateStep(d: Desk, op: Op, lane: Lane, hash: string -> string)
    requires op.Create?
    ensures var (e, r) := Do(d, op, hash);
      Tracks(BucketsOf(d, lane), Seen(lane, op, r), BucketsOf(e, lane), MaxOf(lane))
  {
  }

  lemma ExchangeStep(d: Desk, op: Op, lane: Lane, hash: string -> string)
    requires op.Exchange?
    ensures var (e, r) := Do(d, op, hash);
      Tracks(BucketsOf(d, lane), Seen(lane, op, r), BucketsOf(e, lane), MaxOf(lane))
  {
  }

  /** The buckets are those of the events, every request among these is answered by them, and the
      slots the source took are the times given. */
  ghost predicate SlotsOf(b: Buckets, e: seq<Event>, taken: seq<int>, source: Source, max: nat) {
    && b == After(e, |e|, WINDOW)
    && Answered(e, WINDOW, max)
    && taken == Taken(e, |e|, source)
  }

  ghost predicate SlotsAt(run: Run, k: nat, source: Source, lane: Lane)
    requires run.Shaped() && k <= |run.ops|
  {
    SlotsOf(BucketsOf(run.books[k], lane), Events(run, k, lane), Charged(run, k, source, lane), source, MaxOf(lane))
  }

  /** After k operations the buckets of either limiter are those of the events so far, every request
      among them is answered by the buckets, and the slots a source took are those it was charged. */
  lemma {:induction false} BucketsAreSlots(run: Run, k: nat, source: Source, lane: Lane, hash: string -> string)
    requires IsRun(run, hash) && k <= |run.ops|
    ensures SlotsAt(run, k, source, lane)
  {
    if k > 0 {
      BucketsAreSlots(run, k - 1, source, lane, hash);
      SlotsStep(run, k - 1, source, lane, hash);
    }
  }

  lemma SlotsStep(run: Run, k: nat, source: Source, lane: Lane, hash: string -> string)
    requires IsRun(run, hash) && k < |run.ops| && SlotsAt(run, k, source, lane)
    ensures SlotsAt(run, k + 1, source, lane)
  {
    assert Link(run, k, hash);
    BucketStep(run.books[k], run.ops[k], lane, hash);
    var seen := Seen(lane, run.ops[k], run.replies[k]);
    if seen.Some? {
      NewSlots(BucketsOf(run.books[k], lane), Events(run, k, lane), Charged(run, k, source, lane), seen.value, source,
               MaxOf(lane));
      ChargedNext(run, k, source, lane);
    }
  }

  lemma ChargedNext(run: Run, k: nat, source: Source, lane: Lane)
    requires run.Shaped() && k < |run.ops| && Seen(lane, run.ops[k], run.replies[k]).Some?
    ensures var e := Seen(lane, run.ops[k], run.replies[k]).value;
      Charged(run, k + 1, source, lane)
      == if Slot(e) && e.source == source then Charged(run, k, source, lane) + [e.at] else Charged(run, k, source, lane)
  {
  }

  lemma NewSlots(b: Buckets, e: seq<Event>, taken: seq<int>, ev: Event, source: Source, max: nat)
    requires SlotsOf(b, e, taken, source, max)
    requires Asks(ev) ==> (ev.ok <==> Below(b, ev.source, ev.at - WINDOW, max))
    ensures SlotsOf(Next(b, ev, WINDOW), e + [ev],
                    if Slot(ev) && ev.source == source then taken + [ev.at] else taken, source, max)
  {
    PushIsAnswered(e, ev, WINDOW, max);
    PushTakes(e, ev, source);
    PushKeepsBuckets(e, ev, |e|, WINDOW);
  }

  lemma {:induction false} LaneEvents(run: Run, k: nat, lane: Lane)
    requires run.Shaped() && k <= |run.ops|
    ensures if lane.ToCreate? then Creations(Events(run, k, lane)) else Exchanges(Events(run, k, lane))
  {
    if k > 0 {
      LaneEvents(run, k - 1, lane);
    }
  }

  /** The clock never goes back, and each request takes its steps in order: a creation brings along
      the reading it made, and only an exchange that was let through reaches the lock. */
  ghost predicate Orderly(run: Run, lane: Lane)
    requires run.Shaped()
  {
    Clocked(Events(run, |run.ops|, lane)) && Proper(Events(run, |run.ops|, lane))
  }

  /** When the wrong exchanges of a source were recorded: those whose challenge, as the store has it,
      is unknown, expired, rejected or used, or whose code is not that of the challenge. */
  ghost function Guesses(run: Run, k: nat, source: Source, hash: string -> string): seq<int>
    requires run.Shaped() && k <= |run.ops|
  {
    if k == 0 then []
    else
      var before := Guesses(run, k - 1, source, hash);
      var op := run.ops[k - 1];
      if op.Exchange? && op.source == source && Wrong(run.books[k - 1], op, hash) then before + [op.record] else before
  }

  /** Exactly the wrong exchanges are charged. */
  lemma {:induction false} GuessesAreCharged(run: Run, k: nat, source: Source, hash: string -> string)
    requires IsRun(run, hash) && k <= |run.ops|
    ensures Charged(run, k, source, ToExchange) == Guesses(run, k, source, hash)
  {
    if k > 0 {
      GuessesAreCharged(run, k - 1, source, hash);
      assert Link(run, k - 1, hash);
      if run.ops[k - 1].Exchange? {
        GuessIsCharged(run.books[k - 1], run.ops[k - 1], hash);
      }
    }
  }

  lemma GuessIsCharged(d: Desk, op: Op, hash: string -> string)
    requires op.Exchange?
    ensures Cost(ToExchange, op, Do(d, op, hash).1) == if Wrong(d, op, hash) then Some(op.record) else None
  {
    ExchangeIsAnswered(d, op, hash);
  }

  /** No source but the host itself gets more wrong exchanges in any half-open minute, over the whole
      run, than ten less one plus the most of its exchanges ever in flight: ten when they do not
      overlap. The guesses at a pairing code are bounded. */
  lemma GuessesAreBounded(run: Run, source: Source, a: int, most: nat, hash: string -> string)
    requires IsRun(run, hash) && Orderly(run, ToExchange) && !source.Local()
    requires AtMost(Events(run, |run.ops|, ToExchange), source, most)
    ensures Count(Guesses(run, |run.ops|, source, hash), a, a + 60_000) <= 9 + most
  {
    GuessesAreCharged(run, |run.ops|, source, hash);
    var k := |run.ops|;
    BucketsAreSlots(run, k, source, ToExchange, hash);
    LaneEvents(run, k, ToExchange);
    var e := Events(run, k, ToExchange);
    WindowBound(e, |e|, source, WINDOW, EXCHANGE_MAX, a, most);
  }

  /** Nor does it get more creations admitted than five less one plus the most of them ever between
      their reading of the clock and their slot. */
  lemma CreationsAreBounded(run: Run, source: Source, a: int, most: nat, hash: string -> string)
    requires IsRun(run, hash) && Orderly(run, ToCreate) && !source.Local() && most > 0
    requires AtMost(Events(run, |run.ops|, ToCreate), source, most)
    ensures Count(Charged(run, |run.ops|, source, ToCreate), a, a + 60_000) <= 4 + most
  {
    var k := |run.ops|;
    BucketsAreSlots(run, k, source, ToCreate, hash);
    LaneEvents(run, k, ToCreate);
    var e := Events(run, k, ToCreate);
    CreationBound(e, |e|, source, WINDOW, CREATE_MAX, a, most);
  }

  // Decisions in two steps.

  /** The copy an approval or rejection decides after it has loaded the challenge. */
  function OnCopy(loaded: Challenge, verdict: State, device: string, now: int): Challenge {
    var decided := Decided(loaded, verdict, now);
    if device == "" then decided else decided.(device := device)
  }

  /** A pending challenge is as it was made. */
  lemma {:induction false} PendingIsUntouched(run: Run, k: nat, id: string, hash: string -> string)
    requires IsRun(run, hash) && k <= |run.ops| && id in run.books[k].challenges
    requires run.books[k].challenges[id].state == Pending
    ensures run.books[k].challenges[id].device == "" && run.books[k].challenges[id].decidedAt == None
  {
    if id !in run.books[k - 1].challenges {
      StepMakes(run, k - 1, id, hash);
    } else {
      StepMoves(run, k - 1, id, hash);
      PendingStep(run, k - 1, id, hash);
      PendingIsUntouched(run, k - 1, id, hash);
    }
  }

  lemma PendingStep(run: Run, k: nat, id: string, hash: string -> string)
    requires IsRun(run, hash) && k < |run.ops| && id in run.books[k].challenges && id in run.books[k + 1].challenges
    requires run.books[k + 1].challenges[id].state == Pending
    ensures run.books[k + 1].challenges[id] == run.books[k].challenges[id]
  {
    assert Link(run, k, hash) && Fresh(run, k);
  }

  /** Saving a copy decided on what was loaded earlier is the decision as one step exactly when the
      challenge is still pending, or already carries this very decision. */
  lemma SaveIsADecision(run: Run, i: nat, k: nat, id: string, verdict: State, device: string, now: int,
                        hash: string -> string)
    requires IsRun(run, hash) && i <= k <= |run.ops| && id in run.books[i].challenges && verdict != Pending
    requires Obstacle(run.books[i].challenges[id], Pending, now).None?
    ensures id in run.books[k].challenges
    ensures var d, copy := run.books[k], OnCopy(run.books[i].challenges[id], verdict, device, now);
      d.(challenges := d.challenges[id := copy]) == DoDecide(d, id, verdict, device, now, true).0
      <==> d.challenges[id].state == Pending || d.challenges[id] == copy
  {
    Lifecycle(run, i, k, id, hash);
    PendingIsUntouched(run, i, id, hash);
    var d, copy := run.books[k], OnCopy(run.books[i].challenges[id], verdict, device, now);
    if d.challenges[id].state == Pending {
      PendingIsUntouched(run, k, id, hash);
    } else if d.challenges[id] == copy {
      assert d.challenges[id := copy] == d.challenges;
    } else {
      assert d.challenges[id := copy][id] != d.challenges[id];
    }
  }
}
