/** Pairing a remote device: the challenge and the service. Clocks, random values, the hash and
    failing store calls are inputs. */
module Pairing {
  import opened Collections
  import opened RateLimit

  const CHALLENGE_TTL := 300_000
  const SESSION_TTL := 2_592_000_000
  const WINDOW := 60_000
  const CREATE_MAX := 5
  const EXCHANGE_MAX := 10

  datatype State = Pending | Approved | Rejected | Used | Expired

  datatype TransitionError = NotPending | ChallengeExpired

  datatype Challenge = Challenge(
    codeHash: string, state: State, device: string, createdAt: int, expiresAt: int, decidedAt: Option<int>)

  datatype Session = Session(tokenHash: string, device: string, createdAt: int, lastSeenAt: int, expiresAt: int)

  /** Why a challenge in another state than wanted, or expired, may not move on. */
  function Obstacle(c: Challenge, wanted: State, now: int): Option<TransitionError> {
    if c.expiresAt <= now then Some(ChallengeExpired)
    else if c.state != wanted then Some(NotPending)
    else None
  }

  function Decided(c: Challenge, state: State, now: int): Challenge {
    c.(state := state, decidedAt := Some(now))
  }

  class PairingChallenge {
    var codeHash: string
    var state: State
    var device: string
    var createdAt: int
    var expiresAt: int
    var decidedAt: Option<int>

    function Row(): Challenge
      reads this
    {
      Challenge(codeHash, state, device, createdAt, expiresAt, decidedAt)
    }

    constructor (hashed: string, ttl: int, now: int)
      ensures Row() == Challenge(hashed, Pending, "", now, now + ttl, None)
    {
      codeHash, state, device := hashed, Pending, "";
      createdAt, expiresAt, decidedAt := now, now + ttl, None;
    }

    constructor Load(row: Challenge)
      ensures Row() == row
    {
      codeHash, state, device := row.codeHash, row.state, row.device;
      createdAt, expiresAt, decidedAt := row.createdAt, row.expiresAt, row.decidedAt;
    }

    predicate IsExpired(now: int)
      reads this
    {
      now >= expiresAt
    }

    method CanTransition(now: int) returns (err: Option<TransitionError>)
      ensures err == Obstacle(Row(), Pending, now)
    {
      if IsExpired(now) {
        return Some(ChallengeExpired);
      }
      if state != Pending {
        return Some(NotPending);
      }
      return None;
    }

    method Approve(now: int) returns (err: Option<TransitionError>)
      modifies this
      ensures err == Obstacle(old(Row()), Pending, now)
      ensures Row() == if err.None? then Decided(old(Row()), Approved, now) else old(Row())
    {
      err := CanTransition(now);
      if err.None? {
        state, decidedAt := Approved, Some(now);
      }
    }

    method Reject(now: int) returns (err: Option<TransitionError>)
      modifies this
      ensures err == Obstacle(old(Row()), Pending, now)
      ensures Row() == if err.None? then Decided(old(Row()), Rejected, now) else old(Row())
    {
      err := CanTransition(now);
      if err.None? {
        state, decidedAt := Rejected, Some(now);
      }
    }

    method MarkUsed(now: int) returns (err: Option<TransitionError>)
      modifies this
      ensures err == Obstacle(old(Row()), Approved, now)
      ensures Row() == if err.None? then Decided(old(Row()), Used, now) else old(Row())
    {
      if IsExpired(now) {
        return Some(ChallengeExpired);
      }
      if state != Approved {
        return Some(NotPending);
      }
      state, decidedAt := Used, Some(now);
      return None;
    }
  }

  // Operations and their replies.

  datatype Code =
    | Internal | RateLimited | NotFound | CodeExpired | CodeRejected | CodeUsed | ApprovalRequired | Conflict

  /** A success carries the pairing code, the session token, or nothing. */
  datatype Reply = Ok(text: string) | Err(code: Code)

  /** One step with everything it learns from outside: clock readings, fresh random values, and
      whether each call that may fail went through. A creation reads the clock and, later, takes its
      slot; an exchange is the check of its source and, once that has let it through, the locked
      rest. Requests may overlap between their steps: the ticket tells them apart, and `clock` is
      when a limiter is used, with a reading made at that time or before. */
  datatype Op =
    | Knock(source: Source, ticket: nat, clock: int)
    | Create(id: string, source: Source, ticket: nat, check: int, clock: int, now: int, code: string,
             generated: bool, saved: bool)
    | Approve(id: string, device: string, now: int, saved: bool)
    | Reject(id: string, now: int, saved: bool)
    | Arrive(source: Source, ticket: nat, check: int, clock: int)
    | Exchange(id: string, code: string, device: string, source: Source, ticket: nat, now: int, record: int,
               clock: int, claimed: bool, token: string, generated: bool, session: string, saved: bool)

  /** The store and the two limiters. */
  datatype Desk = Desk(challenges: map<string, Challenge>, sessions: map<string, Session>, creations: Buckets,
                       failures: Buckets)

  function Empty(): Desk { Desk(map[], map[], map[], map[]) }

  function StateError(state: State, err: TransitionError): Code {
    if err.ChallengeExpired? then CodeExpired
    else
      match state
      case Approved => CodeUsed
      case Rejected => CodeRejected
      case Used => CodeUsed
      case Pending => Conflict
      case Expired => Conflict
  }

  function NewChallenge(hashed: string, now: int): Challenge {
    Challenge(hashed, Pending, "", now, now + CHALLENGE_TTL, None)
  }

  function DoCreate(d: Desk, op: Op, hash: string -> string): (Desk, Reply)
    requires op.Create?
  {
    if !Below(d.creations, op.source, op.check - WINDOW, CREATE_MAX) then
      (d.(creations := Checked(d.creations, op.source, op.check - WINDOW)), Err(RateLimited))
    else
      var e := d.(creations := Recorded(d.creations, op.source, op.check - WINDOW, op.check));
      if !op.generated || !op.saved then (e, Err(Internal))
      else
        (e.(challenges := e.challenges[op.id := NewChallenge(hash(op.code), op.now)]),
         Ok(op.code))
  }

  /** Approving and rejecting: a pending, unexpired challenge is decided, any other stays. */
  function DoDecide(d: Desk, id: string, verdict: State, device: string, now: int, saved: bool): (Desk, Reply) {
    if id !in d.challenges then (d, Err(NotFound))
    else
      var c := d.challenges[id];
      match Obstacle(c, Pending, now)
      case Some(err) => (d, Err(StateError(c.state, err)))
      case None =>
        if !saved then (d, Err(Internal))
        else
          var decided := Decided(c, verdict, now);
          (d.(challenges := d.challenges[id := if device == "" then decided else decided.(device := device)]), Ok(""))
  }

  /** Why an exchange is refused, if it is. */
  function Refusal(d: Desk, op: Op, hash: string -> string): Option<Code>
    requires op.Exchange?
  {
    if op.id !in d.challenges then Some(NotFound)
    else
      var c := d.challenges[op.id];
      if c.expiresAt <= op.now then Some(CodeExpired)
      else if c.state == Rejected then Some(CodeRejected)
      else if c.state == Used then Some(CodeUsed)
      else if hash(op.code) != c.codeHash then Some(NotFound)
      else if c.state != Approved then Some(ApprovalRequired)
      else None
  }

  function NewSession(approvedAs: string, op: Op, hash: string -> string): Session
    requires op.Exchange?
  {
    var device := if op.device != "" then op.device else if approvedAs != "" then approvedAs else "Remote device";
    Session(hash(op.token), device, op.now, op.now, op.now + SESSION_TTL)
  }

  /** The claim: the challenge is used up first, then the session is made. */
  function DoClaim(d: Desk, op: Op, hash: string -> string): (Desk, Reply)
    requires op.Exchange? && op.id in d.challenges
  {
    if !op.claimed then (d, Err(Internal))
    else
      var c := d.challenges[op.id];
      var e := d.(challenges := d.challenges[op.id := Decided(c, Used, op.now)]);
      if !op.generated || !op.saved then (e, Err(Internal))
      else (e.(sessions := e.sessions[op.session := NewSession(c.device, op, hash)]), Ok(op.token))
  }

  function DoArrive(d: Desk, source: Source, check: int): (Desk, Reply) {
    (d.(failures := Checked(d.failures, source, check - WINDOW)),
     if Below(d.failures, source, check - WINDOW, EXCHANGE_MAX) then Ok("") else Err(RateLimited))
  }

  function DoExchange(d: Desk, op: Op, hash: string -> string): (Desk, Reply)
    requires op.Exchange?
  {
    match Refusal(d, op, hash)
    case Some(ApprovalRequired) => (d, Err(ApprovalRequired))
    case Some(code) => (d.(failures := Recorded(d.failures, op.source, op.record - WINDOW, op.record)), Err(code))
    case None => DoClaim(d, op, hash)
  }

  function Do(d: Desk, op: Op, hash: string -> string): (Desk, Reply) {
    match op
    case Knock(_, _, _) => (d, Ok(""))
    case Create(_, _, _, _, _, _, _, _, _) => DoCreate(d, op, hash)
    case Approve(id, device, now, saved) => DoDecide(d, id, Approved, device, now, saved)
    case Reject(id, now, saved) => DoDecide(d, id, Rejected, "", now, saved)
    case Arrive(source, _, check, _) => DoArrive(d, source, check)
    case Exchange(_, _, _, _, _, _, _, _, _, _, _, _, _) => DoExchange(d, op, hash)
  }

  class PairingService {
    var challenges: map<string, Challenge>
    var sessions: map<string, Session>
    const rate: Limiter
    const exchange: Limiter

    ghost predicate Valid() { rate != exchange }

    function Books(): Desk
      reads this, rate, exchange
    {
      Desk(challenges, sessions, rate.buckets, exchange.buckets)
    }

    constructor ()
      ensures Valid() && fresh(rate) && fresh(exchange)
      ensures Books() == Empty()
    {
      challenges, sessions := map[], map[];
      rate := new Limiter();
      exchange := new Limiter();
    }

    method CreateChallenge(op: Op, hash: string -> string) returns (r: Reply)
      requires Valid() && op.Create?
      modifies this, rate
      ensures (Books(), r) == Do(old(Books()), op, hash)
    {
      var ok := rate.CheckBucket(op.source, WINDOW, CREATE_MAX, op.check);
      if !ok {
        return Err(RateLimited);
      }
      if !op.generated {
        return Err(Internal);
      }
      var ch := new PairingChallenge(hash(op.code), CHALLENGE_TTL, op.now);
      if !op.saved {
        return Err(Internal);
      }
      challenges := challenges[op.id := ch.Row()];
      return Ok(op.code);
    }

    method ApproveChallenge(id: string, device: string, now: int, saved: bool, hash: string -> string)
      returns (r: Reply)
      requires Valid()
      modifies this
      ensures (Books(), r) == Do(old(Books()), Op.Approve(id, device, now, saved), hash)
    {
      if id !in challenges {
        return Err(NotFound);
      }
      var ch := new PairingChallenge.Load(challenges[id]);
      var err := ch.Approve(now);
      if err.Some? {
        return Err(StateError(ch.state, err.value));
      }
      if device != "" {
        ch.device := device;
      }
      if !saved {
        return Err(Internal);
      }
      challenges := challenges[id := ch.Row()];
      return Ok("");
    }

    method RejectChallenge(id: string, now: int, saved: bool, hash: string -> string) returns (r: Reply)
      requires Valid()
      modifies this
      ensures (Books(), r) == Do(old(Books()), Op.Reject(id, now, saved), hash)
    {
      if id !in challenges {
        return Err(NotFound);
      }
      var ch := new PairingChallenge.Load(challenges[id]);
      var err := ch.Reject(now);
      if err.Some? {
        return Err(StateError(ch.state, err.value));
      }
      if !saved {
        return Err(Internal);
      }
      challenges := challenges[id := ch.Row()];
      return Ok("");
    }

    /** The check before the lock. */
    method AdmitExchange(op: Op, hash: string -> string) returns (r: Reply)
      requires Valid() && op.Arrive?
      modifies exchange
      ensures (Books(), r) == Do(old(Books()), op, hash)
    {
      var ok := exchange.CheckExchange(op.source, WINDOW, EXCHANGE_MAX, op.check);
      return if ok then Ok("") else Err(RateLimited);
    }

    /** The tests on the challenge and the code, in order. */
    method Refuse(op: Op, hash: string -> string) returns (refusal: Option<Code>)
      requires op.Exchange?
      ensures refusal == Refusal(Books(), op, hash)
    {
      if op.id !in challenges {
        return Some(NotFound);
      }
      var ch := new PairingChallenge.Load(challenges[op.id]);
      if ch.IsExpired(op.now) {
        return Some(CodeExpired);
      }
      if ch.state == Rejected {
        return Some(CodeRejected);
      }
      if ch.state == Used {
        return Some(CodeUsed);
      }
      if hash(op.code) != ch.codeHash {
        return Some(NotFound);
      }
      if ch.state != Approved {
        return Some(ApprovalRequired);
      }
      return None;
    }

    /** The part of an exchange that is serialised. */
    method ExchangeAdmitted(op: Op, hash: string -> string) returns (r: Reply)
      requires Valid() && op.Exchange?
      modifies this, exchange
      ensures (Books(), r) == Do(old(Books()), op, hash)
    {
      var refusal := Refuse(op, hash);
      if refusal.Some? {
        if refusal.value != ApprovalRequired {
          exchange.RecordFailure(op.source, WINDOW, op.record);
        }
        return Err(refusal.value);
      }
      var ch := new PairingChallenge.Load(challenges[op.id]);
      r := Claim(op, ch, hash);
    }

    /** An exchange that nothing comes between. */
    method ExchangeChallenge(arrive: Op, op: Op, hash: string -> string) returns (r: Reply)
      requires Valid() && arrive.Arrive? && op.Exchange? && arrive.source == op.source
      modifies this, exchange
      ensures var (d, admitted) := Do(old(Books()), arrive, hash);
        (Books(), r) == if admitted.Ok? then Do(d, op, hash) else (d, admitted)
    {
      r := AdmitExchange(arrive, hash);
      if r.Ok? {
        r := ExchangeAdmitted(op, hash);
      }
    }

    method Claim(op: Op, ch: PairingChallenge, hash: string -> string) returns (r: Reply)
      requires Valid() && op.Exchange? && op.id in challenges && ch.Row() == challenges[op.id]
      requires Obstacle(ch.Row(), Approved, op.now).None?
      modifies this, ch
      ensures (Books(), r) == DoClaim(old(Books()), op, hash)
    {
      var err := ch.MarkUsed(op.now);
      assert err.None?;
      if !op.claimed {
        return Err(Internal);
      }
      challenges := challenges[op.id := ch.Row()];
      r := IssueSession(op, ch.device, hash);
    }

    /** The session for a claimed challenge. */
    method IssueSession(op: Op, approvedAs: string, hash: string -> string) returns (r: Reply)
      requires op.Exchange?
      modifies this`sessions
      ensures r == if op.generated && op.saved then Ok(op.token) else Err(Internal)
      ensures sessions == if r.Ok? then old(sessions)[op.session := NewSession(approvedAs, op, hash)] else old(sessions)
    {
      if !op.generated {
        return Err(Internal);
      }
      var device := op.device;
      if device == "" {
        device := approvedAs;
      }
      if device == "" {
        device := "Remote device";
      }
      if !op.saved {
        return Err(Internal);
      }
      sessions := sessions[op.session := Session(hash(op.token), device, op.now, op.now, op.now + SESSION_TTL)];
      return Ok(op.token);
    }
  }

  // When each operation goes through.

  /** Exactly when an exchange that was let through issues a session, and exactly when it uses up its
      challenge: the two differ when the token cannot be made or the session cannot be saved. */
  lemma ExchangeOutcome(d: Desk, op: Op, hash: string -> string)
    requires op.Exchange?
    ensures var (e, r) := Do(d, op, hash);
      var open := op.id in d.challenges
        && d.challenges[op.id].state == Approved && op.now < d.challenges[op.id].expiresAt
        && hash(op.code) == d.challenges[op.id].codeHash;
      && (r.Ok? <==> open && op.claimed && op.generated && op.saved)
      && (e.challenges != d.challenges <==> open && op.claimed)
      && (open && op.claimed ==>
            var used := d.challenges[op.id].(state := Used, decidedAt := Some(op.now));
            e.challenges == d.challenges[op.id := used])
  {
    var c := Do(d, op, hash).0.challenges;
    if Refusal(d, op, hash).None? && op.claimed {
      assert c[op.id].state == Used;
    }
  }

  // What a request is answered and what it costs, by the challenge it names.

  /** The challenge is unknown, expired, rejected or used, or the code is not its own. */
  predicate Wrong(d: Desk, op: Op, hash: string -> string)
    requires op.Exchange?
  {
    op.id in d.challenges ==>
      var c := d.challenges[op.id];
      c.expiresAt <= op.now || c.state == Rejected || c.state == Used || hash(op.code) != c.codeHash
  }

  /** A wrong exchange costs its source a slot, the host itself apart, and no other exchange costs any. */
  lemma WrongExchangesCost(d: Desk, op: Op, hash: string -> string)
    requires op.Exchange?
    ensures var before, after := d.failures, Do(d, op, hash).0.failures;
      && (Wrong(d, op, hash) && !op.source.Local() ==>
            TimesIn(after, op.source) == Later(TimesIn(before, op.source), op.record - 60_000) + [op.record])
      && (!Wrong(d, op, hash) || op.source.Local() ==> after == before)
      && (forall s :: s != op.source ==> TimesIn(after, s) == TimesIn(before, s))
  {
  }

  /** How an exchange is answered: an unknown challenge is not found; an expired one has expired,
      whatever its state; a rejected and a used one say so; a wrong code is not found; a right one
      waits for the approval; and what is wrong with an exchange changes no challenge. */
  lemma ExchangeIsAnswered(d: Desk, op: Op, hash: string -> string)
    requires op.Exchange?
    ensures var (e, r) := Do(d, op, hash);
      && (op.id !in d.challenges ==> r == Err(NotFound))
      && (op.id in d.challenges ==>
            var c := d.challenges[op.id];
            if c.expiresAt <= op.now then r == Err(CodeExpired)
            else if c.state == Rejected then r == Err(CodeRejected)
            else if c.state == Used then r == Err(CodeUsed)
            else if hash(op.code) != c.codeHash then r == Err(NotFound)
            else if c.state != Approved then r == Err(ApprovalRequired)
            else r == Ok(op.token) || r == Err(Internal))
      && (Wrong(d, op, hash) ==> e.challenges == d.challenges && e.sessions == d.sessions)
  {
  }

  /** The session an exchange issues is for the device it names, else the one it was approved as. */
  lemma SessionIsFor(d: Desk, op: Op, hash: string -> string)
    requires op.Exchange? && Do(d, op, hash).1.Ok?
    ensures op.id in d.challenges && op.session in Do(d, op, hash).0.sessions
    ensures var s, approvedAs := Do(d, op, hash).0.sessions[op.session], d.challenges[op.id].device;
      && s.tokenHash == hash(op.token) && s.createdAt == s.lastSeenAt == op.now
      && s.expiresAt == op.now + 2_592_000_000
      && s.device == (if op.device != "" then op.device else if approvedAs != "" then approvedAs else "Remote device")
    ensures Do(d, op, hash).1 == Ok(op.token)
  {
  }

  /** A creation is refused exactly when five slots are taken; it stores a pending challenge for five
      minutes and hands its code out exactly when it is admitted, generated and saved. */
  lemma CreationOutcome(d: Desk, op: Op, hash: string -> string)
    requires op.Create?
    ensures var (e, r) := Do(d, op, hash);
      var below := op.source.Local() || |Later(TimesIn(d.creations, op.source), op.check - 60_000)| < 5;
      && (r == Err(RateLimited) <==> !below)
      && (r.Ok? <==> below && op.generated && op.saved)
      && (r.Ok? ==>
            var made := Challenge(hash(op.code), Pending, "", op.now, op.now + 300_000, None);
            r == Ok(op.code) && e.challenges == d.challenges[op.id := made])
      && (!r.Ok? ==> e.challenges == d.challenges)
      && e.sessions == d.sessions && e.failures == d.failures
      && (!op.source.Local() ==>
            var left := Later(TimesIn(d.creations, op.source), op.check - 60_000);
            TimesIn(e.creations, op.source) == left + (if below then [op.check] else []))
  {
    NothingAdded(Later(TimesIn(d.creations, op.source), op.check - 60_000));
  }

  /** Exactly when a decision is taken. */
  lemma DecisionOutcome(d: Desk, op: Op, hash: string -> string)
    requires op.Approve? || op.Reject?
    ensures var (e, r) := Do(d, op, hash);
      && (r.Ok? <==>
            op.id in d.challenges && d.challenges[op.id].state == Pending
            && op.now < d.challenges[op.id].expiresAt && op.saved)
      && (!r.Ok? ==> e == d)
      && (r.Ok? ==> (
            && e.challenges.Keys == d.challenges.Keys
            && e.challenges[op.id].state == (if op.Approve? then Approved else Rejected)
            && e.challenges[op.id].decidedAt == Some(op.now)
            && e.challenges[op.id].device
               == (if op.Approve? && op.device != "" then op.device else d.challenges[op.id].device)
            && forall id :: id in d.challenges && id != op.id ==> e.challenges[id] == d.challenges[id]))
  {
  }

  /** How a decision that is not taken is answered: an expired challenge has expired, whatever its
      state, and one that is settled says how. */
  lemma DecisionIsAnswered(d: Desk, op: Op, hash: string -> string)
    requires (op.Approve? || op.Reject?) && Do(d, op, hash).1.Err?
    ensures var code := Do(d, op, hash).1.code;
      if op.id !in d.challenges then code == NotFound
      else if d.challenges[op.id].expiresAt <= op.now then code == CodeExpired
      else
        match d.challenges[op.id].state
        case Approved => code == CodeUsed
        case Used => code == CodeUsed
        case Rejected => code == CodeRejected
        case Expired => code == Conflict
        case Pending => code == Internal && !op.saved
  {
  }
}
